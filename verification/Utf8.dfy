/**
 UTF-8 as section 4 of RFC 3629 defines it, and the two ways the pipeline repairs
 malformed text: byte by byte on the server (`Sanitize`), and with a streaming decoder
 on the client (`Decode`). A text is represented by the bytes that encode it.
 */
module Utf8 {
  import opened SeqLaws

  type byte = b: int | 0 <= b < 256

  const LF: byte := 10
  const CR: byte := 13
  const REPLACEMENT: seq<byte> := [0xEF, 0xBF, 0xBD]

  predicate IsTail(b: byte) {
    0x80 <= b <= 0xBF
  }

  /** True for every byte that is not a continuation byte. */
  predicate RuneStart(b: byte) {
    !IsTail(b)
  }

  /** A UTF8-char, production by production. */
  predicate Utf8Char(s: seq<byte>) {
    || (|s| == 1 && s[0] <= 0x7F)
    || (|s| == 2 && 0xC2 <= s[0] <= 0xDF && IsTail(s[1]))
    || (|s| == 3 && IsTail(s[2]) && (
          || (s[0] == 0xE0 && 0xA0 <= s[1] <= 0xBF)
          || (0xE1 <= s[0] <= 0xEC && IsTail(s[1]))
          || (s[0] == 0xED && 0x80 <= s[1] <= 0x9F)
          || (0xEE <= s[0] <= 0xEF && IsTail(s[1]))))
    || (|s| == 4 && IsTail(s[2]) && IsTail(s[3]) && (
          || (s[0] == 0xF0 && 0x90 <= s[1] <= 0xBF)
          || (0xF1 <= s[0] <= 0xF3 && IsTail(s[1]))
          || (s[0] == 0xF4 && 0x80 <= s[1] <= 0x8F)))
  }

  /** How long a sequence that starts with b is; 0 when no sequence does. */
  function Need(b: byte): nat {
    if b <= 0x7F then 1
    else if 0xC2 <= b <= 0xDF then 2
    else if 0xE0 <= b <= 0xEF then 3
    else if 0xF0 <= b <= 0xF4 then 4
    else 0
  }

  predicate SecondFits(lead: byte, second: byte) {
    if lead == 0xE0 then 0xA0 <= second <= 0xBF
    else if lead == 0xED then 0x80 <= second <= 0x9F
    else if lead == 0xF0 then 0x90 <= second <= 0xBF
    else if lead == 0xF4 then 0x80 <= second <= 0x8F
    else IsTail(second)
  }

  /** s can still be extended to, or already is, one well-formed sequence. */
  predicate Begins(s: seq<byte>) {
    && 0 < |s| <= Need(s[0])
    && (|s| > 1 ==> SecondFits(s[0], s[1]))
    && (|s| > 2 ==> IsTail(s[2]))
    && (|s| > 3 ==> IsTail(s[3]))
  }

  /** One complete well-formed sequence. */
  predicate IsRune(s: seq<byte>) {
    Begins(s) && |s| == Need(s[0])
  }

  /** The negation of utf8.FullRune on a non-empty slice. */
  predicate Incomplete(s: seq<byte>) {
    Begins(s) && |s| < Need(s[0])
  }

  lemma RuneIffUtf8Char(s: seq<byte>)
    ensures IsRune(s) <==> Utf8Char(s)
  {}

  /** A sequence is incomplete exactly when it is a proper prefix of a well-formed one. */
  lemma IncompleteIffProperPrefix(s: seq<byte>)
    ensures Incomplete(s) <==> s != [] && exists t: seq<byte> :: t != [] && Utf8Char(s + t)
  {
    if Incomplete(s) {
      var t := Completion(s);
      RuneIffUtf8Char(s + t);
    }
    if s != [] && exists t: seq<byte> :: t != [] && Utf8Char(s + t) {
      var t: seq<byte> :| t != [] && Utf8Char(s + t);
      RuneIffUtf8Char(s + t);
      RuneInside(s + t, |s|);
      assert (s + t)[..|s|] == s;
    }
  }

  function Completion(s: seq<byte>): (t: seq<byte>)
    requires Incomplete(s)
    ensures t != [] && IsRune(s + t)
  {
    var second: byte := if s[0] == 0xE0 then 0xA0 else if s[0] == 0xF0 then 0x90 else 0x80;
    if |s| == 1 then ([second, 0x80, 0x80])[..Need(s[0]) - 1] else ([0x80, 0x80])[..Need(s[0]) - |s|]
  }

  /** The length of the rune utf8.DecodeRune finds at the front of s; 0 for an invalid encoding. */
  function RuneSize(s: seq<byte>): (n: nat)
    ensures n <= |s|
  {
    if s != [] && 0 < Need(s[0]) <= |s| && IsRune(s[..Need(s[0])]) then Need(s[0]) else 0
  }

  lemma RuneSizeIsRune(s: seq<byte>)
    requires RuneSize(s) > 0
    ensures IsRune(s[..RuneSize(s)])
  {}

  /** RuneSize finds the rune whenever there is one. */
  lemma RuneSizeFinds(s: seq<byte>, n: nat)
    requires n <= |s| && IsRune(s[..n])
    ensures RuneSize(s) == n
  {
    assert s[..n][0] == s[0];
  }

  /** utf8.Valid */
  predicate ValidText(s: seq<byte>) {
    s == [] || (RuneSize(s) > 0 && ValidText(s[RuneSize(s)..]))
  }

  /** How many bytes one step of the repair consumes. */
  function Step(s: seq<byte>): (n: nat)
    requires s != []
    ensures 1 <= n <= |s|
  {
    if RuneSize(s) > 0 then RuneSize(s) else 1
  }

  /** What one step of the repair emits. */
  function Repaired(s: seq<byte>): seq<byte>
    requires s != []
  {
    if RuneSize(s) > 0 then s[..RuneSize(s)] else REPLACEMENT
  }

  /** Every byte that starts no well-formed sequence becomes one U+FFFD. */
  function Sanitize(s: seq<byte>): seq<byte> {
    if s == [] then [] else Repaired(s) + Sanitize(s[Step(s)..])
  }

  // ----- Where a text may be cut ---------------------------------------------

  /** What follows a is known not to be part of a sequence that a leaves open. */
  predicate Closed(a: seq<byte>, b: seq<byte>) {
    b == [] || RuneStart(b[0]) || TailLen(a) == 0
  }

  /** The last k bytes of s are an incomplete sequence. */
  predicate EndsOpen(s: seq<byte>, k: nat) {
    1 <= k <= |s| && Incomplete(s[|s| - k..])
  }

  /** The length of the incomplete sequence at the end of s; 0 when there is none. */
  function TailLen(s: seq<byte>): (n: nat)
    ensures n <= |s| && n <= 3
    ensures n > 0 ==> EndsOpen(s, n)
  {
    if EndsOpen(s, 1) then 1
    else if EndsOpen(s, 2) then 2
    else if EndsOpen(s, 3) then 3
    else 0
  }

  /** At most one k ends s in an incomplete sequence, and TailLen finds it. */
  lemma TailLenUnique(s: seq<byte>, k: nat)
    requires EndsOpen(s, k)
    ensures TailLen(s) == k
  {
    var n := TailLen(s);
    if n < k {
      OpenHasOneStart(s, k, n);
    }
  }

  lemma OpenHasOneStart(s: seq<byte>, k: nat, n: nat)
    requires EndsOpen(s, k) && 1 <= n < k
    ensures !EndsOpen(s, n)
  {
    assert s[|s| - n..][0] == s[|s| - k..][k - n];
  }

  lemma RuneInside(r: seq<byte>, i: nat)
    requires IsRune(r) && 0 < i < |r|
    ensures IsTail(r[i]) && Incomplete(r[..i])
  {}

  lemma RuneReachesOver(a: seq<byte>, b: seq<byte>)
    requires a != [] && RuneSize(a + b) > |a|
    ensures !Closed(a, b)
  {
    var n := RuneSize(a + b);
    RuneSizeIsRune(a + b);
    hide RuneSize, IsRune;
    ConcatSplitsBehind(a, b, n - |a|);
    OpenRuneNotClosed(a, b, b[..n - |a|]);
  }

  lemma OpenRuneNotClosed(a: seq<byte>, b: seq<byte>, more: seq<byte>)
    requires a != [] && more != [] && IsRune(a + more) && b != [] && b[0] == more[0]
    ensures !Closed(a, b)
  {
    RuneInside(a + more, |a|);
    hide IsRune;
    ConcatSplitsIn(a, more, |a|);
    Whole(a);
    TailLenUnique(a, |a|);
  }

  /** A rune of a + b that starts in a does not reach into b. */
  lemma RuneStaysInside(a: seq<byte>, b: seq<byte>)
    requires a != [] && Closed(a, b)
    ensures RuneSize(a + b) == RuneSize(a)
  {
    var n := RuneSize(a + b);
    if n > |a| {
      RuneReachesOver(a, b);
    } else if n > 0 {
      assert (a + b)[..n] == a[..n];
      RuneSizeFinds(a, n);
    } else if RuneSize(a) > 0 {
      RuneSizeExtends(a, b);
    }
  }

  lemma RuneSizeExtends(a: seq<byte>, b: seq<byte>)
    requires RuneSize(a) > 0
    ensures RuneSize(a + b) == RuneSize(a)
  {
    assert (a + b)[..RuneSize(a)] == a[..RuneSize(a)];
    RuneSizeFinds(a + b, RuneSize(a));
  }

  lemma ClosedSuffix(a: seq<byte>, b: seq<byte>, k: nat)
    requires k <= |a| && Closed(a, b)
    ensures Closed(a[k..], b)
  {
    var n := TailLen(a[k..]);
    if n > 0 {
      assert a == a[..k] + a[k..];
      EndsOpenConcat(a[..k], a[k..], n);
      TailLenUnique(a, n);
    }
  }

  lemma StepOfConcat(a: seq<byte>, b: seq<byte>)
    requires a != [] && Closed(a, b)
    ensures Step(a + b) == Step(a) && Repaired(a + b) == Repaired(a)
  {
    RuneStaysInside(a, b);
    ConcatSplitsIn(a, b, Step(a));
  }

  lemma {:induction false} SanitizeConcat(a: seq<byte>, b: seq<byte>)
    requires Closed(a, b)
    ensures Sanitize(a + b) == Sanitize(a) + Sanitize(b)
    decreases |a|
  {
    hide Closed, TailLen, RuneSize, Step, Repaired;
    if a == [] {
      assert a + b == b;
    } else {
      var k := Step(a);
      StepOfConcat(a, b);
      ConcatSplitsIn(a, b, k);
      ClosedSuffix(a, b, k);
      SanitizeConcat(a[k..], b);
      Associate(Repaired(a), Sanitize(a[k..]), Sanitize(b));
    }
  }

  /** Bytes behind a closed cut decide the incomplete tail alone. */
  lemma TailLenConcat(a: seq<byte>, b: seq<byte>)
    requires b != [] && Closed(a, b)
    ensures TailLen(a + b) == TailLen(b)
  {
    var n := TailLen(a + b);
    if TailLen(b) > 0 {
      EndsOpenConcat(a, b, TailLen(b));
      TailLenUnique(a + b, TailLen(b));
    } else if 0 < n <= |b| {
      EndsOpenConcat(a, b, n);
      TailLenUnique(b, n);
    } else if |b| < n {
      OpenReachesBack(a, b, n);
      TailLenUnique(a, n - |b|);
    }
  }

  lemma EndsOpenConcat(a: seq<byte>, b: seq<byte>, k: nat)
    requires k <= |b|
    ensures EndsOpen(a + b, k) <==> EndsOpen(b, k)
  {
    assert k <= |b| ==> (a + b)[|a + b| - k..] == b[|b| - k..];
  }

  lemma OpenReachesBack(a: seq<byte>, b: seq<byte>, k: nat)
    requires 0 < |b| < k && EndsOpen(a + b, k)
    ensures IsTail(b[0]) && EndsOpen(a, k - |b|)
  {
    var open := (a + b)[|a + b| - k..];
    assert open[k - |b|] == b[0];
    assert open[..k - |b|] == a[|a| - (k - |b|)..];
  }

  // ----- Sanitised text -------------------------------------------------------

  lemma {:induction false} SanitizeIsValid(s: seq<byte>)
    ensures ValidText(Sanitize(s))
    decreases |s|
  {
    if s != [] {
      SanitizeIsValid(s[Step(s)..]);
      ValidPrepend(Repaired(s), Sanitize(s[Step(s)..]));
    }
  }

  lemma ValidPrepend(r: seq<byte>, s: seq<byte>)
    requires IsRune(r) && ValidText(s)
    ensures ValidText(r + s)
  {
    assert (r + s)[..|r|] == r && (r + s)[|r|..] == s;
    RuneSizeFinds(r + s, |r|);
  }

  lemma {:induction false} ValidConcat(a: seq<byte>, b: seq<byte>)
    requires ValidText(a) && ValidText(b)
    ensures ValidText(a + b)
    decreases |a|
  {
    if a == [] {
      Whole(b);
    } else {
      var k := RuneSize(a);
      RuneSizeIsRune(a);
      ValidConcat(a[k..], b);
      hide RuneSize, IsRune, ValidText;
      ValidPrepend(a[..k], a[k..] + b);
      SplitAt(a, k);
      Associate(a[..k], a[k..], b);
    }
  }

  /** A valid text may be cut in front of every byte that starts a rune. */
  lemma {:induction false} ValidSplit(s: seq<byte>, i: nat)
    requires ValidText(s) && i <= |s| && (i < |s| ==> RuneStart(s[i]))
    ensures ValidText(s[..i]) && ValidText(s[i..])
    decreases |s|
  {
    if i == 0 {
      Whole(s);
    } else {
      var k := RuneSize(s);
      RuneSizeIsRune(s);
      if i < k {
        RuneInside(s[..k], i);
      }
      hide RuneSize, IsRune;
      ValidSplit(s[k..], i - k);
      hide ValidText;
      DropDrop(s, k, i - k);
      ValidPrepend(s[..k], s[k..i]);
      TakeTake(s, k, i);
    }
  }

  /** Sanitising keeps a text that needs no repair (the utf8.Valid short cut). */
  lemma {:induction false} SanitizeKeepsValid(s: seq<byte>)
    requires ValidText(s)
    ensures Sanitize(s) == s
    decreases |s|
  {
    if s != [] {
      SanitizeKeepsValid(s[RuneSize(s)..]);
    }
  }

  lemma {:induction false} AsciiIsValid(s: seq<byte>)
    requires forall i :: 0 <= i < |s| ==> s[i] < 0x80
    ensures ValidText(s)
    decreases |s|
  {
    if s != [] {
      AsciiIsValid(s[1..]);
      ValidPrepend([s[0]], s[1..]);
      assert s == [s[0]] + s[1..];
    }
  }

  /** Sanitising neither adds, drops nor moves an ASCII byte at either end. */
  lemma {:induction false} SanitizeEnds(s: seq<byte>, c: byte)
    requires s != [] && c < 0x80
    ensures Sanitize(s) != []
    ensures Sanitize(s)[0] == c <==> s[0] == c
    ensures Sanitize(s)[|Sanitize(s)| - 1] == c <==> s[|s| - 1] == c
    decreases |s|
  {
    RepairedEnds(s, c);
    hide RuneSize, Step, Repaired, Sanitize;
    SanitizeUnfolds(s);
    ConcatEnds(Repaired(s), Sanitize(s[Step(s)..]));
    if Step(s) < |s| {
      SanitizeEnds(s[Step(s)..], c);
    }
  }

  lemma SanitizeUnfolds(s: seq<byte>)
    requires s != []
    ensures Sanitize(s) == Repaired(s) + Sanitize(s[Step(s)..])
    ensures Step(s) == |s| ==> Sanitize(s[Step(s)..]) == []
  {}

  lemma RepairedEnds(s: seq<byte>, c: byte)
    requires s != [] && c < 0x80
    ensures var r := Repaired(s); r != [] && (r[0] == c <==> s[0] == c) && (r[|r| - 1] == c <==> s[Step(s) - 1] == c)
  {
    if RuneSize(s) > 1 {
      RuneSizeIsRune(s);
      RuneInside(s[..RuneSize(s)], RuneSize(s) - 1);
    }
  }

  // ----- The streaming decoder of the client ------------------------------------

  datatype Decoded = Decoded(text: seq<byte>, held: seq<byte>)

  /** One byte into the UTF-8 decoder of the WHATWG Encoding Standard that holds the bytes `held`. */
  function DecodeByte(held: seq<byte>, b: byte): Decoded
    decreases |held|
  {
    if IsRune(held + [b]) then Decoded(held + [b], [])
    else if Begins(held + [b]) then Decoded([], held + [b])
    else if held == [] then Decoded(REPLACEMENT, [])
    else
      var again := DecodeByte([], b);
      Decoded(REPLACEMENT + again.text, again.held)
  }

  /** TextDecoder.decode(chunk, {stream: true}) */
  function Decode(held: seq<byte>, s: seq<byte>): Decoded
    decreases |s|
  {
    if s == [] then Decoded([], held)
    else
      var first := DecodeByte(held, s[0]);
      var rest := Decode(first.held, s[1..]);
      Decoded(first.text + rest.text, rest.held)
  }

  lemma {:induction false} DecodeConcat(held: seq<byte>, a: seq<byte>, b: seq<byte>)
    ensures var first := Decode(held, a); var second := Decode(first.held, b);
            Decode(held, a + b) == Decoded(first.text + second.text, second.held)
    decreases |a|
  {
    hide DecodeByte;
    if a == [] {
      Whole(b);
      Whole(Decode(held, b).text);
    } else {
      var first := DecodeByte(held, a[0]);
      DecodeConcat(first.held, a[1..], b);
      ConcatSplitsIn(a, b, 1);
      Associate(first.text, Decode(first.held, a[1..]).text, Decode(Decode(first.held, a[1..]).held, b).text);
    }
  }

  /** The bytes of one rune come out together, and nothing comes out before. */
  lemma {:induction false} DecodeOpenRune(r: seq<byte>, i: nat, j: nat)
    requires IsRune(r) && i <= j <= |r| && i < |r|
    ensures Decode(r[..i], r[i..j]) == if j == |r| then Decoded(r, []) else Decoded([], r[..j])
    decreases j - i
  {
    if i == j {
      assert r[i..j] == [];
    } else {
      var next := r[..i] + [r[i]];
      assert next == r[..i + 1];
      assert next[0] == r[0];
      assert r[i..j][1..] == r[i + 1..j];
      if i + 1 == |r| {
        assert next == r;
        assert r[i + 1..j] == [];
      } else {
        assert Begins(next) && !IsRune(next);
        DecodeOpenRune(r, i + 1, j);
      }
    }
  }

  /** Decoding s alters no byte; only an incomplete sequence at the end may still be held. */
  predicate DecodesFaithfully(s: seq<byte>) {
    Decode([], s).text + Decode([], s).held == s
  }

  /** Decoding s alters no byte and leaves nothing held. */
  predicate DecodesFully(s: seq<byte>) {
    Decode([], s) == Decoded(s, [])
  }

  lemma DecodeOpen(r: seq<byte>, j: nat)
    requires IsRune(r) && j <= |r|
    ensures DecodesFaithfully(r[..j])
    ensures DecodesFully(r)
  {
    assert r[..0] == [] && r[0..j] == r[..j] && r[0..|r|] == r;
    DecodeOpenRune(r, 0, j);
    DecodeOpenRune(r, 0, |r|);
  }

  lemma DecodeBehind(r: seq<byte>, s: seq<byte>)
    requires DecodesFully(r) && DecodesFaithfully(s)
    ensures DecodesFaithfully(r + s)
    ensures DecodesFully(s) ==> DecodesFully(r + s)
  {
    DecodeConcat([], r, s);
    hide Decode;
    Associate(r, Decode([], s).text, Decode([], s).held);
  }

  lemma {:induction false} DecodeValidText(s: seq<byte>)
    requires ValidText(s)
    ensures DecodesFully(s)
    decreases |s|
  {
    if s != [] {
      var k := RuneSize(s);
      RuneSizeIsRune(s);
      DecodeValidText(s[k..]);
      DecodeOpen(s[..k], k);
      hide RuneSize, IsRune, DecodesFaithfully, DecodesFully, ValidText;
      SplitAt(s, k);
      DecodesFullyFaithfully(s[k..]);
      DecodeBehind(s[..k], s[k..]);
    }
  }

  lemma DecodesFullyFaithfully(s: seq<byte>)
    requires DecodesFully(s)
    ensures DecodesFaithfully(s)
  {
    hide Decode;
    Whole(s);
  }

  /** The decoder alters no front part of a valid text. */
  lemma {:induction false} DecodeValidFront(s: seq<byte>, j: nat)
    requires ValidText(s) && j <= |s|
    ensures DecodesFaithfully(s[..j])
    decreases |s|
  {
    if s == [] {
      Whole(s);
    } else {
      var k := RuneSize(s);
      RuneSizeIsRune(s);
      if j < k {
        DecodeOpen(s[..k], j);
        hide *;
        TakeTake(s, j, k);
      } else {
        DecodeValidFront(s[k..], j - k);
        DecodeOpen(s[..k], k);
        hide *;
        DecodeBehind(s[..k], s[k..][..j - k]);
        DropDrop(s, k, j - k);
        TakeTake(s, k, j);
      }
    }
  }
}
