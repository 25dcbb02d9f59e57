/**
 Line endings, the text a finished output stands for (`Canon`), and the places where a
 stream of raw bytes may be cut without changing that text.
 */
module LineText {
  import opened SeqLaws
  import opened Utf8

  predicate IsBreak(b: byte) {
    b == LF || b == CR
  }

  predicate EndsInCR(s: seq<byte>) {
    s != [] && s[|s| - 1] == CR
  }

  /** CRLF, CR and LF all become LF. */
  function Normalise(s: seq<byte>): seq<byte> {
    if s == [] then []
    else if s[0] != CR then [s[0]] + Normalise(s[1..])
    else if |s| > 1 && s[1] == LF then [LF] + Normalise(s[2..])
    else [LF] + Normalise(s[1..])
  }

  lemma {:induction false} NormaliseConcat(a: seq<byte>, b: seq<byte>)
    requires !(EndsInCR(a) && b != [] && b[0] == LF)
    ensures Normalise(a + b) == Normalise(a) + Normalise(b)
    decreases |a|
  {
    if a == [] {
      Whole(b);
    } else {
      var k := if a[0] == CR && |a| > 1 && a[1] == LF then 2 else 1;
      ConcatSplitsIn(a, b, k);
      NormaliseConcat(a[k..], b);
      NormaliseFirst(a, k);
      NormaliseFirst(a + b, k);
      hide *;
      Associate(Normalise(a[..k]), Normalise(a[k..]), Normalise(b));
    }
  }

  /** The first line ending, or the first other byte, is normalised by itself. */
  lemma NormaliseFirst(s: seq<byte>, k: nat)
    requires s != [] && k == if s[0] == CR && |s| > 1 && s[1] == LF then 2 else 1
    ensures Normalise(s) == Normalise(s[..k]) + Normalise(s[k..])
    ensures Normalise(s[..k]) == [if s[0] == CR then LF else s[0]]
  {
    NormaliseOne(s[..k]);
    assert Normalise(s) == [if s[0] == CR then LF else s[0]] + Normalise(s[k..]);
  }

  lemma NormaliseOne(s: seq<byte>)
    requires |s| == 1 || (|s| == 2 && s[0] == CR && s[1] == LF)
    ensures Normalise(s) == [if s[0] == CR then LF else s[0]]
  {}

  lemma NormaliseKeepsText(s: seq<byte>)
    ensures s != [] ==> Normalise(s) != []
  {}

  // ----- Splitting into lines ---------------------------------------------------

  /** Where the first line ending of s starts; |s| when there is none. */
  function BreakAt(s: seq<byte>): (i: nat)
    ensures i <= |s|
    ensures forall j :: 0 <= j < i ==> !IsBreak(s[j])
    ensures i < |s| ==> IsBreak(s[i])
  {
    if s == [] || IsBreak(s[0]) then 0 else 1 + BreakAt(s[1..])
  }

  /** Where the text behind the first line ending of s starts. */
  function AfterBreak(s: seq<byte>): (i: nat)
    requires BreakAt(s) < |s|
    ensures BreakAt(s) < i <= |s|
  {
    var i := BreakAt(s);
    if s[i] == CR && i + 1 < |s| && s[i + 1] == LF then i + 2 else i + 1
  }

  function SplitLines(s: seq<byte>): (lines: seq<seq<byte>>)
    ensures lines != []
    decreases |s|
  {
    if BreakAt(s) == |s| then [s] else [s[..BreakAt(s)]] + SplitLines(s[AfterBreak(s)..])
  }

  /** lines.join("\n") */
  function JoinLines(lines: seq<seq<byte>>): seq<byte> {
    if lines == [] then []
    else if |lines| == 1 then lines[0]
    else lines[0] + [LF] + JoinLines(lines[1..])
  }

  lemma {:induction false} NormaliseWithoutBreaks(s: seq<byte>)
    requires BreakAt(s) == |s|
    ensures Normalise(s) == s
    decreases |s|
  {
    if s != [] {
      assert !IsBreak(s[0]);
      assert BreakAt(s[1..]) == |s[1..]|;
      NormaliseWithoutBreaks(s[1..]);
    }
  }

  /** The first line of s, the line ending behind it, and the rest. */
  lemma NormaliseAtBreak(s: seq<byte>)
    requires BreakAt(s) < |s|
    ensures Normalise(s) == s[..BreakAt(s)] + ([LF] + Normalise(s[AfterBreak(s)..]))
  {
    var i, j := BreakAt(s), AfterBreak(s);
    LineInFront(s, i);
    assert s[i..] != [] && s[i..][0] == s[i] && IsBreak(s[i..][0]);
    NormaliseFirst(s[i..], j - i);
    hide *;
    DropDrop(s, i, j - i);
    NormaliseWithoutBreaks(s[..i]);
    NormaliseConcat(s[..i], s[i..]);
    SplitAt(s, i);
  }

  lemma LineInFront(s: seq<byte>, i: nat)
    requires i <= BreakAt(s)
    ensures BreakAt(s[..i]) == |s[..i]| && !EndsInCR(s[..i])
  {}

  /** Joining the lines of a text with LF undoes the split, up to the spelling of the line endings. */
  lemma {:induction false} JoinUndoesSplit(s: seq<byte>)
    ensures JoinLines(SplitLines(s)) == Normalise(s)
    decreases |s|
  {
    if BreakAt(s) == |s| {
      NormaliseWithoutBreaks(s);
    } else {
      NormaliseAtBreak(s);
      JoinUndoesSplit(s[AfterBreak(s)..]);
      var rest := SplitLines(s[AfterBreak(s)..]);
      hide Normalise, BreakAt, AfterBreak;
      JoinFirst(s[..BreakAt(s)], rest);
    }
  }

  lemma JoinFirst(line: seq<byte>, rest: seq<seq<byte>>)
    requires rest != []
    ensures JoinLines([line] + rest) == line + ([LF] + JoinLines(rest))
  {
    assert ([line] + rest)[1..] == rest;
  }

  /** A line holds no line ending and is valid text. */
  predicate IsLine(line: seq<byte>) {
    BreakAt(line) == |line| && ValidText(line)
  }

  lemma {:induction false} LinesOfValidText(s: seq<byte>)
    requires ValidText(s)
    ensures forall line :: line in SplitLines(s) ==> IsLine(line)
    decreases |s|
  {
    if BreakAt(s) == |s| {
      assert SplitLines(s) == [s];
    } else {
      var i, j := BreakAt(s), AfterBreak(s);
      hide ValidText;
      ValidSplit(s, i);
      LineInFront(s, i);
      BehindAsciiStarts(s, i);
      if j == i + 2 {
        BehindAsciiStarts(s, i + 1);
      }
      ValidSplit(s, j);
      LinesOfValidText(s[j..]);
    }
  }

  /** In valid text a byte behind an ASCII byte starts a rune. */
  lemma {:induction false} BehindAsciiStarts(s: seq<byte>, i: nat)
    requires ValidText(s) && i < |s| && s[i] < 0x80
    ensures i + 1 < |s| ==> RuneStart(s[i + 1])
    decreases |s|
  {
    var k := RuneSize(s);
    RuneSizeIsRune(s);
    if k <= i {
      BehindAsciiStarts(s[k..], i - k);
    } else if i > 0 {
      RuneInside(s[..k], i);
    } else if k < |s| {
      ValidStarts(s[k..]);
    }
  }

  lemma ValidStarts(s: seq<byte>)
    requires ValidText(s) && s != []
    ensures RuneStart(s[0])
  {
    RuneSizeIsRune(s);
  }

  // ----- The text of an output and its stable cuts ------------------------------------

  /** What Canon normalises: the sanitised bytes, with one U+FFFD for an incomplete tail. */
  function Repair(s: seq<byte>): seq<byte> {
    RepairTail(s, TailLen(s))
  }

  function RepairTail(s: seq<byte>, t: nat): seq<byte>
    requires t <= |s|
  {
    Sanitize(s[..|s| - t]) + TailText(t)
  }

  /** An incomplete sequence of any length t becomes one U+FFFD. */
  function TailText(t: nat): seq<byte> {
    if t > 0 then REPLACEMENT else []
  }

  /** The text the raw bytes s stand for when nothing follows them. */
  function Canon(s: seq<byte>): seq<byte> {
    Normalise(Repair(s))
  }

  /** The text of bytes that something may follow. */
  function Text(s: seq<byte>): seq<byte> {
    Normalise(Sanitize(s))
  }

  /** No sequence and no CRLF that starts in a can end in what follows a. */
  predicate CleanEnd(a: seq<byte>) {
    TailLen(a) == 0 && !EndsInCR(a)
  }

  /** Cutting between a and b separates neither a rune nor a CRLF. */
  predicate Cut(a: seq<byte>, b: seq<byte>) {
    CleanEnd(a) || (b != [] && RuneStart(b[0]) && b[0] != LF)
  }

  lemma RepairAtCut(a: seq<byte>, b: seq<byte>)
    requires Closed(a, b) && b != []
    ensures Repair(a + b) == Sanitize(a) + Repair(b)
  {
    hide Sanitize, TailLen, Closed, RepairTail;
    TailLenConcat(a, b);
    RepairTailAtCut(a, b, TailLen(b));
  }

  lemma RepairTailAtCut(a: seq<byte>, b: seq<byte>, t: nat)
    requires Closed(a, b) && t <= |b|
    ensures RepairTail(a + b, t) == Sanitize(a) + RepairTail(b, t)
  {
    hide Sanitize, TailLen, Closed, TailText;
    SanitizeBehindCut(a, b, |b| - t);
    ConcatSplitsBehind(a, b, |b| - t);
    Associate(Sanitize(a), Sanitize(b[..|b| - t]), TailText(t));
  }

  lemma SanitizeBehindCut(a: seq<byte>, b: seq<byte>, n: nat)
    requires Closed(a, b) && n <= |b|
    ensures Sanitize(a + b[..n]) == Sanitize(a) + Sanitize(b[..n])
  {
    ClosedFront(a, b, n);
    SanitizeConcat(a, b[..n]);
  }

  lemma ClosedFront(a: seq<byte>, b: seq<byte>, n: nat)
    requires Closed(a, b) && n <= |b|
    ensures Closed(a, b[..n])
  {
    assert n > 0 ==> b[..n][0] == b[0];
  }

  lemma NoSplitCRLF(a: seq<byte>, b: seq<byte>)
    requires Cut(a, b) && b != []
    ensures !(EndsInCR(Sanitize(a)) && Repair(b) != [] && Repair(b)[0] == LF)
  {
    CutKeepsCRLF(a, b);
    hide *;
    CRBeforeRepaired(a);
    RepairStarts(b);
  }

  lemma CutKeepsCRLF(a: seq<byte>, b: seq<byte>)
    requires Cut(a, b) && b != []
    ensures !(EndsInCR(a) && b[0] == LF)
  {}

  lemma CRBeforeRepaired(a: seq<byte>)
    ensures EndsInCR(Sanitize(a)) ==> EndsInCR(a)
  {
    if a != [] { SanitizeEnds(a, CR); }
  }

  lemma RepairStarts(b: seq<byte>)
    requires b != []
    ensures Repair(b) != [] && (Repair(b)[0] == LF ==> b[0] == LF)
  {
    hide Sanitize, TailLen;
    var front := b[..|b| - TailLen(b)];
    SanitizeStarts(front);
    if front != [] {
      ConcatEnds(Sanitize(front), TailText(TailLen(b)));
      assert front[0] == b[0];
    }
  }

  lemma SanitizeStarts(s: seq<byte>)
    ensures s == [] ==> Sanitize(s) == []
    ensures s != [] ==> Sanitize(s) != [] && (Sanitize(s)[0] == LF <==> s[0] == LF)
  {
    if s != [] { SanitizeEnds(s, LF); }
  }

  /** The text of a whole is the text in front of a cut followed by the canonical text behind it. */
  lemma CanonAtCut(a: seq<byte>, b: seq<byte>)
    requires Cut(a, b)
    ensures Canon(a + b) == Text(a) + Canon(b)
  {
    if b == [] {
      CanonOfClean(a);
    } else {
      CutIsClosed(a, b);
      hide *;
      CanonOfConcat(a, b);
    }
  }

  lemma CutIsClosed(a: seq<byte>, b: seq<byte>)
    requires Cut(a, b)
    ensures Closed(a, b)
  {}

  lemma CanonOfClean(a: seq<byte>)
    requires CleanEnd(a)
    ensures Canon(a + []) == Text(a) + Canon([])
  {
    hide Sanitize, Normalise;
    Whole(a);
    Whole(Sanitize(a));
    Whole(Text(a));
    CanonOfNothing();
  }

  lemma CanonOfNothing()
    ensures Canon([]) == []
  {}

  lemma CanonOfConcat(a: seq<byte>, b: seq<byte>)
    requires Cut(a, b) && Closed(a, b) && b != []
    ensures Canon(a + b) == Text(a) + Canon(b)
  {
    hide Sanitize, Repair, Normalise, Cut, Closed;
    RepairAtCut(a, b);
    NoSplitCRLF(a, b);
    NormaliseConcat(Sanitize(a), Repair(b));
  }

  /** How many bytes of data the writer may emit now. */
  function SafeLen(data: seq<byte>): (n: nat)
    ensures n <= |data|
  {
    var n := |data| - TailLen(data);
    if n > 0 && data[n - 1] == CR then n - 1 else n
  }

  /** What the writer withholds: an optional CR and then an optional incomplete sequence. */
  predicate Withholdable(p: seq<byte>) {
    p == [] || p == [CR] || Incomplete(p) || (p[0] == CR && Incomplete(p[1..]))
  }

  lemma WithheldShape(data: seq<byte>)
    ensures Withholdable(data[SafeLen(data)..])
    ensures |data[SafeLen(data)..]| <= 4
  {
    var t, n := TailLen(data), SafeLen(data);
    if t > 0 {
      assert EndsOpen(data, t);
    }
    hide TailLen, Incomplete;
    DropDrop(data, n, |data| - t - n);
  }

  /** What is withheld makes a cut, whatever arrives later. */
  lemma WithheldMakesCut(data: seq<byte>, later: seq<byte>)
    ensures Cut(data[..SafeLen(data)], data[SafeLen(data)..] + later)
    ensures data[..SafeLen(data)] + (data[SafeLen(data)..] + later) == data + later
  {
    hide SafeLen, CleanEnd, RuneStart;
    var n := SafeLen(data);
    SplitAt(data, n);
    Associate(data[..n], data[n..], later);
    if n == |data| {
      Whole(data);
      NothingWithheld(data);
    } else {
      WithheldStarts(data);
      HeldFirst(data[n..], later);
    }
  }

  lemma NothingWithheld(data: seq<byte>)
    requires SafeLen(data) == |data|
    ensures CleanEnd(data)
  {
    hide TailLen;
  }

  lemma WithheldStarts(data: seq<byte>)
    requires SafeLen(data) < |data|
    ensures var b := data[SafeLen(data)]; RuneStart(b) && b != LF
  {
    if TailLen(data) > 0 {
      OpenStarts(data, TailLen(data));
    }
  }

  /** An incomplete sequence starts with the lead byte of a longer one. */
  lemma OpenStarts(s: seq<byte>, k: nat)
    requires EndsOpen(s, k)
    ensures var b := s[|s| - k]; RuneStart(b) && !IsBreak(b)
  {
    assert s[|s| - k..][0] == s[|s| - k];
  }

  /** What is withheld of a stream can be found without the bytes emitted before it. */
  lemma SafeLenExtends(data: seq<byte>, later: seq<byte>)
    ensures SafeLen(data + later) == SafeLen(data) + SafeLen(data[SafeLen(data)..] + later)
  {
    hide *;
    WithheldMakesCut(data, later);
    OpenBehindNoCR(data, data[SafeLen(data)..] + later);
    HeldFirst(data[SafeLen(data)..], later);
    SafeLenAtCut(data[..SafeLen(data)], data[SafeLen(data)..] + later);
  }

  lemma HeldFirst(held: seq<byte>, later: seq<byte>)
    ensures held != [] ==> held + later != [] && (held + later)[0] == held[0]
  {}

  lemma SafeLenAtCut(a: seq<byte>, b: seq<byte>)
    requires Cut(a, b)
    requires b != [] && TailLen(b) == |b| ==> !EndsInCR(a)
    ensures SafeLen(a + b) == |a| + SafeLen(b)
  {
    if b == [] {
      Whole(a);
      SafeLenOfClean(a);
    } else {
      CutIsClosed(a, b);
      hide *;
      TailLenConcat(a, b);
      SafeLenBehind(a, b);
    }
  }

  lemma SafeLenOfClean(a: seq<byte>)
    requires CleanEnd(a)
    ensures SafeLen(a) == |a| && SafeLen([]) == 0
  {
    hide TailLen;
  }

  lemma SafeLenBehind(a: seq<byte>, b: seq<byte>)
    requires b != [] && TailLen(a + b) == TailLen(b)
    requires TailLen(b) == |b| ==> !EndsInCR(a)
    ensures SafeLen(a + b) == |a| + SafeLen(b)
  {
    hide TailLen;
    var m := |b| - TailLen(b);
    if m > 0 {
      assert (a + b)[|a| + m - 1] == b[m - 1];
    } else if a != [] {
      assert (a + b)[|a| - 1] == a[|a| - 1];
    }
  }

  /** No CR is emitted in front of a withheld incomplete sequence. */
  lemma OpenBehindNoCR(data: seq<byte>, b: seq<byte>)
    requires SafeLen(data) < |data| ==> b != [] && b[0] == data[SafeLen(data)]
    ensures b != [] && TailLen(b) == |b| ==> !EndsInCR(data[..SafeLen(data)])
  {
    if b != [] && TailLen(b) == |b| {
      OpenStarts(b, |b|);
      NoCRInFront(data, b[0]);
    }
  }

  lemma NoCRInFront(data: seq<byte>, first: byte)
    requires SafeLen(data) < |data| ==> data[SafeLen(data)] == first
    requires first != CR
    ensures !EndsInCR(data[..SafeLen(data)])
  {
    hide TailLen;
  }
}
