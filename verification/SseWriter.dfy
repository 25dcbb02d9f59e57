/**
 The incremental writer of internal/sseutil: arbitrary chunks of raw bytes go in, events
 with stable resume offsets come out.
 */
module SseWriter {
  import opened SeqLaws
  import opened Utf8
  import opened LineText
  import opened SseWire

  // ----- What the writer emits, as a function of the bytes it was given -----------------

  /** The event for `data`, when the writer was given `fed` before; none when all of it is withheld. */
  function NewItems(base: nat, fed: seq<byte>, data: seq<byte>): seq<Item> {
    var all := fed + data;
    if SafeLen(all) <= SafeLen(fed) then []
    else [Data(Sanitize(all[SafeLen(fed)..SafeLen(all)]), base + SafeLen(all))]
  }

  /** The event for what is still withheld when nothing can follow any more. */
  function LastItems(base: nat, fed: seq<byte>): seq<Item> {
    if SafeLen(fed) == |fed| then []
    else [Data(Repair(fed[SafeLen(fed)..]), base + |fed|)]
  }

  // ----- Each event advances a reader of the file ----------------------------------------

  /** `file` goes on at `base` with `bytes`. */
  predicate HasAt(file: seq<byte>, base: nat, bytes: seq<byte>) {
    base + |bytes| <= |file| && file[base..base + |bytes|] == bytes
  }

  lemma NewItemsAdvance(file: seq<byte>, base: nat, fed: seq<byte>, data: seq<byte>)
    requires HasAt(file, base, fed + data)
    ensures Trail(file, base + SafeLen(fed), NewItems(base, fed, data))
    ensures Resume(base + SafeLen(fed), NewItems(base, fed, data)) == base + SafeLen(fed + data)
  {
    hide Trail, Resume, SafeLen, Advances;
    SafeLenGrows(fed, data);
    if SafeLen(fed + data) > SafeLen(fed) {
      StepAdvances(file, base, fed, data);
      TrailOne(file, base + SafeLen(fed), NewItems(base, fed, data)[0]);
    } else {
      TrailNone(file, base + SafeLen(fed));
    }
  }

  lemma TrailNone(file: seq<byte>, from: nat)
    ensures Trail(file, from, []) && Resume(from, []) == from
  {}

  lemma TrailOne(file: seq<byte>, from: nat, item: Item)
    requires item.Data? && Advances(file, from, item)
    ensures Trail(file, from, [item]) && Resume(from, [item]) == item.id
  {
    hide Advances;
    assert [item][1..] == [];
  }

  lemma SafeLenGrows(fed: seq<byte>, data: seq<byte>)
    ensures SafeLen(fed) <= SafeLen(fed + data)
  {
    hide SafeLen;
    SafeLenExtends(fed, data);
  }

  /** The text between two safe lengths is the text the event between them delivers. */
  lemma StepAdvances(file: seq<byte>, base: nat, fed: seq<byte>, data: seq<byte>)
    requires HasAt(file, base, fed + data) && SafeLen(fed) < SafeLen(fed + data)
    ensures Advances(file, base + SafeLen(fed),
            Data(Sanitize((fed + data)[SafeLen(fed)..SafeLen(fed + data)]), base + SafeLen(fed + data)))
  {
    hide SafeLen, Sanitize, Canon, Normalise, ValidText;
    var n, m := SafeLen(fed), SafeLen(fed + data);
    var held, later := fed[n..] + data, file[base + |fed + data|..];
    SafeLenExtends(fed, data);
    ConcatSplitsIn(fed, data, n);
    FileFrom(file, base, fed + data, n);
    FileFrom(file, base, fed + data, m);
    DropDrop(fed + data, n, m - n);
    HeldText(held, later);
    Associate(held[..m - n], held[m - n..], later);
    SanitizeIsValid((fed + data)[n..m]);
    SanitizeKeepsSome((fed + data)[n..m]);
  }

  lemma FileFrom(file: seq<byte>, base: nat, bytes: seq<byte>, n: nat)
    requires HasAt(file, base, bytes) && n <= |bytes|
    ensures file[base + n..] == bytes[n..] + file[base + |bytes|..]
  {
    SplitAt(file, base + |bytes|);
    ConcatSplitsIn(file[..base + |bytes|], file[base + |bytes|..], base + n);
    assert file[..base + |bytes|][base + n..] == bytes[n..];
  }

  /** Emitting the safe part of what is held delivers its text; what stays held is read again later. */
  lemma HeldText(held: seq<byte>, later: seq<byte>)
    ensures Canon(held + later) == Text(held[..SafeLen(held)]) + Canon(held[SafeLen(held)..] + later)
  {
    hide *;
    WithheldMakesCut(held, later);
    CanonAtCut(held[..SafeLen(held)], held[SafeLen(held)..] + later);
  }

  lemma SanitizeKeepsSome(s: seq<byte>)
    requires s != []
    ensures Sanitize(s) != []
  {
    SanitizeStarts(s);
  }

  lemma LastItemsAdvance(file: seq<byte>, base: nat, fed: seq<byte>)
    requires HasAt(file, base, fed) && base + |fed| == |file|
    ensures Trail(file, base + SafeLen(fed), LastItems(base, fed))
    ensures Resume(base + SafeLen(fed), LastItems(base, fed)) == |file|
  {
    hide Trail, Resume, SafeLen, Advances, HasAt, Repair;
    if SafeLen(fed) < |fed| {
      LastAdvances(file, base, fed);
      TrailOne(file, base + SafeLen(fed), Data(Repair(fed[SafeLen(fed)..]), |file|));
    } else {
      TrailNone(file, base + SafeLen(fed));
    }
  }

  lemma LastAdvances(file: seq<byte>, base: nat, fed: seq<byte>)
    requires HasAt(file, base, fed) && base + |fed| == |file| && SafeLen(fed) < |fed|
    ensures Advances(file, base + SafeLen(fed), Data(Repair(fed[SafeLen(fed)..]), |file|))
  {
    hide SafeLen, Sanitize, Repair, Normalise, ValidText;
    var held := fed[SafeLen(fed)..];
    FileFrom(file, base, fed, SafeLen(fed));
    Whole(file);
    Whole(held);
    CanonOfNothing();
    Whole(Canon(held));
    RepairIsValid(held);
    RepairStarts(held);
  }

  lemma RepairIsValid(s: seq<byte>)
    ensures ValidText(Repair(s))
  {
    hide ValidText, Sanitize, TailLen;
    SanitizeIsValid(s[..|s| - TailLen(s)]);
    TailTextIsValid(TailLen(s));
    ValidConcat(Sanitize(s[..|s| - TailLen(s)]), TailText(TailLen(s)));
  }

  lemma TailTextIsValid(t: nat)
    ensures ValidText(TailText(t))
  {
    ValidNothing();
    ValidPrepend(REPLACEMENT, []);
    Whole(REPLACEMENT);
  }

  lemma ValidNothing()
    ensures ValidText([])
  {}

  // ----- Chunking does not matter ----------------------------------------------------------

  function Flatten<T>(parts: seq<seq<T>>): seq<T> {
    if parts == [] then [] else parts[0] + Flatten(parts[1..])
  }

  /** The events of one WriteData call per chunk, behind the bytes `fed`. */
  function Emitted(base: nat, fed: seq<byte>, chunks: seq<seq<byte>>): seq<Item>
    decreases |chunks|
  {
    if chunks == [] then []
    else NewItems(base, fed, chunks[0]) + Emitted(base, fed + chunks[0], chunks[1..])
  }

  lemma {:induction false} EmittedAdvances(file: seq<byte>, base: nat, fed: seq<byte>, chunks: seq<seq<byte>>)
    requires HasAt(file, base, fed + Flatten(chunks))
    ensures Trail(file, base + SafeLen(fed), Emitted(base, fed, chunks))
    ensures Resume(base + SafeLen(fed), Emitted(base, fed, chunks)) == base + SafeLen(fed + Flatten(chunks))
    decreases |chunks|
  {
    hide Trail, Resume, SafeLen, NewItems;
    if chunks == [] {
      TrailNone(file, base + SafeLen(fed));
      Whole(fed);
    } else {
      var all, rest := fed + chunks[0], chunks[1..];
      Associate(fed, chunks[0], Flatten(rest));
      HasFront(file, base, all, Flatten(rest));
      NewItemsAdvance(file, base, fed, chunks[0]);
      EmittedAdvances(file, base, all, rest);
      TrailConcat(file, base + SafeLen(fed), NewItems(base, fed, chunks[0]), Emitted(base, all, rest));
    }
  }

  lemma HasFront(file: seq<byte>, base: nat, a: seq<byte>, b: seq<byte>)
    requires HasAt(file, base, a + b)
    ensures HasAt(file, base, a)
  {
    assert file[base..base + |a|] == file[base..base + |a + b|][..|a|] == a;
  }

  /** However the bytes are cut into chunks, the events deliver their canonical text. */
  lemma ChunkingIndependence(base: nat, chunks: seq<seq<byte>>)
    ensures Delivered(Emitted(base, [], chunks) + LastItems(base, Flatten(chunks))) == Canon(Flatten(chunks))
  {
    hide *;
    var all := Flatten(chunks);
    var file := seq(base, i => 0) + all;
    PrefixFile(base, all);
    SessionDelivers(file, base, chunks);
  }

  lemma PrefixFile(base: nat, all: seq<byte>)
    ensures var file: seq<byte> := seq(base, i => 0) + all;
            HasAt(file, base, [] + all) && base + |all| == |file| && TextFrom(file, base) == Canon(all)
  {
    var file: seq<byte> := seq(base, i => 0) + all;
    assert file[base..] == all;
    assert file[base..base + |[] + all|] == [] + all;
  }

  /** A session that reads the file from `base` to its end delivers all of the text from `base` on. */
  lemma SessionDelivers(file: seq<byte>, base: nat, chunks: seq<seq<byte>>)
    requires HasAt(file, base, [] + Flatten(chunks)) && base + |Flatten(chunks)| == |file|
    ensures var items := Emitted(base, [], chunks) + LastItems(base, Flatten(chunks));
            Trail(file, base, items) && Resume(base, items) == |file| && Delivered(items) == TextFrom(file, base)
  {
    hide Trail, Resume, SafeLen, Emitted, LastItems, HasAt, Delivered, TextFrom, Flatten;
    var all := Flatten(chunks);
    Whole(all);
    NothingSafe();
    EmittedAdvances(file, base, [], chunks);
    LastItemsAdvance(file, base, all);
    TrailConcat(file, base, Emitted(base, [], chunks), LastItems(base, all));
    TrailDelivers(file, base, Emitted(base, [], chunks) + LastItems(base, all));
    NothingBehind(file);
    Whole(Delivered(Emitted(base, [], chunks) + LastItems(base, all)));
  }

  lemma NothingSafe()
    ensures SafeLen([]) == 0
  {}

  lemma NothingBehind(file: seq<byte>)
    ensures TextFrom(file, |file|) == []
  {
    Whole(file);
    CanonOfNothing();
  }

  // ----- The byte-level helpers ------------------------------------------------------------

  /** utf8.FullRune */
  predicate FullRune(p: seq<byte>) {
    p != [] && !Incomplete(p)
  }

  method IncompleteUTF8Tail(data: seq<byte>) returns (n: nat)
    ensures n == TailLen(data)
  {
    var i := |data| - 1;
    while i >= 0 && i >= |data| - 3
      invariant |data| - 4 <= i < |data| && -1 <= i
      invariant forall j :: i < j < |data| ==> IsTail(data[j])
    {
      if RuneStart(data[i]) {
        StartDecidesTail(data, i);
        if FullRune(data[i..]) {
          return 0;
        }
        return |data| - i;
      }
      i := i - 1;
    }
    NoStartNoTail(data, i + 1);
    return 0;
  }

  lemma StartDecidesTail(data: seq<byte>, i: nat)
    requires i < |data| && RuneStart(data[i])
    requires forall j :: i < j < |data| ==> IsTail(data[j])
    ensures TailLen(data) == if Incomplete(data[i..]) then |data| - i else 0
  {
    if Incomplete(data[i..]) {
      TailLenUnique(data, |data| - i);
    } else if TailLen(data) > 0 {
      TailStart(data, i);
    }
  }

  lemma TailStart(data: seq<byte>, i: nat)
    requires TailLen(data) > 0 && i < |data| && RuneStart(data[i])
    requires forall j :: i < j < |data| ==> IsTail(data[j])
    ensures TailLen(data) == |data| - i
  {
    var k := TailLen(data);
    OpenStarts(data, k);
    if k > |data| - i {
      OpenInside(data, k, i - (|data| - k));
    }
  }

  lemma OpenInside(s: seq<byte>, k: nat, j: nat)
    requires EndsOpen(s, k) && 0 < j < k
    ensures IsTail(s[|s| - k + j])
  {
    assert s[|s| - k..][j] == s[|s| - k + j];
  }

  lemma NoStartNoTail(data: seq<byte>, i: nat)
    requires i <= |data| && (i == 0 || i + 3 <= |data|)
    requires forall j :: i <= j < |data| ==> IsTail(data[j])
    ensures TailLen(data) == 0
  {
    if TailLen(data) > 0 {
      OpenStarts(data, TailLen(data));
    }
  }

  method SafePrefixLen(data: seq<byte>) returns (n: nat)
    ensures n == SafeLen(data)
  {
    var tail := IncompleteUTF8Tail(data);
    n := |data| - tail;
    if n > 0 && data[n - 1] == CR {
      n := n - 1;
    }
  }

  method SanitizeUTF8(data: seq<byte>) returns (result: seq<byte>)
    ensures result == Sanitize(data)
  {
    if ValidText(data) {
      SanitizeKeepsValid(data);
      return data;
    }
    result := [];
    var rest := data;
    while rest != []
      invariant result + Sanitize(rest) == Sanitize(data)
      decreases |rest|
    {
      SanitizeUnfolds(rest);
      var size := RuneSize(rest);
      Associate(result, Repaired(rest), Sanitize(rest[Step(rest)..]));
      if size == 0 {
        result, rest := result + REPLACEMENT, rest[1..];
      } else {
        result, rest := result + rest[..size], rest[size..];
      }
    }
    Whole(result);
  }

  /** Splits s at its first line ending. */
  method NextChunk(s: seq<byte>) returns (chunk: seq<byte>, remaining: seq<byte>, hasNewline: bool)
    ensures hasNewline <==> BreakAt(s) < |s|
    ensures chunk == s[..BreakAt(s)]
    ensures remaining == if hasNewline then s[AfterBreak(s)..] else []
  {
    var i := 0;
    while i < |s|
      invariant 0 <= i <= |s|
      invariant forall j :: 0 <= j < i ==> !IsBreak(s[j])
    {
      if s[i] == LF {
        FirstBreak(s, i);
        return s[..i], s[i + 1..], true;
      } else if s[i] == CR {
        FirstBreak(s, i);
        if i + 1 < |s| && s[i + 1] == LF {
          return s[..i], s[i + 2..], true;
        }
        return s[..i], s[i + 1..], true;
      }
      i := i + 1;
    }
    FirstBreak(s, i);
    return s, [], false;
  }

  lemma FirstBreak(s: seq<byte>, i: nat)
    requires i <= |s| && (i < |s| ==> IsBreak(s[i]))
    requires forall j :: 0 <= j < i ==> !IsBreak(s[j])
    ensures BreakAt(s) == i
  {}

  method WriteDataLines(buf: seq<byte>, text: seq<byte>) returns (out: seq<byte>)
    ensures out == buf + DataBlock(SplitLines(text))
  {
    out := buf;
    var s := text;
    while true
      invariant out + DataBlock(SplitLines(s)) == buf + DataBlock(SplitLines(text))
      decreases |s|
    {
      var line, rest, hasNewline := NextChunk(s);
      LinesUnfold(out, s);
      out := out + (DATA + line + [LF]);
      if !hasNewline {
        return;
      }
      s := rest;
    }
  }

  lemma LinesUnfold(out: seq<byte>, s: seq<byte>)
    ensures var line := DATA + s[..BreakAt(s)] + [LF];
            out + DataBlock(SplitLines(s)) == if BreakAt(s) == |s| then out + line
            else (out + line) + DataBlock(SplitLines(s[AfterBreak(s)..]))
  {
    Whole(s);
    FirstLine(s);
    hide *;
    if BreakAt(s) < |s| {
      Associate(out, DATA + s[..BreakAt(s)] + [LF], DataBlock(SplitLines(s[AfterBreak(s)..])));
    }
  }

  lemma FirstLine(s: seq<byte>)
    ensures DataBlock(SplitLines(s)) == if BreakAt(s) == |s| then DATA + s + [LF]
            else (DATA + s[..BreakAt(s)] + [LF]) + DataBlock(SplitLines(s[AfterBreak(s)..]))
  {
    if BreakAt(s) == |s| {
      FirstLineBytes(s, []);
      Whole(DATA + s + [LF]);
    } else {
      FirstLineBytes(s[..BreakAt(s)], SplitLines(s[AfterBreak(s)..]));
    }
  }

  lemma FirstLineBytes(line: seq<byte>, rest: seq<seq<byte>>)
    ensures DataBlock([line] + rest) == (DATA + line + [LF]) + DataBlock(rest)
    ensures [line] + [] == [line] && DataBlock([]) == []
  {
    assert ([line] + rest)[1..] == rest;
  }

  // ----- The writer ---------------------------------------------------------------------------

  class Writer {
    // What went to the underlying io.Writer.
    var w: seq<byte>
    var offset: nat
    var pending: seq<byte>

    // The offset the writer started at, the bytes it was given, and the items it wrote.
    ghost var base: nat
    ghost var fed: seq<byte>
    ghost var items: seq<Item>
    // How many writes have failed.
    ghost var failures: nat

    ghost predicate Valid()
      reads this
    {
      && offset == base + |fed|
      && pending == fed[SafeLen(fed)..]
      && w == Wire(items)
    }

    constructor AtOffset(offset: nat)
      ensures Valid() && base == offset && fed == [] && items == [] && failures == 0
    {
      w, this.offset, pending := [], offset, [];
      base, fed, items, failures := offset, [], [], 0;
    }

    /** One Write call on the underlying writer; a failing one may have written a front part. */
    method Emit(bytes: seq<byte>, ghost item: Item) returns (ok: bool)
      requires w == Wire(items) && bytes == ItemBytes(item)
      modifies this`w, this`items, this`failures
      ensures items == old(items) + [item]
      ensures old(w) <= w <= Wire(items) && failures == if ok then old(failures) else old(failures) + 1
      ensures ok ==> w == Wire(items)
    {
      WireConcat(items, [item]);
      WireOne(item);
      items := items + [item];
      if * {
        w := w + bytes;
        ok := true;
      } else {
        var n :| 0 <= n <= |bytes|;
        SplitAt(bytes, n);
        Associate(w, bytes[..n], bytes[n..]);
        w := w + bytes[..n];
        failures := failures + 1;
        ok := false;
      }
    }

    method WriteKeepalive() returns (ok: bool)
      requires Valid()
      modifies this`w, this`items, this`failures
      ensures items == old(items) + [Keepalive]
      ensures old(w) <= w <= Wire(items) && failures == if ok then old(failures) else old(failures) + 1
      ensures ok ==> Valid()
    {
      ok := Emit(KEEPALIVE, Keepalive);
    }

    /** The data lines, the id line and the blank line of one event. */
    method WriteEvent(text: seq<byte>, id: nat) returns (ok: bool)
      requires w == Wire(items)
      modifies this`w, this`items, this`failures
      ensures items == old(items) + [Data(text, id)]
      ensures old(w) <= w <= Wire(items) && failures == if ok then old(failures) else old(failures) + 1
      ensures ok ==> w == Wire(items)
    {
      hide Wire, DataBlock, SplitLines;
      var event := WriteDataLines([], text);
      Whole(DataBlock(SplitLines(text)));
      event := event + IdLine(id) + [LF];
      ok := Emit(event, Data(text, id));
    }

    method WriteData(data: seq<byte>) returns (ok: bool)
      requires Valid()
      modifies this
      ensures base == old(base) && fed == old(fed) + data
      ensures items == old(items) + NewItems(base, old(fed), data)
      ensures old(w) <= w <= Wire(items) && failures == if ok then old(failures) else old(failures) + 1
      ensures ok ==> Valid()
    {
      hide SafeLen, Sanitize, Wire;
      Whole(fed);
      Whole(items);
      if |data| == 0 {
        return true;
      }
      HeldIsEnough(fed, data);
      offset := offset + |data|;
      fed := fed + data;

      var combined := if |pending| == 0 then data else pending + data;
      var safeLen := SafePrefixLen(combined);
      pending := combined[safeLen..];
      if safeLen == 0 {
        return true;
      }
      var sanitized := SanitizeUTF8(combined[..safeLen]);
      ok := WriteEvent(sanitized, offset - |pending|);
    }

    method Finish() returns (ok: bool)
      requires Valid()
      modifies this
      ensures base == old(base) && fed == old(fed) && pending == []
      ensures items == old(items) + LastItems(base, fed)
      ensures old(w) <= w <= Wire(items) && failures == if ok then old(failures) else old(failures) + 1
      ensures ok ==> w == Wire(items)
    {
      hide SafeLen, Sanitize, Wire, TailLen;
      Whole(items);
      if |pending| == 0 {
        return true;
      }
      var tail := IncompleteUTF8Tail(pending);
      var sanitized := SanitizeUTF8(pending[..|pending| - tail]);
      Whole(sanitized);
      if tail > 0 {
        sanitized := sanitized + REPLACEMENT;
      }
      pending := [];
      ok := WriteEvent(sanitized, offset);
    }
  }

  /** The writer needs only what it withheld to find what it may emit next. */
  lemma HeldIsEnough(fed: seq<byte>, data: seq<byte>)
    ensures var held := fed[SafeLen(fed)..];
            var combined := if |held| == 0 then data else held + data;
            && SafeLen(fed + data) == SafeLen(fed) + SafeLen(combined)
            && (fed + data)[SafeLen(fed + data)..] == combined[SafeLen(combined)..]
            && (fed + data)[SafeLen(fed)..SafeLen(fed + data)] == combined[..SafeLen(combined)]
  {
    hide SafeLen;
    SafeLenExtends(fed, data);
    Whole(data);
    ConcatSplitsIn(fed, data, SafeLen(fed));
    DropDrop(fed + data, SafeLen(fed), SafeLen(fed[SafeLen(fed)..] + data));
  }
}
