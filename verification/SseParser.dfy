/**
 The client's event parser (sdks/typescript/src/internal/sse.ts), and the proof that it
 undoes what the writer prints, whatever transport chunks the bytes arrive in and wherever
 the connection is cut.
 */
module SseParser {
  import opened SeqLaws
  import opened Utf8
  import opened LineText
  import opened Decimal
  import opened Options
  import opened SseWire

  const NUL: byte := 0
  const BOM: seq<byte> := [0xEF, 0xBB, 0xBF]
  const COLON: seq<byte> := [58]
  const DATA_FIELD: seq<byte> := [100, 97, 116, 97, 58]                 // "data:"
  const ID_FIELD: seq<byte> := [105, 100, 58]                           // "id:"
  const RETRY_FIELD: seq<byte> := [114, 101, 116, 114, 121, 58]         // "retry:"
  const SPACE: byte := 32

  datatype Event = Event(id: Option<seq<byte>>, data: seq<byte>, retryMs: Option<int>)

  /** The locals of parseSSE: decoder state, line buffer and the event under construction. */
  datatype State = State(
    started: bool, held: seq<byte>, buffer: seq<byte>,
    id: Option<seq<byte>>, data: seq<seq<byte>>, retry: Option<int>)

  datatype Parsed = Parsed(st: State, events: seq<Event>)

  const INITIAL := State(false, [], [], None, [], None)

  /** line.replace(/\r$/, "") */
  function StripCR(line: seq<byte>): seq<byte> {
    if EndsInCR(line) then line[..|line| - 1] else line
  }

  /** The value of a field: what follows the colon, without one leading space. */
  function FieldValue(line: seq<byte>, field: seq<byte>): seq<byte>
    requires field <= line
  {
    var value := line[|field|..];
    if value != [] && value[0] == SPACE then value[1..] else value
  }

  function Clamp(ms: int): (r: int)
    ensures 1_000 <= r <= 60_000
  {
    if ms < 1_000 then 1_000 else if ms > 60_000 then 60_000 else ms
  }

  function ProcessLine(st: State, line: seq<byte>): Parsed {
    if line == [] then
      if st.data == [] then Parsed(st, [])
      else Parsed(st.(data := [], retry := None), [Event(st.id, JoinLines(st.data), st.retry)])
    else if COLON <= line then Parsed(st, [])
    else if DATA_FIELD <= line then Parsed(st.(data := st.data + [FieldValue(line, DATA_FIELD)]), [])
    else if ID_FIELD <= line then
      var value := FieldValue(line, ID_FIELD);
      Parsed(if NUL in value then st else st.(id := Some(value)), [])
    else if RETRY_FIELD <= line then
      var value := FieldValue(line, RETRY_FIELD);
      Parsed(if value != [] && AllDigits(value) then st.(retry := Some(Clamp(Value(value)))) else st, [])
    else Parsed(st, [])
  }

  /** Decoded text into the line buffer: every LF completes a line. */
  function FeedText(st: State, text: seq<byte>): Parsed
    decreases |text|
  {
    if text == [] then Parsed(st, [])
    else if text[0] == LF then
      var first := ProcessLine(st.(buffer := []), StripCR(st.buffer));
      var rest := FeedText(first.st, text[1..]);
      Parsed(rest.st, first.events + rest.events)
    else FeedText(st.(buffer := st.buffer + [text[0]]), text[1..])
  }

  function StripBOM(text: seq<byte>): seq<byte> {
    if BOM <= text then text[3..] else text
  }

  /** One transport chunk. TextDecoder drops a byte order mark in front of the first text. */
  function Feed(st: State, chunk: seq<byte>): Parsed {
    var d := Decode(st.held, chunk);
    FeedText(st.(held := d.held, started := st.started || d.text != []),
             if st.started then d.text else StripBOM(d.text))
  }

  /** End of the body: the decoder is flushed and an unterminated line is still processed. */
  function AtEnd(st: State): Parsed {
    var buffer := st.buffer + if st.held == [] then [] else REPLACEMENT;
    if buffer == [] then Parsed(st, [])
    else ProcessLine(st.(held := [], buffer := []), StripCR(buffer))
  }

  // ----- Chunks may be merged ------------------------------------------------------

  lemma {:induction false} FeedTextConcat(st: State, a: seq<byte>, b: seq<byte>)
    ensures var first := FeedText(st, a); var second := FeedText(first.st, b);
            FeedText(st, a + b) == Parsed(second.st, first.events + second.events)
    decreases |a|
  {
    hide ProcessLine, StripCR;
    if a == [] {
      Whole(b);
      Whole(FeedText(st, b).events);
    } else {
      ConcatSplitsIn(a, b, 1);
      if a[0] == LF {
        var line := ProcessLine(st.(buffer := []), StripCR(st.buffer));
        FeedTextConcat(line.st, a[1..], b);
        var mid := FeedText(line.st, a[1..]);
        Associate(line.events, mid.events, FeedText(mid.st, b).events);
      } else {
        FeedTextConcat(st.(buffer := st.buffer + [a[0]]), a[1..], b);
      }
    }
  }

  lemma {:induction false} DecodedIsValid(held: seq<byte>, s: seq<byte>)
    ensures ValidText(Decode(held, s).text)
    decreases |s|
  {
    if s == [] {
    } else {
      var first := DecodeByte(held, s[0]);
      DecodedByteIsValid(held, s[0]);
      DecodedIsValid(first.held, s[1..]);
      ValidConcat(first.text, Decode(first.held, s[1..]).text);
    }
  }

  lemma {:induction false} DecodedByteIsValid(held: seq<byte>, b: byte)
    ensures ValidText(DecodeByte(held, b).text)
    decreases |held|
  {
    ValidPrepend(REPLACEMENT, []);
    Whole(REPLACEMENT);
    if IsRune(held + [b]) {
      ValidPrepend(held + [b], []);
      Whole(held + [b]);
    } else if !Begins(held + [b]) && held != [] {
      DecodedByteIsValid([], b);
      ValidConcat(REPLACEMENT, DecodeByte([], b).text);
    }
  }

  lemma StripBOMConcat(a: seq<byte>, b: seq<byte>)
    requires ValidText(a) && a != []
    ensures StripBOM(a + b) == StripBOM(a) + b
  {
    if BOM <= a + b {
      assert (a + b)[0] == a[0] == 0xEF;
      assert RuneSize(a) == 3;
    }
    assert |a| >= 3 ==> (a + b)[..3] == a[..3];
  }

  /** Parsing does not depend on how the bytes were cut into transport chunks. */
  lemma FeedConcat(st: State, a: seq<byte>, b: seq<byte>)
    ensures var first := Feed(st, a); var second := Feed(first.st, b);
            Feed(st, a + b) == Parsed(second.st, first.events + second.events)
  {
    hide Decode, FeedText, StripBOM;
    DecodeConcat(st.held, a, b);
    var d := Decode(st.held, a);
    var e := Decode(d.held, b);
    FeedTextKeeps(st.(held := d.held, started := st.started || d.text != []),
                  if st.started then d.text else StripBOM(d.text));
    if st.started {
      FeedTextSettings(st.(held := d.held), e.held, true, d.text);
      FeedTextConcat(st.(held := e.held), d.text, e.text);
    } else if d.text == [] {
      FeedNothing(st, d.held, e.text);
    } else {
      DecodedIsValid(st.held, a);
      StripBOMConcat(d.text, e.text);
      FeedTextSettings(st.(held := d.held, started := true), e.held, true, StripBOM(d.text));
      FeedTextConcat(st.(held := e.held, started := true), StripBOM(d.text), e.text);
    }
  }

  lemma FeedNothing(st: State, held: seq<byte>, text: seq<byte>)
    ensures StripBOM([]) == [] && [] + text == text
    ensures FeedText(st.(held := held), []) == Parsed(st.(held := held), [])
    ensures forall p: seq<Event> {:trigger [] + p} :: [] + p == p
  {}

  /** The decoder's part of the state and the text buffer do not influence each other. */
  lemma {:induction false} FeedTextSettings(st: State, held: seq<byte>, started: bool, text: seq<byte>)
    ensures var a := FeedText(st, text); var b := FeedText(st.(held := held, started := started), text);
            b == Parsed(a.st.(held := held, started := started), a.events)
    decreases |text|
  {
    if text != [] {
      if text[0] == LF {
        var first := ProcessLine(st.(buffer := []), StripCR(st.buffer));
        FeedTextSettings(first.st, held, started, text[1..]);
      } else {
        FeedTextSettings(st.(buffer := st.buffer + [text[0]]), held, started, text[1..]);
      }
    }
  }

  lemma {:induction false} FeedTextKeeps(st: State, text: seq<byte>)
    ensures FeedText(st, text).st.held == st.held && FeedText(st, text).st.started == st.started
    decreases |text|
  {
    if text != [] {
      if text[0] == LF {
        FeedTextKeeps(ProcessLine(st.(buffer := []), StripCR(st.buffer)).st, text[1..]);
      } else {
        FeedTextKeeps(st.(buffer := st.buffer + [text[0]]), text[1..]);
      }
    }
  }

  // ----- Parsing undoes printing ------------------------------------------------------

  /** Between two events: nothing is buffered and no event is under construction. */
  predicate Idle(st: State) {
    st.held == [] && st.buffer == [] && st.data == [] && st.retry == None
  }

  predicate NoLF(s: seq<byte>) {
    forall i :: 0 <= i < |s| ==> s[i] != LF
  }

  lemma {:induction false} FeedInsideLine(st: State, s: seq<byte>)
    requires NoLF(s)
    ensures FeedText(st, s) == Parsed(st.(buffer := st.buffer + s), [])
    decreases |s|
  {
    if s == [] {
      Whole(st.buffer);
    } else {
      FeedInsideLine(st.(buffer := st.buffer + [s[0]]), s[1..]);
      Associate(st.buffer, [s[0]], s[1..]);
    }
  }

  lemma FeedLine(st: State, line: seq<byte>)
    requires NoLF(line) && st.buffer == []
    ensures FeedText(st, line + [LF]) == ProcessLine(st, StripCR(line))
  {
    FeedInsideLine(st, line);
    Whole(line);
    FeedTextConcat(st, line, [LF]);
    FeedBreak(st.(buffer := line));
    assert st.(buffer := []) == st;
    Whole(ProcessLine(st, StripCR(line)).events);
  }

  lemma FeedBreak(st: State)
    ensures FeedText(st, [LF]) == ProcessLine(st.(buffer := []), StripCR(st.buffer))
  {
    hide ProcessLine, StripCR;
    assert [LF][1..] == [];
    Whole(ProcessLine(st.(buffer := []), StripCR(st.buffer)).events);
  }

  lemma ParseDataLine(st: State, line: seq<byte>)
    requires IsLine(line) && st.buffer == []
    ensures FeedText(st, DATA + line + [LF]) == Parsed(st.(data := st.data + [line]), [])
  {
    FeedLine(st, DATA + line);
    assert DATA + line != [] && (DATA + line)[0] == 100;
    assert DATA_FIELD <= DATA + line && (DATA + line)[|DATA_FIELD|..] == [SPACE] + line;
    assert FieldValue(DATA + line, DATA_FIELD) == line;
  }

  lemma {:induction false} ParseDataBlock(st: State, lines: seq<seq<byte>>)
    requires (forall line :: line in lines ==> IsLine(line)) && st.buffer == []
    ensures FeedText(st, DataBlock(lines)) == Parsed(st.(data := st.data + lines), [])
    decreases |lines|
  {
    hide IsLine, ProcessLine;
    if lines == [] {
      Whole(st.data);
    } else {
      ParseDataLine(st, lines[0]);
      ParseDataBlock(st.(data := st.data + [lines[0]]), lines[1..]);
      FeedTextConcat(st, DATA + lines[0] + [LF], DataBlock(lines[1..]));
      Associate(st.data, [lines[0]], lines[1..]);
      assert lines == [lines[0]] + lines[1..];
    }
  }

  lemma ParseIdLine(st: State, id: nat)
    requires st.buffer == []
    ensures FeedText(st, IdLine(id)) == Parsed(st.(id := Some(FormatInt(id))), [])
  {
    hide FeedText;
    IdLineField(FormatInt(id));
    FeedLine(st, ID + FormatInt(id));
  }

  lemma IdLineField(digits: seq<byte>)
    requires AllDigits(digits)
    ensures var line := ID + digits;
            && NoLF(line) && StripCR(line) == line && line != []
            && !(COLON <= line) && !(DATA_FIELD <= line) && ID_FIELD <= line
            && FieldValue(line, ID_FIELD) == digits && NUL !in digits
  {
    var line := ID + digits;
    assert forall i :: |ID| <= i < |line| ==> line[i] == digits[i - |ID|];
    assert line[0] == 105 && line[1] == 100;
    assert line[|ID_FIELD|..] == [SPACE] + digits;
  }

  /** The event that an item becomes on the client. */
  function EventsOf(item: Item): seq<Event> {
    match item
    case Keepalive => []
    case Data(text, id) => [Event(Some(FormatInt(id)), Normalise(text), None)]
  }

  function AllEvents(items: seq<Item>): seq<Event> {
    if items == [] then [] else EventsOf(items[0]) + AllEvents(items[1..])
  }

  function IdAfter(id: Option<seq<byte>>, item: Item): Option<seq<byte>> {
    if item.Data? then Some(FormatInt(item.id)) else id
  }

  lemma ParseBlankLine(st: State)
    requires st.buffer == []
    ensures FeedText(st, [LF]) == if st.data == [] then Parsed(st, [])
            else Parsed(st.(data := [], retry := None), [Event(st.id, JoinLines(st.data), st.retry)])
  {
    FeedBreak(st);
  }

  /** Everything in front of the blank line: no event yet. */
  lemma ParseDataFields(st: State, text: seq<byte>, id: nat)
    requires Idle(st) && ValidText(text)
    ensures FeedText(st, DataBlock(SplitLines(text)) + IdLine(id))
            == Parsed(st.(data := SplitLines(text), id := Some(FormatInt(id))), [])
  {
    hide ProcessLine, ValidText, IsLine, FeedText;
    LinesOfValidText(text);
    ParseDataBlock(st, SplitLines(text));
    Whole(SplitLines(text));
    ParseIdLine(st.(data := SplitLines(text)), id);
    FeedTextConcat(st, DataBlock(SplitLines(text)), IdLine(id));
  }

  lemma ParseData(st: State, text: seq<byte>, id: nat)
    requires Idle(st) && ValidText(text)
    ensures FeedText(st, ItemBytes(Data(text, id)))
            == Parsed(st.(id := Some(FormatInt(id))), EventsOf(Data(text, id)))
  {
    hide ProcessLine, ValidText, FeedText, SplitLines, Normalise;
    var fields := DataBlock(SplitLines(text)) + IdLine(id);
    var filled := st.(data := SplitLines(text), id := Some(FormatInt(id)));
    ParseDataFields(st, text, id);
    ParseBlankLine(filled);
    JoinUndoesSplit(text);
    FeedTextConcat(st, fields, [LF]);
  }

  const KEEPALIVE_LINE: seq<byte> := [58, 32, 107, 101, 101, 112, 97, 108, 105, 118, 101]

  lemma ParseKeepaliveLine(st: State)
    requires Idle(st)
    ensures FeedText(st, KEEPALIVE_LINE + [LF]) == Parsed(st, [])
  {
    FeedLine(st, KEEPALIVE_LINE);
  }

  lemma ParseKeepalive(st: State)
    requires Idle(st)
    ensures FeedText(st, KEEPALIVE) == Parsed(st, [])
  {
    hide ProcessLine, FeedText;
    ParseKeepaliveLine(st);
    ParseBlankLine(st);
    FeedTextConcat(st, KEEPALIVE_LINE + [LF], [LF]);
    assert KEEPALIVE == (KEEPALIVE_LINE + [LF]) + [LF];
  }

  /** One item on the wire is exactly one event, or none for a keepalive. */
  lemma ParseItem(st: State, item: Item)
    requires Idle(st) && ValidItem(item)
    ensures FeedText(st, ItemBytes(item)) == Parsed(st.(id := IdAfter(st.id, item)), EventsOf(item))
  {
    match item
    case Keepalive => ParseKeepalive(st);
    case Data(text, id) => ParseData(st, text, id);
  }

  /** A front part of a text dispatches a front part of its events. */
  lemma FrontEvents(st: State, text: seq<byte>, n: nat)
    requires n <= |text| && FeedText(st, text).events == []
    ensures FeedText(st, text[..n]).events == []
  {
    SplitAt(text, n);
    FeedTextConcat(st, text[..n], text[n..]);
  }

  /** An item that is cut before its last byte dispatches nothing. */
  lemma CutItem(st: State, item: Item, n: nat)
    requires Idle(st) && ValidItem(item) && n < |ItemBytes(item)|
    ensures FeedText(st, ItemBytes(item)[..n]).events == []
  {
    match item
    case Keepalive =>
      ParseKeepalive(st);
      FrontEvents(st, KEEPALIVE, n);
    case Data(text, id) =>
      ParseDataFields(st, text, id);
      FrontOfFields(st, DataBlock(SplitLines(text)) + IdLine(id), n);
  }

  lemma FrontOfFields(st: State, fields: seq<byte>, n: nat)
    requires n <= |fields| && FeedText(st, fields).events == []
    ensures FeedText(st, (fields + [LF])[..n]).events == []
  {
    ConcatSplitsIn(fields, [LF], n);
    FrontEvents(st, fields, n);
  }

  // ----- A whole body, cut anywhere ---------------------------------------------------------

  lemma ItemStarts(item: Item)
    ensures ItemBytes(item) != [] && ItemBytes(item)[0] < 0x80
  {
    if item.Data? {
      FirstLineOfBlock(SplitLines(item.text));
    }
  }

  lemma FirstLineOfBlock(lines: seq<seq<byte>>)
    requires lines != []
    ensures DataBlock(lines) != [] && DataBlock(lines)[0] == 100
  {}

  lemma NoBOM(item: Item, n: nat)
    requires n <= |ItemBytes(item)|
    ensures StripBOM(ItemBytes(item)[..n]) == ItemBytes(item)[..n]
  {
    ItemStarts(item);
    hide *;
    NoBOMInAscii(ItemBytes(item), n);
  }

  lemma NoBOMInAscii(s: seq<byte>, n: nat)
    requires n <= |s| && s != [] && s[0] < 0x80
    ensures StripBOM(s[..n]) == s[..n]
  {
    assert n > 0 ==> s[..n][0] == s[0];
  }

  lemma FeedItem(st: State, item: Item)
    requires Idle(st) && ValidItem(item)
    ensures Feed(st, ItemBytes(item)) == Parsed(st.(started := true, id := IdAfter(st.id, item)), EventsOf(item))
  {
    ItemBytesIsValid(item);
    DecodeValidText(ItemBytes(item));
    ItemStarts(item);
    NoBOM(item, |ItemBytes(item)|);
    Whole(ItemBytes(item));
    ParseItem(st.(started := true), item);
    hide ItemBytes, ProcessLine, FeedText;
    assert st.(held := []) == st;
  }

  lemma FeedCutItem(st: State, item: Item, n: nat)
    requires Idle(st) && ValidItem(item) && n < |ItemBytes(item)|
    ensures Feed(st, ItemBytes(item)[..n]).events == []
  {
    var front := ItemBytes(item)[..n];
    var d := Decode([], front);
    ItemBytesIsValid(item);
    DecodeValidFront(ItemBytes(item), n);
    ConcatSplitsIn(d.text, d.held, |d.text|);
    Whole(d.text);
    TakeTake(ItemBytes(item), |d.text|, n);
    NoBOM(item, |d.text|);
    var settled := st.(started := st.started || d.text != []);
    CutItem(settled, item, |d.text|);
    FeedTextSettings(settled, d.held, settled.started, d.text);
  }

  /** How many items are complete in the first n bytes of their wire form. */
  function WholeItems(items: seq<Item>, n: nat): (k: nat)
    ensures k <= |items|
    decreases |items|
  {
    if items == [] || n < |ItemBytes(items[0])| then 0
    else 1 + WholeItems(items[1..], n - |ItemBytes(items[0])|)
  }

  /**
   A body that breaks off after n bytes yields exactly the events of the items that are
   complete in it, in order, with their ids and data; a complete one leaves the parser idle.
   */
  lemma {:induction false} ParseUndoesPrint(st: State, items: seq<Item>, n: nat)
    requires Idle(st) && n <= |Wire(items)|
    requires forall item :: item in items ==> ValidItem(item)
    ensures Feed(st, Wire(items)[..n]).events == AllEvents(items[..WholeItems(items, n)])
    ensures n == |Wire(items)| ==> WholeItems(items, n) == |items| && Idle(Feed(st, Wire(items)[..n]).st)
    decreases |items|
  {
    hide ItemBytes, EventsOf, ValidItem, Feed;
    if items == [] {
      FeedEmpty(st);
    } else {
      var bytes, rest := ItemBytes(items[0]), Wire(items[1..]);
      if n < |bytes| {
        ConcatSplitsIn(bytes, rest, n);
        FeedCutItem(st, items[0], n);
      } else {
        var next := st.(started := true, id := IdAfter(st.id, items[0]));
        ConcatSplitsBehind(bytes, rest, n - |bytes|);
        FeedItem(st, items[0]);
        FeedConcat(st, bytes, rest[..n - |bytes|]);
        ParseUndoesPrint(next, items[1..], n - |bytes|);
        var k := WholeItems(items[1..], n - |bytes|);
        assert items[..1 + k][1..] == items[1..][..k];
      }
    }
  }

  lemma FeedEmpty(st: State)
    requires st.held == []
    ensures Feed(st, []) == Parsed(st, [])
  {}

  /** At the end of a complete body there is nothing left to dispatch. */
  lemma NothingAtEnd(st: State)
    requires Idle(st)
    ensures AtEnd(st) == Parsed(st, [])
  {}

  // ----- The parser as it runs ----------------------------------------------------------------

  /** buffer.indexOf("\n"), or the length when there is none. */
  function FirstLF(s: seq<byte>): (i: nat)
    ensures i <= |s| && NoLF(s[..i])
    ensures i < |s| ==> s[i] == LF
  {
    if s == [] || s[0] == LF then 0
    else
      assert forall i :: 0 < i <= |s| ==> s[..i] == [s[0]] + s[1..][..i - 1];
      1 + FirstLF(s[1..])
  }

  /** Text behind buffered text is as if all of it arrived at once. */
  lemma BufferedText(st: State, text: seq<byte>)
    requires NoLF(st.buffer)
    ensures FeedText(st.(buffer := []), st.buffer + text) == FeedText(st, text)
  {
    hide FeedText;
    FeedInsideLine(st.(buffer := []), st.buffer);
    Whole(st.buffer);
    FeedTextConcat(st.(buffer := []), st.buffer, text);
    Whole(FeedText(st, text).events);
    assert st.(buffer := []).(buffer := st.buffer) == st;
  }

  /** The first complete line of a buffer, and what is behind it. */
  lemma TakeLine(st: State, buffer: seq<byte>, i: nat)
    requires st.buffer == [] && i == FirstLF(buffer) < |buffer|
    ensures var first := ProcessLine(st, StripCR(buffer[..i])); var rest := FeedText(first.st, buffer[i + 1..]);
            FeedText(st, buffer) == Parsed(rest.st, first.events + rest.events)
  {
    hide ProcessLine, StripCR, FeedText, FirstLF;
    LineInBuffer(buffer, i);
    FeedLine(st, buffer[..i]);
    FeedTextConcat(st, buffer[..i] + [LF], buffer[i + 1..]);
  }

  lemma LineInBuffer(buffer: seq<byte>, i: nat)
    requires i == FirstLF(buffer) < |buffer|
    ensures NoLF(buffer[..i]) && buffer == (buffer[..i] + [LF]) + buffer[i + 1..]
  {
    hide FirstLF, NoLF;
    SplitAround(buffer, i);
  }

  class EventParser {
    var started: bool
    var held: seq<byte>
    var buffer: seq<byte>
    var currentId: Option<seq<byte>>
    var currentData: seq<seq<byte>>
    var currentRetry: Option<int>

    function Current(): State
      reads this
    {
      State(started, held, buffer, currentId, currentData, currentRetry)
    }

    predicate Valid()
      reads this
    {
      NoLF(buffer)
    }

    constructor ()
      ensures Valid() && Current() == INITIAL
    {
      started, held, buffer := false, [], [];
      currentId, currentData, currentRetry := None, [], None;
    }

    method Process(line: seq<byte>) returns (events: seq<Event>)
      modifies this`currentId, this`currentData, this`currentRetry
      ensures Parsed(Current(), events) == ProcessLine(old(Current()), line)
    {
      events := [];
      if line == [] {
        if |currentData| > 0 {
          events := [Event(currentId, JoinLines(currentData), currentRetry)];
          currentData, currentRetry := [], None;
        }
      } else if COLON <= line {
      } else if DATA_FIELD <= line {
        currentData := currentData + [FieldValue(line, DATA_FIELD)];
      } else if ID_FIELD <= line {
        var value := FieldValue(line, ID_FIELD);
        if NUL !in value {
          currentId := Some(value);
        }
      } else if RETRY_FIELD <= line {
        var value := FieldValue(line, RETRY_FIELD);
        if value != [] && AllDigits(value) {
          currentRetry := Some(Clamp(Value(value)));
        }
      }
    }

    /** One chunk from the reader: decode it and process every line it completes. */
    method ReadChunk(chunk: seq<byte>) returns (events: seq<Event>)
      requires Valid()
      modifies this
      ensures Valid()
      ensures Parsed(Current(), events) == Feed(old(Current()), chunk)
    {
      hide ProcessLine, FeedText, Decode, StripBOM, StripCR;
      ghost var all := Feed(Current(), chunk);
      var d := Decode(held, chunk);
      var text := if started then d.text else StripBOM(d.text);
      held, started := d.held, started || d.text != [];
      BufferedText(Current(), text);
      buffer := buffer + text;
      events := [];
      ghost var rest := FeedText(Current().(buffer := []), buffer);
      Whole(rest.events);
      while FirstLF(buffer) < |buffer|
        invariant rest == FeedText(Current().(buffer := []), buffer)
        invariant all == Parsed(rest.st, events + rest.events)
        decreases |buffer|
      {
        var eol := FirstLF(buffer);
        TakeLine(Current().(buffer := []), buffer, eol);
        var line := StripCR(buffer[..eol]);
        var tail := buffer[eol + 1..];
        buffer := [];
        ghost var first := ProcessLine(Current(), line);
        rest := FeedText(first.st, tail);
        Associate(events, first.events, rest.events);
        var found := Process(line);
        ProcessKeepsBuffer(line);
        events := events + found;
        buffer := tail;
      }
      Whole(buffer);
      FeedInsideLine(Current().(buffer := []), buffer);
      Whole(events);
    }

    /** The reader is done: flush the decoder and process an unterminated line. */
    method ReadEnd() returns (events: seq<Event>)
      modifies this
      ensures Parsed(Current(), events).events == AtEnd(old(Current())).events
    {
      buffer := buffer + if held == [] then [] else REPLACEMENT;
      events := [];
      held := [];
      if |buffer| > 0 {
        var line := StripCR(buffer);
        buffer := [];
        events := Process(line);
      }
    }
  }

  lemma ProcessKeepsBuffer(line: seq<byte>)
    ensures forall st {:trigger ProcessLine(st, line)} :: ProcessLine(st, line).st.buffer == st.buffer
  {}
}
