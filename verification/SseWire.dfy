/**
 What the sidecar puts on the wire: keepalive comments and data events, and what a
 sequence of events says about the file it was read from.
 */
module SseWire {
  import opened SeqLaws
  import opened Utf8
  import opened LineText
  import opened Decimal

  const KEEPALIVE: seq<byte> := [58, 32, 107, 101, 101, 112, 97, 108, 105, 118, 101, 10, 10]  // ": keepalive\n\n"
  const DATA: seq<byte> := [100, 97, 116, 97, 58, 32]  // "data: "
  const ID: seq<byte> := [105, 100, 58, 32]            // "id: "

  datatype Item = Keepalive | Data(text: seq<byte>, id: nat)

  function DataBlock(lines: seq<seq<byte>>): seq<byte> {
    if lines == [] then [] else DATA + lines[0] + [LF] + DataBlock(lines[1..])
  }

  function IdLine(id: nat): seq<byte> {
    ID + FormatInt(id) + [LF]
  }

  function ItemBytes(item: Item): seq<byte> {
    match item
    case Keepalive => KEEPALIVE
    case Data(text, id) => DataBlock(SplitLines(text)) + IdLine(id) + [LF]
  }

  function Wire(items: seq<Item>): seq<byte> {
    if items == [] then [] else ItemBytes(items[0]) + Wire(items[1..])
  }

  lemma {:induction false} WireConcat(xs: seq<Item>, ys: seq<Item>)
    ensures Wire(xs + ys) == Wire(xs) + Wire(ys)
    decreases |xs|
  {
    hide ItemBytes;
    if xs == [] {
      Whole(ys);
      Whole(Wire(ys));
    } else {
      ConcatSplitsIn(xs, ys, 1);
      WireConcat(xs[1..], ys);
      Associate(ItemBytes(xs[0]), Wire(xs[1..]), Wire(ys));
    }
  }

  lemma WireOne(item: Item)
    ensures Wire([item]) == ItemBytes(item)
  {
    hide ItemBytes;
    assert [item][1..] == [];
    Whole(ItemBytes(item));
  }

  lemma {:induction false} DataBlockConcat(xs: seq<seq<byte>>, ys: seq<seq<byte>>)
    ensures DataBlock(xs + ys) == DataBlock(xs) + DataBlock(ys)
    decreases |xs|
  {
    if xs == [] {
      Whole(ys);
      Whole(DataBlock(ys));
    } else {
      ConcatSplitsIn(xs, ys, 1);
      DataBlockConcat(xs[1..], ys);
      Associate(DATA + xs[0] + [LF], DataBlock(xs[1..]), DataBlock(ys));
    }
  }

  // ----- The bytes that have to be valid text ------------------------------------

  lemma {:induction false} DataBlockIsValid(lines: seq<seq<byte>>)
    requires forall line :: line in lines ==> ValidText(line)
    ensures ValidText(DataBlock(lines))
  {
    if lines != [] {
      DataBlockIsValid(lines[1..]);
      AsciiIsValid(DATA);
      AsciiIsValid([LF]);
      hide ValidText;
      ValidConcat(DATA, lines[0]);
      ValidConcat(DATA + lines[0], [LF]);
      ValidConcat(DATA + lines[0] + [LF], DataBlock(lines[1..]));
    }
  }

  predicate ValidItem(item: Item) {
    item.Data? ==> ValidText(item.text) && item.text != []
  }

  lemma ItemBytesIsValid(item: Item)
    requires ValidItem(item)
    ensures ValidText(ItemBytes(item))
  {
    match item
    case Keepalive => AsciiIsValid(KEEPALIVE);
    case Data(text, id) =>
      LinesOfValidText(text);
      DataBlockIsValid(SplitLines(text));
      AsciiIsValid(IdLine(id) + [LF]);
      hide ValidText;
      ValidConcat(DataBlock(SplitLines(text)), IdLine(id) + [LF]);
      Associate(DataBlock(SplitLines(text)), IdLine(id), [LF]);
  }

  lemma {:induction false} WireIsValid(items: seq<Item>)
    requires forall item :: item in items ==> ValidItem(item)
    ensures ValidText(Wire(items))
  {
    if items != [] {
      ItemBytesIsValid(items[0]);
      WireIsValid(items[1..]);
      hide ValidText, ItemBytes;
      ValidConcat(ItemBytes(items[0]), Wire(items[1..]));
    }
  }

  // ----- What events say about the file ---------------------------------------------

  /** The text a client reads from the items. */
  function Delivered(items: seq<Item>): seq<byte> {
    if items == [] then []
    else (if items[0].Data? then Normalise(items[0].text) else []) + Delivered(items[1..])
  }

  /** The offset a client that read up to `from` and then saw all the items resumes from. */
  function Resume(from: nat, items: seq<Item>): nat
    decreases |items|
  {
    if items == [] then from
    else Resume(if items[0].Data? then items[0].id else from, items[1..])
  }

  /** The canonical text of the file from offset n on; there is none behind its end. */
  function TextFrom(file: seq<byte>, n: nat): seq<byte> {
    if n <= |file| then Canon(file[n..]) else []
  }

  /** The event moves a reader of the file from `from` to its id and delivers exactly the text between. */
  predicate Advances(file: seq<byte>, from: nat, item: Item)
    requires item.Data?
  {
    && from < item.id <= |file|
    && ValidItem(item)
    && TextFrom(file, from) == Normalise(item.text) + TextFrom(file, item.id)
  }

  /** Every event of the items continues where the one before it stopped. */
  predicate Trail(file: seq<byte>, from: nat, items: seq<Item>)
    decreases |items|
  {
    items == [] ||
    if items[0].Data? then Advances(file, from, items[0]) && Trail(file, items[0].id, items[1..])
    else Trail(file, from, items[1..])
  }

  lemma {:induction false} TrailConcat(file: seq<byte>, from: nat, xs: seq<Item>, ys: seq<Item>)
    ensures Trail(file, from, xs + ys) <==> Trail(file, from, xs) && Trail(file, Resume(from, xs), ys)
    ensures Resume(from, xs + ys) == Resume(Resume(from, xs), ys)
    decreases |xs|
  {
    hide Advances;
    if xs == [] {
      Whole(ys);
    } else {
      ConcatSplitsIn(xs, ys, 1);
      TrailConcat(file, if xs[0].Data? then xs[0].id else from, xs[1..], ys);
    }
  }

  lemma {:induction false} DeliveredConcat(xs: seq<Item>, ys: seq<Item>)
    ensures Delivered(xs + ys) == Delivered(xs) + Delivered(ys)
    decreases |xs|
  {
    hide Normalise;
    if xs == [] {
      Whole(ys);
      Whole(Delivered(ys));
    } else {
      ConcatSplitsIn(xs, ys, 1);
      DeliveredConcat(xs[1..], ys);
      Associate(if xs[0].Data? then Normalise(xs[0].text) else [], Delivered(xs[1..]), Delivered(ys));
    }
  }

  /** Nothing lost, nothing repeated: the text behind `from` is what the items deliver and what is left. */
  lemma {:induction false} TrailDelivers(file: seq<byte>, from: nat, items: seq<Item>)
    requires Trail(file, from, items)
    ensures TextFrom(file, from) == Delivered(items) + TextFrom(file, Resume(from, items))
    ensures from <= Resume(from, items)
    ensures Resume(from, items) <= |file| || Resume(from, items) == from
    decreases |items|
  {
    hide Normalise, TextFrom;
    if items == [] {
      Whole(TextFrom(file, from));
    } else if items[0].Data? {
      TrailDelivers(file, items[0].id, items[1..]);
      Associate(Normalise(items[0].text), Delivered(items[1..]), TextFrom(file, Resume(from, items)));
    } else {
      TrailDelivers(file, from, items[1..]);
      Whole(Delivered(items[1..]));
    }
  }

  lemma {:induction false} TrailIsValid(file: seq<byte>, from: nat, items: seq<Item>)
    requires Trail(file, from, items)
    ensures forall item :: item in items ==> ValidItem(item)
    decreases |items|
  {
    hide TextFrom;
    if items != [] {
      TrailIsValid(file, if items[0].Data? then items[0].id else from, items[1..]);
    }
  }

  /** The ids of the events strictly increase. */
  lemma {:induction false} IdsIncrease(file: seq<byte>, from: nat, items: seq<Item>, i: nat, j: nat)
    requires Trail(file, from, items) && i < j < |items| && items[i].Data? && items[j].Data?
    ensures from < items[i].id < items[j].id <= |file|
    decreases |items|
  {
    hide TextFrom, ValidItem;
    var next := if items[0].Data? then items[0].id else from;
    if i > 0 {
      IdsIncrease(file, next, items[1..], i - 1, j - 1);
    } else {
      IdBehind(file, next, items[1..], j - 1);
    }
  }

  lemma {:induction false} IdBehind(file: seq<byte>, from: nat, items: seq<Item>, j: nat)
    requires Trail(file, from, items) && j < |items| && items[j].Data?
    ensures from < items[j].id <= |file|
    decreases |items|
  {
    hide TextFrom, ValidItem;
    if j > 0 {
      IdBehind(file, if items[0].Data? then items[0].id else from, items[1..], j - 1);
    }
  }
}
