/**
 The client's reconnect loop (sdks/typescript/src/streaming.ts) against a network that may
 drop every connection anywhere: a run that ends normally has yielded the canonical text of
 the whole file, and nothing twice.
 */
module StreamReader {
  import opened SeqLaws
  import opened Utf8
  import opened LineText
  import opened Decimal
  import opened Options
  import opened SseWire
  import opened SseWriter
  import opened SseParser
  import opened StreamOutput

  const MAX_RECONNECTS: nat := 5
  const RETRY_DELAY_MS: int := 1_000

  // ----- The network -------------------------------------------------------------------

  /** How a response body ends: orderly, with a transport error, or with any other exception. */
  datatype Ending = Closed | Dropped | Fault

  /** What one request comes to. */
  datatype Attempt =
    | Unreachable
    | Fault
    | Answer(status: nat, hasBody: bool, eventStream: bool, chunks: seq<seq<byte>>, ending: Ending)

  /** The outcome of the n-th request of a run, given its Last-Event-ID header. */
  type Network = (nat, Option<seq<byte>>) -> Attempt

  predicate IsStream(a: Attempt) {
    a.Answer? && a.status < 400 && a.hasBody && a.eventStream
  }

  /** An answer without a body, which the client takes for the end of the stream. */
  predicate Bodyless(a: Attempt) {
    a.Answer? && a.status < 400 && !a.hasBody
  }

  predicate Transient(status: nat) {
    status in {502, 503, 504}
  }

  /** An answer behind which the client tries again. */
  predicate IsRetried(a: Attempt) {
    || a.Unreachable?
    || (a.Answer? && Transient(a.status))
    || (IsStream(a) && a.ending.Dropped?)
  }

  /** An answer behind which the client is done. */
  predicate IsEnd(a: Attempt) {
    Bodyless(a) || (IsStream(a) && a.ending.Closed?)
  }

  /** The header of a client that has read the text in front of this offset. */
  function AskingFor(n: nat): Option<seq<byte>> {
    if n == 0 then None else Some(FormatInt(n))
  }

  /** The bytes of a body are a front part of a session's wire; an orderly end means all of it. */
  predicate Carries(file: seq<byte>, from: nat, a: Attempt, items: seq<Item>)
    requires IsStream(a)
  {
    && Trail(file, from, items)
    && Flatten(a.chunks) <= Wire(items)
    && (a.ending.Closed? ==> Flatten(a.chunks) == Wire(items) && TextFrom(file, Resume(from, items)) == [])
  }

  /**
   Every event stream the network answers with carries a session of the sidecar that starts at
   the requested offset. Everything else, the schedule of failures included, is arbitrary.
   */
  ghost predicate Serves(file: seq<byte>, net: Network) {
    forall n: nat, id: Option<seq<byte>> :: IsStream(net(n, id)) ==>
      var from := ParseLastEventID(if id.None? then [] else id.value);
      from.Ok? && exists items :: Carries(file, from.value, net(n, id), items)
  }

  /**
   What reached the client is a front part of what the sidecar sent, cut into any chunks; an orderly end is
   its own.
   */
  ghost predicate HandsOn(file: seq<byte>, offset: nat, a: Attempt, sent: seq<byte>, complete: bool)
    requires IsStream(a)
  {
    && SessionSent(file, offset, sent, complete) && Flatten(a.chunks) <= sent
    && (a.ending.Closed? ==> complete && Flatten(a.chunks) == sent)
  }

  /** Every event stream comes from a run of Stream at the requested offset. */
  ghost predicate SidecarAnswers(file: seq<byte>, net: Network) {
    forall n: nat, id: Option<seq<byte>> :: IsStream(net(n, id)) ==>
      var from := ParseLastEventID(if id.None? then [] else id.value);
      from.Ok? && exists sent, complete :: HandsOn(file, from.value, net(n, id), sent, complete)
  }

  lemma SidecarIsCarried(file: seq<byte>, offset: nat, a: Attempt, sent: seq<byte>, complete: bool)
    requires IsStream(a) && HandsOn(file, offset, a, sent, complete)
    ensures exists items :: Carries(file, offset, a, items)
  {
    hide Trail, Wire, TextFrom, Resume, Flatten;
    var items :| SessionOf(file, offset, items, sent, complete);
    assert Carries(file, offset, a, items);
  }

  /** So the runs of Stream, cut and chunked by any network, are all that Generate needs. */
  lemma SidecarServes(file: seq<byte>, net: Network)
    requires SidecarAnswers(file, net)
    ensures Serves(file, net)
  {
    hide HandsOn, Carries, ParseLastEventID;
    forall n: nat, id: Option<seq<byte>> | IsStream(net(n, id))
      ensures var from := ParseLastEventID(if id.None? then [] else id.value);
              from.Ok? && exists items :: Carries(file, from.value, net(n, id), items)
    {
      var from := ParseLastEventID(if id.None? then [] else id.value);
      var sent, complete :| HandsOn(file, from.value, net(n, id), sent, complete);
      SidecarIsCarried(file, from.value, net(n, id), sent, complete);
    }
  }

  /** A network that answers every request without a body serves every file; the run completes with no text at all. */
  lemma SilenceServes(file: seq<byte>, status: nat)
    requires status < 400
    ensures var net: Network := (n, id) => Answer(status, false, true, [], Closed);
            Serves(file, net) && SidecarAnswers(file, net) && Bodyless(net(0, None))
  {}

  // ----- The requests of one run -------------------------------------------------------------

  /** One request, and how far the text in front of which offset has got behind its answer. */
  datatype Request = Request(from: nat, to: nat)

  /** A stream moves the client behind the last event that is complete in it, anything else not at all. */
  ghost predicate Moves(file: seq<byte>, a: Attempt, from: nat, to: nat) {
    if IsStream(a)
    then exists items ::
           && Carries(file, from, a, items)
           && to == Resume(from, items[..WholeItems(items, |Flatten(a.chunks)|)])
    else to == from
  }

  function AnswerTo(net: Network, log: seq<Request>, k: nat): Attempt
    requires k < |log|
  {
    net(k, AskingFor(log[k].from))
  }

  /** Every request asks for the offset the one before has led to. */
  ghost predicate IsLog(file: seq<byte>, net: Network, log: seq<Request>) {
    forall k :: 0 <= k < |log| ==>
      && log[k].from == (if k == 0 then 0 else log[k - 1].to) && log[k].from <= log[k].to
      && Moves(file, AnswerTo(net, log, k), log[k].from, log[k].to)
  }

  /** More requests than reconnects are allowed, and all but the first of the last of them have led nowhere. */
  predicate Exhausted(log: seq<Request>, n: nat)
    requires n <= |log|
  {
    n > MAX_RECONNECTS && forall k :: n - MAX_RECONNECTS <= k < n ==> log[k].from == log[k].to
  }

  /** Behind the first n requests there is another one. */
  predicate GoesOn(net: Network, log: seq<Request>, n: nat)
    requires 0 < n <= |log|
  {
    IsRetried(AnswerTo(net, log, n - 1)) && !Exhausted(log, n)
  }

  /**
   The requests of a whole run: it goes on exactly as long as answers can be tried again behind and the
   reconnects, counted from the last one that delivered text, are not used up.
   */
  ghost predicate IsRun(file: seq<byte>, net: Network, log: seq<Request>) {
    log != [] && IsFront(file, net, log) && !GoesOn(net, log, |log|)
  }

  /** The requests so far: behind each but the last there was another one. */
  ghost predicate IsFront(file: seq<byte>, net: Network, log: seq<Request>) {
    IsLog(file, net, log) && forall n :: 0 < n < |log| ==> GoesOn(net, log, n)
  }

  // ----- What the events do to the client -------------------------------------------------

  datatype Client = Client(lastId: Option<seq<byte>>, out: seq<byte>, reconnects: nat, delay: int)

  function Absorb(c: Client, e: Event): Client {
    var withId := if e.id.Some? && e.id.value != [] then c.(lastId := e.id) else c;
    var withDelay := if e.retryMs.Some? then withId.(delay := e.retryMs.value) else withId;
    if e.data != [] then withDelay.(reconnects := 0, out := withDelay.out + e.data) else withDelay
  }

  function AbsorbAll(c: Client, events: seq<Event>): Client
    decreases |events|
  {
    if events == [] then c else AbsorbAll(Absorb(c, events[0]), events[1..])
  }

  lemma AbsorbNext(c: Client, events: seq<Event>, i: nat)
    requires i < |events|
    ensures AbsorbAll(c, events[i..]) == AbsorbAll(Absorb(c, events[i]), events[i + 1..])
  {
    hide Absorb;
    DropStep(events, i);
  }

  lemma AbsorbNothing(c: Client, events: seq<Event>)
    ensures AbsorbAll(c, events[|events|..]) == c
  {}

  lemma {:induction false} AbsorbConcat(c: Client, a: seq<Event>, b: seq<Event>)
    ensures AbsorbAll(c, a + b) == AbsorbAll(AbsorbAll(c, a), b)
    decreases |a|
  {
    hide Absorb;
    if a == [] {
      Whole(b);
    } else {
      ConcatSplitsIn(a, b, 1);
      AbsorbConcat(Absorb(c, a[0]), a[1..], b);
    }
  }

  /** The client has read exactly the text in front of offset n and asks for n next. */
  predicate At(file: seq<byte>, c: Client, n: nat) {
    && n <= |file|
    && c.lastId == AskingFor(n)
    && c.out + TextFrom(file, n) == Canon(file)
  }

  lemma AtStart(file: seq<byte>, c: Client)
    requires c.lastId == None && c.out == []
    ensures At(file, c, 0)
  {
    Whole(file);
    Whole(Canon(file));
  }

  lemma AsksFor(file: seq<byte>, c: Client, n: nat)
    requires At(file, c, n) && |file| <= MAX_INT64
    ensures ParseLastEventID(if c.lastId.None? then [] else c.lastId.value) == Ok(n)
  {
    LastEventIDRoundTrip(n);
  }

  /** One item moves the client to the item's id, and costs no reconnect. */
  lemma AbsorbItem(file: seq<byte>, c: Client, from: nat, text: seq<byte>, id: nat)
    requires At(file, c, from) && Advances(file, from, Data(text, id))
    ensures AbsorbAll(c, EventsOf(Data(text, id))) == Absorb(c, EventsOf(Data(text, id))[0])
    ensures var d := Absorb(c, EventsOf(Data(text, id))[0]);
            At(file, d, id) && d.reconnects == 0 && d.out == c.out + Normalise(text)
  {
    hide Normalise, TextFrom, Canon;
    NormaliseKeepsText(text);
    assert EventsOf(Data(text, id))[1..] == [];
    Associate(c.out, Normalise(text), TextFrom(file, id));
  }

  /** The events of a session move the client along the session's trail. */
  lemma {:induction false} AbsorbTrail(file: seq<byte>, c: Client, from: nat, items: seq<Item>)
    requires At(file, c, from) && Trail(file, from, items)
    ensures var d := AbsorbAll(c, AllEvents(items));
            && At(file, d, Resume(from, items))
            && d.out == c.out + Delivered(items)
            && (if Resume(from, items) == from then d.reconnects == c.reconnects else d.reconnects == 0)
    ensures from <= Resume(from, items)
    decreases |items|
  {
    hide Advances, At, Absorb, Normalise, EventsOf;
    if items == [] {
      Whole(c.out);
    } else {
      StepOfTrail(file, c, from, items[0]);
      var next := if items[0].Data? then items[0].id else from;
      var d := AbsorbAll(c, EventsOf(items[0]));
      AbsorbConcat(c, EventsOf(items[0]), AllEvents(items[1..]));
      AbsorbTrail(file, d, next, items[1..]);
      Associate(c.out, if items[0].Data? then Normalise(items[0].text) else [], Delivered(items[1..]));
    }
  }

  lemma StepOfTrail(file: seq<byte>, c: Client, from: nat, item: Item)
    requires At(file, c, from) && (item.Data? ==> Advances(file, from, item))
    ensures var d := AbsorbAll(c, EventsOf(item));
            && At(file, d, if item.Data? then item.id else from)
            && d.out == c.out + (if item.Data? then Normalise(item.text) else [])
            && d.reconnects == (if item.Data? then 0 else c.reconnects)
    ensures item.Data? ==> from < item.id
  {
    match item
    case Keepalive => Whole(c.out);
    case Data(text, id) =>
      AbsorbItem(file, c, from, text, id);
      hide *;
  }

  lemma {:induction false} TrailFront(file: seq<byte>, from: nat, items: seq<Item>, k: nat)
    requires Trail(file, from, items) && k <= |items|
    ensures Trail(file, from, items[..k])
  {
    SplitAt(items, k);
    TrailConcat(file, from, items[..k], items[k..]);
  }

  /**
   At every event a session has emitted, what was delivered so far and the canonical text from the
   last id on make up the canonical text from the start: a fresh session there continues seamlessly.
   Different writers may have served the two parts.
   */
  lemma ResumeIsSeamless(file: seq<byte>, from: nat, items: seq<Item>, k: nat, later: seq<Item>)
    requires Trail(file, from, items) && k <= |items| && Trail(file, Resume(from, items[..k]), later)
    ensures TextFrom(file, from) == Delivered(items[..k]) + TextFrom(file, Resume(from, items[..k]))
    ensures TextFrom(file, from) ==
            Delivered(items[..k] + later) + TextFrom(file, Resume(Resume(from, items[..k]), later))
  {
    hide *;
    TrailFront(file, from, items, k);
    TrailDelivers(file, from, items[..k]);
    TrailConcat(file, from, items[..k], later);
    TrailDelivers(file, from, items[..k] + later);
  }

  /**
   A connection that breaks anywhere leaves the client at an offset it can resume from, with
   exactly the text in front of that offset; one that ends orderly leaves it with all of it.
   */
  lemma SessionSettles(file: seq<byte>, c: Client, from: nat, a: Attempt, items: seq<Item>)
    requires At(file, c, from) && IsStream(a) && Carries(file, from, a, items)
    ensures var st := Feed(INITIAL, Flatten(a.chunks));
            var k := WholeItems(items, |Flatten(a.chunks)|);
            var d := AbsorbAll(c, st.events);
            var next := Resume(from, items[..k]);
            && At(file, d, next) && from <= next
            && (if next == from then d.reconnects == c.reconnects else d.reconnects == 0)
            && (a.ending.Closed? ==> d.out == Canon(file) && AtEnd(st.st).events == [])
  {
    var bytes := Flatten(a.chunks);
    var k := WholeItems(items, |bytes|);
    assert bytes == Wire(items)[..|bytes|];
    hide Trail, Wire, Flatten, ItemBytes, Feed, Advances, TextFrom, AllEvents, WholeItems, AbsorbAll, AtEnd, ValidItem;
    hide At, Resume;
    TrailIsValid(file, from, items);
    ParseUndoesPrint(INITIAL, items, |bytes|);
    TrailFront(file, from, items, k);
    AbsorbTrail(file, c, from, items[..k]);
    if a.ending.Closed? {
      Whole(items);
      NothingAtEnd(Feed(INITIAL, bytes).st);
      AllRead(file, AbsorbAll(c, AllEvents(items)), Resume(from, items));
    }
  }

  lemma AllRead(file: seq<byte>, c: Client, n: nat)
    requires At(file, c, n) && TextFrom(file, n) == []
    ensures c.out == Canon(file)
  {
    Whole(c.out);
  }

  lemma Standing(file: seq<byte>, c: Client, n: nat)
    requires At(file, c, n)
    ensures n <= |file| && c.lastId == AskingFor(n) && c.out + TextFrom(file, n) == Canon(file)
  {}

  // ----- The reader ------------------------------------------------------------------------------

  datatype Outcome = Completed | Threw

  class Reader {
    var lastEventId: Option<seq<byte>>
    var consumed: bool
    var retryDelayMs: int

    constructor ()
      ensures lastEventId == None && !consumed && retryDelayMs == RETRY_DELAY_MS
    {
      lastEventId, consumed, retryDelayMs := None, false, RETRY_DELAY_MS;
    }

    /** The events of one chunk: remember ids and delays, yield text, and restore the budget. */
    method Take(events: seq<Event>, out0: seq<byte>, reconnects0: nat) returns (out: seq<byte>, reconnects: nat)
      modifies this`lastEventId, this`retryDelayMs
      ensures Client(lastEventId, out, reconnects, retryDelayMs)
              == AbsorbAll(Client(old(lastEventId), out0, reconnects0, old(retryDelayMs)), events)
    {
      hide AbsorbAll;
      out, reconnects := out0, reconnects0;
      ghost var start := Client(lastEventId, out, reconnects, retryDelayMs);
      Whole(events);
      for i := 0 to |events|
        invariant AbsorbAll(start, events) == AbsorbAll(Client(lastEventId, out, reconnects, retryDelayMs), events[i..])
      {
        var event := events[i];
        AbsorbNext(Client(lastEventId, out, reconnects, retryDelayMs), events, i);
        if event.id.Some? && event.id.value != [] {
          lastEventId := event.id;
        }
        if event.retryMs.Some? {
          retryDelayMs := event.retryMs.value;
        }
        if event.data != [] {
          reconnects := 0;
          out := out + event.data;
        }
      }
      AbsorbNothing(Client(lastEventId, out, reconnects, retryDelayMs), events);
    }

    /** Reads one response body to its end, or to the point where it breaks. */
    method ReadBody(chunks: seq<seq<byte>>, ending: Ending, out0: seq<byte>, reconnects0: nat)
      returns (out: seq<byte>, reconnects: nat)
      modifies this`lastEventId, this`retryDelayMs
      ensures var st := Feed(INITIAL, Flatten(chunks));
              Client(lastEventId, out, reconnects, retryDelayMs)
              == AbsorbAll(Client(old(lastEventId), out0, reconnects0, old(retryDelayMs)),
                           st.events + if ending.Closed? then AtEnd(st.st).events else [])
    {
      hide Feed, AtEnd, AbsorbAll, Flatten;
      var parser := new EventParser();
      out, reconnects := out0, reconnects0;
      ghost var start := Client(lastEventId, out, reconnects, retryDelayMs);
      ghost var events := [];
      NothingYetRead(start, chunks);
      for i := 0 to |chunks|
        invariant fresh(parser) && parser.Valid()
        invariant Parsed(parser.Current(), events) == Feed(INITIAL, Flatten(chunks[..i]))
        invariant Client(lastEventId, out, reconnects, retryDelayMs) == AbsorbAll(start, events)
      {
        FlattenNext(chunks, i);
        FeedConcat(INITIAL, Flatten(chunks[..i]), chunks[i]);
        var found := parser.ReadChunk(chunks[i]);
        AbsorbConcat(start, events, found);
        events := events + found;
        out, reconnects := Take(found, out, reconnects);
      }
      Whole(chunks);
      Whole(events);
      if ending.Closed? {
        var found := parser.ReadEnd();
        AbsorbConcat(start, events, found);
        out, reconnects := Take(found, out, reconnects);
      }
    }

    /**
     _generate: `out` is everything it yields. For every output file and every network that serves it, the
     loop terminates, and what was not yielded is the canonical text from the last offset on. It asks again
     behind exactly the answers it can, within its budget, and ends normally exactly behind a stream that
     ended orderly, which has delivered all text, or an answer without a body: then the rest is missing.
     */
    method Generate(net: Network, ghost file: seq<byte>)
      returns (out: seq<byte>, outcome: Outcome, ghost log: seq<Request>)
      requires |file| <= MAX_INT64 && Serves(file, net)
      requires lastEventId == None
      modifies this`lastEventId, this`retryDelayMs
      ensures IsRun(file, net, log)
      ensures out + TextFrom(file, log[|log| - 1].to) == Canon(file)
      ensures outcome.Completed? <==> IsEnd(AnswerTo(net, log, |log| - 1))
      ensures outcome.Completed? && !Bodyless(AnswerTo(net, log, |log| - 1)) ==> out == Canon(file)
    {
      hide Feed, AtEnd, AbsorbAll, Flatten, Carries, Canon, ParseLastEventID, TextFrom, At, Resume, WholeItems, Moves;
      hide IsFront, GoesOn, Exhausted, Since;
      var reconnects: nat, n: nat := 0, 0;
      out, log := [], [];
      ghost var offset: nat := 0;
      AtStart(file, Client(lastEventId, out, reconnects, retryDelayMs));
      NothingAsked(file, net);
      while true
        invariant At(file, Client(lastEventId, out, reconnects, retryDelayMs), offset)
        invariant offset <= |file| && reconnects <= MAX_RECONNECTS
        invariant |log| == n && offset == (if n == 0 then 0 else log[n - 1].to)
        invariant IsFront(file, net, log) && (n > 0 ==> GoesOn(net, log, n)) && Since(log, reconnects)
        decreases |file| - offset, MAX_RECONNECTS + 1 - reconnects
      {
        ghost var client, from, before := Client(lastEventId, out, reconnects, retryDelayMs), offset, log;
        Standing(file, client, offset);
        AsksFor(file, client, offset);
        var a := net(n, lastEventId);
        n := n + 1;
        MovesNowhere(file, a, from);
        var retry := a.Unreachable?;
        if IsStream(a) {
          ghost var items :| Carries(file, offset, a, items);
          SessionSettles(file, client, offset, a, items);
          offset := Resume(offset, items[..WholeItems(items, |Flatten(a.chunks)|)]);
          MovesTo(file, a, from, items);
        }
        log := before + [Request(from, offset)];
        LogGrows(file, net, before, Request(from, offset));
        SinceNext(before, reconnects, Request(from, offset));
        GoesOnMeans(net, log);
        if a.Answer? {
          if a.status >= 400 {
            retry := Transient(a.status);
          } else if !a.hasBody {
            return out, Completed, log;
          } else if a.eventStream {
            out, reconnects := ReadBody(a.chunks, a.ending, out, reconnects);
            Whole(Feed(INITIAL, Flatten(a.chunks)).events);
            Standing(file, Client(lastEventId, out, reconnects, retryDelayMs), offset);
            if a.ending.Closed? {
              return out, Completed, log;
            }
            retry := a.ending.Dropped?;
          }
        }
        if !retry {
          return out, Threw, log;
        }
        reconnects := reconnects + 1;
        SinceMeans(log, reconnects);
        if reconnects > MAX_RECONNECTS {
          return out, Threw, log;
        }
        BudgetIrrelevant(file, Client(lastEventId, out, reconnects - 1, retryDelayMs), reconnects, offset);
      }
    }

    /** iter: a reader can be read once. */
    method Iterate(net: Network, ghost file: seq<byte>)
      returns (out: seq<byte>, outcome: Outcome, ghost log: seq<Request>)
      requires |file| <= MAX_INT64 && Serves(file, net)
      requires !consumed ==> lastEventId == None
      modifies this
      ensures consumed
      ensures old(consumed) ==> outcome.Threw? && out == [] && log == []
      ensures !old(consumed) ==>
                && IsRun(file, net, log) && out + TextFrom(file, log[|log| - 1].to) == Canon(file)
                && (outcome.Completed? <==> IsEnd(AnswerTo(net, log, |log| - 1)))
                && (outcome.Completed? && !Bodyless(AnswerTo(net, log, |log| - 1)) ==> out == Canon(file))
    {
      hide IsRun, Canon, TextFrom;
      if consumed {
        return [], Threw, [];
      }
      consumed := true;
      out, outcome, log := Generate(net, file);
    }
  }

  /** reconnects counts the requests since the last one that delivered text. */
  predicate Since(log: seq<Request>, reconnects: nat) {
    && reconnects <= |log| && (log != [] ==> reconnects > 0)
    && (forall k :: |log| - reconnects < k < |log| ==> log[k].from == log[k].to)
    && (reconnects < |log| ==> log[|log| - reconnects].from < log[|log| - reconnects].to)
  }

  lemma SinceNext(log: seq<Request>, reconnects: nat, next: Request)
    requires Since(log, reconnects) && next.from <= next.to
    ensures Since(log + [next], if next.from == next.to then reconnects + 1 else 1)
  {}

  lemma SinceMeans(log: seq<Request>, reconnects: nat)
    requires Since(log, reconnects) && reconnects <= MAX_RECONNECTS + 1
    ensures Exhausted(log, |log|) <==> reconnects > MAX_RECONNECTS
  {}

  lemma MovesTo(file: seq<byte>, a: Attempt, from: nat, items: seq<Item>)
    requires IsStream(a) && Carries(file, from, a, items)
    ensures Moves(file, a, from, Resume(from, items[..WholeItems(items, |Flatten(a.chunks)|)]))
  {}

  lemma MovesNowhere(file: seq<byte>, a: Attempt, from: nat)
    ensures !IsStream(a) ==> Moves(file, a, from, from)
  {}

  lemma NothingAsked(file: seq<byte>, net: Network)
    ensures IsFront(file, net, []) && Since([], 0)
  {}

  lemma GoesOnMeans(net: Network, log: seq<Request>)
    requires log != []
    ensures GoesOn(net, log, |log|) <==> IsRetried(AnswerTo(net, log, |log| - 1)) && !Exhausted(log, |log|)
  {}

  lemma LogGrows(file: seq<byte>, net: Network, log: seq<Request>, next: Request)
    requires IsFront(file, net, log) && next.from <= next.to && (log != [] ==> GoesOn(net, log, |log|))
    requires next.from == (if log == [] then 0 else log[|log| - 1].to)
    requires Moves(file, net(|log|, AskingFor(next.from)), next.from, next.to)
    ensures IsFront(file, net, log + [next])
  {
    hide Moves;
    var more := log + [next];
    forall n | 0 < n < |more|
      ensures GoesOn(net, more, n)
    {
      assert GoesOn(net, log, n);
      assert forall k :: 0 <= k < n ==> more[k] == log[k];
    }
  }

  lemma BudgetIrrelevant(file: seq<byte>, c: Client, reconnects: nat, n: nat)
    requires At(file, c, n)
    ensures At(file, c.(reconnects := reconnects), n)
  {}

  lemma NothingYetRead(c: Client, chunks: seq<seq<byte>>)
    ensures Feed(INITIAL, Flatten(chunks[..0])) == Parsed(INITIAL, [])
    ensures AbsorbAll(c, []) == c
  {
    assert chunks[..0] == [];
    FeedEmpty(INITIAL);
  }

  lemma FlattenNext<T>(parts: seq<seq<T>>, i: nat)
    requires i < |parts|
    ensures Flatten(parts[..i + 1]) == Flatten(parts[..i]) + parts[i]
  {
    assert parts[..i + 1] == parts[..i] + [parts[i]];
    FlattenBehind(parts[..i], parts[i]);
  }

  lemma {:induction false} FlattenBehind<T>(parts: seq<seq<T>>, last: seq<T>)
    ensures Flatten(parts + [last]) == Flatten(parts) + last
    decreases |parts|
  {
    if parts == [] {
      assert [last][1..] == [] && [] + [last] == [last];
      Whole(last);
    } else {
      ConcatSplitsIn(parts, [last], 1);
      FlattenBehind(parts[1..], last);
      Associate(parts[0], Flatten(parts[1..]), last);
    }
  }
}
