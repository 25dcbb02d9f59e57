/**
 The sidecar's side of one connection: the resume offset a client asks for, and the loop
 that follows a growing output file until its process is done and everything is drained.
 */
module StreamOutput {
  import opened SeqLaws
  import opened Utf8
  import opened LineText
  import opened Decimal
  import opened Options
  import opened SseWire
  import opened SseWriter

  const BUFFER_SIZE: nat := 32 * 1024

  datatype Result<+T> = Ok(value: T) | BadRequest

  /** parseLastEventID: an empty header starts at 0, anything else has to be a non-negative int64. */
  function ParseLastEventID(id: seq<byte>): (r: Result<nat>) {
    if id == [] then Ok(0)
    else match ParseInt(id)
      case None => BadRequest
      case Some(offset) => if offset < 0 then BadRequest else Ok(offset)
  }

  /** The offset of an emitted id is the offset the sidecar resumes from. */
  lemma LastEventIDRoundTrip(n: nat)
    requires n <= MAX_INT64
    ensures ParseLastEventID(FormatInt(n)) == Ok(n)
  {
    ParseUndoesFormat(n);
  }

  /** A sign that ParseInt takes before this number, if it is not to become negative. */
  predicate HarmlessSign(sign: seq<byte>, n: nat) {
    sign == [] || sign == [43] || (sign == [45] && n == 0)
  }

  /** An offset as a header may give it: a sign and zeros before the number do not matter. */
  ghost predicate Denotes(id: seq<byte>, n: nat) {
    || (id == [] && n == 0)
    || (n <= MAX_INT64 && exists sign, k :: HarmlessSign(sign, n) && id == sign + (Zeros(k) + FormatInt(n)))
  }

  /** Exactly the headers that denote an offset are accepted, and with that offset. */
  lemma AcceptedIffDenoted(id: seq<byte>, n: nat)
    ensures ParseLastEventID(id) == Ok(n) <==> Denotes(id, n)
  {
    hide FormatInt, Value, Zeros;
    if id != [] && ParseLastEventID(id) == Ok(n) {
      var signed := id[0] == 43 || id[0] == 45;
      var sign, digits := if signed then [id[0]] else [], if signed then id[1..] else id;
      var k := DigitsOf(digits);
      assert id == sign + (Zeros(k) + FormatInt(n)) && HarmlessSign(sign, n);
    }
    if sign, k :| n <= MAX_INT64 && HarmlessSign(sign, n) && id == sign + (Zeros(k) + FormatInt(n)) {
      ValueOfFormat(n);
      LeadingZeros(k, FormatInt(n));
      SignedDigits(sign, Zeros(k) + FormatInt(n), n);
    }
  }

  lemma SignedDigits(sign: seq<byte>, digits: seq<byte>, n: nat)
    requires digits != [] && AllDigits(digits) && Value(digits) == n <= MAX_INT64 && HarmlessSign(sign, n)
    ensures ParseLastEventID(sign + digits) == Ok(n)
  {
    hide Value;
    assert IsDigit(digits[0]);
    assert sign == [] ==> sign + digits == digits;
    assert sign != [] ==> (sign + digits)[1..] == digits;
  }

  /** What the select in one idle iteration of the loop picks. */
  datatype Signal = ProcessExited | ClientGone | KeepaliveDue | NothingYet

  /**
   The environment of one iteration: how much of the output the file holds by then, how much
   a read returns at most, whether the read fails, and what the select picks if it is reached.
   */
  datatype Tick = Tick(visible: nat, take: nat, readFails: bool, signal: Signal)

  /** The file only grows, and is complete in every iteration behind the process's exit. */
  predicate Follows(file: seq<byte>, ticks: seq<Tick>) {
    && (forall i :: 0 <= i < |ticks| ==> ticks[i].visible <= |file|)
    && (forall i, j :: 0 <= i < j < |ticks| && ticks[i].signal.ProcessExited? ==> ticks[j].visible == |file|)
  }

  // ----- What a schedule comes to -------------------------------------------------------------

  /** How much one read returns: something, if there is anything. */
  function ReadLen(tick: Tick, pos: nat): (n: nat)
    requires pos < tick.visible
    ensures 1 <= n <= BUFFER_SIZE && pos + n <= tick.visible
  {
    var n := if tick.take == 0 then 1 else if tick.take > BUFFER_SIZE then BUFFER_SIZE else tick.take;
    if n > tick.visible - pos then tick.visible - pos else n
  }

  /** The read position before iteration i, as long as nothing ends the loop. */
  function Position(offset: nat, ticks: seq<Tick>, i: nat): (pos: nat)
    requires i <= |ticks|
    ensures offset <= pos
  {
    if i == 0 then offset
    else
      var pos := Position(offset, ticks, i - 1);
      if pos < ticks[i - 1].visible then pos + ReadLen(ticks[i - 1], pos) else pos
  }

  /** Nothing new is found. */
  predicate IsIdle(offset: nat, ticks: seq<Tick>, i: nat)
    requires i < |ticks|
  {
    Position(offset, ticks, i) >= ticks[i].visible
  }

  /** An idle iteration before has picked the process's exit. */
  predicate HasExited(offset: nat, ticks: seq<Tick>, i: nat)
    requires i <= |ticks|
  {
    exists j :: 0 <= j < i && IsIdle(offset, ticks, j) && ticks[j].signal.ProcessExited?
  }

  /** Everything there will ever be was read. */
  predicate IsDrained(offset: nat, ticks: seq<Tick>, i: nat)
    requires i < |ticks|
  {
    IsIdle(offset, ticks, i) && HasExited(offset, ticks, i)
  }

  predicate IsInterrupted(offset: nat, ticks: seq<Tick>, i: nat)
    requires i < |ticks|
  {
    || ticks[i].readFails
    || (IsIdle(offset, ticks, i) && !HasExited(offset, ticks, i) && ticks[i].signal.ClientGone?)
  }

  /** The loop gets to iteration n if no write fails, and ends there. */
  predicate EndsAt(offset: nat, ticks: seq<Tick>, n: nat) {
    && n <= |ticks|
    && (forall k :: 0 <= k < n ==> !IsDrained(offset, ticks, k) && !IsInterrupted(offset, ticks, k))
    && (n < |ticks| ==> IsDrained(offset, ticks, n) || IsInterrupted(offset, ticks, n))
  }

  /** How many of the first n iterations send a keepalive. */
  function Due(offset: nat, ticks: seq<Tick>, n: nat): nat
    requires n <= |ticks|
  {
    if n == 0 then 0
    else Due(offset, ticks, n - 1)
         + if IsIdle(offset, ticks, n - 1) && !HasExited(offset, ticks, n - 1) && ticks[n - 1].signal.KeepaliveDue?
           then 1 else 0
  }

  function Keepalives(items: seq<Item>): nat
    decreases |items|
  {
    if items == [] then 0 else (if items[0].Keepalive? then 1 else 0) + Keepalives(items[1..])
  }

  lemma {:induction false} KeepalivesConcat(a: seq<Item>, b: seq<Item>)
    ensures Keepalives(a + b) == Keepalives(a) + Keepalives(b)
    decreases |a|
  {
    if a == [] {
      Whole(b);
    } else {
      ConcatSplitsIn(a, b, 1);
      KeepalivesConcat(a[1..], b);
    }
  }

  /** The bytes of the file from offset n on. */
  function From(file: seq<byte>, n: nat): seq<byte> {
    if n <= |file| then file[n..] else []
  }

  lemma FedAdvances(file: seq<byte>, offset: nat, fed: seq<byte>, data: seq<byte>, items: seq<Item>)
    requires HasAt(file, offset, fed + data)
    requires Trail(file, offset, items) && Resume(offset, items) == offset + SafeLen(fed)
    ensures Trail(file, offset, items + NewItems(offset, fed, data))
    ensures Resume(offset, items + NewItems(offset, fed, data)) == offset + SafeLen(fed + data)
  {
    hide *;
    NewItemsAdvance(file, offset, fed, data);
    TrailConcat(file, offset, items, NewItems(offset, fed, data));
  }

  lemma ReadExtends(file: seq<byte>, offset: nat, fed: seq<byte>, n: nat)
    requires HasAt(file, offset, fed) && offset + |fed| + n <= |file|
    ensures HasAt(file, offset, fed + file[offset + |fed|..offset + |fed| + n])
  {
    var m := offset + |fed|;
    assert file[offset..m + n] == file[offset..m] + file[m..m + n];
  }

  lemma KeepaliveStays(file: seq<byte>, from: nat, items: seq<Item>)
    requires Trail(file, from, items)
    ensures Trail(file, from, items + [Keepalive]) && Resume(from, items + [Keepalive]) == Resume(from, items)
  {
    TrailConcat(file, from, items, [Keepalive]);
  }

  /** All of the file was fed: finishing leaves no text behind. */
  lemma FinishCompletes(file: seq<byte>, offset: nat, fed: seq<byte>, items: seq<Item>)
    requires HasAt(file, offset, fed) && offset + |fed| == |file|
    requires Trail(file, offset, items) && Resume(offset, items) == offset + SafeLen(fed)
    ensures Trail(file, offset, items + LastItems(offset, fed))
    ensures TextFrom(file, Resume(offset, items + LastItems(offset, fed))) == []
  {
    hide *;
    LastItemsAdvance(file, offset, fed);
    TrailConcat(file, offset, items, LastItems(offset, fed));
    NothingBehind(file);
  }

  /** What was sent is a front part of a session from the offset; a complete one leaves no text behind. */
  ghost predicate SessionSent(file: seq<byte>, offset: nat, sent: seq<byte>, complete: bool) {
    exists items :: SessionOf(file, offset, items, sent, complete)
  }

  predicate SessionOf(file: seq<byte>, offset: nat, items: seq<Item>, sent: seq<byte>, complete: bool) {
    && Trail(file, offset, items) && sent <= Wire(items)
    && (complete ==> sent == Wire(items) && TextFrom(file, Resume(offset, items)) == [])
  }

  lemma ReadSoFar(file: seq<byte>, offset: nat, fed: seq<byte>)
    requires offset <= |file| ==> HasAt(file, offset, fed)
    requires offset > |file| ==> fed == []
    ensures fed <= From(file, offset)
    ensures offset + |fed| >= |file| ==> fed == From(file, offset)
  {
    if offset <= |file| {
      assert file[offset..][..|fed|] == fed;
    }
  }

  lemma NothingToFinish(file: seq<byte>, offset: nat, items: seq<Item>)
    requires offset > |file| && Trail(file, offset, items) && Resume(offset, items) == offset
    ensures items + LastItems(offset, []) == items
    ensures TextFrom(file, Resume(offset, items + LastItems(offset, []))) == []
  {}

  /** Between two iterations: the writer was given a front part of the rest of the file and wrote its items. */
  ghost predicate Sending(file: seq<byte>, offset: nat, fed: seq<byte>, items: seq<Item>) {
    && (if offset <= |file| then HasAt(file, offset, fed) else fed == [])
    && Trail(file, offset, items) && Resume(offset, items) == offset + SafeLen(fed)
  }

  lemma SendingStarts(file: seq<byte>, offset: nat)
    ensures Sending(file, offset, [], [])
  {
    hide Trail, Resume, SafeLen;
    TrailNone(file, offset);
    NothingSafe();
  }

  lemma SendingGoesOn(file: seq<byte>, offset: nat, fed: seq<byte>, items: seq<Item>, n: nat)
    requires Sending(file, offset, fed, items) && offset + |fed| + n <= |file|
    ensures var data := file[offset + |fed|..offset + |fed| + n];
            Sending(file, offset, fed + data, items + NewItems(offset, fed, data))
  {
    hide HasAt, Trail, Resume, SafeLen, NewItems;
    ReadExtends(file, offset, fed, n);
    FedAdvances(file, offset, fed, file[offset + |fed|..offset + |fed| + n], items);
  }

  lemma SendingIdles(file: seq<byte>, offset: nat, fed: seq<byte>, items: seq<Item>)
    requires Sending(file, offset, fed, items)
    ensures Sending(file, offset, fed, items + [Keepalive])
  {
    hide HasAt, Trail, Resume, SafeLen;
    KeepaliveStays(file, offset, items);
  }

  lemma SendingEnds(file: seq<byte>, offset: nat, fed: seq<byte>, items: seq<Item>)
    requires Sending(file, offset, fed, items) && offset + |fed| >= |file|
    ensures var all := items + LastItems(offset, fed);
            Trail(file, offset, all) && TextFrom(file, Resume(offset, all)) == []
  {
    hide HasAt, Trail, Resume, LastItems, TextFrom;
    if offset <= |file| {
      ReadFits(file, offset, fed);
      FinishCompletes(file, offset, fed, items);
    } else {
      NothingSafe();
      NothingToFinish(file, offset, items);
    }
  }

  lemma ReadFits(file: seq<byte>, offset: nat, fed: seq<byte>)
    requires HasAt(file, offset, fed)
    ensures offset + |fed| <= |file|
  {}

  lemma SendingIsFront(file: seq<byte>, offset: nat, fed: seq<byte>, items: seq<Item>)
    requires Sending(file, offset, fed, items)
    ensures Trail(file, offset, items) && fed <= From(file, offset)
    ensures offset + |fed| >= |file| ==> fed == From(file, offset)
  {
    hide Trail, Resume, SafeLen;
    ReadSoFar(file, offset, fed);
  }

  lemma PartSent(file: seq<byte>, offset: nat, items: seq<Item>, sent: seq<byte>)
    requires Trail(file, offset, items) && sent <= Wire(items)
    ensures SessionOf(file, offset, items, sent, false)
  {}

  lemma AllSent(file: seq<byte>, offset: nat, items: seq<Item>)
    requires Trail(file, offset, items) && TextFrom(file, Resume(offset, items)) == []
    ensures SessionOf(file, offset, items, Wire(items), true)
  {}

  lemma NoNewKeepalives(items: seq<Item>, base: nat, fed: seq<byte>, data: seq<byte>)
    ensures Keepalives(items + NewItems(base, fed, data)) == Keepalives(items)
  {
    hide SafeLen, Sanitize;
    KeepalivesConcat(items, NewItems(base, fed, data));
  }

  lemma NoLastKeepalives(items: seq<Item>, base: nat, fed: seq<byte>)
    ensures Keepalives(items + LastItems(base, fed)) == Keepalives(items)
  {
    hide SafeLen, Sanitize;
    KeepalivesConcat(items, LastItems(base, fed));
  }

  lemma OneMoreKeepalive(items: seq<Item>)
    ensures Keepalives(items + [Keepalive]) == Keepalives(items) + 1
  {
    KeepalivesConcat(items, [Keepalive]);
  }

  /** One read of at most a buffer's length, written on. */
  method ReadStep(sse: Writer, file: seq<byte>, ghost offset: nat, pos: nat, tick: Tick) returns (ok: bool, n: nat)
    requires sse.Valid() && sse.base == offset && Sending(file, offset, sse.fed, sse.items)
    requires offset + |sse.fed| == pos < tick.visible <= |file|
    modifies sse
    ensures sse.base == offset && sse.w <= Wire(sse.items) && Sending(file, offset, sse.fed, sse.items)
    ensures |sse.fed| == old(|sse.fed|) + n && n == ReadLen(tick, pos)
    ensures ok ==> sse.Valid() && sse.failures == old(sse.failures)
    ensures !ok ==> sse.failures > 0
    ensures Keepalives(sse.items) == old(Keepalives(sse.items))
  {
    hide Sending, NewItems, Wire, SafeLen, Keepalives, Writer.Valid;
    n := ReadLen(tick, pos);
    hide ReadLen;
    var data := file[pos..pos + n];
    NoNewKeepalives(sse.items, offset, sse.fed, data);
    SendingGoesOn(file, offset, sse.fed, sse.items, n);
    ok := sse.WriteData(data);
  }

  method KeepaliveStep(sse: Writer, ghost file: seq<byte>, ghost offset: nat) returns (ok: bool)
    requires sse.Valid() && Sending(file, offset, sse.fed, sse.items)
    modifies sse`w, sse`items, sse`failures
    ensures sse.w <= Wire(sse.items) && Sending(file, offset, sse.fed, sse.items)
    ensures ok ==> sse.Valid() && sse.failures == old(sse.failures)
    ensures !ok ==> sse.failures > 0
    ensures Keepalives(sse.items) == old(Keepalives(sse.items)) + 1
  {
    hide Sending, Wire, SafeLen;
    OneMoreKeepalive(sse.items);
    SendingIdles(file, offset, sse.fed, sse.items);
    ok := sse.WriteKeepalive();
  }

  method FinishStep(sse: Writer, ghost file: seq<byte>, ghost offset: nat) returns (ok: bool)
    requires sse.Valid() && sse.base == offset && Sending(file, offset, sse.fed, sse.items)
    requires offset + |sse.fed| >= |file|
    modifies sse
    ensures sse.fed == old(sse.fed) && SessionOf(file, offset, sse.items, sse.w, ok)
    ensures sse.failures == if ok then old(sse.failures) else old(sse.failures) + 1
    ensures ok ==> sse.w == Wire(sse.items)
    ensures Keepalives(sse.items) == old(Keepalives(sse.items))
  {
    NoLastKeepalives(sse.items, offset, sse.fed);
    hide Sending, Wire, SafeLen, LastItems, SessionOf, Trail, TextFrom, Resume, Keepalives;
    SendingEnds(file, offset, sse.fed, sse.items);
    ok := sse.Finish();
    if ok {
      AllSent(file, offset, sse.items);
    } else {
      PartSent(file, offset, sse.items, sse.w);
    }
  }

  /** What a run whose writes all succeed has fed and sent when it ends. */
  ghost predicate RunOf(
      offset: nat, ticks: seq<Tick>, n: nat, sent: seq<byte>, complete: bool, items: seq<Item>, fed: seq<byte>)
  {
    && EndsAt(offset, ticks, n) && offset + |fed| == Position(offset, ticks, n)
    && (complete <==> n < |ticks| && IsDrained(offset, ticks, n) && !IsInterrupted(offset, ticks, n))
    && sent == Wire(items) && Keepalives(items) == 1 + Due(offset, ticks, n)
    && (!complete ==> Resume(offset, items) == offset + SafeLen(fed))
  }

  /**
   streamOutput's body. `sent` is what reached the underlying writer; `complete` tells the end
   behind Finish from a disconnect, a write or read error, and a schedule that ends. While no write
   fails, the schedule alone decides where the loop ends, how, and how much of the file was fed.
   */
  method Stream(file: seq<byte>, offset: nat, ticks: seq<Tick>)
    returns (sent: seq<byte>, complete: bool, ghost items: seq<Item>, ghost fed: seq<byte>, ghost n: nat,
             ghost failures: nat)
    requires Follows(file, ticks)
    ensures SessionOf(file, offset, items, sent, complete)
    ensures SessionSent(file, offset, sent, complete)
    ensures fed <= From(file, offset)
    ensures complete ==> fed == From(file, offset)
    ensures failures == 0 ==> RunOf(offset, ticks, n, sent, complete, items, fed)
  {
    var sse := new Writer.AtOffset(offset);
    complete, n := Follow(sse, file, offset, ticks);
    return sse.w, complete, sse.items, sse.fed, n, sse.failures;
  }

  method Follow(sse: Writer, file: seq<byte>, offset: nat, ticks: seq<Tick>) returns (complete: bool, ghost n: nat)
    requires Follows(file, ticks) && sse.Valid() && sse.failures == 0
    requires sse.base == offset && sse.fed == [] && sse.items == []
    modifies sse
    ensures SessionOf(file, offset, sse.items, sse.w, complete)
    ensures sse.fed <= From(file, offset)
    ensures complete ==> sse.fed == From(file, offset)
    ensures sse.failures == 0 ==> RunOf(offset, ticks, n, sse.w, complete, sse.items, sse.fed)
  {
    hide Sending, Wire, SessionOf, Trail, From, SafeLen, Position, IsIdle, Due, EndsAt, Resume;
    SendingStarts(file, offset);
    n := 0;
    var ok := KeepaliveStep(sse, file, offset);
    if !ok {
      Interrupted(sse, file, offset);
      return false, n;
    }
    var pos := offset;
    var processDone := false;
    ScheduleStarts(offset, ticks);
    for i := 0 to |ticks|
      invariant sse.Valid() && sse.base == offset && Sending(file, offset, sse.fed, sse.items) && sse.failures == 0
      invariant pos == offset + |sse.fed| == Position(offset, ticks, i)
      invariant processDone <==> HasExited(offset, ticks, i)
      invariant Keepalives(sse.items) == 1 + Due(offset, ticks, i)
      invariant forall k :: 0 <= k < i ==> !IsDrained(offset, ticks, k) && !IsInterrupted(offset, ticks, k)
    {
      var tick := ticks[i];
      n := i;
      ScheduleStep(offset, ticks, i);
      if tick.readFails {
        Interrupted(sse, file, offset);
        EndsHere(offset, ticks, i);
        return false, n;
      }
      if pos < tick.visible {
        var got;
        ok, got := ReadStep(sse, file, offset, pos, tick);
        pos := pos + got;
        if !ok {
          Interrupted(sse, file, offset);
          return false, n;
        }
      } else if processDone {
        SendingIsFront(file, offset, sse.fed, sse.items);
        EndsHere(offset, ticks, i);
        complete := FinishStep(sse, file, offset);
        return;
      } else {
        match tick.signal
        case ProcessExited =>
          processDone := true;
        case ClientGone =>
          Interrupted(sse, file, offset);
          EndsHere(offset, ticks, i);
          return false, n;
        case KeepaliveDue =>
          ok := KeepaliveStep(sse, file, offset);
          if !ok {
            Interrupted(sse, file, offset);
            return false, n;
          }
        case NothingYet =>
      }
    }
    n := |ticks|;
    Interrupted(sse, file, offset);
    EndsHere(offset, ticks, n);
    return false, n;
  }

  lemma ScheduleStarts(offset: nat, ticks: seq<Tick>)
    ensures Position(offset, ticks, 0) == offset && Due(offset, ticks, 0) == 0 && !HasExited(offset, ticks, 0)
  {}

  lemma ScheduleStep(offset: nat, ticks: seq<Tick>, i: nat)
    requires i < |ticks|
    ensures var pos := Position(offset, ticks, i);
            && (IsIdle(offset, ticks, i) <==> pos >= ticks[i].visible)
            && Position(offset, ticks, i + 1) == (if pos < ticks[i].visible then pos + ReadLen(ticks[i], pos) else pos)
    ensures HasExited(offset, ticks, i + 1) <==>
              HasExited(offset, ticks, i) || (IsIdle(offset, ticks, i) && ticks[i].signal.ProcessExited?)
    ensures Due(offset, ticks, i + 1)
            == Due(offset, ticks, i)
               + if IsIdle(offset, ticks, i) && !HasExited(offset, ticks, i) && ticks[i].signal.KeepaliveDue?
                 then 1 else 0
  {
    hide ReadLen, Due, HasExited;
    ExitStep(offset, ticks, i);
    DueStep(offset, ticks, i);
  }

  lemma ExitStep(offset: nat, ticks: seq<Tick>, i: nat)
    requires i < |ticks|
    ensures HasExited(offset, ticks, i + 1) <==>
              HasExited(offset, ticks, i) || (IsIdle(offset, ticks, i) && ticks[i].signal.ProcessExited?)
  {
    hide IsIdle;
  }

  lemma DueStep(offset: nat, ticks: seq<Tick>, i: nat)
    requires i < |ticks|
    ensures Due(offset, ticks, i + 1)
            == Due(offset, ticks, i)
               + if IsIdle(offset, ticks, i) && !HasExited(offset, ticks, i) && ticks[i].signal.KeepaliveDue?
                 then 1 else 0
  {
    hide IsIdle, HasExited;
  }

  lemma EndsHere(offset: nat, ticks: seq<Tick>, n: nat)
    requires n <= |ticks|
    requires forall k :: 0 <= k < n ==> !IsDrained(offset, ticks, k) && !IsInterrupted(offset, ticks, k)
    requires n < |ticks| ==> IsDrained(offset, ticks, n) || IsInterrupted(offset, ticks, n)
    ensures EndsAt(offset, ticks, n)
  {}

  /**
   So a run whose writes all succeed ends orderly if and only if some iteration finds nothing new behind an idle
   one that picked the process's exit, and neither a failing read nor a disconnect comes first.
   */
  lemma OrderlyEnd(
      offset: nat, ticks: seq<Tick>, n: nat, sent: seq<byte>, complete: bool, items: seq<Item>, fed: seq<byte>)
    requires RunOf(offset, ticks, n, sent, complete, items, fed)
    ensures complete <==>
              exists i :: 0 <= i < |ticks| && IsDrained(offset, ticks, i)
                          && forall k :: 0 <= k <= i ==> !IsInterrupted(offset, ticks, k)
  {
    hide IsDrained, IsInterrupted, Position, Due, Keepalives, Wire, Resume, SafeLen;
    if complete {
      assert forall k :: 0 <= k <= n ==> !IsInterrupted(offset, ticks, k);
    }
    if i :| 0 <= i < |ticks| && IsDrained(offset, ticks, i) &&
            forall k :: 0 <= k <= i ==> !IsInterrupted(offset, ticks, k) {
      assert n <= i;
    }
  }

  lemma Interrupted(sse: Writer, file: seq<byte>, offset: nat)
    requires Sending(file, offset, sse.fed, sse.items) && sse.w <= Wire(sse.items)
    ensures SessionOf(file, offset, sse.items, sse.w, false) && sse.fed <= From(file, offset)
    ensures Resume(offset, sse.items) == offset + SafeLen(sse.fed)
  {
    hide Wire, Trail, From, Resume, SafeLen;
    SendingIsFront(file, offset, sse.fed, sse.items);
  }
}
