/**
 The Kubernetes API as one controller sees it: before each of its calls others may have taken any
 number of steps, and each call may fail, with or without its effect.
 */
module ApiServer {
  import opened Options
  import opened Cluster

  datatype Side = SandboxSide | SnapshotSide

  /** What may happen while this side's controller works; no sandbox is created under a name in use. */
  predicate ByOthers(spec: Spec, side: Side, t: seq<Moment>, s: Moment)
    requires t != []
  {
    || (side.SandboxSide? && SnapshotStep(t, s))
    || (side.SnapshotSide? && SandboxStep(spec, t, s))
    || (ElsewhereStep(t, s) && !s.event.SandboxCreated?)
  }

  /** What the sandbox controller can rely on. */
  predicate KeepsSandbox(before: World, after: World) {
    && before.now <= after.now
    && match before.sandbox
       case None => after.sandbox.None?
       case Some(sb) =>
         match after.sandbox
         case None => !sb.finalizer
         case Some(other) =>
           && other.status == sb.status && other.finalizer == sb.finalizer
           && (sb.deletion.Some? ==> other.deletion == sb.deletion)
  }

  /** What the snapshot controller can rely on. */
  predicate KeepsSnap(before: World, after: World) {
    && before.now <= after.now
    && (before.sandbox.None? ==> after.sandbox.None?)
    && (before.snap.Some? ==> after.snap == before.snap || (after.snap.None? && after.sandbox.None?))
    && (before.snap.None? && before.sandbox.None? ==> after.snap.None?)
  }

  predicate Keeps(side: Side, before: World, after: World) {
    if side.SandboxSide? then KeepsSandbox(before, after) else KeepsSnap(before, after)
  }

  lemma OthersKeep(spec: Spec, side: Side, t: seq<Moment>, s: Moment, first: World)
    requires t != [] && ByOthers(spec, side, t, s) && Keeps(side, first, t[|t| - 1].world)
    ensures Keeps(side, first, s.world)
  {
    hide GroundHolds, Extends, Sane;
  }

  lemma KeepsSelf(side: Side, w: World)
    ensures Keeps(side, w, w)
  {}

  /** failures counts the calls that did not do what they were asked to. */
  class Api {
    const spec: Spec
    const side: Side
    var w: World
    var trace: seq<Moment>
    ghost var failures: nat

    ghost predicate Valid()
      reads this
    {
      TraceOk(spec, trace) && trace[|trace| - 1].world == w
    }

    constructor (sp: Spec, who: Side, t: seq<Moment>)
      requires TraceOk(sp, t)
      ensures Valid() && spec == sp && side == who && trace == t && failures == 0
    {
      spec, side, trace, w := sp, who, t, t[|t| - 1].world;
      failures := 0;
    }

    method Step(event: Event, next: World)
      requires Valid() && StepOk(spec, trace, Moment(event, next))
      modifies this`w, this`trace
      ensures Valid() && w == next && trace == old(trace) + [Moment(event, next)]
    {
      hide StepOk;
      TraceGrows(spec, trace, Moment(event, next));
      w := next;
      trace := trace + [Moment(event, next)];
    }

    /** Any number of steps of the others. */
    method Others()
      requires Valid()
      modifies this`w, this`trace
      ensures Valid() && old(trace) <= trace && Keeps(side, old(w), w)
    {
      hide TraceOk, Keeps, StepOk, SandboxStep, SnapshotStep, ElsewhereStep, ByOthers;
      KeepsSelf(side, w);
      var steps: int := *;
      for i := 0 to if steps < 0 then 0 else steps
        invariant Valid() && old(trace) <= trace && Keeps(side, old(w), w)
      {
        var s: Moment := *;
        NotEmpty(spec, trace);
        if ByOthers(spec, side, trace, s) {
          OthersKeep(spec, side, trace, s, old(w));
          OthersStep(spec, side, trace, s);
          Step(s.event, s.world);
        }
      }
    }

    /** Others act, and then the call may fail. */
    method Call() returns (ok: bool)
      requires Valid()
      modifies this`w, this`trace, this`failures
      ensures Valid() && old(trace) <= trace && Keeps(side, old(w), w)
      ensures failures == if ok then old(failures) else old(failures) + 1
    {
      Others();
      ok := *;
      if !ok { failures := failures + 1; }
    }

    method Now() returns (t: int)
      requires Valid()
      modifies this`w, this`trace
      ensures Valid() && old(trace) <= trace && Keeps(side, old(w), w) && t == w.now
    {
      Others();
      return w.now;
    }

    method BeginPass() returns (since: nat)
      requires Valid()
      modifies this`w, this`trace
      ensures Valid() && old(trace) <= trace && w == old(w)
      ensures since == |trace| - 1 == |old(trace)| && trace[since].event.PassBegan?
    {
      hide TraceOk;
      NotEmpty(spec, trace);
      Step(PassBegan, w);
      since := |trace| - 1;
    }
  }

  lemma NotEmpty(spec: Spec, t: seq<Moment>)
    requires TraceOk(spec, t)
    ensures t != []
  {}

  lemma OthersStep(spec: Spec, side: Side, t: seq<Moment>, s: Moment)
    requires t != [] && ByOthers(spec, side, t, s)
    ensures StepOk(spec, t, s)
  {
    hide SandboxStep, SnapshotStep, ElsewhereStep;
  }
}
