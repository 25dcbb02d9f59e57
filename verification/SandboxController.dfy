/**
 The sandbox controller (internal/operator/controller/sandbox_controller.go): its passes over one
 sandbox, interleaved at every API call with whatever others do.
 */
module SandboxController {
  import opened Options
  import opened Cluster
  import opened ApiServer

  const DEFAULT_TIMEOUT_SECONDS: int := 300
  const MILLISECOND: int := 1_000_000

  /** getTimeoutSeconds, which looks at the snapshot settings whatever the type of the policy. */
  function TimeoutSeconds(spec: Spec): int {
    if !spec.policy.NoPolicy? && spec.policy.settings.Some? && spec.policy.settings.value.timeoutSeconds.Some?
    then spec.policy.settings.value.timeoutSeconds.value
    else DEFAULT_TIMEOUT_SECONDS
  }

  /** meta.SetStatusCondition */
  function WithCondition(st: Status, typ: ConditionType, status: ConditionStatus, reason: string): Status {
    st.(conditions := st.conditions[typ := Condition(status, reason)])
  }

  /** What a merge patch makes of the stored times: an unchanged one is not sent, a new one loses its fraction. */
  function Merged(stored: Status, next: Status): Status {
    next.(
      timeoutAt :=
        if next.timeoutAt.Some? && stored.timeoutAt.None? then Some(Stored(next.timeoutAt.value)) else next.timeoutAt,
      terminationDeadlineAt :=
        if next.terminationDeadlineAt.Some? && stored.terminationDeadlineAt.None?
        then Some(Stored(next.terminationDeadlineAt.value)) else next.terminationDeadlineAt)
  }

  /** The conditions say nothing new about the verdict or the snapshot. */
  predicate PlainChange(st: Status, next: Status) {
    && next.timeoutAt == st.timeoutAt && next.terminationDeadlineAt == st.terminationDeadlineAt
    && (Latched(st) <==> Latched(next)) && (Latched(st) ==> next.conditions[Succeeded] == st.conditions[Succeeded])
    && (SaysSnapshotted(next) ==> SaysSnapshotted(st))
  }

  /** What reconcileSandboxStatus writes: the conditions of the pod and the snapshot, and a verdict once. */
  function Reported(st: Status, pod: Option<Pod>, snap: Option<Snap>): Status {
    var terminated := pod.Some? && (pod.value.phase.PodSucceeded? || pod.value.phase.PodFailed?);
    var ready := if IsPodReady(pod) then ConditionTrue else ConditionFalse;
    var reason := if IsPodReady(pod) then "PodRunning" else if !terminated then "PodPending"
                  else if pod.value.phase.PodSucceeded? then "PodSucceeded" else "PodFailed";
    var st1 := WithCondition(st, PodReady, ready, reason);
    var st2 := WithCondition(st1, NetworkReady, ConditionTrue, "NetworkPolicyApplied");
    var st3 := if FinishedWell(snap) then WithCondition(st2, RootfsSnapshotted, ConditionTrue, "RootfsSnapshotComplete")
               else WithCondition(st2, RootfsSnapshotted, ConditionFalse, SnapshotReason(snap));
    var st4 := WithCondition(st3, Ready, ready, reason);
    if Latched(st) || !terminated then st4
    else WithCondition(st4, Succeeded, if pod.value.phase.PodSucceeded? then ConditionTrue else ConditionFalse, reason)
  }

  function SnapshotReason(snap: Option<Snap>): string {
    if snap.None? then "NoRootfsSnapshot"
    else if Finished(snap) && snap.value.succeeded == Some(false) then "RootfsSnapshotFailed"
    else "RootfsSnapshottingInProgress"
  }

  lemma ReportExtends(st: Status, pod: Option<Pod>, snap: Option<Snap>)
    requires Sane(st)
    ensures var next := Reported(st, pod, snap);
            && Extends(st, next) && Sane(next) && (SaysSnapshotted(next) ==> FinishedWell(snap))
            && next.timeoutAt == st.timeoutAt && next.terminationDeadlineAt == st.terminationDeadlineAt
            && Ready in next.conditions && (next.conditions[Ready].status.ConditionTrue? <==> IsPodReady(pod))
            && (Latched(st) ==> Latched(next) && next.conditions[Succeeded] == st.conditions[Succeeded])
            && (!Latched(st) && Latched(next) ==>
                  && pod.Some? && (pod.value.phase.PodSucceeded? || pod.value.phase.PodFailed?)
                  && next.conditions[Succeeded].status
                     == if pod.value.phase.PodSucceeded? then ConditionTrue else ConditionFalse)
            && (pod.Some? && (pod.value.phase.PodSucceeded? || pod.value.phase.PodFailed?) ==> Latched(next))
  {
    hide SnapshotReason;
  }

  /** How a finalizing pass is bounded: the persisted deadline, or the one it would persist. */
  function DeadlineOf(spec: Spec, sb: Sandbox): Option<int> {
    if sb.status.terminationDeadlineAt.Some? then sb.status.terminationDeadlineAt
    else if sb.deletion.Some? then Some(sb.deletion.value + Nanoseconds(TimeoutSeconds(spec)))
    else None
  }

  /** The time limit of a sandbox whose pod is this one: the stored one, or counted from the pod's start. */
  function TimeoutOf(spec: Spec, st: Status, pod: Option<Pod>): Option<int> {
    if spec.timeoutSeconds.None? then None
    else if st.timeoutAt.Some? then st.timeoutAt
    else if pod.Some? && pod.value.startTime.Some?
    then Some(Stored(pod.value.startTime.value + Nanoseconds(spec.timeoutSeconds.value)))
    else None
  }

  predicate IsOver(limit: Option<int>, now: int) {
    limit.Some? && now > limit.value
  }

  /** When the startup limit of a pod that is not ready ends. */
  function StartupLimit(pod: Option<Pod>, startup: Option<int>): Option<int> {
    if pod.Some? && !IsPodReady(pod) && startup.Some?
    then Some(pod.value.created + Nanoseconds(startup.value)) else None
  }

  /** What a pass is given besides the API: the verdicts on two parts of the specification, and an editable limit. */
  datatype Restore = RestoreFine | RestoreRefused(permanent: bool)
  datatype Inputs = Inputs(policyOk: bool, restore: Restore, startup: Option<int>)

  /** At some moment since then the sandbox had a verdict: the one it was read with, or this. */
  ghost predicate Judged(t: seq<Moment>, since: nat, read: Status, verdict: Condition) {
    exists k ::
      since <= k < |t| && HasVerdict(t[k].world, if Latched(read) then read.conditions[Succeeded] else verdict)
  }

  predicate HasVerdict(w: World, verdict: Condition) {
    && w.sandbox.Some? && Latched(w.sandbox.value.status)
    && w.sandbox.value.status.conditions[Succeeded] == verdict
  }

  lemma JudgedNow(t: seq<Moment>, since: nat, read: Status, verdict: Condition)
    requires since < |t|
    requires HasVerdict(t[|t| - 1].world, if Latched(read) then read.conditions[Succeeded] else verdict)
    ensures Judged(t, since, read, verdict)
  {}

  lemma JudgedStays(t: seq<Moment>, more: seq<Moment>, since: nat, read: Status, verdict: Condition)
    requires t <= more && Judged(t, since, read, verdict)
    ensures Judged(more, since, read, verdict)
  {
    var k :| since <= k < |t| && HasVerdict(t[k].world, if Latched(read) then read.conditions[Succeeded] else verdict);
    assert more[k] == t[k];
  }

  /**
   Why a finalizing pass is not done: since then the pod could be snapshotted, and the snapshot was there, and
   was not finished.
   */
  ghost predicate Waiting(t: seq<Moment>, since: nat) {
    && SnapStood(t, since)
    && (exists k :: since <= k < |t| && !Finished(t[k].world.snap))
    && (exists k :: since <= k < |t| && PodAble(t[k].world.pod))
  }

  ghost predicate SnapStood(t: seq<Moment>, since: nat) {
    exists k :: since <= k < |t| && t[k].world.snap.Some?
  }

  lemma WaitingEarlier(t: seq<Moment>, more: seq<Moment>, first: nat, since: nat)
    requires t <= more && first <= since && Waiting(t, since)
    ensures Waiting(more, first)
  {
    var i :| since <= i < |t| && t[i].world.snap.Some?;
    var j :| since <= j < |t| && !Finished(t[j].world.snap);
    var k :| since <= k < |t| && PodAble(t[k].world.pod);
    assert more[i] == t[i] && more[j] == t[j] && more[k] == t[k];
  }

  ghost predicate PodStood(t: seq<Moment>, since: nat) {
    exists k :: since <= k < |t| && t[k].world.pod.Some?
  }

  /** Ready says what the pod is, and the verdict is the one it was read with or that of the pod's phase. */
  predicate Describes(st: Status, read: Status, pod: Option<Pod>) {
    && Ready in st.conditions && (st.conditions[Ready].status.ConditionTrue? <==> IsPodReady(pod))
    && (Latched(read) ==> Latched(st) && st.conditions[Succeeded] == read.conditions[Succeeded])
    && (!Latched(read) ==>
          if pod.Some? && pod.value.phase.PodSucceeded? then
            Latched(st) && st.conditions[Succeeded].status == ConditionTrue
          else if pod.Some? && pod.value.phase.PodFailed? then
            Latched(st) && st.conditions[Succeeded].status == ConditionFalse
          else !Latched(st))
  }

  /** The object in memory agrees with the stored one in everything only this controller writes. */
  predicate MirrorsIn(w: World, sb: Sandbox) {
    && Sane(sb.status)
    && match w.sandbox
       case None => !sb.finalizer
       case Some(stored) =>
         && stored.status == sb.status && stored.finalizer == sb.finalizer
         && (sb.deletion.Some? ==> stored.deletion == sb.deletion)
  }

  class SandboxReconciler {
    const api: Api

    constructor (a: Api)
      requires a.side.SandboxSide?
      ensures api == a
    {
      api := a;
    }

    ghost predicate Valid()
      reads this, api
    {
      api.side.SandboxSide? && api.Valid()
    }

    predicate Mirrors(sb: Sandbox)
      reads api
    {
      MirrorsIn(api.w, sb)
    }

    // ----- Calls --------------------------------------------------------------------------------

    method GetPod() returns (ok: bool, pod: Option<Pod>, seen: nat)
      requires Valid()
      modifies api`w, api`trace, api`failures
      ensures Valid() && old(api.trace) <= api.trace && KeepsSandbox(old(api.w), api.w)
      ensures api.failures == if ok then old(api.failures) else old(api.failures) + 1
      ensures seen == |api.trace| - 1 && seen >= |old(api.trace)| - 1 && pod == api.trace[seen].world.pod
    {
      hide TraceOk, KeepsSandbox;
      ok := api.Call();
      NotEmpty(api.spec, api.trace);
      pod, seen := api.w.pod, |api.trace| - 1;
    }

    method GetTerminationSnapshot() returns (ok: bool, snap: Option<Snap>, seen: nat)
      requires Valid()
      modifies api`w, api`trace, api`failures
      ensures Valid() && old(api.trace) <= api.trace && KeepsSandbox(old(api.w), api.w)
      ensures api.failures == if ok then old(api.failures) else old(api.failures) + 1
      ensures seen == |api.trace| - 1 && seen >= |old(api.trace)| - 1 && snap == api.trace[seen].world.snap
    {
      hide TraceOk, KeepsSandbox;
      ok := api.Call();
      NotEmpty(api.spec, api.trace);
      snap, seen := api.w.snap, |api.trace| - 1;
    }

    /** patchStatus: a failed patch may still have been applied. */
    method PatchStatus(sb: Sandbox, next: Status, seen: nat) returns (ok: bool, now: Sandbox)
      requires Valid() && Mirrors(sb) && Extends(sb.status, next) && Sane(next)
      requires SaysSnapshotted(next) && !SaysSnapshotted(sb.status) ==> seen < |api.trace|
      requires SaysSnapshotted(next) && !SaysSnapshotted(sb.status) ==> FinishedWell(api.trace[seen].world.snap)
      modifies api`w, api`trace, api`failures
      ensures Valid() && old(api.trace) <= api.trace && old(api.w).now <= api.w.now
      ensures api.failures == if ok then old(api.failures) else old(api.failures) + 1
      ensures ok ==> Mirrors(now) && now.status == Merged(sb.status, next) && now.finalizer == sb.finalizer
      ensures ok ==> (sb.deletion.Some? ==> now.deletion == sb.deletion)
    {
      hide TraceOk, StepOk, GroundHolds;
      now := sb;
      ok := api.Call();
      if api.w.sandbox.None? {
        if ok { api.failures := api.failures + 1; }
        return false, sb;
      }
      if !ok {
        if * { return; }
      }
      NotEmpty(api.spec, api.trace);
      var patched := api.w.sandbox.value.(status := Merged(sb.status, next));
      PatchIsStep(api.spec, api.trace, sb, next, seen);
      api.Step(StatusPatched(seen), api.w.(sandbox := Some(patched)));
      now := patched;
    }

    /** Patches only conditions that are not about the verdict or a complete snapshot. */
    method PatchPlain(sb: Sandbox, next: Status) returns (ok: bool, now: Sandbox)
      requires Valid() && Mirrors(sb) && PlainChange(sb.status, next)
      modifies api`w, api`trace, api`failures
      ensures Valid() && old(api.trace) <= api.trace && old(api.w).now <= api.w.now
      ensures api.failures == if ok then old(api.failures) else old(api.failures) + 1
      ensures ok ==> Mirrors(now) && now.status == next && now.finalizer == sb.finalizer
      ensures ok ==> (sb.deletion.Some? ==> now.deletion == sb.deletion)
    {
      hide TraceOk;
      ok, now := PatchStatus(sb, next, 0);
    }

    /** Removing the finalizer: the update that releases the sandbox. */
    method RemoveFinalizer(sb: Sandbox, since: nat, ground: Ground) returns (ok: bool)
      requires Valid() && Mirrors(sb) && sb.finalizer && since < |api.trace| && api.trace[since].event.PassBegan?
      requires api.trace != [] && GroundHolds(api.spec, api.trace, since, ground)
      modifies api`w, api`trace, api`failures
      ensures Valid() && old(api.trace) <= api.trace && old(api.w).now <= api.w.now
      ensures api.failures == if ok then old(api.failures) else old(api.failures) + 1
      ensures ok ==> api.w.sandbox.None? || !api.w.sandbox.value.finalizer
      ensures ok ==> api.trace[|api.trace| - 1].event == Released(since, ground)
    {
      hide TraceOk, StepOk;
      ghost var before := api.trace;
      ok := api.Call();
      GroundStays(api.spec, before, api.trace, since, ground);
      if !ok {
        if * { return; }
      }
      hide GroundHolds;
      var stored := api.w.sandbox.value;
      ReleaseIsStep(api.spec, api.trace, since, ground);
      api.Step(Released(since, ground),
        api.w.(sandbox := if stored.deletion.Some? then None else Some(stored.(finalizer := false))));
    }

    method DeleteSandbox() returns (ok: bool)
      requires Valid()
      modifies api`w, api`trace, api`failures
      ensures Valid() && old(api.trace) <= api.trace && old(api.w).now <= api.w.now
      ensures api.failures == if ok then old(api.failures) else old(api.failures) + 1
      ensures ok ==> api.w.sandbox.None? || (api.w.sandbox.value.finalizer && api.w.sandbox.value.deletion.Some?)
      ensures ok && (old(api.w).sandbox.None? || !old(api.w).sandbox.value.finalizer) ==> api.w.sandbox.None?
    {
      hide TraceOk;
      ok := api.Call();
      if api.w.sandbox.None? { return; }
      if !ok {
        if * { return; }
      }
      NotEmpty(api.spec, api.trace);
      api.Step(SandboxDeleted, api.w.(sandbox := AfterDelete(api.w.sandbox.value, api.w.now)));
    }

    // ----- Verdicts -----------------------------------------------------------------------------

    /** markSandboxSucceeded and markSandboxFailed: a one-way latch. */
    method MarkSandbox(sb: Sandbox, verdict: ConditionStatus, reason: string) returns (ok: bool, now: Sandbox)
      requires Valid() && Mirrors(sb) && !verdict.ConditionUnknown?
      modifies api`w, api`trace, api`failures
      ensures Valid() && old(api.trace) <= api.trace && old(api.w).now <= api.w.now
      ensures api.failures == if ok then old(api.failures) else old(api.failures) + 1
      ensures ok ==> Mirrors(now) && now.finalizer == sb.finalizer && Latched(now.status)
      ensures ok ==> if Latched(sb.status) then now == sb
                     else now.status.conditions[Succeeded] == Condition(verdict, reason)
      ensures ok ==> now.status.terminationDeadlineAt == sb.status.terminationDeadlineAt
      ensures ok ==> (sb.deletion.Some? ==> now.deletion == sb.deletion)
    {
      hide TraceOk;
      if Latched(sb.status) { return true, sb; }
      var next := WithCondition(WithCondition(sb.status, Ready, ConditionFalse, reason), Succeeded, verdict, reason);
      ok, now := PatchStatus(sb, next, 0);
    }

    /** ensureTimeout: set once, from the moment the kubelet acknowledged the pod. */
    method EnsureTimeout(sb: Sandbox, pod: Option<Pod>) returns (ok: bool, now: Sandbox, timeoutAt: Option<int>)
      requires Valid() && Mirrors(sb)
      modifies api`w, api`trace, api`failures
      ensures Valid() && old(api.trace) <= api.trace && old(api.w).now <= api.w.now
      ensures api.failures == if ok then old(api.failures) else old(api.failures) + 1
      ensures ok ==> Mirrors(now) && now.finalizer == sb.finalizer && now.status.conditions == sb.status.conditions
      ensures ok ==> (timeoutAt.Some? ==> timeoutAt == now.status.timeoutAt)
      ensures ok && sb.status.timeoutAt.Some? ==> now.status.timeoutAt == sb.status.timeoutAt
      ensures ok ==> timeoutAt == TimeoutOf(api.spec, sb.status, pod)
      ensures ok && api.spec.timeoutSeconds.Some? && pod.Some? && pod.value.startTime.Some? ==>
                timeoutAt == if sb.status.timeoutAt.Some? then sb.status.timeoutAt
                             else Some(Stored(pod.value.startTime.value + Nanoseconds(api.spec.timeoutSeconds.value)))
    {
      hide TraceOk, MirrorsIn;
      ok, now, timeoutAt := true, sb, None;
      if api.spec.timeoutSeconds.None? { return; }
      if sb.status.timeoutAt.None? {
        if pod.None? || pod.value.startTime.None? { return; }
        var at := pod.value.startTime.value + Nanoseconds(api.spec.timeoutSeconds.value);
        MirrorsIsSane(sb);
        ok, now := PatchStatus(sb, sb.status.(timeoutAt := Some(at)), 0);
        if !ok { return; }
      }
      timeoutAt := now.status.timeoutAt;
    }

    lemma MirrorsIsSane(sb: Sandbox)
      requires Mirrors(sb)
      ensures Sane(sb.status)
    {}

    /** ensureTerminationDeadline: persisted on the first call, the persisted value ever after. */
    method EnsureTerminationDeadline(sb: Sandbox) returns (ok: bool, now: Sandbox, deadline: int)
      requires Valid() && Mirrors(sb)
      modifies api`w, api`trace, api`failures
      ensures Valid() && old(api.trace) <= api.trace && old(api.w).now <= api.w.now
      ensures api.failures == if ok then old(api.failures) else old(api.failures) + 1
      ensures ok ==> Mirrors(now) && now.finalizer == sb.finalizer
      ensures ok ==> now.status.terminationDeadlineAt.Some?
      ensures ok ==> var stored := now.status.terminationDeadlineAt.value; stored <= deadline < stored + SECOND
      ensures ok && DeadlineOf(api.spec, sb).Some? ==> deadline == DeadlineOf(api.spec, sb).value
      ensures ok && sb.status.terminationDeadlineAt.Some? ==>
                now.status.terminationDeadlineAt == sb.status.terminationDeadlineAt
    {
      hide TraceOk, MirrorsIn;
      ok, now, deadline := true, sb, 0;
      if sb.status.terminationDeadlineAt.Some? {
        deadline := sb.status.terminationDeadlineAt.value;
        return;
      }
      var anchor := api.Now();
      if sb.deletion.Some? { anchor := sb.deletion.value; }
      deadline := anchor + Nanoseconds(TimeoutSeconds(api.spec));
      StillMirrors(sb, old(api.w));
      MirrorsIsSane(sb);
      ok, now := PatchStatus(sb, sb.status.(terminationDeadlineAt := Some(deadline)), 0);
    }

    /** Others change nothing the object in memory is about. */
    lemma StillMirrors(sb: Sandbox, before: World)
      requires MirrorsIn(before, sb) && KeepsSandbox(before, api.w)
      ensures Mirrors(sb)
    {}

    // ----- Finalizing ----------------------------------------------------------------------------

    /** createTerminationSnapshot: whoever created it, look again in a second. */
    method CreateTerminationSnapshot(sb: Sandbox) returns (ok: bool, now: Sandbox)
      requires Valid() && Mirrors(sb) && sb.finalizer
      modifies api`w, api`trace, api`failures
      ensures Valid() && old(api.trace) <= api.trace && old(api.w).now <= api.w.now && old(api.failures) <= api.failures
      ensures !ok ==> old(api.failures) < api.failures
      ensures ok ==> Mirrors(now) && now.finalizer == sb.finalizer
      ensures ok ==> exists k :: |old(api.trace)| - 1 <= k < |api.trace| && api.trace[k].world.snap.Some?
    {
      hide TraceOk, StepOk, MirrorsIn;
      ghost var before := api.w;
      now := sb;
      ok := api.Call();
      NotEmpty(api.spec, api.trace);
      StillMirrors(sb, before);
      if api.w.snap.Some? {
        assert api.trace[|api.trace| - 1].world.snap.Some?;
        return;
      }
      if !ok {
        if * { return; }
      }
      SandboxIsThere(sb);
      var snap := Snap(|api.trace|, "", Some(300), false, None, None, "");
      CreateIsStep(api.spec, api.trace, snap);
      before := api.w;
      api.Step(SnapCreated, api.w.(snap := Some(snap)));
      StillMirrors(sb, before);
      if !ok { return; }
      assert api.trace[|api.trace| - 1].world.snap.Some?;
      ok, now := PatchPlain(sb,
        WithCondition(sb.status, RootfsSnapshotted, ConditionFalse, "RootfsSnapshottingInProgress"));
    }

    lemma SandboxIsThere(sb: Sandbox)
      requires Mirrors(sb) && sb.finalizer
      ensures api.w.sandbox.Some?
    {}

    /** The termination snapshot itself: create it, wait for it, or report what became of it. */
    method AwaitSnapshot(sb: Sandbox, deadline: int, since: nat)
      returns (ok: bool, done: bool, now: Sandbox, ground: Ground, requeue: int)
      requires Valid() && Mirrors(sb) && sb.finalizer && since < |api.trace|
      modifies api`w, api`trace, api`failures
      ensures Valid() && old(api.trace) <= api.trace && old(api.w).now <= api.w.now && old(api.failures) <= api.failures
      ensures !ok ==> !done && old(api.failures) < api.failures
      ensures ok ==> Mirrors(now) && now.finalizer
      ensures done ==> api.trace != [] && GroundHolds(api.spec, api.trace, since, ground)
      ensures done ==> ground.SnapshotFinished? && ground.at < |api.trace| && RootfsSnapshotted in now.status.conditions
                       && (SaysSnapshotted(now.status) <==> FinishedWell(api.trace[ground.at].world.snap))
      ensures ok && !done ==> 0 < requeue && (requeue <= SECOND || requeue <= deadline - old(api.w).now)
      ensures ok && !done ==> SnapStood(api.trace, |old(api.trace)| - 1)
                              && exists k ::
                                   |old(api.trace)| - 1 <= k < |api.trace| && !Finished(api.trace[k].world.snap)
    {
      hide TraceOk, MirrorsIn, GroundHolds;
      done, now, ground, requeue := false, sb, NotWanted, 0;
      ghost var before := api.w;
      var snap: Option<Snap>, seen: nat;
      ok, snap, seen := GetTerminationSnapshot();
      StillMirrors(sb, before);
      assert api.trace[seen].world.snap == snap;
      if !ok { return; }
      if snap.None? {
        ok, now := CreateTerminationSnapshot(sb);
        assert api.trace[seen].world.snap == snap;
        requeue := SECOND;
        return;
      }
      if snap.value.completion.None? {
        ok, now := PatchPlain(sb,
          WithCondition(sb.status, RootfsSnapshotted, ConditionFalse, "RootfsSnapshottingInProgress"));
        if !ok { return; }
        before := api.w;
        var t := api.Now();
        StillMirrors(now, before);
        requeue := deadline - t;
        if requeue <= 0 { requeue := SECOND; }
        assert api.trace[seen].world.snap == snap;
        return;
      }
      if snap.value.succeeded == Some(true) {
        MirrorsIsSane(sb);
        var complete := WithCondition(sb.status, RootfsSnapshotted, ConditionTrue, "RootfsSnapshotComplete");
        ok, now := PatchStatus(sb, complete, seen);
      } else {
        ok, now := PatchPlain(sb, WithCondition(sb.status, RootfsSnapshotted, ConditionFalse, "RootfsSnapshotFailed"));
      }
      if !ok { return; }
      done, ground := true, SnapshotFinished(seen);
      SnapIsGround(seen, since);
    }

    /**
     handleRootfsSnapshot: done when the snapshot is seen finished, cannot be taken, or the deadline has
     passed; otherwise the pass asks to be run again by the deadline.
     */
    method HandleRootfsSnapshot(sb: Sandbox, pod: Option<Pod>, podSeen: nat, deadline: int, since: nat)
      returns (ok: bool, done: bool, now: Sandbox, ground: Ground, requeue: int)
      requires Valid() && Mirrors(sb) && sb.finalizer
      requires sb.status.terminationDeadlineAt.Some? && sb.status.terminationDeadlineAt.value <= deadline
      requires since <= podSeen < |api.trace| && pod == api.trace[podSeen].world.pod
      modifies api`w, api`trace, api`failures
      ensures Valid() && old(api.trace) <= api.trace && old(api.w).now <= api.w.now && old(api.failures) <= api.failures
      ensures !ok ==> !done && old(api.failures) < api.failures
      ensures ok ==> Mirrors(now) && now.finalizer
      ensures done ==> api.trace != [] && GroundHolds(api.spec, api.trace, since, ground)
      ensures ok && old(api.w).now > deadline ==> done
      ensures ok && !done ==> 0 < requeue && (requeue <= SECOND || requeue <= deadline - old(api.w).now)
      ensures ok && !done ==> Waiting(api.trace, podSeen)
    {
      hide TraceOk, MirrorsIn, GroundHolds, SnapStood;
      ghost var before := api.w;
      ok, done, now, ground, requeue := true, false, sb, NotWanted, 0;
      var t := api.Now();
      StillMirrors(sb, before);
      if t > deadline {
        ok, now := PatchPlain(sb, WithCondition(sb.status, RootfsSnapshotted, ConditionFalse, "RootfsSnapshotTimeout"));
        if !ok { return; }
        done, ground := true, DeadlinePassed;
        DeadlineIsGround(now, since);
        return;
      }
      if pod.None? || !IsPodReady(pod) {
        ok, now := PatchPlain(sb, WithCondition(sb.status, RootfsSnapshotted, ConditionFalse, "RootfsSnapshotFailed"));
        if !ok { return; }
        done, ground := true, PodUnable(podSeen);
        PodIsGround(podSeen, since);
        return;
      }
      before := api.w;
      ok := api.Call();
      StillMirrors(sb, before);
      if !ok { return; }
      if !pod.value.supportedRuntime {
        ok, now := PatchPlain(sb, WithCondition(sb.status, RootfsSnapshotted, ConditionFalse, "InvalidRuntime"));
        if !ok { return; }
        done, ground := true, PodUnable(podSeen);
        PodIsGround(podSeen, since);
        return;
      }
      ghost var later := |api.trace| - 1;
      ok, done, now, ground, requeue := AwaitSnapshot(sb, deadline, since);
      assert api.trace[podSeen].world.pod == pod;
      if ok && !done {
        StoodEarlier(api.trace, podSeen, later);
        assert Waiting(api.trace, podSeen);
      }
    }

    lemma StoodEarlier(t: seq<Moment>, since: nat, later: nat)
      requires since <= later && SnapStood(t, later)
      ensures SnapStood(t, since)
    {}

    lemma DeadlineIsGround(sb: Sandbox, since: nat)
      requires Valid() && Mirrors(sb) && sb.finalizer
      requires sb.status.terminationDeadlineAt.Some? && sb.status.terminationDeadlineAt.value < api.w.now
      ensures api.trace != [] && GroundHolds(api.spec, api.trace, since, DeadlinePassed)
    {
      hide TraceOk;
      NotEmpty(api.spec, api.trace);
    }

    lemma PodIsGround(at: nat, since: nat)
      requires since <= at < |api.trace| && !PodAble(api.trace[at].world.pod)
      ensures GroundHolds(api.spec, api.trace, since, PodUnable(at))
    {}

    lemma SnapIsGround(at: nat, since: nat)
      requires since <= at < |api.trace| && Finished(api.trace[at].world.snap)
      ensures GroundHolds(api.spec, api.trace, since, SnapshotFinished(at))
    {}

    /** executeTerminationPolicy */
    method ExecuteTerminationPolicy(sb: Sandbox, pod: Option<Pod>, podSeen: nat, deadline: int, since: nat)
      returns (ok: bool, done: bool, now: Sandbox, ground: Ground, requeue: int)
      requires Valid() && Mirrors(sb) && sb.finalizer
      requires sb.status.terminationDeadlineAt.Some? && sb.status.terminationDeadlineAt.value <= deadline
      requires since <= podSeen < |api.trace| && pod == api.trace[podSeen].world.pod
      modifies api`w, api`trace, api`failures
      ensures Valid() && old(api.trace) <= api.trace && old(api.w).now <= api.w.now && old(api.failures) <= api.failures
      ensures !ok ==> !done && old(api.failures) < api.failures
      ensures ok ==> Mirrors(now) && now.finalizer
      ensures done ==> api.trace != [] && GroundHolds(api.spec, api.trace, since, ground)
      ensures ok && (!WantsSnapshot(api.spec) || old(api.w).now > deadline) ==> done
      ensures ok && !done ==> 0 < requeue && (requeue <= SECOND || requeue <= deadline - old(api.w).now)
      ensures ok && !done ==> Waiting(api.trace, podSeen)
    {
      hide TraceOk, MirrorsIn, Waiting;
      done, ground, requeue := false, NotWanted, 0;
      var deletes := api.spec.policy.NoPolicy? || api.spec.policy.DeletePolicy?;
      var reason := if deletes then "Deleting" else "RootfsSnapshottingInProgress";
      ok, now := PatchPlain(sb, WithCondition(sb.status, Ready, ConditionFalse, reason));
      if !ok { return; }
      NotEmpty(api.spec, api.trace);
      if deletes || !api.spec.policy.SnapshotRootfs? || api.spec.policy.settings.None? {
        done := true;
        return;
      }
      ok, done, now, ground, requeue := HandleRootfsSnapshot(now, pod, podSeen, deadline, since);
    }

    /**
     finalizeSandbox: the finalizer goes only on a ground, and without API errors it does go once the
     deadline has passed; until then the pass asks to be run again by the deadline.
     */
    method FinalizeSandbox(sb: Sandbox, since: nat) returns (ok: bool, done: bool, requeue: int)
      requires Valid() && Mirrors(sb) && sb.finalizer && since < |api.trace| && api.trace[since].event.PassBegan?
      modifies api`w, api`trace, api`failures
      ensures Valid() && old(api.trace) <= api.trace && old(api.failures) <= api.failures && old(api.w).now <= api.w.now
      ensures !ok ==> !done && old(api.failures) < api.failures
      ensures done ==> api.w.sandbox.None? || !api.w.sandbox.value.finalizer
      ensures done ==> api.trace[|api.trace| - 1].event.Released?
      ensures api.failures == old(api.failures) && !WantsSnapshot(api.spec) ==> done
      ensures (api.failures == old(api.failures) && DeadlineOf(api.spec, sb).Some? &&
               DeadlineOf(api.spec, sb).value < old(api.w).now) ==>
                done
      ensures ok && !done ==> 0 < requeue && Waiting(api.trace, |old(api.trace)| - 1)
      ensures ok && !done && DeadlineOf(api.spec, sb).Some? ==>
                requeue <= SECOND || requeue <= DeadlineOf(api.spec, sb).value - old(api.w).now
    {
      hide TraceOk, MirrorsIn, GroundHolds, KeepsSandbox, Waiting;
      ghost var before := api.w;
      done, requeue := false, 0;
      var pod: Option<Pod>, seen: nat, deadline: int, now: Sandbox, ground: Ground;
      ok, pod, seen := GetPod();
      TimePasses(before, api.w);
      StillMirrors(sb, before);
      if !ok { return; }
      ok, now, deadline := EnsureTerminationDeadline(sb);
      if !ok { return; }
      ok, done, now, ground, requeue := ExecuteTerminationPolicy(now, pod, seen, deadline, since);
      if ok && !done { WaitingEarlier(api.trace, api.trace, |old(api.trace)| - 1, seen); }
      if !ok || !done { return; }
      ok := RemoveFinalizer(now, since, ground);
      done := ok;
    }

    // ----- A running sandbox ------------------------------------------------------------------------

    /** determineSucceededCondition and the other conditions of reconcileSandboxStatus. */
    method ReconcileSandboxStatus(sb: Sandbox, pod: Option<Pod>) returns (ok: bool, now: Sandbox)
      requires Valid() && Mirrors(sb)
      modifies api`w, api`trace, api`failures
      ensures Valid() && old(api.trace) <= api.trace && old(api.w).now <= api.w.now
      ensures api.failures == if ok then old(api.failures) else old(api.failures) + 1
      ensures ok ==> Mirrors(now) && now.finalizer == sb.finalizer && Describes(now.status, sb.status, pod)
    {
      hide TraceOk, MirrorsIn, Reported, KeepsSandbox;
      ghost var before := api.w;
      now := sb;
      var snap: Option<Snap>, seen: nat;
      ok, snap, seen := GetTerminationSnapshot();
      TimePasses(before, api.w);
      StillMirrors(sb, before);
      if !ok { return; }
      MirrorsIsSane(sb);
      ReportExtends(sb.status, pod, snap);
      ok, now := PatchStatus(sb, Reported(sb.status, pod, snap), seen);
    }

    /**
     CreateSandboxPod, as far as the status goes: a snapshot that cannot be restored is a verdict if that is
     permanent.
     */
    method CreateSandboxPod(sb: Sandbox, restore: Restore) returns (ok: bool, now: Sandbox)
      requires Valid() && Mirrors(sb)
      modifies api`w, api`trace, api`failures
      ensures Valid() && old(api.trace) <= api.trace && old(api.w).now <= api.w.now
      ensures old(api.failures) <= api.failures
      ensures ok ==> Mirrors(now) && now.finalizer == sb.finalizer && PlainChange(sb.status, now.status)
      ensures ok ==> restore.RestoreFine?
      ensures ok ==> exists k :: |old(api.trace)| <= k < |api.trace| && api.trace[k].event.PodCreated?
      ensures api.failures == old(api.failures) && restore.RestoreFine? ==> PodStood(api.trace, |old(api.trace)| - 1)
      ensures api.failures == old(api.failures) && restore == RestoreRefused(true) ==>
                Mirrors(now) && now.finalizer == sb.finalizer && Latched(now.status)
                && now.status.conditions[Succeeded]
                   == (if Latched(sb.status) then sb.status.conditions[Succeeded]
                       else Condition(ConditionFalse, "RootfsRestoreConfigurationError"))
    {
      hide TraceOk, MirrorsIn, StepOk, KeepsSandbox;
      now := sb;
      match restore {
        case RestoreRefused(true) =>
          ok, now := MarkSandbox(sb, ConditionFalse, "RootfsRestoreConfigurationError");
          return false, now;
        case RestoreRefused(false) =>
          ok, now := PatchPlain(sb, WithCondition(sb.status, Ready, ConditionFalse, "RootfsRestoreConfigurationError"));
          return false, now;
        case RestoreFine =>
      }
      ghost var before := api.w;
      ok := api.Call();
      TimePasses(before, api.w);
      StillMirrors(sb, before);
      NotEmpty(api.spec, api.trace);
      var failed := !ok || api.w.pod.Some?;
      var created := ok;
      if !ok { created := *; }
      if created && api.w.pod.None? {
        var pod: Pod := *;
        PodCreationIsStep(api.spec, api.trace, pod);
        before := api.w;
        api.Step(PodCreated, api.w.(pod := Some(pod)));
        TakenOver(before, api.w);
        StillMirrors(sb, before);
        assert api.trace[|api.trace| - 1].event.PodCreated?;
      }
      ghost var at := |api.trace| - 1;
      assert ok ==> api.trace[at].world.pod.Some?;
      if failed {
        var st := WithCondition(sb.status, PodReady, ConditionFalse, "PodCreationFailed");
        ghost var known := ok;
        ok, now := PatchPlain(sb, WithCondition(st, Ready, ConditionFalse, "PodCreationFailed"));
        assert known ==> api.trace[at].world.pod.Some?;
        return false, now;
      }
      var creating := WithCondition(sb.status, PodReady, ConditionFalse, "PodCreating");
      ok, now := PatchPlain(sb, WithCondition(creating, Ready, ConditionFalse, "Reconciling"));
      assert api.trace[at].world.pod.Some?;
    }

    lemma TakenOver(before: World, after: World)
      requires after == before.(pod := after.pod)
      ensures KeepsSandbox(before, after)
    {}

    /** The sandbox is past its time limit: a verdict, then the same as for a deleted one, and the deletion. */
    method TimeOut(read: Sandbox, since: nat) returns (ok: bool, now: Sandbox, marked: bool, requeue: int)
      requires Valid() && Mirrors(read) && read.finalizer && since < |api.trace| && api.trace[since].event.PassBegan?
      modifies api`w, api`trace, api`failures
      ensures Valid() && old(api.trace) <= api.trace && old(api.w).now <= api.w.now
      ensures old(api.failures) <= api.failures && (ok ==> marked)
      ensures marked ==> Latched(now.status) && (Latched(read.status) ==> now == read)
      ensures marked && !Latched(read.status) ==>
                now.status.conditions[Succeeded] == Condition(ConditionTrue, "Timeout")
      ensures marked ==> Judged(api.trace, |old(api.trace)| - 1, read.status, Condition(ConditionTrue, "Timeout"))
      ensures api.failures == old(api.failures) ==>
                marked && (api.w.sandbox.None? || (0 < requeue && Waiting(api.trace, |old(api.trace)| - 1)))
    {
      hide TraceOk, MirrorsIn, KeepsSandbox, Judged, Waiting;
      marked, requeue := false, 0;
      NotEmpty(api.spec, api.trace);
      ok, now := MarkSandbox(read, ConditionTrue, "Timeout");
      if !ok { return; }
      marked := true;
      HasItsVerdict(now);
      JudgedNow(api.trace, |old(api.trace)| - 1, read.status, Condition(ConditionTrue, "Timeout"));
      ghost var known := api.trace;
      var done: bool;
      ok, done, requeue := FinalizeSandbox(now, since);
      if ok && !done { WaitingEarlier(api.trace, api.trace, |old(api.trace)| - 1, |known| - 1); }
      if ok && done { ok := DeleteSandbox(); }
      JudgedStays(known, api.trace, |old(api.trace)| - 1, read.status, Condition(ConditionTrue, "Timeout"));
    }

    /** What is in memory is what is stored. */
    lemma HasItsVerdict(now: Sandbox)
      requires Valid() && Mirrors(now) && now.finalizer && Latched(now.status)
      ensures api.trace != [] && HasVerdict(api.trace[|api.trace| - 1].world, now.status.conditions[Succeeded])
    {
      hide TraceOk;
      NotEmpty(api.spec, api.trace);
    }

    /** The pod has not become ready in time: a verdict, and the deletion. A failed patch is logged only. */
    method GiveUp(read: Sandbox) returns (ok: bool, now: Sandbox, marked: bool)
      requires Valid() && Mirrors(read) && read.finalizer
      modifies api`w, api`trace, api`failures
      ensures Valid() && old(api.trace) <= api.trace && old(api.w).now <= api.w.now
      ensures old(api.failures) <= api.failures
      ensures marked ==> Latched(now.status) && (Latched(read.status) ==> now == read)
      ensures marked && !Latched(read.status) ==>
                now.status.conditions[Succeeded] == Condition(ConditionFalse, "StartupTimeoutExceeded")
      ensures marked ==>
                Judged(api.trace, |old(api.trace)| - 1, read.status,
                       Condition(ConditionFalse, "StartupTimeoutExceeded"))
      ensures ok ==> api.w.sandbox.None? || api.w.sandbox.value.deletion.Some?
      ensures api.failures == old(api.failures) ==> ok && marked
    {
      hide TraceOk, MirrorsIn, KeepsSandbox, Judged;
      NotEmpty(api.spec, api.trace);
      marked, now := MarkSandbox(read, ConditionFalse, "StartupTimeoutExceeded");
      ghost var known := api.trace;
      if marked {
        HasItsVerdict(now);
        JudgedNow(known, |old(api.trace)| - 1, read.status, Condition(ConditionFalse, "StartupTimeoutExceeded"));
      }
      ok := DeleteSandbox();
      if marked {
        JudgedStays(known, api.trace, |old(api.trace)| - 1, read.status,
                    Condition(ConditionFalse, "StartupTimeoutExceeded"));
      }
    }

    /** time.Until, and at least a millisecond. */
    method Until(limit: int) returns (wait: int)
      requires Valid()
      modifies api`w, api`trace
      ensures Valid() && old(api.trace) <= api.trace && KeepsSandbox(old(api.w), api.w)
      ensures 0 < wait && (wait <= MILLISECOND || wait <= limit - old(api.w).now)
    {
      hide TraceOk, KeepsSandbox;
      var t := api.Now();
      TimePasses(old(api.w), api.w);
      wait := if limit - t <= 0 then MILLISECOND else limit - t;
    }

    /** A pass that waits for a limit is run again by it. */
    predicate WaitsFor(requeue: int, limit: Option<int>, now: int) {
      limit.Some? ==> 0 < requeue && (requeue <= MILLISECOND || requeue <= limit.value - now)
    }

    /** When a pass over a sandbox within its limits asks to be run again; 0 for not at all. */
    method NextVisit(sb: Sandbox, timeoutAt: Option<int>, startupAt: Option<int>) returns (requeue: int)
      requires Valid() && Mirrors(sb)
      modifies api`w, api`trace
      ensures Valid() && old(api.trace) <= api.trace && Mirrors(sb) && old(api.w).now <= api.w.now
      ensures WaitsFor(requeue, timeoutAt, old(api.w).now) && WaitsFor(requeue, startupAt, old(api.w).now)
    {
      hide TraceOk, MirrorsIn, KeepsSandbox;
      requeue := 0;
      ghost var before := api.w;
      if timeoutAt.Some? {
        requeue := Until(timeoutAt.value);
        TimePasses(before, api.w);
        StillMirrors(sb, before);
      }
      before := api.w;
      if startupAt.Some? {
        var wait := Until(startupAt.value);
        TimePasses(before, api.w);
        StillMirrors(sb, before);
        if requeue == 0 || wait < requeue { requeue := wait; }
      }
    }

    /** What a pass without API errors makes of a sandbox within its limits. */
    ghost predicate Served(read: Status, pod: Option<Pod>, restore: Restore, since: nat)
      reads api
    {
      if pod.Some? then api.w.sandbox.Some? && Describes(api.w.sandbox.value.status, read, pod)
      else match restore
        case RestoreFine => PodStood(api.trace, since)
        case RestoreRefused(permanent) =>
          permanent ==> Judged(api.trace, since, read, Condition(ConditionFalse, "RootfsRestoreConfigurationError"))
    }

    /** The rest of a pass over a sandbox within its limits: its pod is created or its status reported. */
    method Serve(sb: Sandbox, pod: Option<Pod>, restore: Restore) returns (ok: bool, now: Sandbox)
      requires Valid() && Mirrors(sb) && sb.finalizer
      modifies api`w, api`trace, api`failures
      ensures Valid() && old(api.trace) <= api.trace && old(api.w).now <= api.w.now
      ensures old(api.failures) <= api.failures
      ensures api.failures == old(api.failures) ==> Served(sb.status, pod, restore, |old(api.trace)| - 1)
      ensures api.failures == old(api.failures) && pod.Some? ==> ok
    {
      hide TraceOk, MirrorsIn, Judged, PodStood, Describes;
      now := sb;
      NotEmpty(api.spec, api.trace);
      if pod.None? {
        ok, now := CreateSandboxPod(sb, restore);
        if api.failures == old(api.failures) && restore == RestoreRefused(true) {
          HasItsVerdict(now);
          JudgedNow(api.trace, |old(api.trace)| - 1, sb.status,
                    Condition(ConditionFalse, "RootfsRestoreConfigurationError"));
        }
        if !ok { return; }
      }
      ghost var known := api.trace;
      ok, now := ReconcileSandboxStatus(now, pod);
      if ok { SandboxStands(now); }
      if PodStood(known, |old(api.trace)| - 1) { PodStoodStays(known, api.trace, |old(api.trace)| - 1); }
    }

    lemma SandboxStands(now: Sandbox)
      requires Mirrors(now) && now.finalizer
      ensures api.w.sandbox.Some? && api.w.sandbox.value.status == now.status
    {}

    lemma PodStoodStays(t: seq<Moment>, more: seq<Moment>, since: nat)
      requires t <= more && PodStood(t, since)
      ensures PodStood(more, since)
    {
      var k :| since <= k < |t| && t[k].world.pod.Some?;
      assert more[k] == t[k];
    }

    /** What follows once the time limit is known: time out, give up on the start, or serve. */
    method ReconcileTimed(
        read: Sandbox, pod: Option<Pod>, timeoutAt: Option<int>, restore: Restore, startup: Option<int>, since: nat)
      returns (ok: bool, now: Sandbox, marked: bool, requeue: int)
      requires Valid() && Mirrors(read) && read.finalizer && since < |api.trace| && api.trace[since].event.PassBegan?
      modifies api`w, api`trace, api`failures
      ensures Valid() && old(api.trace) <= api.trace && old(api.w).now <= api.w.now
      ensures old(api.failures) <= api.failures
      ensures marked ==> Latched(now.status) && (Latched(read.status) ==> now == read)
      ensures IsOver(timeoutAt, old(api.w).now) ==>
                (ok ==> marked)
                && (marked && !Latched(read.status) ==>
                      now.status.conditions[Succeeded] == Condition(ConditionTrue, "Timeout"))
      ensures timeoutAt.None? && IsOver(StartupLimit(pod, startup), old(api.w).now) && marked &&
              !Latched(read.status) ==>
                now.status.conditions[Succeeded] == Condition(ConditionFalse, "StartupTimeoutExceeded")
      ensures marked ==> IsOver(timeoutAt, api.w.now) || IsOver(StartupLimit(pod, startup), api.w.now)
      ensures api.failures == old(api.failures) ==>
                Timely(old(api.w).now, |old(api.trace)| - 1, read.status, pod, timeoutAt, restore, startup, requeue)
    {
      hide TraceOk, MirrorsIn, KeepsSandbox, Served, Judged, WaitsFor, StartupLimit, PodStood, Describes, Waiting;
      now, marked, requeue := read, false, 0;
      NotEmpty(api.spec, api.trace);
      ghost var first := |api.trace| - 1;
      ghost var before := api.w;
      var t := api.Now();
      TimePasses(before, api.w);
      StillMirrors(now, before);
      ghost var later := |api.trace| - 1;
      if IsOver(timeoutAt, t) {
        ok, now, marked, requeue := TimeOut(read, since);
        if marked { JudgedEarlier(api.trace, first, later, read.status, Condition(ConditionTrue, "Timeout")); }
        if Waiting(api.trace, later) { WaitingEarlier(api.trace, api.trace, first, later); }
        return;
      }
      before := api.w;
      var startupAt := StartupLimit(pod, startup);
      t := api.Now();
      TimePasses(before, api.w);
      StillMirrors(now, before);
      later := |api.trace| - 1;
      if IsOver(startupAt, t) {
        ok, now, marked := GiveUp(read);
        if marked {
          JudgedEarlier(api.trace, first, later, read.status, Condition(ConditionFalse, "StartupTimeoutExceeded"));
        }
        return;
      }
      before := api.w;
      requeue := NextVisit(read, timeoutAt, startupAt);
      WaitsLess(requeue, timeoutAt, old(api.w).now, before.now);
      WaitsLess(requeue, startupAt, old(api.w).now, before.now);
      later := |api.trace| - 1;
      ok, now := Serve(read, pod, restore);
      if Served(read.status, pod, restore, later) { ServedEarlier(read.status, pod, restore, first, later); }
    }

    lemma JudgedEarlier(t: seq<Moment>, first: nat, later: nat, read: Status, verdict: Condition)
      requires first <= later && Judged(t, later, read, verdict)
      ensures Judged(t, first, read, verdict)
    {}

    lemma ServedEarlier(read: Status, pod: Option<Pod>, restore: Restore, first: nat, later: nat)
      requires first <= later && Served(read, pod, restore, later)
      ensures Served(read, pod, restore, first)
    {
      hide Describes, HasVerdict;
    }

    lemma WaitsLess(requeue: int, limit: Option<int>, first: int, later: int)
      requires first <= later
      ensures WaitsFor(requeue, limit, later) ==> WaitsFor(requeue, limit, first)
    {}

    /**
     What a pass without API errors makes of a live sandbox, by its limits: past the time limit, past the startup
     limit alone, or within both until the end of the pass.
     */
    ghost predicate Timely(
        start: int, since: nat, read: Status, pod: Option<Pod>, timeoutAt: Option<int>, restore: Restore,
        startup: Option<int>, requeue: int)
      reads api
    {
      var startupAt := StartupLimit(pod, startup);
      && (IsOver(timeoutAt, start) ==>
            && Judged(api.trace, since, read, Condition(ConditionTrue, "Timeout"))
            && (api.w.sandbox.None? || (0 < requeue && Waiting(api.trace, since))))
      && (IsOver(startupAt, start) && !IsOver(timeoutAt, api.w.now) ==>
            && Judged(api.trace, since, read, Condition(ConditionFalse, "StartupTimeoutExceeded"))
            && (api.w.sandbox.None? || api.w.sandbox.value.deletion.Some?))
      && (!IsOver(timeoutAt, api.w.now) && !IsOver(startupAt, api.w.now) ==>
            && Served(read, pod, restore, since)
            && WaitsFor(requeue, timeoutAt, start) && WaitsFor(requeue, startupAt, start))
    }

    /** What a pass without API errors makes of a live sandbox; seen: the moment its pod was read. */
    ghost predicate Tended(start: int, since: nat, read: Status, seen: nat, inputs: Inputs, requeue: int)
      reads api
    {
      if !inputs.policyOk then Judged(api.trace, since, read, Condition(ConditionFalse, "NetworkPolicyFailed"))
      else
        && since <= seen < |api.trace|
        && var pod := api.trace[seen].world.pod;
           Timely(start, since, read, pod, TimeoutOf(api.spec, read, pod), inputs.restore, inputs.startup, requeue)
    }

    /** What holds for a part of a pass holds for all of it, and depends on the conditions read only. */
    lemma TimelyEarlier(
        start: int, middle: int, since: nat, later: nat, read: Status, st: Status, pod: Option<Pod>,
        timeoutAt: Option<int>, restore: Restore, startup: Option<int>, requeue: int)
      requires start <= middle && since <= later && st.conditions == read.conditions
      requires Timely(middle, later, st, pod, timeoutAt, restore, startup, requeue)
      ensures Timely(start, since, read, pod, timeoutAt, restore, startup, requeue)
    {
      hide StartupLimit, PodStood, WaitsFor, HasVerdict, Describes, Judged, Waiting;
      if Waiting(api.trace, later) { WaitingEarlier(api.trace, api.trace, since, later); }
      SameConditions(since, later, read, st, pod, restore);
      WaitsLess(requeue, timeoutAt, start, middle);
      WaitsLess(requeue, StartupLimit(pod, startup), start, middle);
    }

    lemma SameConditions(since: nat, later: nat, read: Status, st: Status, pod: Option<Pod>, restore: Restore)
      requires since <= later && st.conditions == read.conditions
      ensures forall verdict :: Judged(api.trace, later, st, verdict) ==> Judged(api.trace, since, read, verdict)
      ensures Served(st, pod, restore, later) ==> Served(read, pod, restore, since)
    {
      hide HasVerdict;
    }

    lemma TendedEarlier(
        start: int, middle: int, since: nat, later: nat, read: Status, seen: nat, inputs: Inputs, requeue: int)
      requires start <= middle && since <= later && Tended(middle, later, read, seen, inputs, requeue)
      ensures Tended(start, since, read, seen, inputs, requeue)
    {
      hide Judged, Timely, TimeoutOf;
      if !inputs.policyOk {
        JudgedEarlier(api.trace, since, later, read, Condition(ConditionFalse, "NetworkPolicyFailed"));
      } else {
        var pod := api.trace[seen].world.pod;
        TimelyEarlier(start, middle, since, later, read, read, pod, TimeoutOf(api.spec, read, pod), inputs.restore,
                      inputs.startup, requeue);
      }
    }

    /** The part of a pass over a sandbox that nobody has deleted. */
    method ReconcileLive(read: Sandbox, since: nat, inputs: Inputs)
      returns (ok: bool, requeue: int, ghost seen: nat)
      requires Valid() && Mirrors(read) && read.finalizer && since < |api.trace| && api.trace[since].event.PassBegan?
      modifies api`w, api`trace, api`failures
      ensures Valid() && old(api.trace) <= api.trace && old(api.w).now <= api.w.now
      ensures old(api.failures) <= api.failures
      ensures api.failures == old(api.failures) ==>
                Tended(old(api.w).now, |old(api.trace)| - 1, read.status, seen, inputs, requeue)
    {
      hide TraceOk, MirrorsIn, KeepsSandbox, Timely, Judged, TimeoutOf;
      var sb := read;
      requeue, seen := 0, 0;
      NotEmpty(api.spec, api.trace);
      ghost var before := api.w;
      // The network policy: an invalid one is a verdict.
      if !inputs.policyOk {
        ok, sb := MarkSandbox(sb, ConditionFalse, "NetworkPolicyFailed");
        if ok {
          HasItsVerdict(sb);
          JudgedNow(api.trace, |old(api.trace)| - 1, read.status, Condition(ConditionFalse, "NetworkPolicyFailed"));
        }
        return false, 0, 0;
      }
      ok := api.Call();
      TimePasses(before, api.w);
      StillMirrors(sb, before);
      if !ok { return; }
      before := api.w;
      var pod: Option<Pod>, timeoutAt: Option<int>, at: nat, marked: bool;
      ok, pod, at := GetPod();
      seen := at;
      TimePasses(before, api.w);
      StillMirrors(sb, before);
      if !ok { return; }
      ok, sb, timeoutAt := EnsureTimeout(sb, pod);
      if !ok { return; }
      ghost var middle, later, timed := api.w.now, |api.trace| - 1, sb.status;
      ok, sb, marked, requeue := ReconcileTimed(sb, pod, timeoutAt, inputs.restore, inputs.startup, since);
      if api.failures == old(api.failures) {
        TimelyEarlier(old(api.w).now, middle, |old(api.trace)| - 1, later, read.status, timed, pod, timeoutAt,
                      inputs.restore, inputs.startup, requeue);
      }
    }

    /** A deleted sandbox that waits for nothing any more. */
    predicate Overdue(spec: Spec, w: World) {
      && w.sandbox.Some? && w.sandbox.value.deletion.Some? && w.sandbox.value.finalizer
      && (!WantsSnapshot(spec) || DeadlineOf(spec, w.sandbox.value).value < w.now)
    }

    /** The update that adds the finalizer, refused if the object changed since it was read. */
    method AddFinalizer(read: Sandbox) returns (ok: bool, now: Sandbox)
      requires Valid() && Mirrors(read) && read.deletion.None?
      modifies api`w, api`trace, api`failures
      ensures Valid() && old(api.trace) <= api.trace && old(api.w).now <= api.w.now
      ensures api.failures == if ok then old(api.failures) else old(api.failures) + 1
      ensures ok ==> Mirrors(now) && now == read.(finalizer := true)
    {
      hide TraceOk, StepOk;
      now := read;
      ok := api.Call();
      if api.w.sandbox != Some(read) {
        if ok { api.failures := api.failures + 1; }
        return false, now;
      }
      if !ok {
        if * { return; }
      }
      AddingIsStep(api.spec, api.trace);
      now := read.(finalizer := true);
      api.Step(FinalizerAdded, api.w.(sandbox := Some(now)));
    }

    /**
     Reconcile: one pass over the sandbox; at: the moment it was read. Without API errors it releases a sandbox
     that is overdue, and tends to one that nobody has deleted.
     */
    method Reconcile(inputs: Inputs) returns (ok: bool, requeue: int, ghost at: nat, ghost seen: nat)
      requires Valid()
      modifies api`w, api`trace, api`failures
      ensures Valid() && old(api.trace) <= api.trace
      ensures api.failures == old(api.failures) && Overdue(api.spec, old(api.w)) ==>
                api.w.sandbox.None? || !api.w.sandbox.value.finalizer
      ensures |old(api.trace)| <= at < |api.trace|
      ensures api.failures == old(api.failures) ==>
                match api.trace[at].world.sandbox
                case None => ok
                case Some(sb) =>
                  if sb.deletion.Some? then
                    && ok
                    && (api.w.sandbox.None? || !api.w.sandbox.value.finalizer
                        || (0 < requeue && Waiting(api.trace, |old(api.trace)|)))
                  else Tended(old(api.w).now, |old(api.trace)|, sb.status, seen, inputs, requeue)
    {
      hide TraceOk, MirrorsIn, StepOk, Tended, Waiting;
      requeue, seen := 0, 0;
      var since := api.BeginPass();
      ghost var before := api.w;
      ok := api.Call();
      NotEmpty(api.spec, api.trace);
      at := |api.trace| - 1;
      if !ok || api.w.sandbox.None? { return; }
      var sb := api.w.sandbox.value;
      LastIsSane(api.spec, api.trace);
      JustRead(sb);
      if sb.deletion.Some? {
        if !sb.finalizer { return; }
        var done: bool;
        ok, done, requeue := FinalizeSandbox(sb, since);
        if ok && !done { WaitingEarlier(api.trace, api.trace, since, at); }
        return;
      }
      if !sb.finalizer {
        ok, sb := AddFinalizer(sb);
        if !ok { return; }
      }
      ghost var start, later := api.w.now, |api.trace| - 1;
      ok, requeue, seen := ReconcileLive(sb, since, inputs);
      if api.failures == old(api.failures) {
        TendedEarlier(old(api.w).now, start, |old(api.trace)|, later, sb.status, seen, inputs, requeue);
      }
    }

    lemma JustRead(sb: Sandbox)
      requires api.w.sandbox == Some(sb) && Sane(sb.status)
      ensures Mirrors(sb)
    {}
  }

  lemma TimePasses(before: World, after: World)
    requires KeepsSandbox(before, after)
    ensures before.now <= after.now
  {}

  lemma GroundStays(spec: Spec, t: seq<Moment>, more: seq<Moment>, since: nat, ground: Ground)
    requires t != [] && t <= more && GroundHolds(spec, t, since, ground)
    requires KeepsSandbox(t[|t| - 1].world, more[|more| - 1].world)
    requires t[|t| - 1].world.sandbox.Some? && t[|t| - 1].world.sandbox.value.finalizer
    ensures GroundHolds(spec, more, since, ground)
  {}

  lemma ReleaseIsStep(spec: Spec, t: seq<Moment>, since: nat, ground: Ground)
    requires t != [] && t[|t| - 1].world.sandbox.Some? && t[|t| - 1].world.sandbox.value.finalizer
    requires since < |t| && t[since].event.PassBegan? && GroundHolds(spec, t, since, ground)
    ensures var w := t[|t| - 1].world; var sb := w.sandbox.value;
            StepOk(spec, t,
              Moment(Released(since, ground),
                w.(sandbox := if sb.deletion.Some? then None else Some(sb.(finalizer := false)))))
  {}

  lemma CreateIsStep(spec: Spec, t: seq<Moment>, snap: Snap)
    requires t != [] && t[|t| - 1].world.snap.None? && t[|t| - 1].world.sandbox.Some?
    requires snap.completion.None? && snap.succeeded.None? && snap.uid == |t|
    ensures StepOk(spec, t, Moment(SnapCreated, t[|t| - 1].world.(snap := Some(snap))))
  {}

  lemma PodCreationIsStep(spec: Spec, t: seq<Moment>, pod: Pod)
    requires t != [] && t[|t| - 1].world.pod.None?
    ensures StepOk(spec, t, Moment(PodCreated, t[|t| - 1].world.(pod := Some(pod))))
  {}

  lemma AddingIsStep(spec: Spec, t: seq<Moment>)
    requires TraceOk(spec, t) && t[|t| - 1].world.sandbox.Some? && t[|t| - 1].world.sandbox.value.deletion.None?
    ensures var w := t[|t| - 1].world;
            t != [] && StepOk(spec, t, Moment(FinalizerAdded, w.(sandbox := Some(w.sandbox.value.(finalizer := true)))))
  {}

  lemma LastIsSane(spec: Spec, t: seq<Moment>)
    requires TraceOk(spec, t)
    ensures WorldOk(t[|t| - 1].world)
  {
    EveryWorldIsOk(spec, t, |t| - 1);
  }

  lemma PatchIsStep(spec: Spec, t: seq<Moment>, sb: Sandbox, next: Status, seen: nat)
    requires t != [] && t[|t| - 1].world.sandbox.Some? && t[|t| - 1].world.sandbox.value.status == sb.status
    requires Extends(sb.status, next) && Sane(next)
    requires SaysSnapshotted(next) && !SaysSnapshotted(sb.status) ==> seen < |t| && FinishedWell(t[seen].world.snap)
    ensures var w := t[|t| - 1].world;
            StepOk(spec, t,
              Moment(StatusPatched(seen), w.(sandbox := Some(w.sandbox.value.(status := Merged(sb.status, next))))))
  {}
}
