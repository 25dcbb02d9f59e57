/**
 The objects the two controllers share through the Kubernetes API, and every step taken on them
 (internal/operator/controller). Each API call is one atomic step; between any two calls of one
 controller the other one, the kubelet, the job controller, users and the clock may take steps.
 */
module Cluster {
  import opened Options

  // ----- Time -------------------------------------------------------------------------------

  const SECOND: int := 1_000_000_000

  /** The API stores times in whole seconds. */
  function Stored(t: int): (s: int)
    ensures s <= t < s + SECOND
  {
    t - t % SECOND
  }

  /** time.Duration(seconds) * time.Second in 64 bits. */
  function Nanoseconds(seconds: int): int {
    (seconds * SECOND + 0x8000_0000_0000_0000) % 0x1_0000_0000_0000_0000 - 0x8000_0000_0000_0000
  }

  // ----- Objects ------------------------------------------------------------------------------

  datatype ConditionStatus = ConditionTrue | ConditionFalse | ConditionUnknown
  datatype Condition = Condition(status: ConditionStatus, reason: string)
  datatype ConditionType = Ready | Succeeded | PodReady | NetworkReady | RootfsSnapshotted

  datatype Status = Status(
    conditions: map<ConditionType, Condition>, timeoutAt: Option<int>, terminationDeadlineAt: Option<int>)

  datatype Sandbox = Sandbox(status: Status, deletion: Option<int>, finalizer: bool)

  datatype Phase = PodPending | PodRunning | PodSucceeded | PodFailed
  datatype Pod = Pod(
    phase: Phase, readyCondition: bool, startTime: Option<int>, created: int,
    supportedRuntime: bool, containers: seq<string>, containerID: map<string, string>)

  /** uid tells one snapshot object from a later one of the same name: the moment it was created. */
  datatype Snap = Snap(
    uid: nat, containerName: string, ttlSeconds: Option<int>, started: bool, completion: Option<int>,
    succeeded: Option<bool>, key: string)

  /** upload: what the job's termination message parses to. */
  datatype Job = Job(complete: bool, failed: bool, upload: Option<string>)

  datatype World = World(sandbox: Option<Sandbox>, pod: Option<Pod>, snap: Option<Snap>, job: Option<Job>, now: int)

  /** The immutable part of a sandbox's specification. */
  datatype SnapshotSettings = SnapshotSettings(timeoutSeconds: Option<int>)
  datatype Policy =
    | NoPolicy
    | DeletePolicy(settings: Option<SnapshotSettings>)
    | SnapshotRootfs(settings: Option<SnapshotSettings>)
    | OtherPolicy(settings: Option<SnapshotSettings>)
  datatype Spec = Spec(timeoutSeconds: Option<int>, policy: Policy)

  predicate WantsSnapshot(spec: Spec) {
    spec.policy.SnapshotRootfs? && spec.policy.settings.Some?
  }

  predicate IsPodReady(pod: Option<Pod>) {
    pod.Some? && pod.value.phase.PodRunning? && pod.value.readyCondition
  }

  predicate PodAble(pod: Option<Pod>) {
    IsPodReady(pod) && pod.value.supportedRuntime
  }

  predicate Finished(snap: Option<Snap>) {
    snap.Some? && snap.value.completion.Some?
  }

  predicate FinishedWell(snap: Option<Snap>) {
    Finished(snap) && snap.value.succeeded == Some(true)
  }

  predicate SameSnap(snap: Option<Snap>, other: Snap) {
    snap.Some? && snap.value.uid == other.uid
  }

  predicate Uploaded(job: Option<Job>, key: string) {
    job.Some? && job.value.complete && job.value.upload == Some(key)
  }

  // ----- What may never be taken back -----------------------------------------------------------

  predicate Latched(st: Status) {
    Succeeded in st.conditions
  }

  /** The two times are written once, and so is the verdict. */
  predicate Extends(old_: Status, new_: Status) {
    && (old_.timeoutAt.Some? ==> new_.timeoutAt == old_.timeoutAt)
    && (old_.terminationDeadlineAt.Some? ==> new_.terminationDeadlineAt == old_.terminationDeadlineAt)
    && (Latched(old_) ==> Latched(new_) && new_.conditions[Succeeded] == old_.conditions[Succeeded])
  }

  predicate Sane(st: Status) {
    Latched(st) ==> !st.conditions[Succeeded].status.ConditionUnknown?
  }

  predicate SaysSnapshotted(st: Status) {
    RootfsSnapshotted in st.conditions && st.conditions[RootfsSnapshotted].status.ConditionTrue?
  }

  datatype ApiStatus = StatusSucceeded | StatusFailed | StatusTerminating | StatusRunning | StatusPending

  /** SandboxStatus of the API gateway. */
  function SandboxStatus(sb: Sandbox): ApiStatus {
    if Latched(sb.status) && sb.status.conditions[Succeeded].status.ConditionTrue? then StatusSucceeded
    else if Latched(sb.status) && sb.status.conditions[Succeeded].status.ConditionFalse? then StatusFailed
    else if sb.deletion.Some? then StatusTerminating
    else if Ready in sb.status.conditions && sb.status.conditions[Ready].status.ConditionTrue? then StatusRunning
    else StatusPending
  }

  // ----- Steps -----------------------------------------------------------------------------------

  /** Why a finalizer may be removed; the positions say when it was seen. */
  datatype Ground = NotWanted | PodUnable(at: nat) | SnapshotFinished(at: nat) | DeadlinePassed

  datatype Event =
    | Start
    | PassBegan
    | FinalizerAdded
    | StatusPatched(seen: nat)
    | Released(since: nat, ground: Ground)
    | SandboxDeleted
    | PodCreated
    | SnapCreated
    | SnapStarted
    | SnapCompleted(good: bool, seen: nat)
    | SnapDeleted
    | JobCreated
    | JobDeleted
    | Elsewhere
    | SandboxCreated

  datatype Moment = Moment(event: Event, world: World)

  predicate GroundHolds(spec: Spec, t: seq<Moment>, since: nat, ground: Ground)
    requires t != []
  {
    match ground
    case NotWanted => !WantsSnapshot(spec)
    case PodUnable(at) => since <= at < |t| && !PodAble(t[at].world.pod)
    case SnapshotFinished(at) => since <= at < |t| && Finished(t[at].world.snap)
    case DeadlinePassed =>
      var w := t[|t| - 1].world;
      w.sandbox.Some? && w.sandbox.value.status.terminationDeadlineAt.Some?
      && w.now > w.sandbox.value.status.terminationDeadlineAt.value
  }

  predicate SandboxStep(spec: Spec, t: seq<Moment>, s: Moment)
    requires t != []
  {
    var b, a := t[|t| - 1].world, s.world;
    match s.event
    case PassBegan => a == b
    case FinalizerAdded =>
      && b.sandbox.Some? && b.sandbox.value.deletion.None?
      && a == b.(sandbox := Some(b.sandbox.value.(finalizer := true)))
    case StatusPatched(seen) =>
      && b.sandbox.Some? && a.sandbox.Some?
      && a == b.(sandbox := Some(b.sandbox.value.(status := a.sandbox.value.status)))
      && Extends(b.sandbox.value.status, a.sandbox.value.status) && Sane(a.sandbox.value.status)
      && (SaysSnapshotted(a.sandbox.value.status) && !SaysSnapshotted(b.sandbox.value.status) ==>
            seen < |t| && FinishedWell(t[seen].world.snap))
    case Released(since, ground) =>
      && b.sandbox.Some? && b.sandbox.value.finalizer
      && a == b.(sandbox := if b.sandbox.value.deletion.Some? then None else Some(b.sandbox.value.(finalizer := false)))
      && since < |t| && t[since].event.PassBegan? && GroundHolds(spec, t, since, ground)
    case SandboxDeleted => b.sandbox.Some? && a == b.(sandbox := AfterDelete(b.sandbox.value, b.now))
    case PodCreated => b.pod.None? && a == b.(pod := a.pod)
    case SnapCreated =>
      && b.snap.None? && b.sandbox.Some? && a.snap.Some? && a == b.(snap := a.snap)
      && a.snap.value.completion.None? && a.snap.value.succeeded.None? && a.snap.value.uid == |t|
    case _ => false
  }

  function AfterDelete(sb: Sandbox, now: int): Option<Sandbox> {
    if !sb.finalizer then None
    else Some(sb.(deletion := if sb.deletion.Some? then sb.deletion else Some(Stored(now))))
  }

  predicate SnapshotStep(t: seq<Moment>, s: Moment)
    requires t != []
  {
    var b, a := t[|t| - 1].world, s.world;
    match s.event
    case SnapStarted =>
      && b.snap.Some? && b.snap.value.completion.None?
      && a == b.(snap := Some(b.snap.value.(started := true)))
    case SnapCompleted(good, seen) =>
      && b.snap.Some? && b.snap.value.completion.None? && a.snap.Some? && a.snap.value.completion.Some?
      && a == b.(snap := Some(b.snap.value.(completion := a.snap.value.completion, succeeded := Some(good),
                                            key := a.snap.value.key)))
      && (good ==>
            && seen < |t| && Uploaded(t[seen].world.job, a.snap.value.key)
            && SameSnap(t[seen].world.snap, a.snap.value))
    case SnapDeleted => Finished(b.snap) && a == b.(snap := None)
    case JobCreated =>
      && b.job.None? && a.job.Some? && a == b.(job := a.job)
      && !a.job.value.complete && !a.job.value.failed
    case JobDeleted => a == b.(job := None)
    case _ => false
  }

  /** Users, the kubelet, the job controller, garbage collection and the clock. */
  predicate ElsewhereStep(t: seq<Moment>, s: Moment)
    requires t != []
  {
    var b, a := t[|t| - 1].world, s.world;
    match s.event
    case Elsewhere =>
      && b.now <= a.now
      && (match b.sandbox
          case None => a.sandbox.None?
          case Some(sb) =>
            || a.sandbox == b.sandbox
            || (a.sandbox == AfterDelete(sb, b.now)))
      && (a.snap == b.snap || (b.sandbox.None? && a.snap.None?))
      && (b.job.None? ==> a.job.None?)
    case SandboxCreated =>
      && b.sandbox.None? && a == b.(sandbox := a.sandbox)
      && a.sandbox == Some(Sandbox(Status(map[], None, None), None, false))
    case _ => false
  }

  predicate StepOk(spec: Spec, t: seq<Moment>, s: Moment)
    requires t != []
  {
    SandboxStep(spec, t, s) || SnapshotStep(t, s) || ElsewhereStep(t, s)
  }

  predicate WorldOk(w: World) {
    && (w.sandbox.Some? ==> Sane(w.sandbox.value.status))
    && (w.snap.Some? ==> (w.snap.value.completion.Some? <==> w.snap.value.succeeded.Some?))
  }

  ghost predicate TraceOk(spec: Spec, t: seq<Moment>) {
    && t != [] && t[0] == Moment(Start, t[0].world) && t[0].world.sandbox.None? && t[0].world.snap.None?
    && forall k :: 0 < k < |t| ==> StepOk(spec, t[..k], t[k])
  }

  lemma TraceGrows(spec: Spec, t: seq<Moment>, s: Moment)
    requires TraceOk(spec, t) && StepOk(spec, t, s)
    ensures TraceOk(spec, t + [s])
  {
    hide StepOk;
    var more := t + [s];
    forall k | 0 < k < |more|
      ensures StepOk(spec, more[..k], more[k])
    {
      if k < |t| { assert more[..k] == t[..k] && more[k] == t[k]; } else { assert more[..k] == t; }
    }
  }

  // ----- What holds over every run ------------------------------------------------------------------

  lemma {:induction false} EveryWorldIsOk(spec: Spec, t: seq<Moment>, k: nat)
    requires TraceOk(spec, t) && k < |t|
    ensures WorldOk(t[k].world)
  {
    if k > 0 {
      EveryWorldIsOk(spec, t, k - 1);
      assert StepOk(spec, t[..k], t[k]) && t[..k][k - 1] == t[k - 1];
      hide GroundHolds, TraceOk;
    }
  }

  /** The same sandbox object is there all the time. */
  predicate Persists(t: seq<Moment>, i: nat, k: nat) {
    i <= k < |t| && forall j :: i <= j <= k ==> t[j].world.sandbox.Some?
  }

  /** As long as a sandbox exists its two deadlines never move and its verdict never changes. */
  lemma {:induction false} StatusOnlyExtends(spec: Spec, t: seq<Moment>, i: nat, k: nat)
    requires TraceOk(spec, t) && Persists(t, i, k)
    ensures Extends(t[i].world.sandbox.value.status, t[k].world.sandbox.value.status)
  {
    hide GroundHolds;
    if i < k {
      StatusOnlyExtends(spec, t, i, k - 1);
      assert StepOk(spec, t[..k], t[k]) && t[..k][k - 1] == t[k - 1];
      assert t[k - 1].world.sandbox.Some? && t[k].world.sandbox.Some?;
    }
  }

  /** So the status the API derives never leaves Succeeded or Failed. */
  lemma TerminalStatusStays(spec: Spec, t: seq<Moment>, i: nat, k: nat)
    requires TraceOk(spec, t) && Persists(t, i, k)
    requires SandboxStatus(t[i].world.sandbox.value) in {StatusSucceeded, StatusFailed}
    ensures SandboxStatus(t[k].world.sandbox.value) == SandboxStatus(t[i].world.sandbox.value)
  {
    assert t[i].world.sandbox.Some? && t[k].world.sandbox.Some?;
    StatusOnlyExtends(spec, t, i, k);
  }

  /**
   A sandbox that wants a snapshot, and whose pod was ready and supported throughout the pass, loses its
   finalizer only after its termination snapshot was seen finished or the persisted deadline has passed.
   */
  lemma SnapshotBeforeRelease(spec: Spec, t: seq<Moment>, k: nat) returns (at: nat)
    requires TraceOk(spec, t) && 0 < k < |t| && t[k].event.Released? && WantsSnapshot(spec)
    requires forall j :: t[k].event.since <= j < k ==> PodAble(t[j].world.pod)
    ensures at < k
    ensures || (t[k].event.since <= at && Finished(t[at].world.snap))
            || (var w := t[k - 1].world;
                w.sandbox.Some? && w.sandbox.value.status.terminationDeadlineAt.Some?
                && w.sandbox.value.status.terminationDeadlineAt.value < w.now)
  {
    assert StepOk(spec, t[..k], t[k]) && t[..k][k - 1] == t[k - 1];
    var ground := t[k].event.ground;
    at := if ground.SnapshotFinished? then ground.at else 0;
  }

  /** A snapshot object goes back to its creation without a gap. */
  lemma {:induction false} SnapWasThere(spec: Spec, t: seq<Moment>, j: nat, k: nat)
    requires TraceOk(spec, t) && k < |t| && t[k].world.snap.Some?
    ensures 0 < t[k].world.snap.value.uid <= k && t[t[k].world.snap.value.uid].event.SnapCreated?
    ensures t[k].world.snap.value.uid <= j <= k ==> SameSnap(t[j].world.snap, t[k].world.snap.value)
  {
    hide GroundHolds, Extends, Sane, SaysSnapshotted;
    if k > 0 {
      assert StepOk(spec, t[..k], t[k]) && t[..k][k - 1] == t[k - 1];
      if !t[k].event.SnapCreated? { SnapWasThere(spec, t, j, k - 1); }
    }
  }

  /** The job that stands at `to` was created behind `from`. */
  predicate JobIsYounger(t: seq<Moment>, from: nat, to: nat)
    requires to < |t|
  {
    exists j :: from < j <= to && t[j].event.JobCreated?
  }

  /** No job stands there all the time from one moment to the other. */
  predicate JobIsAbsent(t: seq<Moment>, from: nat, to: nat)
    requires to < |t|
  {
    exists i :: from <= i <= to && t[i].world.job.None?
  }

  lemma JobsAreCreated(spec: Spec, t: seq<Moment>, k: nat)
    requires TraceOk(spec, t) && 0 < k < |t| && t[k].world.job.Some?
    ensures t[k - 1].world.job.None? <==> t[k].event.JobCreated?
  {
    hide GroundHolds, Extends, Sane, SaysSnapshotted;
    assert StepOk(spec, t[..k], t[k]) && t[..k][k - 1] == t[k - 1];
  }

  /** A job is younger than a moment if and only if there was a moment without one since. */
  lemma {:induction false} YoungerIffAbsent(spec: Spec, t: seq<Moment>, from: nat, to: nat)
    requires TraceOk(spec, t) && from <= to < |t| && t[to].world.job.Some?
    ensures JobIsYounger(t, from, to) <==> JobIsAbsent(t, from, to)
  {
    hide TraceOk;
    if from < to {
      JobsAreCreated(spec, t, to);
      if t[to].event.JobCreated? {
        assert JobIsYounger(t, from, to) && JobIsAbsent(t, from, to);
      } else {
        YoungerIffAbsent(spec, t, from, to - 1);
      }
    }
  }

  /**
   A successful snapshot carries the key of a completed job whose upload result parsed, seen while this very
   snapshot object was there. The job was created for it if and only if, since the snapshot's creation,
   there was a moment without a job of that name; otherwise an older job was taken for its own.
   */
  lemma {:induction false} SuccessMeansUploaded(spec: Spec, t: seq<Moment>, k: nat) returns (seen: nat)
    requires TraceOk(spec, t) && k < |t| && FinishedWell(t[k].world.snap)
    ensures var snap := t[k].world.snap.value;
            && snap.uid <= seen < k && t[snap.uid].event.SnapCreated? && SameSnap(t[seen].world.snap, snap)
            && Uploaded(t[seen].world.job, snap.key)
            && (JobIsYounger(t, snap.uid, seen) <==> JobIsAbsent(t, snap.uid, seen))
  {
    hide GroundHolds, Extends, Sane, SaysSnapshotted, JobIsYounger, JobIsAbsent;
    SnapWasThere(spec, t, k, k);
    assert StepOk(spec, t[..k], t[k]) && t[..k][k - 1] == t[k - 1];
    if t[k].event.SnapCompleted? {
      seen := t[k].event.seen;
      assert t[..k][seen] == t[seen];
      SnapWasThere(spec, t, seen, seen);
      YoungerIffAbsent(spec, t, t[k].world.snap.value.uid, seen);
    } else {
      seen := SuccessMeansUploaded(spec, t, k - 1);
    }
  }

  /** And whenever a job is left over at a snapshot's creation, that snapshot can succeed on its upload. */
  lemma LeftoverIsTaken(spec: Spec, t: seq<Moment>, key: string, completion: int) returns (more: seq<Moment>)
    requires TraceOk(spec, t) && t != [] && t[|t| - 1].event.SnapCreated? && t[|t| - 1].world.job.Some?
    ensures TraceOk(spec, more) && |more| == |t| + 2 && t <= more
    ensures var w := more[|t| + 1].world;
            FinishedWell(w.snap) && w.snap.value.uid == |t| - 1 && w.snap.value.key == key
    ensures forall j :: |t| <= j < |more| ==> !more[j].event.JobCreated?
  {
    hide GroundHolds, TraceOk;
    var w := t[|t| - 1].world;
    LastIsNew(spec, t);
    var uploaded := w.(job := Some(Job(true, false, Some(key))));
    var one := Moment(Elsewhere, uploaded);
    TraceGrows(spec, t, one);
    var done := w.snap.value.(completion := Some(completion), succeeded := Some(true), key := key);
    var two := Moment(SnapCompleted(true, |t|), uploaded.(snap := Some(done)));
    assert (t + [one])[|t|] == one;
    TraceGrows(spec, t + [one], two);
    more := t + [one] + [two];
  }

  lemma LastIsNew(spec: Spec, t: seq<Moment>)
    requires TraceOk(spec, t) && t[|t| - 1].event.SnapCreated?
    ensures var snap := t[|t| - 1].world.snap; snap.Some? && snap.value.uid == |t| - 1 && snap.value.completion.None?
  {
    hide GroundHolds, Extends, Sane, SaysSnapshotted;
    var k := |t| - 1;
    assert k > 0 && StepOk(spec, t[..k], t[k]);
  }

  /** And the sandbox says its snapshot is complete only if such a snapshot was seen. */
  lemma {:induction false} CompleteMeansUploaded(spec: Spec, t: seq<Moment>, k: nat) returns (seen: nat, uploaded: nat)
    requires TraceOk(spec, t) && k < |t| && t[k].world.sandbox.Some? && SaysSnapshotted(t[k].world.sandbox.value.status)
    ensures uploaded < seen < k && FinishedWell(t[seen].world.snap)
    ensures Uploaded(t[uploaded].world.job, t[seen].world.snap.value.key)
    ensures SameSnap(t[uploaded].world.snap, t[seen].world.snap.value)
  {
    hide GroundHolds;
    assert StepOk(spec, t[..k], t[k]) && t[..k][k - 1] == t[k - 1];
    if t[k].event.StatusPatched? && !SaysSnapshotted(t[k - 1].world.sandbox.value.status) {
      seen := t[k].event.seen;
      assert t[..k][seen] == t[seen];
      uploaded := SuccessMeansUploaded(spec, t, seen);
    } else {
      seen, uploaded := CompleteMeansUploaded(spec, t, k - 1);
    }
  }

  /** A finished snapshot keeps its completion time and verdict until it is deleted. */
  lemma {:induction false} CompletionStays(spec: Spec, t: seq<Moment>, i: nat, k: nat)
    requires TraceOk(spec, t) && i <= k < |t| && Finished(t[i].world.snap)
    requires forall j :: i <= j <= k ==> t[j].world.snap.Some?
    ensures t[k].world.snap == t[i].world.snap
  {
    hide GroundHolds;
    if i < k {
      CompletionStays(spec, t, i, k - 1);
      assert StepOk(spec, t[..k], t[k]) && t[..k][k - 1] == t[k - 1];
      assert t[k - 1].world.snap.Some? && t[k].world.snap.Some?;
    }
  }
}
