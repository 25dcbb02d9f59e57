/**
 The rootfs snapshot controller (internal/operator/controller/rootfssnapshot_controller.go), with
 everybody else's steps between its API calls, and the two controllers and the clock together.
 */
module SnapshotController {
  import opened Options
  import opened Cluster
  import opened ApiServer
  import opened SandboxController

  const DEFAULT_TTL_SECONDS: int := 300

  /** getTTLSeconds */
  function Ttl(snap: Snap): int {
    SECOND * if snap.ttlSeconds.Some? then snap.ttlSeconds.value else DEFAULT_TTL_SECONDS
  }

  /** The job works for this snapshot and nobody else completes it. */
  predicate Read(w: World, snap: Snap) {
    w.snap == Some(snap) || (w.snap.None? && w.sandbox.None?)
  }

  predicate HasContainer(pod: Pod, name: string) {
    if name == "" then pod.containers != [] else name in pod.containers
  }

  /** From this moment on the job has that result and the pod can be snapshotted. */
  ghost predicate UploadedSince(t: seq<Moment>, since: nat, name: string, key: string) {
    forall k :: since <= k < |t| ==>
      && Uploaded(t[k].world.job, key) && PodAble(t[k].world.pod) && HasContainer(t[k].world.pod.value, name)
  }

  /** Whoever created the job that was there all the time, its result is the snapshot's. */
  ghost predicate TakesUpload(t: seq<Moment>, since: nat, name: string, snap: Option<Snap>) {
    forall key :: UploadedSince(t, since, name, key) ==>
      snap.None? || (FinishedWell(snap) && snap.value.key == key)
  }

  predicate IsOpen(w: World) {
    w.snap.Some? && w.snap.value.completion.None?
  }

  predicate IsFailed(snap: Option<Snap>) {
    Finished(snap) && snap.value.succeeded == Some(false)
  }

  /** The container to snapshot: the named one, or else the first. */
  function ContainerOf(snap: Snap, pod: Pod): Option<string> {
    if snap.containerName != "" then if snap.containerName in pod.containers then Some(snap.containerName) else None
    else if pod.containers != [] then Some(pod.containers[0]) else None
  }

  /**
   What becomes of the snapshot for the job as it was seen; errors on the way to its pods count as a failed
   upload. Without a job there is one later in the pass, unless the container is not known.
   */
  ghost predicate Recorded(t: seq<Moment>, read: nat, snap: Snap, after: Option<Snap>, known: bool, failed: bool)
    requires read < |t|
  {
    match t[read].world.job
    case None =>
      if known then after == Some(snap.(started := true)) && JobStood(t, read) else IsFailed(after)
    case Some(j) =>
      if j.complete && j.upload.Some? && !failed then FinishedWell(after) && after.value.key == j.upload.value
      else if j.complete then Finished(after) && (FinishedWell(after) ==> j.upload == Some(after.value.key))
      else if j.failed then IsFailed(after)
      else after.None? || after == Some(snap)
  }

  /** What a pass makes of an unfinished snapshot, by its pod and then by its job. */
  ghost predicate Decided(
      t: seq<Moment>, since: nat, seen: nat, read: nat, snap: Snap, after: Option<Snap>, failed: bool)
  {
    && since <= seen < |t|
    && var pod := t[seen].world.pod;
       if !PodAble(pod) || ContainerOf(snap, pod.value).None? then IsFailed(after)
       else
         var known := ContainerOf(snap, pod.value).value in pod.value.containerID;
         seen <= read < |t| && Recorded(t, read, snap, after, known, failed)
  }

  ghost predicate JobWasGone(t: seq<Moment>, since: nat) {
    exists k :: since <= k < |t| && t[k].world.job.None?
  }

  ghost predicate JobStood(t: seq<Moment>, since: nat) {
    exists k :: since <= k < |t| && t[k].world.job.Some?
  }

  lemma GoneStays(t: seq<Moment>, more: seq<Moment>, since: nat)
    requires t <= more && JobWasGone(t, since)
    ensures JobWasGone(more, since)
  {
    var k :| since <= k < |t| && t[k].world.job.None?;
    assert more[k] == t[k];
  }

  lemma StandingStays(t: seq<Moment>, more: seq<Moment>, since: nat)
    requires t <= more && JobStood(t, since)
    ensures JobStood(more, since)
  {
    var k :| since <= k < |t| && t[k].world.job.Some?;
    assert more[k] == t[k];
  }

  class SnapshotReconciler {
    const api: Api
    const enabled: bool
    const bucketURL: string

    constructor (a: Api, on: bool, bucket: string)
      requires a.side.SnapshotSide?
      ensures api == a
    {
      api, enabled, bucketURL := a, on, bucket;
    }

    ghost predicate Valid()
      reads this, api
    {
      api.side.SnapshotSide? && api.Valid()
    }

    method Call(snap: Snap) returns (ok: bool)
      requires Valid() && Read(api.w, snap)
      modifies api`w, api`trace, api`failures
      ensures Valid() && old(api.trace) <= api.trace && Read(api.w, snap) && old(api.w).now <= api.w.now
      ensures old(api.w).snap.None? ==> api.w.snap.None?
      ensures api.failures == if ok then old(api.failures) else old(api.failures) + 1
      ensures |api.trace| > 0
    {
      hide TraceOk;
      ok := api.Call();
      NotEmpty(api.spec, api.trace);
    }

    /** The job of this snapshot goes once its result is recorded. */
    method CleanupSnapshotJob(snap: Snap) returns (ok: bool)
      requires Valid() && Read(api.w, snap)
      modifies api`w, api`trace, api`failures
      ensures Valid() && old(api.trace) <= api.trace && Read(api.w, snap) && old(api.w).now <= api.w.now
      ensures api.failures == if ok then old(api.failures) else old(api.failures) + 1
      ensures ok ==> JobWasGone(api.trace, |old(api.trace)| - 1)
    {
      hide TraceOk, StepOk;
      ok := Call(snap);
      assert api.trace[|api.trace| - 1].world == api.w;
      if !ok || api.w.job.None? { return; }
      ok := Call(snap);
      if !ok {
        if * { return; }
      }
      DeletingJobIsStep(api.spec, api.trace);
      api.Step(JobDeleted, api.w.(job := None));
    }

    /** A finished snapshot: clean up, and delete it once its time to live is over. */
    method RetireFinished(snap: Snap) returns (ok: bool, requeue: Option<int>)
      requires Valid() && Read(api.w, snap) && snap.completion.Some?
      modifies api`w, api`trace, api`failures
      ensures Valid() && old(api.trace) <= api.trace && old(api.failures) <= api.failures
      ensures api.failures == old(api.failures) ==> ok
      ensures ok ==> JobWasGone(api.trace, |old(api.trace)| - 1) && (requeue.None? ==> api.w.snap.None?)
      ensures ok && old(api.w).now >= snap.completion.value + Ttl(snap) ==> api.w.snap.None?
      ensures api.w.snap.None? && api.w.sandbox.Some? ==> api.w.now >= snap.completion.value + Ttl(snap)
      ensures ok && requeue.Some? ==> 0 < requeue.value <= snap.completion.value + Ttl(snap) - old(api.w).now
    {
      hide TraceOk, StepOk, JobWasGone;
      requeue := None;
      NotEmpty(api.spec, api.trace);
      ok := CleanupSnapshotJob(snap);
      if !ok { return; }
      ghost var known := api.trace;
      var now := api.Now();
      GoneStays(known, api.trace, |old(api.trace)| - 1);
      var left := snap.completion.value + Ttl(snap) - now;
      if left > 0 { return true, Some(left); }
      ok := Call(snap);
      GoneStays(known, api.trace, |old(api.trace)| - 1);
      if api.w.snap.None? { return true, None; }
      if !ok {
        if * { return; }
      }
      DeletingSnapIsStep(api.spec, api.trace);
      api.Step(SnapDeleted, api.w.(snap := None));
      GoneStays(known, api.trace, |old(api.trace)| - 1);
    }

    /** setSucceeded and setFailed: one patch sets the completion time, the verdict and the key. */
    method Complete(snap: Snap, good: bool, key: string, seen: nat) returns (ok: bool, requeue: Option<int>)
      requires Valid() && Read(api.w, snap) && snap.completion.None?
      requires good ==> seen < |api.trace| && Uploaded(api.trace[seen].world.job, key)
      requires good && api.w.snap.Some? ==> SameSnap(api.trace[seen].world.snap, snap)
      modifies api`w, api`trace, api`failures
      ensures Valid() && old(api.trace) <= api.trace
      ensures old(api.failures) <= api.failures
      ensures api.failures == old(api.failures) ==> ok || api.w.snap.None?
      ensures ok ==> Finished(api.w.snap) && api.w.snap.value.succeeded == Some(good)
      ensures ok ==> (good ==> api.w.snap.value.key == key) && requeue == Some(Ttl(snap))
      ensures ok ==> exists at :: old(api.w).now <= at <= api.w.now && api.w.snap.value.completion == Some(Stored(at))
    {
      hide TraceOk, StepOk;
      requeue := None;
      var now := api.Now();
      ok := Call(snap);
      if api.w.snap.None? { return false, None; }
      if !ok {
        if * { return; }
      }
      var done := snap.(completion := Some(Stored(now)), succeeded := Some(good),
                         key := if good then key else snap.key);
      CompletingIsStep(api.spec, api.trace, snap, done, good, seen);
      api.Step(SnapCompleted(good, seen), api.w.(snap := Some(done)));
      if ok { requeue := Some(Ttl(snap)); }
    }

    /** createSnapshotJob and setInProgress */
    method StartJob(snap: Snap) returns (ok: bool)
      requires Valid() && Read(api.w, snap) && snap.completion.None?
      modifies api`w, api`trace, api`failures
      ensures Valid() && old(api.trace) <= api.trace && old(api.failures) <= api.failures
      ensures api.failures == old(api.failures) ==> ok || api.w.snap.None?
      ensures ok ==> api.w.snap == Some(snap.(started := true)) && JobStood(api.trace, |old(api.trace)| - 1)
    {
      hide TraceOk, StepOk, JobStood;
      NotEmpty(api.spec, api.trace);
      ok := Call(snap);
      if api.w.job.None? {
        if !ok {
          if * { return; }
        }
        CreatingJobIsStep(api.spec, api.trace);
        api.Step(JobCreated, api.w.(job := Some(Job(false, false, None))));
      }
      if !ok { return; }
      ghost var known := api.trace;
      StandsNow(known, |old(api.trace)| - 1);
      ok := Call(snap);
      if api.w.snap.None? { return false; }
      if !ok {
        if * { return; }
      }
      StartingIsStep(api.spec, api.trace);
      api.Step(SnapStarted, api.w.(snap := Some(snap.(started := true))));
      StandingStays(known, api.trace, |old(api.trace)| - 1);
    }

    lemma StandsNow(t: seq<Moment>, since: nat)
      requires since < |t| && t[|t| - 1].world.job.Some?
      ensures JobStood(t, since)
    {}

    /** reconcileSnapshotJob: the job's end decides, and a success needs its parsed upload result. */
    method ReconcileSnapshotJob(snap: Snap, pod: Pod, containerName: string)
      returns (ok: bool, requeue: Option<int>, ghost read: nat)
      requires Valid() && Read(api.w, snap) && snap.completion.None?
      modifies api`w, api`trace, api`failures
      ensures Valid() && old(api.trace) <= api.trace && old(api.failures) <= api.failures
      ensures api.failures == old(api.failures) ==> ok || api.w.snap.None?
      ensures |old(api.trace)| - 1 <= read < |api.trace|
      ensures ok ==> Recorded(api.trace, read, snap, api.w.snap, containerName in pod.containerID,
                              api.failures > old(api.failures))
      ensures ok && Finished(api.w.snap) ==> requeue == Some(Ttl(snap))
    {
      hide TraceOk, StepOk, JobStood;
      requeue := None;
      ok := Call(snap);
      var job, seen := api.w.job, |api.trace| - 1;
      read := seen;
      assert api.trace[seen].world.job == job;
      if !ok { return; }
      if job.None? {
        if containerName !in pod.containerID {
          ok, requeue := Complete(snap, false, "", 0);
          return;
        }
        ok := StartJob(snap);
        assert api.trace[seen].world.job == job;
        return;
      }
      if job.value.complete {
        // The job's pods are listed; an error there, or a message that does not parse, is a failed snapshot.
        ok := Call(snap);
        if !ok || job.value.upload.None? {
          ok, requeue := Complete(snap, false, "", 0);
          return;
        }
        ok, requeue := Complete(snap, true, job.value.upload.value, seen);
        return;
      }
      if job.value.failed {
        ok, requeue := Complete(snap, false, "", 0);
        return;
      }
    }

    /**
     Reconcile: one pass over the termination snapshot; seen and read: the moments its pod and its job were read.
     A finished snapshot is retired. Without storage, or a pod that can be snapshotted, it is recorded as failed.
     Otherwise the job decides: there is one behind a pass that finds none, and its end is recorded.
     */
    method Reconcile() returns (ok: bool, requeue: Option<int>, ghost seen: nat, ghost read: nat)
      requires Valid()
      modifies api`w, api`trace, api`failures
      ensures Valid() && old(api.trace) <= api.trace && old(api.failures) <= api.failures
      ensures api.failures == old(api.failures) ==> ok || api.w.snap.None?
      ensures ok && IsOpen(old(api.w)) && (!enabled || bucketURL == "") ==> api.w.snap.None? || IsFailed(api.w.snap)
      ensures ok && IsOpen(old(api.w)) && enabled && bucketURL != "" ==>
                || api.w.snap.None?
                || Decided(api.trace, |old(api.trace)| - 1, seen, read, old(api.w).snap.value, api.w.snap,
                           api.failures > old(api.failures))
      ensures IsOpen(old(api.w)) && enabled && bucketURL != "" && api.failures == old(api.failures) ==>
                TakesUpload(api.trace, |old(api.trace)| - 1, old(api.w).snap.value.containerName, api.w.snap)
      ensures ok && IsOpen(old(api.w)) && Finished(api.w.snap) ==> requeue == Some(Ttl(old(api.w).snap.value))
      ensures ok && Finished(old(api.w).snap) && old(api.w).sandbox.Some? ==>
                var at := old(api.w).snap.value.completion.value + Ttl(old(api.w).snap.value);
                && (old(api.w).now >= at ==> api.w.snap.None?) && (requeue.None? ==> api.w.snap.None?)
                && (requeue.Some? ==> 0 < requeue.value <= at - old(api.w).now)
                && (api.w.snap.None? && api.w.sandbox.Some? ==> api.w.now >= at)
      ensures ok && Finished(old(api.w).snap) && api.w.sandbox.Some? ==> JobWasGone(api.trace, |old(api.trace)| - 1)
    {
      hide TraceOk, StepOk, JobWasGone, Decided, UploadedSince;
      requeue, seen, read := None, 0, 0;
      NotEmpty(api.spec, api.trace);
      ok := api.Call();
      if !ok || api.w.snap.None? { return; }
      var snap := api.w.snap.value;
      ghost var later := |api.trace| - 1;
      if snap.completion.Some? {
        ok, requeue := RetireFinished(snap);
        if ok { GoneEarlier(api.trace, |old(api.trace)| - 1, later); }
        return;
      }
      if !enabled || bucketURL == "" {
        ok, requeue := Complete(snap, false, "", 0);
        return;
      }
      ghost var failures := api.failures;
      ok, requeue, seen, read := ReconcileOpen(snap);
      DecidedEarlier(api.trace, |old(api.trace)| - 1, later, seen, read, snap, api.w.snap, api.failures > failures);
    }

    /** The part of a pass over an unfinished snapshot, with storage. */
    method ReconcileOpen(snap: Snap) returns (ok: bool, requeue: Option<int>, ghost seen: nat, ghost read: nat)
      requires Valid() && Read(api.w, snap) && snap.completion.None?
      modifies api`w, api`trace, api`failures
      ensures Valid() && old(api.trace) <= api.trace && old(api.failures) <= api.failures
      ensures api.failures == old(api.failures) ==> ok || api.w.snap.None?
      ensures ok ==>
                Decided(api.trace, |old(api.trace)| - 1, seen, read, snap, api.w.snap, api.failures > old(api.failures))
      ensures api.failures == old(api.failures) ==>
                TakesUpload(api.trace, |old(api.trace)| - 1, snap.containerName, api.w.snap)
      ensures ok && Finished(api.w.snap) ==> requeue == Some(Ttl(snap))
    {
      hide TraceOk, StepOk, JobStood, Recorded;
      requeue, seen, read := None, 0, 0;
      NotEmpty(api.spec, api.trace);
      ok := Call(snap);
      if !ok { return; }
      var pod := api.w.pod;
      seen := |api.trace| - 1;
      assert api.trace[seen].world.pod == pod;
      if pod.None? || !IsPodReady(pod) {
        ok, requeue := Complete(snap, false, "", 0);
        return;
      }
      ok := Call(snap);
      if !ok { return; }
      if !pod.value.supportedRuntime {
        ok, requeue := Complete(snap, false, "", 0);
        return;
      }
      var containerName := snap.containerName;
      if containerName != "" {
        if containerName !in pod.value.containers {
          ok, requeue := Complete(snap, false, "", 0);
          return;
        }
      } else if pod.value.containers != [] {
        containerName := pod.value.containers[0];
      } else {
        ok, requeue := Complete(snap, false, "", 0);
        return;
      }
      ghost var failures := api.failures;
      ok, requeue, read := ReconcileSnapshotJob(snap, pod.value, containerName);
      assert api.trace[seen].world.pod == pod;
      if ok && api.failures == failures {
        RecordedTakes(api.trace, |old(api.trace)| - 1, read, snap, api.w.snap, containerName in pod.value.containerID);
      }
    }
  }

  lemma DecidedEarlier(
      t: seq<Moment>, since: nat, later: nat, seen: nat, read: nat, snap: Snap, after: Option<Snap>, failed: bool)
    requires since <= later
    ensures Decided(t, later, seen, read, snap, after, failed) ==> Decided(t, since, seen, read, snap, after, failed)
    ensures TakesUpload(t, later, snap.containerName, after) ==> TakesUpload(t, since, snap.containerName, after)
  {
    hide Recorded;
    forall key | UploadedSince(t, since, snap.containerName, key)
      ensures UploadedSince(t, later, snap.containerName, key)
    {}
  }

  lemma GoneEarlier(t: seq<Moment>, since: nat, later: nat)
    requires since <= later && JobWasGone(t, later)
    ensures JobWasGone(t, since)
  {}

  lemma RecordedTakes(t: seq<Moment>, since: nat, read: nat, snap: Snap, after: Option<Snap>, known: bool)
    requires since <= read < |t| && Recorded(t, read, snap, after, known, false)
    ensures TakesUpload(t, since, snap.containerName, after)
  {
    hide JobStood;
    forall key | UploadedSince(t, since, snap.containerName, key)
      ensures after.None? || (FinishedWell(after) && after.value.key == key)
    {
      assert Uploaded(t[read].world.job, key);
    }
  }

  lemma DeletingJobIsStep(spec: Spec, t: seq<Moment>)
    requires t != []
    ensures StepOk(spec, t, Moment(JobDeleted, t[|t| - 1].world.(job := None)))
  {}

  lemma DeletingSnapIsStep(spec: Spec, t: seq<Moment>)
    requires t != [] && Finished(t[|t| - 1].world.snap)
    ensures StepOk(spec, t, Moment(SnapDeleted, t[|t| - 1].world.(snap := None)))
  {}

  lemma CompletingIsStep(spec: Spec, t: seq<Moment>, snap: Snap, done: Snap, good: bool, seen: nat)
    requires t != [] && t[|t| - 1].world.snap == Some(snap) && snap.completion.None? && done.completion.Some?
    requires done == snap.(completion := done.completion, succeeded := Some(good), key := done.key)
    requires good ==> seen < |t| && Uploaded(t[seen].world.job, done.key) && SameSnap(t[seen].world.snap, snap)
    ensures StepOk(spec, t, Moment(SnapCompleted(good, seen), t[|t| - 1].world.(snap := Some(done))))
  {}

  lemma CreatingJobIsStep(spec: Spec, t: seq<Moment>)
    requires t != [] && t[|t| - 1].world.job.None?
    ensures StepOk(spec, t, Moment(JobCreated, t[|t| - 1].world.(job := Some(Job(false, false, None)))))
  {}

  lemma StartingIsStep(spec: Spec, t: seq<Moment>)
    requires t != [] && t[|t| - 1].world.snap.Some? && t[|t| - 1].world.snap.value.completion.None?
    ensures var w := t[|t| - 1].world;
            StepOk(spec, t, Moment(SnapStarted, w.(snap := Some(w.snap.value.(started := true)))))
  {}

  /**
   Any number of turns of the two controllers, each interleaved with the steps of the other, of users,
   kubelet, garbage collection and the clock; sandboxes appear between turns.
   */
  method Run(spec: Spec, start: World, enabled: bool, bucketURL: string, turns: nat) returns (t: seq<Moment>)
    requires start.sandbox.None? && start.snap.None?
    ensures TraceOk(spec, t)
  {
    t := [Moment(Start, start)];
    hide StepOk;
    for turn := 0 to turns
      invariant TraceOk(spec, t)
    {
      if * {
        var api := new Api(spec, SandboxSide, t);
        var controller := new SandboxReconciler(api);
        var inputs: Inputs := *;
        var ok, requeue, at, seen := controller.Reconcile(inputs);
        t := api.trace;
      } else if * {
        var api := new Api(spec, SnapshotSide, t);
        var controller := new SnapshotReconciler(api, enabled, bucketURL);
        var ok, requeue, seen, read := controller.Reconcile();
        t := api.trace;
      } else {
        var s: Moment := *;
        if ElsewhereStep(t, s) {
          CreationIsStep(spec, t, s);
          TraceGrows(spec, t, s);
          t := t + [s];
        }
      }
    }
  }

  lemma CreationIsStep(spec: Spec, t: seq<Moment>, s: Moment)
    requires t != [] && ElsewhereStep(t, s)
    ensures StepOk(spec, t, s)
  {}
}
