/**
 The installer's activation protocol (internal/gvisor-installer/installer.go): switching
 containerd to a new managed block under the journal, and recovering from whatever a crash left.
 */
module Installer {
  import opened Options
  import opened ManagedBlock
  import opened EntryNames
  import opened Generation
  import opened Archive
  import opened Activation
  import opened RestartBudget
  import opened ContainerdHost
  import opened Releases

  /** The configuration with the recorded predecessor in place of the managed section. */
  function PreviousConfig(raw: string, p: Pending): Edit {
    if p.previousBlock == "" then Remove(raw) else Splice(raw, p.previousBlock)
  }

  lemma PreviousConfigSettles(raw: string, p: Pending)
    requires Single(raw) && CleanBlock(p.previousBlock)
    ensures PreviousConfig(raw, p).Refused? <==> Managed(raw).EndMissing?
    ensures PreviousConfig(raw, p).Edited? ==> Single(PreviousConfig(raw, p).text)
    ensures PreviousConfig(raw, p).Edited? ==> OnPredecessor(PreviousConfig(raw, p).text, p)
  {
    hide Single, CleanBlock, Managed, Splice, Remove;
    SpliceForm(raw, p.previousBlock);
    if !Managed(raw).EndMissing? {
      RemoveEmpties(raw);
      SpliceKeepsSingle(raw, p.previousBlock);
    }
  }

  lemma SpliceSettles(raw: string, block: string)
    requires Single(raw) && CleanBlock(block)
    ensures Splice(raw, block).Refused? <==> Managed(raw).EndMissing?
    ensures Splice(raw, block).Edited? ==> Single(Splice(raw, block).text)
    ensures Splice(raw, block).Edited? ==> Managed(Splice(raw, block).text) == Found(block)
  {
    hide Single, CleanBlock, Managed, Splice;
    SpliceForm(raw, block);
    if !Managed(raw).EndMissing? { SpliceKeepsSingle(raw, block); }
  }

  /** Nothing but the journal, the file, the daemon and what was seen of them changed. */
  ghost predicate ProtocolOnly(before: World, after: World) {
    after == before.(journal := after.journal, config := after.config, daemon := after.daemon,
                     baseline := after.baseline, dumped := after.dumped)
  }

  /** Recovery moreover may put shim configurations back. */
  ghost predicate RecoveryOnly(before: World, after: World) {
    after == before.(journal := after.journal, config := after.config, daemon := after.daemon,
                     baseline := after.baseline, dumped := after.dumped, shimConfigs := after.shimConfigs)
  }

  /** The active record is the target, and the daemon serves it from its exact paths. */
  predicate Committed(after: World, p: Pending) {
    after.journal == Journal(Some(p.target), None) && Serves(after.daemon, p.target.handler, Some(TargetOf(p.target)))
  }

  /** The active record is unchanged, and the daemon came up on a file that holds the predecessor. */
  predicate RolledBack(before: World, after: World, p: Pending) {
    && after.journal == Journal(before.journal.active, None)
    && after.daemon.running && after.daemon.ready && after.daemon.startedFrom == Some(after.config)
    && OnPredecessor(after.config, p)
  }

  /** The last thing done since then was a restart from which the daemon did not come up. */
  predicate CameDown(t: seq<Snapshot>, since: nat) {
    since < |t| && t[|t| - 1].event == Restarted(false)
  }

  /** containerd was asked about a file with this section, and did not load it. */
  predicate NotLoaded(s: Snapshot, block: string) {
    s.event == Looked && s.world.dumped.dump.DumpFailed? && Managed(s.world.config) == Found(block)
  }

  /** The last thing done since then was to ask containerd about the file, and it did not load it. */
  predicate LastNotLoaded(t: seq<Snapshot>, since: nat) {
    since < |t| && t[|t| - 1].event == Looked && t[|t| - 1].world.dumped.dump.DumpFailed?
  }

  /** The recorded generation is there, exact. */
  predicate IsComplete(c: Setting, w: World, r: Record) {
    OnRecord(w, r) && Verified(c, w, r.generation)
  }

  /** containerd objects to the target, or its shim configuration is neither intact nor what would be rendered now. */
  predicate Spoils(c: Setting, before: World, s: Snapshot, r: Record) {
    || Objects(s, before.config, TargetOf(r))
    || (s.event == Looked && !ShimConfigIntact(c, before, r.config) &&
        r.config != Rendered(c, before, r.generation, s.world.dumped.dump))
  }

  predicate ServesRecord(d: Daemon, r: Record) {
    Serves(d, r.handler, Some(TargetOf(r)))
  }

  /**
   What keeps a target whose section is on disk from being finished, seen in the steps since then: its files
   are not exact, containerd objects to the file, or the daemon does not serve it, and either the gate is
   closed or it still does not behind a restart.
   */
  predicate Unfinishable(c: Setting, before: World, t: seq<Snapshot>, since: nat, at: nat, p: Pending, held: bool) {
    || !IsComplete(c, before, p.target)
    || (since < |t| && Spoils(c, before, t[since], p.target))
    || (!ServesRecord(before.daemon, p.target) &&
        (held || (since <= at < |t| && NotServing(t[at], p.target.handler, TargetOf(p.target)))))
  }

  /** What keeps a recovery from settling the predecessor. */
  predicate Irrevocable(before: World, t: seq<Snapshot>, since: nat, held: bool) {
    Managed(before.config).EndMissing? || LastNotLoaded(t, since) || held || CameDown(t, since)
  }

  /** What keeps a change from being written, seen in the steps since then. */
  predicate Unwritable(before: World, t: seq<Snapshot>, since: nat, at: nat, raw: string, block: string) {
    before.config != raw || Managed(raw).EndMissing? || (since <= at < |t| && NotLoaded(t[at], block))
  }

  /** The pending record of a convergence restart: the target is its own predecessor. */
  function OwnPending(active: Record): Pending {
    Pending(active, active.block, active.handler)
  }

  lemma UntouchedAbandons(w: World, st: Journal)
    requires w.journal == st && st.pending.Some? && w.daemon == w.baseline
    ensures Abandons(w, Journal(st.active, None))
  {}

  /** What matters about convergence restarts: that they happen, and that a target was then seen served. */
  datatype Mark = ConvergenceRestart(block: string) | TargetServed

  predicate IsRestart(marks: seq<Mark>, i: int) {
    0 <= i < |marks| && marks[i].ConvergenceRestart?
  }

  ghost predicate Alternating(marks: seq<Mark>) {
    forall i :: IsRestart(marks, i) ==> !IsRestart(marks, i + 1)
  }

  lemma NothingMarked()
    ensures Alternating([]) && !IsRestart([], -1)
  {}

  predicate JustServed(marks: seq<Mark>) {
    marks != [] && marks[|marks| - 1].TargetServed?
  }

  lemma ServedIsAlternating(marks: seq<Mark>)
    requires Alternating(marks)
    ensures Alternating(marks + [TargetServed]) && JustServed(marks + [TargetServed])
  {
    forall i | IsRestart(marks + [TargetServed], i)
      ensures !IsRestart(marks + [TargetServed], i + 1)
    {
      assert IsRestart(marks, i) && !IsRestart(marks, i + 1);
    }
  }

  lemma RestartIsAlternating(marks: seq<Mark>, block: string)
    requires Alternating(marks) && !IsRestart(marks, |marks| - 1)
    ensures Alternating(marks + [ConvergenceRestart(block)])
  {
    var more := marks + [ConvergenceRestart(block)];
    forall i | IsRestart(more, i)
      ensures !IsRestart(more, i + 1)
    {
      if i < |marks| { assert IsRestart(marks, i) && !IsRestart(marks, i + 1); }
    }
  }

  /** Between two convergence restarts some pass has verified that a target is served. */
  lemma ConvergenceIsEarned(marks: seq<Mark>, i: nat, j: nat) returns (k: nat)
    requires Alternating(marks) && i < j && IsRestart(marks, i) && IsRestart(marks, j)
    ensures i < k < j && marks[k].TargetServed?
  {
    k := i + 1;
    assert !IsRestart(marks, k);
  }

  /** What a pass installed. */
  datatype Installation = Installation(generation: Generation, config: ConfigPath, block: string, changed: bool)

  /** A node as a pass finds it, with what the installer remembers: its gates and its last convergence restart. */
  datatype Position = Position(
    w: World, recovery: Gate, activation: Gate, converged: string, clock: nat, length: nat)

  /** A pass's way to the target: what it downloaded, where it stood behind that, and when it was decided. */
  datatype Course = Course(archive: Option<(string, seq<Entry>)>, from: Position, want: Target, at: nat)

  /** How a pass went: when a recovery was decided, where it stood with nothing pending, and its way from there. */
  datatype Report = Report(at: nat, settled: Position, course: Course)

  datatype Outcome = Finished | NotFinished | CommitSettled

  class Installer {
    const host: Host
    const releases: Releases
    const cooldown: nat
    var recoveryGate: Gate
    var activationGate: Gate
    var convergeRestartedFor: string
    var ready: bool

    /** The recovery restarts for the pending record, unless somebody interfered since it was written. */
    ghost var attempts: seq<Attempt>
    ghost var calm: bool
    /** The convergence restarts and verified targets since somebody last interfered. */
    ghost var marks: seq<Mark>

    ghost predicate BudgetOk()
      reads this, host
    {
      calm && host.w.journal.pending.Some? ==>
        Accounted(host.w.journal.pending.value, cooldown, attempts, recoveryGate, host.w.config, host.clock)
    }

    ghost predicate ConvergenceOf(st: Journal)
      reads this
    {
      && Alternating(marks)
      && (IsRestart(marks, |marks| - 1) ==>
            var block := marks[|marks| - 1].block;
            convergeRestartedFor == block && st.active.Some? && st.active.value.block == block)
    }

    ghost predicate Valid()
      reads this, host
    {
      releases.host == host && host.Valid() && BudgetOk() && ConvergenceOf(host.w.journal)
    }

    /** A process starts with nothing remembered. */
    constructor (h: Host, pause: nat)
      requires h.Valid()
      ensures Valid() && host == h && cooldown == pause && fresh(releases) && releases.verifyCache == map[]
    {
      host := h;
      releases := new Releases(h);
      cooldown := pause;
      recoveryGate, activationGate := OPEN, OPEN;
      convergeRestartedFor := "";
      ready := false;
      attempts, calm, marks := [], true, [];
    }

    /** Asks the live daemon, never the file. */
    method VerifyServing(handler: string, want: Option<Target>) returns (ok: bool)
      requires Valid()
      modifies this`marks, host`failures
      ensures Valid() && (ok ==> Serves(host.w.daemon, handler, want))
      ensures marks == if ok && want.Some? then old(marks) + [TargetServed] else old(marks)
      ensures ok && want.Some? ==> JustServed(marks)
      ensures old(host.failures) <= host.failures
      ensures host.failures == old(host.failures) ==> (ok <==> Serves(host.w.daemon, handler, want))
    {
      var st := host.CriStatus();
      if st.None? { return false; }
      if !st.value.ready { return false; }
      if st.value.handlers == [] { return false; }
      if handler !in st.value.handlers { return false; }
      if handler !in st.value.runtimes { return false; }
      var loaded := st.value.runtimes[handler];
      if loaded.typ != RUNSC_TYPE { return false; }
      if want.Some? {
        if loaded.shim != want.value.shim { return false; }
        if loaded.config != want.value.config { return false; }
        marks := marks + [TargetServed];
        ServedIsAlternating(old(marks));
      }
      return true;
    }

    method Now() returns (t: nat)
      requires Valid()
      modifies host`clock
      ensures Valid() && t == host.clock >= old(host.clock)
    {
      hide TraceOk, SettingOk, SpacedOut;
      t := host.Now();
      if calm && host.w.journal.pending.Some? {
        ClockAccounted(host.w.journal.pending.value, cooldown, attempts, recoveryGate, host.w.config,
                       old(host.clock), t);
      }
    }

    /** abandonPending: a failed write leaves the record for the next pass to recover. */
    method AbandonPending(st: Journal)
      requires host.Valid() && host.w.journal == st && Abandons(host.w, Journal(st.active, None))
      modifies host`w, host`trace, host`failures
      ensures host.Valid() && old(host.trace) <= host.trace
      ensures old(host.failures) <= host.failures
      ensures host.w == old(host.w) || host.w == old(host.w).(journal := Journal(st.active, None))
      ensures host.failures == old(host.failures) ==> host.w == old(host.w).(journal := Journal(st.active, None))
    {
      hide TraceOk, SettingOk, CleanBlock, Serves, Managed, Single;
      HostIsOk(host);
      var ok := host.WriteState(Journal(st.active, None));
    }

    /** While nothing was attempted for the pending record, neither account depends on what happens to it. */
    lemma FreshPendingIsValid(st: Journal)
      requires releases.host == host && host.Valid() && attempts == [] && ConvergenceOf(st)
      requires host.w.journal.active == st.active
      ensures Valid()
    {
      hide TraceOk, SettingOk, CleanBlock, Accounted;
      if host.w.journal.pending.Some? {
        NothingAttempted(host.w.journal.pending.value, cooldown, recoveryGate, host.w.config, host.clock);
      }
    }

    /** Rate-limited, never onto a file that does not load, and recorded as an attempt whether it succeeds or not. */
    method RecoveryRestart(p: Pending, direction: Direction) returns (ok: bool)
      requires Valid() && host.w.journal.pending == Some(p)
      requires calm ==> MayTake(p, attempts, host.w.config, direction)
      requires host.w.edited || Loadable(host.w)
      modifies this`recoveryGate, this`attempts, host`w, host`trace, host`clock
      ensures Valid() && old(host.trace) <= host.trace
      ensures host.w == old(host.w).(daemon := host.w.daemon) && old(host.clock) <= host.clock
      ensures if host.trace == old(host.trace)
              then !ok && host.w == old(host.w) && recoveryGate == old(recoveryGate)
                   && recoveryGate.Blocked(old(host.clock), RecoverySig(p, direction))
              else host.trace == old(host.trace) + [Snapshot(Restarted(ok), host.w)]
                   && recoveryGate.sig == Some(RecoverySig(p, direction))
      ensures old(recoveryGate).Blocked(host.clock, RecoverySig(p, direction)) ==>
                !ok && host.w == old(host.w) && recoveryGate == old(recoveryGate)
      ensures ok ==> host.w.daemon.running && host.w.daemon.ready && host.w.daemon.startedFrom == Some(host.w.config)
    {
      hide TraceOk, SettingOk, MayTake, Accounted;
      var sig := RecoverySig(p, direction);
      var asked := Now();
      if recoveryGate.Blocked(asked, sig) { return false; }
      ghost var known := host.clock;
      var t := host.Now();
      if calm {
        AttemptAccounted(p, cooldown, attempts, recoveryGate, host.w.config, known, t, direction);
      }
      recoveryGate := Gate(Some(sig), t + cooldown);
      attempts := attempts + [Attempt(t, direction)];
      ok := host.RestartAndAwaitHealthy();
    }

    /** Puts a configuration back and restarts onto it, whatever the deadline says. */
    method Rollback(p: Pending, previous: string) returns (ok: bool)
      requires host.Valid() && host.w.journal.pending == Some(p)
      requires Single(previous) && OnPredecessor(previous, p)
      modifies host`w, host`trace, host`failures
      ensures host.Valid() && old(host.trace) <= host.trace
      ensures old(host.failures) <= host.failures
      ensures host.w == old(host.w).(config := host.w.config, daemon := host.w.daemon)
      ensures ok ==> RolledBack(old(host.w), host.w.(journal := Journal(old(host.w).journal.active, None)), p)
      ensures !ok && host.failures == old(host.failures) ==> CameDown(host.trace, old(|host.trace|))
    {
      hide TraceOk, SettingOk, CleanBlock, Managed, Single;
      ok := host.WriteConfig(previous);
      if !ok { return; }
      ok := host.RestartAndAwaitHealthy();
    }

    /** The gate keeps this block from being activated again for a cooldown. */
    predicate JustBlocked(block: string, since: nat)
      reads this
    {
      activationGate.sig == Some(Activating(block)) && activationGate.notBefore >= since + cooldown
    }

    /** A new block that did not come up or is not served: the recognised predecessor goes back, and the gate closes. */
    method RollBackChange(st: Journal, raw: string, desired: string)
      requires host.Valid() && host.w.journal == st && st.pending.Some? && Single(raw)
      modifies this`activationGate, host`w, host`trace, host`clock, host`failures
      ensures host.Valid() && old(host.trace) <= host.trace && ProtocolOnly(old(host.w), host.w)
      ensures old(host.failures) <= host.failures
      ensures host.w.journal == st
              || (RolledBack(old(host.w), host.w, st.pending.value) && JustBlocked(desired, old(host.clock)))
      ensures old(host.clock) <= host.clock
      ensures host.failures == old(host.failures) && !Managed(raw).EndMissing? ==>
                || (RolledBack(old(host.w), host.w, st.pending.value) && JustBlocked(desired, old(host.clock)))
                || CameDown(host.trace, |old(host.trace)|)
    {
      hide TraceOk, SettingOk, CleanBlock, Serves, Managed, Splice, Remove, Single, Accounted, PreviousConfig;
      hide OnPredecessor;
      HostIsOk(host);
      var p := st.pending.value;
      PreviousConfigSettles(raw, p);
      var previous := PreviousConfig(raw, p);
      if previous.Refused? { return; }
      var ok := Rollback(p, previous.text);
      if !ok { return; }
      var t := host.Now();
      activationGate := Gate(Some(Activating(desired)), t + cooldown);
      AbandonPending(st);
    }

    /** The transaction is closed again, and neither the file nor the daemon has changed. */
    ghost predicate Withdrawn(before: World, st: Journal)
      reads host
    {
      host.w == before.(journal := Journal(st.active, None), dumped := host.w.dumped)
    }

    /**
     The first half of applyConfigChange: nothing is restarted unless the file is unchanged, spliced,
     written and loads.
     */
    method WriteChange(st: Journal, raw: string, desired: string) returns (ok: bool, ghost at: nat)
      requires host.Valid() && host.w.journal == st && st.pending.Some? && Single(raw)
      requires st.pending.value.target.block == desired && CleanBlock(desired) && host.w.daemon == host.w.baseline
      modifies host`w, host`trace, host`failures
      ensures host.Valid() && old(host.trace) <= host.trace && ProtocolOnly(old(host.w), host.w)
      ensures old(host.failures) <= host.failures
      ensures ok ==> host.w.journal == st && old(host.w).config == raw && Managed(host.w.config) == Found(desired)
      ensures ok ==> Loadable(host.w)
      ensures !ok ==> host.w.journal == st || host.w.journal == Journal(st.active, None)
      ensures host.w.config == old(host.w).config || Managed(host.w.config) == Found(desired)
      ensures host.w.daemon == old(host.w).daemon
      ensures ok ==> !Managed(raw).EndMissing?
      ensures !ok && host.failures == old(host.failures) ==>
                Withdrawn(old(host.w), st) && Unwritable(old(host.w), host.trace, |old(host.trace)|, at, raw, desired)
    {
      hide TraceOk, SettingOk, CleanBlock, Serves, Managed, Splice, Remove, Single, Accounted, Abandons, JournalOk;
      hide WorldOk;
      HostIsOk(host);
      ok, at := false, 0;
      var p := st.pending.value;
      var reread := host.ReadConfig();
      if reread.None? || reread.value != raw {
        UntouchedAbandons(host.w, st);
        AbandonPending(st);
        return;
      }
      SpliceSettles(raw, desired);
      var next := Splice(raw, desired);
      if next.Refused? {
        UntouchedAbandons(host.w, st);
        AbandonPending(st);
        return;
      }
      // The pristine backup goes to a file of its own.
      var failed := host.MayFail();
      if failed {
        UntouchedAbandons(host.w, st);
        AbandonPending(st);
        return;
      }
      ok := host.WriteConfig(next.text);
      if !ok {
        UntouchedAbandons(host.w, st);
        AbandonPending(st);
        return;
      }
      at := |host.trace|;
      ok := ValidateChange(st, raw);
    }

    /** The second half: containerd's own check of the file just written, which is put back if it fails. */
    method ValidateChange(st: Journal, raw: string) returns (ok: bool)
      requires host.Valid() && host.w.journal == st && st.pending.Some? && Single(raw)
      requires host.w.daemon == host.w.baseline
      modifies host`w, host`trace, host`failures
      ensures host.Valid() && old(host.trace) <= host.trace
      ensures old(host.failures) <= host.failures
      ensures ok ==> host.w == old(host.w).(dumped := host.w.dumped) && Loadable(host.w)
      ensures !ok ==>
                host.w == old(host.w).(dumped := host.w.dumped, config := host.w.config, journal := host.w.journal)
      ensures !ok ==> host.w.config == raw || host.w.config == old(host.w).config
      ensures !ok ==> host.w.journal == st || host.w.journal == Journal(st.active, None)
      ensures |old(host.trace)| < |host.trace| && host.trace[|old(host.trace)|].event == Looked
      ensures host.trace[|old(host.trace)|].world == old(host.w).(dumped := host.w.dumped)
      ensures ok <==> !host.w.dumped.dump.DumpFailed?
      ensures !ok && host.failures == old(host.failures) ==>
                host.w.config == raw && host.w.journal == Journal(st.active, None)
    {
      hide TraceOk, SettingOk, CleanBlock, Managed, Single, Accounted, Abandons, JournalOk, WorldOk;
      var dump := host.ConfigDump();
      if !dump.DumpFailed? { return true; }
      ok := host.WriteConfig(raw);
      if !ok { return; }
      UntouchedAbandons(host.w, st);
      AbandonPending(st);
      return false;
    }

    /** The daemon restarted onto the file as it is, and asked whether it serves the target from there. */
    method RestartOntoTarget(st: Journal, want: Target) returns (ok: bool)
      requires Valid() && host.w.journal == st && st.pending.Some? && attempts == []
      modifies this`marks, host`w, host`trace, host`failures
      ensures Valid() && old(host.trace) <= host.trace && host.w == old(host.w).(daemon := host.w.daemon)
      ensures old(host.failures) <= host.failures
      ensures ok ==> Serves(host.w.daemon, host.setting.handler, Some(want)) && JustServed(marks)
      ensures host.failures == old(host.failures) && !ok ==>
                |host.trace| == |old(host.trace)| + 1
                && NotServing(host.trace[|old(host.trace)|], host.setting.handler, want)
    {
      hide TraceOk, SettingOk, Serves, Accounted, JournalOk, JustServed, Alternating, WorldOk;
      ok := host.RestartAndAwaitHealthy();
      FreshPendingIsValid(st);
      if ok { ok := VerifyServing(host.setting.handler, Some(want)); }
    }

    /** The daemon was restarted onto this section since then, and does not serve the target from it. */
    predicate Rejected(t: seq<Snapshot>, since: nat, at: nat, block: string, want: Target) {
      since <= at < |t| && NotServing(t[at], host.setting.handler, want) && Managed(t[at].world.config) == Found(block)
    }

    /** applyConfigChange: check, write, validate, restart, ask the daemon, and roll back on failure. */
    method ApplyConfigChange(st: Journal, raw: string, desired: string, want: Target) returns (ok: bool, ghost at: nat)
      requires Valid() && host.w.journal == st && st.pending.Some? && attempts == [] && Single(raw)
      requires st.pending.value.target.block == desired && CleanBlock(desired)
      requires TargetOf(st.pending.value.target) == want
      requires st.pending.value.target.handler == host.setting.handler && host.w.daemon == host.w.baseline
      modifies this`marks, this`activationGate, host`w, host`trace, host`clock, host`failures
      ensures Valid() && old(host.trace) <= host.trace && ProtocolOnly(old(host.w), host.w)
      ensures old(host.failures) <= host.failures
      ensures ok ==> host.w.journal == st && Serves(host.w.daemon, host.setting.handler, Some(want))
      ensures ok ==> Managed(host.w.config) == Found(desired)
      ensures ok ==> JustServed(marks) && old(host.w).config == raw && activationGate == OPEN
      ensures old(host.clock) <= host.clock
      ensures !ok && host.w.journal != st && host.w.daemon != old(host.w).daemon ==>
                JustBlocked(desired, old(host.clock))
      ensures !ok ==> host.w.journal == st || host.w.journal == Journal(st.active, None)
      ensures !ok && host.failures == old(host.failures) ==>
                || (Withdrawn(old(host.w), st) &&
                    Unwritable(old(host.w), host.trace, |old(host.trace)|, at, raw, desired))
                || (Rejected(host.trace, |old(host.trace)|, at, desired, want) &&
                    ((RolledBack(old(host.w), host.w, st.pending.value) && JustBlocked(desired, old(host.clock))) ||
                     CameDown(host.trace, |old(host.trace)|)))
    {
      hide TraceOk, SettingOk, CleanBlock, Serves, Managed, Single, Accounted, OnPredecessor;
      ok, at := WriteChange(st, raw, desired);
      FreshPendingIsValid(st);
      if !ok { return; }
      at := |host.trace|;
      ok := RestartOntoTarget(st, want);
      if ok {
        activationGate := OPEN;
        return;
      }
      RollBackChange(st, raw, desired);
      FreshPendingIsValid(st);
    }

    // ----- Recovery ------------------------------------------------------------------------

    /** Whether the target of the pending record is complete on disk, so that it can be finished. */
    method TargetIsComplete(p: Pending) returns (ok: bool)
      requires Valid() && host.w.journal.pending == Some(p)
      modifies host`w, host`trace, host`failures
      ensures Valid() && old(host.trace) <= host.trace
      ensures old(host.failures) <= host.failures
      ensures host.w == old(host.w).(dumped := host.w.dumped, shimConfigs := host.w.shimConfigs)
      ensures ok ==> Verified(host.setting, host.w, p.target.generation)
      ensures ok ==> ShimConfigIntact(host.setting, host.w, p.target.config) && Loadable(host.w)
      ensures |old(host.trace)| < |host.trace| || host.trace == old(host.trace)
      ensures ok ==> OnRecord(host.w, p.target) && |old(host.trace)| < |host.trace|
      ensures ok ==> host.trace[|old(host.trace)|].event == Looked
                     && !Objects(host.trace[|old(host.trace)|], old(host.w).config, TargetOf(p.target))
      ensures !ok && host.failures == old(host.failures) ==>
                || !IsComplete(host.setting, old(host.w), p.target)
                || (|old(host.trace)| < |host.trace| &&
                    Spoils(host.setting, old(host.w), host.trace[|old(host.trace)|], p.target))
    {
      hide TraceOk, SettingOk, Accounted, Verified, ShimConfigIntact, LoadGeneration;
      var g := Load(host.w, p.target.generation);
      if g.None? { return false; }
      if g.value.version != p.target.version || g.value.archive != p.target.archive { return false; }
      ok := releases.VerifyInstalled(g.value);
      if !ok { return; }
      var dump := host.ConfigDump();
      if dump.DumpFailed? { return false; }
      if ShimConfigIntact(host.setting, old(host.w), p.target.config) {
        SameShimConfigs(host.setting, old(host.w), host.w, p.target.config);
      }
      ok := releases.KeepShimConfig(g.value, dump, p.target.config);
      if !ok { return; }
      VerifiedIsThere(host.setting, old(host.w), p.target.generation);
      VerifiedStays(host.setting, old(host.w), host.w, p.target.generation);
      if dump.HasEntry? && Conflicts(dump.entry, Some(TargetOf(p.target))) { return false; }
      return true;
    }

    /** A crash behind the activation's own restart leaves the daemon on the target already; otherwise restart it. */
    method BringUpTarget(p: Pending) returns (ok: bool)
      requires Valid() && host.w.journal.pending == Some(p) && OnTarget(host.w.config, p) && Loadable(host.w)
      modifies this`recoveryGate, this`attempts, this`marks, host`w, host`trace, host`clock, host`failures
      ensures Valid() && old(host.trace) <= host.trace && host.w == old(host.w).(daemon := host.w.daemon)
      ensures old(host.failures) <= host.failures
      ensures ok ==> Serves(host.w.daemon, p.target.handler, Some(TargetOf(p.target))) && JustServed(marks)
      ensures old(host.clock) <= host.clock
      ensures host.failures == old(host.failures) ==>
                if ServesRecord(old(host.w).daemon, p.target)
                then ok && host.w == old(host.w) && host.trace == old(host.trace)
                else ok || old(recoveryGate).Blocked(old(host.clock), RecoverySig(p, Commit))
                     || (old(|host.trace|) < |host.trace| &&
                         NotServing(host.trace[|host.trace| - 1], p.target.handler, TargetOf(p.target)))
      ensures recoveryGate == old(recoveryGate) || recoveryGate.sig == Some(RecoverySig(p, Commit))
    {
      hide TraceOk, SettingOk, Accounted, Serves, OnTarget, MayTake, CleanBlock, Alternating, JustServed;
      var want := TargetOf(p.target);
      ok := VerifyServing(p.target.handler, Some(want));
      if !ok {
        if calm { DirectionAllowed(p, cooldown, attempts, recoveryGate, host.w.config, host.clock); }
        ok := RecoveryRestart(p, Commit);
        if !ok { return; }
        ok := VerifyServing(p.target.handler, Some(want));
      }
    }

    /** The daemon serves the target: the journal is all that is missing. */
    method CommitServed(st: Journal) returns (ok: bool)
      requires Valid() && host.w.journal == st && st.pending.Some? && JustServed(marks)
      requires ServesRecord(host.w.daemon, st.pending.value.target)
      modifies this`recoveryGate, host`w, host`trace, host`failures
      ensures Valid() && old(host.trace) <= host.trace
      ensures host.failures == old(host.failures) + if ok then 0 else 1
      ensures host.w == old(host.w).(journal := host.w.journal)
      ensures ok ==> Committed(host.w, st.pending.value) && recoveryGate == OPEN
      ensures !ok ==> host.w.journal == st || Committed(host.w, st.pending.value)
    {
      hide TraceOk, SettingOk, Accounted, Serves, CleanBlock, Single, Alternating, JournalOk, WorldOk, JournalStep;
      hide JustServed;
      var target := st.pending.value.target;
      HostIsOk(host);
      CommitIsOk(host.w, target);
      ok := host.WriteState(Journal(Some(target), None));
      CommittedIsValid();
      if ok { recoveryGate := OPEN; }
    }

    /**
     commitTarget: finish forward what is complete on disk; once the daemon serves it, only the journal can
     be missing.
     */
    method CommitTarget(st: Journal) returns (outcome: Outcome, ghost at: nat)
      requires Valid() && host.w.journal == st && st.pending.Some? && OnTarget(host.w.config, st.pending.value)
      modifies this`recoveryGate, this`attempts, this`marks, host`w, host`trace, host`clock, host`failures
      ensures Valid() && old(host.trace) <= host.trace && RecoveryOnly(old(host.w), host.w)
      ensures old(host.failures) <= host.failures
      ensures host.w.config == old(host.w).config
      ensures outcome.Finished? ==> Committed(host.w, st.pending.value) && recoveryGate == OPEN
      ensures outcome.Finished? ==> Verified(host.setting, host.w, st.pending.value.target.generation)
      ensures outcome.CommitSettled? ==> host.w.journal == st || Committed(host.w, st.pending.value)
      ensures outcome.NotFinished? ==> host.w.journal == st
      ensures old(host.clock) <= host.clock
      ensures host.failures == old(host.failures) ==> !outcome.CommitSettled?
      ensures host.failures == old(host.failures) && outcome.NotFinished? ==>
                Unfinishable(host.setting, old(host.w), host.trace, |old(host.trace)|, at, st.pending.value,
                             old(recoveryGate).Blocked(old(host.clock), RecoverySig(st.pending.value, Commit)))
      ensures host.failures == old(host.failures) && ServesRecord(old(host.w).daemon, st.pending.value.target) ==>
                host.w.daemon == old(host.w).daemon
      ensures !outcome.NotFinished? ==>
                && |old(host.trace)| < |host.trace| && host.trace[|old(host.trace)|].event == Looked
                && !Objects(host.trace[|old(host.trace)|], old(host.w).config, TargetOf(st.pending.value.target))
      ensures outcome.NotFinished? ==>
                recoveryGate == old(recoveryGate) || recoveryGate.sig == Some(RecoverySig(st.pending.value, Commit))
    {
      hide TraceOk, SettingOk, Accounted, Verified, ShimConfigIntact, Serves, Managed, MayTake, CleanBlock, Single;
      hide JournalOk, IsComplete, Spoils, NotServing;
      hide WorldOk, JournalStep, Alternating, Load, OnTarget;
      var p := st.pending.value;
      at := 0;
      var ok := TargetIsComplete(p);
      if !ok { return NotFinished, at; }
      ghost var complete := host.w;
      ok := BringUpTarget(p);
      at := |host.trace| - 1;
      if !ok { return NotFinished, at; }
      ok := CommitServed(st);
      if !ok { return CommitSettled, at; }
      VerifiedIsThere(host.setting, complete, p.target.generation);
      VerifiedStays(host.setting, complete, host.w, p.target.generation);
      return Finished, at;
    }

    /** containerd's own check of the file as it is. */
    method ConfigLoads() returns (ok: bool)
      requires Valid()
      modifies host`w, host`trace
      ensures Valid() && old(host.trace) <= host.trace && host.w == old(host.w).(dumped := host.w.dumped)
      ensures if ok then Loadable(host.w) else LastNotLoaded(host.trace, |old(host.trace)|)
    {
      hide TraceOk, SettingOk, Accounted, Alternating;
      var dump := host.ConfigDump();
      return !dump.DumpFailed?;
    }

    /** Puts the predecessor into the file if it is not there, and makes sure the file loads. */
    method RestorePrevious(p: Pending, raw: string) returns (ok: bool)
      requires Valid() && host.w.journal.pending == Some(p) && raw == host.w.config
      modifies host`w, host`trace, host`failures
      ensures Valid() && old(host.trace) <= host.trace
      ensures old(host.failures) <= host.failures
      ensures host.w == old(host.w).(config := host.w.config, dumped := host.w.dumped)
      ensures ok ==> Loadable(host.w) && OnPredecessor(host.w.config, p)
      ensures ok ==> (OneBlock(p) <==> OnTarget(host.w.config, p))
      ensures !ok && host.failures == old(host.failures) ==>
                Managed(raw).EndMissing? || LastNotLoaded(host.trace, |old(host.trace)|)
    {
      hide TraceOk, SettingOk, Accounted, Serves, CleanBlock, Single, Managed, Remove, Splice, Alternating;
      hide OnPredecessor, OnTarget, PreviousConfig;
      HostIsOk(host);
      PreviousConfigSettles(raw, p);
      var next := PreviousConfig(raw, p);
      if next.Refused? { return false; }
      if calm { ConfigAccounted(p, cooldown, attempts, recoveryGate, raw, host.clock, next.text, host.clock); }
      PredecessorIsTarget(next.text, p);
      if next.text != raw {
        ok := host.WriteConfig(next.text);
        if !ok { return; }
      }
      ok := ConfigLoads();
    }

    /** The predecessor on disk, loadable, and the daemon restarted onto it. */
    method RestartOntoPrevious(p: Pending, raw: string) returns (ok: bool)
      requires Valid() && host.w.journal.pending == Some(p) && raw == host.w.config
      requires OneBlock(p) ==> !OnTarget(raw, p)
      modifies this`recoveryGate, this`attempts, host`w, host`trace, host`clock, host`failures
      ensures Valid() && old(host.trace) <= host.trace
      ensures old(host.failures) <= host.failures
      ensures host.w == old(host.w).(config := host.w.config, dumped := host.w.dumped, daemon := host.w.daemon)
      ensures ok ==> host.w.daemon.running && host.w.daemon.ready && host.w.daemon.startedFrom == Some(host.w.config)
      ensures ok ==> OnPredecessor(host.w.config, p)
      ensures old(host.clock) <= host.clock
      ensures !ok && host.failures == old(host.failures) ==>
                Irrevocable(old(host.w), host.trace, |old(host.trace)|,
                            old(recoveryGate).Blocked(old(host.clock), RecoverySig(p, RollBack)))
    {
      hide TraceOk, SettingOk, Accounted, CleanBlock, Single, Managed, Alternating, OnPredecessor, OnTarget, MayTake;
      hide JournalOk, Loadable;
      if calm { DirectionAllowed(p, cooldown, attempts, recoveryGate, raw, host.clock); }
      ok := RestorePrevious(p, raw);
      if !ok { return; }
      if calm { RollBackAllowed(p, attempts, host.w.config); }
      ok := RecoveryRestart(p, RollBack);
    }

    /** rollbackPending: the record is cleared only behind a restart that settled the predecessor. */
    method RollbackPending(st: Journal, raw: string) returns (ok: bool)
      requires Valid() && host.w.journal == st && st.pending.Some? && raw == host.w.config
      requires OneBlock(st.pending.value) ==> !OnTarget(raw, st.pending.value)
      modifies this`recoveryGate, this`attempts, this`marks, host`w, host`trace, host`clock, host`failures
      ensures Valid() && old(host.trace) <= host.trace && ProtocolOnly(old(host.w), host.w)
      ensures old(host.failures) <= host.failures
      ensures ok ==> RolledBack(old(host.w), host.w, st.pending.value)
      ensures !ok ==> host.w.journal == st || RolledBack(old(host.w), host.w, st.pending.value)
      ensures old(host.clock) <= host.clock
      ensures !ok && host.failures == old(host.failures) ==>
                Irrevocable(old(host.w), host.trace, |old(host.trace)|,
                            old(recoveryGate).Blocked(old(host.clock), RecoverySig(st.pending.value, RollBack)))
    {
      hide TraceOk, SettingOk, Accounted, Serves, CleanBlock, Single, Managed, Alternating, OnPredecessor, OnTarget;
      hide JustServed;
      hide JournalOk, JournalStep, WorldOk;
      var p := st.pending.value;
      ok := RestartOntoPrevious(p, raw);
      if !ok { return; }
      if p.previousHandler != "" {
        // A settled daemon that serves nothing is left to the rest of the pass.
        var served := VerifyServing(p.previousHandler, None);
      }
      HostIsOk(host);
      SettledCloses(host.w, p);
      ok := host.WriteState(Journal(st.active, None));
    }

    /**
     recoverPending: the section on disk decides the direction. Success closes the transaction with
     the target committed and verified, or with the predecessor settled; failure leaves the durable
     record in place, or everything but the answer of the write settled.
     */
    method RecoverPending(st: Journal) returns (now: Journal, ok: bool, ghost at: nat)
      requires Valid() && host.w.journal == st && st.pending.Some?
      modifies this`recoveryGate, this`attempts, this`marks, host`w, host`trace, host`clock, host`failures
      ensures Valid() && old(host.trace) <= host.trace && RecoveryOnly(old(host.w), host.w)
      ensures old(host.failures) <= host.failures
      ensures ok ==> now == host.w.journal
      ensures ok ==>
                || (Committed(host.w, st.pending.value) &&
                    Verified(host.setting, host.w, st.pending.value.target.generation))
                || RolledBack(old(host.w), host.w, st.pending.value)
      ensures !ok ==>
                || host.w.journal == st || Committed(host.w, st.pending.value)
                || RolledBack(old(host.w), host.w, st.pending.value)
      ensures ok && !OnTarget(old(host.w).config, st.pending.value) ==>
                RolledBack(old(host.w), host.w, st.pending.value)
      ensures ok && OnTarget(old(host.w).config, st.pending.value) && OneBlock(st.pending.value) ==>
                Committed(host.w, st.pending.value)
      ensures host.failures == old(host.failures) && OnTarget(old(host.w).config, st.pending.value) ==>
                || (ok && Committed(host.w, st.pending.value) && recoveryGate == OPEN &&
                    (ServesRecord(old(host.w).daemon, st.pending.value.target) ==>
                       host.w.daemon == old(host.w).daemon))
                || Unfinishable(host.setting, old(host.w), host.trace, |old(host.trace)|, at, st.pending.value,
                                old(recoveryGate).Blocked(old(host.clock), RecoverySig(st.pending.value, Commit)))
      ensures host.failures == old(host.failures) && !ok ==>
                || (OnTarget(old(host.w).config, st.pending.value) && OneBlock(st.pending.value))
                || Irrevocable(old(host.w), host.trace, |old(host.trace)|,
                               old(recoveryGate).Blocked(old(host.clock), RecoverySig(st.pending.value, RollBack)))
    {
      hide TraceOk, SettingOk, Accounted, Serves, CleanBlock, Single, Managed, Alternating, OnPredecessor, Verified;
      hide JustServed;
      now, at := st, 0;
      var p := st.pending.value;
      var raw := host.ReadConfig();
      if raw.None? { return now, false, at; }
      var block := Managed(raw.value);
      if block.EndMissing? { return now, false, at; }
      if block == Found(p.target.block) {
        var outcome: Outcome;
        outcome, at := CommitTarget(st);
        if outcome.Finished? { return Journal(Some(p.target), None), true, at; }
        if outcome.CommitSettled? { return now, false, at; }
        // Both configurations are one: rolling back would only restart again.
        if OneBlock(p) { return now, false, at; }
      }
      ok := RollbackPending(st, raw.value);
      now := Journal(st.active, None);
    }

    // ----- Activation -------------------------------------------------------------------------

    /** Opens a transaction: durable before anything else is touched. */
    method BeginPending(st: Journal, p: Pending) returns (ok: bool)
      requires Valid() && host.w.journal == st && st.pending.None? && JournalOk(Journal(st.active, Some(p)))
      modifies this`attempts, this`calm, host`w, host`trace, host`failures
      ensures Valid() && old(host.trace) <= host.trace && attempts == [] && calm == !host.w.edited
      ensures old(host.failures) <= host.failures
      ensures ok ==> host.w == old(host.w).(journal := Journal(st.active, Some(p)), baseline := old(host.w).daemon)
      ensures !ok ==>
                || host.w == old(host.w)
                || host.w == old(host.w).(journal := Journal(st.active, Some(p)), baseline := old(host.w).daemon)
      ensures !ok ==> old(host.failures) < host.failures
    {
      hide TraceOk, SettingOk, CleanBlock, Serves, Managed, Accounted, JournalOk, Alternating;
      attempts, calm := [], !host.w.edited;
      BeginIsStep(host.w, Journal(st.active, Some(p)));
      ok := host.WriteState(Journal(st.active, Some(p)));
      FreshPendingIsValid(st);
    }

    function RecordFor(gen: Generation, want: Target, block: string): Record {
      RecordAbout(host.setting, gen, want.config, block)
    }

    /**
     What is recorded before anything is touched: the predecessor is the active block, or for a node without
     a record whatever section is there.
     */
    method OpenActivation(st: Journal, raw: string, target: Record) returns (now: Journal, ok: bool)
      requires Valid() && host.w.journal == st && st.pending.None? && Single(raw) && RecordOk(target)
      modifies this`attempts, this`calm, host`w, host`trace, host`failures
      ensures Valid() && old(host.trace) <= host.trace && attempts == []
      ensures old(host.failures) <= host.failures
      ensures ok ==> host.w == old(host.w).(journal := now, baseline := old(host.w).daemon)
      ensures ok ==> now.active == st.active && now.pending.Some? && now.pending.value.target == target
      ensures ok && st.active.None? ==>
                now.pending.value.previousBlock == if Managed(raw).Found? then Managed(raw).text else ""
      ensures !ok ==> ProtocolOnly(old(host.w), host.w) && host.w.config == old(host.w).config
      ensures !ok ==> host.w.daemon == old(host.w).daemon
      ensures !ok && host.failures == old(host.failures) ==> st.active.None? && Managed(raw).EndMissing?
    {
      hide TraceOk, SettingOk, CleanBlock, Serves, Managed, Accounted, JournalOk, Alternating, Single, RecordOk;
      now := st;
      attempts, calm := [], !host.w.edited;
      FreshPendingIsValid(st);
      var p := Pending(target, "", "");
      if st.active.Some? {
        p := Pending(target, st.active.value.block, st.active.value.handler);
      } else {
        var current := Managed(raw);
        if current.EndMissing? { return now, false; }
        if current.Found? {
          ReadIsClean(raw);
          p := Pending(target, current.text, "");
        }
      }
      HostIsOk(host);
      PendingIsOk(st, p, raw);
      ok := BeginPending(st, p);
      now := Journal(st.active, Some(p));
    }

    /**
     activate: success is a commit while the daemon serves the target; a block that was rolled back is left
     alone for a cooldown.
     */
    method Activate(st: Journal, raw: string, desired: string, gen: Generation, want: Target)
      returns (now: Journal, ok: bool, ghost at: nat)
      requires Valid() && host.w.journal == st && st.pending.None? && Single(raw)
      requires RecordOk(RecordFor(gen, want, desired)) && want.shim == ShimOf(gen.path)
      modifies this`attempts, this`calm, this`marks, this`activationGate, host`w, host`trace, host`clock, host`failures
      ensures Valid() && old(host.trace) <= host.trace && ProtocolOnly(old(host.w), host.w)
      ensures old(host.failures) <= host.failures
      ensures ok ==> now == host.w.journal == Journal(Some(RecordFor(gen, want, desired)), None)
      ensures ok ==> Serves(host.w.daemon, host.setting.handler, Some(want)) && Managed(host.w.config) == Found(desired)
      ensures ok ==> JustServed(marks) && activationGate == OPEN
      ensures ok ==> old(host.w).config == raw
      ensures old(activationGate).Blocked(host.clock, Activating(desired)) ==> !ok && host.w == old(host.w)
      ensures !ok && host.failures == old(host.failures) ==>
                || old(activationGate).Blocked(old(host.clock), Activating(desired))
                || Unwritable(old(host.w), host.trace, |old(host.trace)|, at, raw, desired)
                || Rejected(host.trace, |old(host.trace)|, at, desired, want)
    {
      hide TraceOk, SettingOk, CleanBlock, Serves, Managed, Accounted, JournalOk, Alternating, Single, RecordOk;
      hide JustServed, JustBlocked;
      now, at := st, 0;
      var asked := Now();
      if activationGate.Blocked(asked, Activating(desired)) { return now, false, at; }
      var target := RecordFor(gen, want, desired);
      now, ok := OpenActivation(st, raw, target);
      if !ok { return; }
      RecordIsClean(target);
      ok, at := ApplyConfigChange(now, raw, desired, want);
      if !ok { return; }
      HostIsOk(host);
      CommitIsOk(host.w, target);
      now := Journal(Some(target), None);
      ok := host.WriteState(now);
      CommittedIsValid();
    }

    lemma CommittedIsValid()
      requires releases.host == host && host.Valid() && Alternating(marks) && JustServed(marks)
      requires host.w.journal.pending.Some? ==> BudgetOk()
      ensures Valid()
    {
      hide TraceOk, SettingOk, Accounted, Alternating;
    }

    // ----- Convergence --------------------------------------------------------------------------

    /** One convergence restart for this block, remembered before it is tried. */
    method RestartToConverge(p: Pending, desired: string) returns (ok: bool)
      requires Valid() && host.w.journal.pending == Some(p) && attempts == []
      requires host.w.journal.active.Some? && host.w.journal.active.value.block == desired
      requires convergeRestartedFor != desired && (calm && OneBlock(p) ==> OnTarget(host.w.config, p))
      requires host.w.edited || Loadable(host.w)
      modifies this`attempts, this`marks, this`convergeRestartedFor, this`recoveryGate
      modifies host`w, host`trace, host`clock
      ensures Valid() && old(host.trace) <= host.trace && host.w == old(host.w).(daemon := host.w.daemon)
      ensures ok ==> host.w.daemon.running && host.w.daemon.ready && host.w.daemon.startedFrom == Some(host.w.config)
      ensures old(host.clock) <= host.clock
      ensures if host.trace == old(host.trace)
              then !ok && old(recoveryGate).Blocked(old(host.clock), RecoverySig(p, Commit))
              else host.trace == old(host.trace) + [Snapshot(Restarted(ok), host.w)]
    {
      hide TraceOk, SettingOk, Accounted, Alternating, MayTake, JournalOk, WorldOk;
      convergeRestartedFor := desired;
      RestartIsAlternating(marks, desired);
      marks := marks + [ConvergenceRestart(desired)];
      NothingAttempted(p, cooldown, recoveryGate, host.w.config, host.clock);
      ok := RecoveryRestart(p, Commit);
    }

    /**
     The section is on disk but the daemon does not serve it: one restart under a pending record whose
     target is its own predecessor. The caller has not spent this restart since a target was last served.
     */
    method Converge(st: Journal, desired: string) returns (now: Journal, ok: bool, ghost at: nat)
      requires Valid() && host.w.journal == st && st.pending.None? && st.active.Some?
      requires st.active.value.block == desired
      requires convergeRestartedFor != desired
      requires host.w.edited || (Managed(host.w.config) == Found(desired) && Loadable(host.w))
      modifies this`attempts, this`calm, this`marks, this`convergeRestartedFor, this`recoveryGate
      modifies host`w, host`trace, host`clock, host`failures
      ensures Valid() && old(host.trace) <= host.trace && ProtocolOnly(old(host.w), host.w)
      ensures old(host.failures) <= host.failures
      ensures host.w.config == old(host.w).config && host.w.dumped == old(host.w).dumped
      ensures ok ==> now == host.w.journal == st
      ensures ok ==> host.w.daemon.startedFrom == Some(host.w.config) && recoveryGate == OPEN
      ensures host.failures == old(host.failures) ==>
                || old(recoveryGate).Blocked(old(host.clock), RecoverySig(OwnPending(st.active.value), Commit))
                || (|old(host.trace)| <= at < |host.trace| && host.trace[at].event == Restarted(ok) &&
                    host.w.daemon == host.trace[at].world.daemon)
    {
      hide TraceOk, SettingOk, CleanBlock, Serves, Managed, Accounted, Alternating, Single, MayTake, JournalOk;
      hide JournalStep, WorldOk;
      now, at := st, 0;
      var p := OwnPending(st.active.value);
      HostIsOk(host);
      OwnPredecessor(st);
      ok := BeginPending(st, p);
      if !ok { return; }
      now := Journal(st.active, Some(p));
      at := |host.trace|;
      ok := RestartToConverge(p, desired);
      if !ok { return; }
      HostIsOk(host);
      ConvergenceCloses(host.w, p, desired);
      now := st;
      ok := host.WriteState(st);
      if !ok { return; }
      recoveryGate := OPEN;
    }

    /** What an installer goes by: the node, and what it remembers of earlier passes. */
    ghost function Standing(): (p: Position)
      reads this, host
    {
      Position(host.w, recoveryGate, activationGate, convergeRestartedFor, host.clock, |host.trace|)
    }

    /**
     What keeps containerd from being put on the target: nothing can be rendered or written, the daemon rejected
     the new section, or it does not serve the settled one and no restart has helped or was left.
     */
    predicate Unattainable(b: Position, st: Journal, raw: string, want: Target, t: seq<Snapshot>, at: nat) {
      match host.setting.render(raw, want)
      case None => true
      case Some(block) =>
        if st.active.Some? && st.active.value.block == block && Managed(raw) == Found(block) then
          && !Serves(b.w.daemon, host.setting.handler, Some(want))
          && (|| b.converged == block
              || b.recovery.Blocked(b.clock, RecoverySig(OwnPending(st.active.value), Commit))
              || (b.length <= at < |t| && NotServing(t[at], host.setting.handler, want)))
        else
          || b.activation.Blocked(b.clock, Activating(block))
          || Unwritable(b.w, t, b.length, at, raw, block)
          || Rejected(t, b.length, at, block, want)
    }

    /**
     ensureContainerdConfig: activate what is not settled, and otherwise see to it that the daemon
     serves what is. Every success ends with the wanted target verified served.
     */
    method EnsureContainerdConfig(st: Journal, raw: string, gen: Generation, want: Target)
      returns (now: Journal, changed: bool, ok: bool, ghost block: string, ghost at: nat)
      requires Valid() && host.w.journal == st && st.pending.None? && Single(raw)
      requires forall desired :: desired != "" && CleanBlock(desired) ==> RecordOk(RecordFor(gen, want, desired))
      requires want.shim == ShimOf(gen.path) && (host.w.edited || (host.w.config == raw && Loadable(host.w)))
      modifies this`attempts, this`calm, this`marks, this`convergeRestartedFor, this`recoveryGate, this`activationGate
      modifies host`w, host`trace, host`clock, host`failures
      ensures Valid() && old(host.trace) <= host.trace && ProtocolOnly(old(host.w), host.w)
      ensures old(host.failures) <= host.failures
      ensures ok ==> now == host.w.journal && now.pending.None? && now.active.Some? && now.active.value.block == block
      ensures ok ==> Serves(host.w.daemon, host.setting.handler, Some(want))
      ensures ok ==> host.setting.render(raw, want) == Some(block)
      ensures ok ==> (host.w.edited || Managed(host.w.config) == Found(block))
      ensures ok && changed ==> now.active == Some(RecordFor(gen, want, block))
      ensures ok && changed ==> Managed(host.w.config) == Found(block)
      ensures ok && !changed ==> now == st && Managed(raw) == Found(block)
      ensures ok && !changed ==> host.w.config == old(host.w).config && host.w.dumped == old(host.w).dumped
      ensures changed ==> ok
      ensures ok ==> convergeRestartedFor == ""
      ensures !ok && host.failures == old(host.failures) ==>
                Unattainable(old(Standing()), st, raw, want, host.trace, at)
      ensures host.failures == old(host.failures) && Serves(old(host.w).daemon, host.setting.handler, Some(want)) &&
              st.active.Some? && host.setting.render(raw, want) == Some(st.active.value.block) &&
              Managed(raw) == Found(st.active.value.block) ==>
                ok && host.w == old(host.w) && host.trace == old(host.trace)
    {
      hide TraceOk, SettingOk, CleanBlock, Serves, Managed, Accounted, JournalOk, Alternating, Single, RecordOk;
      hide JustServed, RecordFor;
      now, changed, ok, block, at := st, false, false, "", 0;
      var rendered := host.setting.render(raw, want);
      if rendered.None? { return; }
      var desired := rendered.value;
      block := desired;
      RenderedIsClean(raw, want);
      var current := Managed(raw);
      if current.EndMissing? { return; }
      var settled := current == Found(desired) && st.active.Some? && st.active.value.block == desired;
      if !settled {
        now, ok, at := Activate(st, raw, desired, gen, want);
        changed := ok;
        if ok {
          ActivatedBlock(gen, want, desired);
          convergeRestartedFor := "";
          ServedForgets();
        }
        return;
      }
      ok := VerifyServing(host.setting.handler, Some(want));
      if ok {
        convergeRestartedFor := "";
        ServedForgets();
        return;
      }
      if convergeRestartedFor == desired { return; }
      now, ok, at := Converge(st, desired);
      if !ok { return; }
      ok := VerifyServing(host.setting.handler, Some(want));
      if ok {
        convergeRestartedFor := "";
        ServedForgets();
      }
    }

    lemma ServedForgets()
      requires releases.host == host && host.Valid() && BudgetOk() && Alternating(marks) && JustServed(marks)
      ensures Valid()
    {
      hide TraceOk, SettingOk, Accounted, Alternating;
    }

    lemma RenderedIsClean(raw: string, want: Target)
      requires host.Valid() && host.setting.render(raw, want).Some?
      ensures host.setting.render(raw, want).value != "" && CleanBlock(host.setting.render(raw, want).value)
    {
      hide TraceOk, CleanBlock;
    }

    lemma ActivatedBlock(gen: Generation, want: Target, block: string)
      requires want.shim == ShimOf(gen.path)
      ensures RecordFor(gen, want, block).block == block && TargetOf(RecordFor(gen, want, block)) == want
    {}

    // ----- One pass -----------------------------------------------------------------------------

    /** The entry that may be pinned to its paths: none for a foreign one or a stale section. */
    function PinnedTarget(w: World): (pin: Option<Target>)
      ensures pin.Some? ==> w.journal.active.Some? && pin.value == TargetOf(w.journal.active.value)
    {
      var active := w.journal.active;
      if active.Some? && Managed(w.config) == Found(active.value.block) && Load(w, active.value.generation).Some?
      then Some(TargetOf(active.value)) else None
    }

    lemma LookPinsTheSame(w: World, look: Look)
      ensures PinnedTarget(w.(dumped := look)) == PinnedTarget(w)
    {}

    /** New sandboxes of the active installation cannot work right now. */
    predicate ActiveBroken(st: Journal)
      reads host
    {
      st.active.Some? && st.active.value.handler == host.setting.handler && FilesBroken(host.w, st.active.value)
    }

    predicate FilesBroken(w: World, r: Record) {
      !Verified(host.setting, w, r.generation) || !ShimConfigIntact(host.setting, w, r.config)
    }

    lemma LookKeepsBroken(w: World, look: Look)
      ensures forall r :: FilesBroken(w.(dumped := look), r) <==> FilesBroken(w, r)
    {
      hide Exact, LoadGeneration;
    }

    /** Nothing is installed under this handler, or its files are as they should be, as far as the pass knows. */
    predicate ActiveKept(st: Journal)
      reads this, releases, host
    {
      st.active.None? || st.active.value.handler != host.setting.handler || FilesKept(st.active.value)
    }

    predicate FilesKept(r: Record)
      reads this, releases, host
    {
      OnRecord(host.w, r) && releases.Trusted(host.w, r.generation) && ShimConfigIntact(host.setting, host.w, r.config)
    }

    /** maintainActive: broken active files make the node unready before any repair. */
    method MaintainActive(st: Journal)
      requires Valid() && releases.CacheSound() && !host.w.leaked
      modifies releases`verifyCache, host`w, host`trace, host`failures
      ensures Valid() && releases.CacheSound() && old(host.trace) <= host.trace && host.w == old(host.w)
      ensures old(host.failures) <= host.failures
      ensures ActiveBroken(st) ==> |host.trace| == |old(host.trace)| + 1
      ensures host.failures == old(host.failures) ==> (host.trace == old(host.trace) <==> old(ActiveKept(st)))
      ensures ActiveBroken(st) ==> host.trace[|host.trace| - 1].event == Labelled(false, "", false, NoBasis)
    {
      hide TraceOk, SettingOk, OnRecord, Accounted, Alternating, Verified, Load, ShimConfigIntact, ReadyTruth;
      if st.active.None? || st.active.value.handler != host.setting.handler { return; }
      var ok := releases.VerifiedActiveGeneration(st.active.value);
      if ok { ok := releases.CheckShimConfig(st.active.value.config); }
      if !ok {
        var patched := host.SetNodeLabels(false, "", false, NoBasis);
      }
    }

    /** What a pass that succeeded on a managed node has made true. */
    ghost predicate Installed(done: Installation)
      reads host`w
    {
      && host.w.journal.pending.None? && host.w.journal.active.Some? && host.w.journal.active.value.block == done.block
      && (host.w.edited || Managed(host.w.config) == Found(done.block))
      && done.generation.version == host.setting.version
      && Load(host.w, done.generation.path) == Some(done.generation)
      && Verified(host.setting, host.w, done.generation.path)
      && ShimConfigIntact(host.setting, host.w, done.config)
      && Serves(host.w.daemon, host.setting.handler, Some(Target(ShimOf(done.generation.path), done.config)))
      && (host.w.dumped.dump.HasEntry? ==> host.w.dumped.dump.entry.typ == RUNSC_TYPE)
    }

    /** A handler of somebody else's, found in the merged configuration of a node without a managed section. */
    predicate ForeignFound()
      reads host`w
    {
      && Managed(host.w.config).NoBlock? && Loadable(host.w)
      && host.w.dumped.dump.HasEntry? && host.w.dumped.dump.entry.typ == RUNSC_TYPE
    }

    /** The merged view once more, now that the section is new and its paths can be pinned. */
    method CheckMerged(want: Target) returns (conflict: bool, ok: bool)
      requires Valid()
      modifies host`w, host`trace
      ensures Valid() && host.w == old(host.w).(dumped := host.w.dumped)
      ensures host.trace == old(host.trace) + [Snapshot(Looked, host.w)] && host.failures == old(host.failures)
      ensures ok <==> !Objects(host.trace[|host.trace| - 1], host.w.config, want)
      ensures !ok && !conflict ==> LastNotLoaded(host.trace, |old(host.trace)|)
      ensures ok ==> !conflict && (host.w.dumped.dump.HasEntry? ==> host.w.dumped.dump.entry.typ == RUNSC_TYPE)
      ensures conflict ==> !ok && host.w.dumped.dump.HasEntry? && Conflicts(host.w.dumped.dump.entry, Some(want))
    {
      hide TraceOk, SettingOk, Accounted, Alternating;
      var dump := host.ConfigDump();
      if dump.DumpFailed? { return false, false; }
      if dump.HasEntry? && Conflicts(dump.entry, Some(want)) { return true, false; }
      return false, true;
    }

    /** What was downloaded can neither be unpacked and published nor repair what stands in its place. */
    predicate Unobtainable(w: World, archive: Option<(string, seq<Entry>)>) {
      archive.Some? && !releases.Usable(releases.Tidied(w), archive.value.0, archive.value.1)
    }

    /** The first half: the wanted generation and its shim configuration, before containerd is touched. */
    method PrepareWanted(st: Journal, raw: string, dump: Dump)
      returns (found: Option<Generation>, config: ConfigPath, ghost archive: Option<(string, seq<Entry>)>)
      requires Valid() && releases.CacheSound() && !host.w.leaked && host.w.journal == st && st.pending.None?
      requires host.w.config == raw && host.w.dumped == Look(raw, dump) && !dump.DumpFailed?
      modifies this`marks, releases`verifyCache, host`w, host`trace, host`failures
      ensures Valid() && releases.CacheSound() && old(host.trace) <= host.trace
      ensures old(host.failures) <= host.failures
      ensures !host.w.leaked ==> marks == old(marks)
      ensures host.w.dumped == old(host.w).dumped
      ensures found.Some? ==> host.w.journal == st && (host.w.edited || (host.w.config == raw && Loadable(host.w)))
      ensures found.Some? ==> releases.Approved(found.value.path) && host.w.daemon == old(host.w).daemon
      ensures found.Some? ==> config == Rendered(host.setting, host.w, found.value.path, dump)
      ensures found.None? && host.failures == old(host.failures) ==>
                && (forall path :: releases.Wanted(path) ==>
                      !old(releases.Trusted(releases.Tidied(host.w), path)))
                && Unobtainable(old(host.w), archive)
      ensures found.Some? ==> var gen := found.value;
                && Load(host.w, gen.path) == Some(gen) && Verified(host.setting, host.w, gen.path)
                && gen.path.parent == ReleasesDir(host.setting) && gen.path.version == host.setting.version
                && ShimConfigIntact(host.setting, host.w, config) && config.dir == ConfigsDir(host.setting)
    {
      hide TraceOk, SettingOk, Accounted, Alternating, Verified, Load, ShimConfigIntact, Managed, Single, Serves;
      hide CleanBlock, JournalOk, ReleasesDir, ConfigsDir;
      config := ConfigPath("", "");
      found, archive := releases.EnsureGeneration();
      NothingMarked();
      if host.w.leaked && found.None? { marks := []; }
      assert Valid();
      if found.None? { return; }
      ghost var before := host.w;
      var path := releases.EnsureRunscConfig(found.value, dump);
      VerifiedIsThere(host.setting, before, found.value.path);
      releases.StaysSound(before);
      if path.None? { return None, config, archive; }
      VerifiedStays(host.setting, before, host.w, found.value.path);
      config := path.value;
    }

    /** Later in a pass, with nothing done to containerd and nothing new remembered of it. */
    predicate From(p: Position, b: Position) {
      && p == b.(w := p.w, length := p.length) && b.length <= p.length
      && p.w.daemon == b.w.daemon && (p.w.edited || p.w.config == b.w.config)
    }

    /** Behind a change of the section the merged view was looked at once more; without one the journal is as it was. */
    predicate LookedAgain(t: seq<Snapshot>, st: Journal, done: Installation) {
      t != []
      && var last := t[|t| - 1];
         if done.changed
         then last.event == Looked
              && !Objects(last, last.world.config, Target(ShimOf(done.generation.path), done.config))
         else last.world.journal == st
    }

    /** A target of the wanted version, in the installer's own directories. */
    predicate IsWanted(want: Target) {
      want.shim.ShimOf? && releases.Wanted(want.shim.generation) && want.config.dir == ConfigsDir(host.setting)
    }

    /**
     What keeps a pass from its target: nothing to install from, containerd cannot be put on it, or containerd no
     longer loads its own file.
     */
    predicate Unreachable(t: seq<Snapshot>, before: World, st: Journal, raw: string, since: nat, course: Course) {
      || Unobtainable(before, course.archive)
      || (IsWanted(course.want) && Unattainable(course.from, st, raw, course.want, t, course.at))
      || LastNotLoaded(t, since)
    }

    lemma LookKeepsUnreachable(t: seq<Snapshot>, w: World, look: Look, since: nat, earlier: nat, course: Course)
      requires Unreachable(t, w.(dumped := look), w.journal, w.config, since, course) && earlier <= since
      ensures Unreachable(t, w, w.journal, w.config, earlier, course)
    {
      hide Unattainable;
    }

    /** The managed half of a pass: the wanted generation, its shim configuration, and containerd on both. */
    method InstallWanted(st: Journal, raw: string, dump: Dump)
      returns (conflict: bool, ok: bool, ghost done: Option<Installation>, ghost course: Course)
      requires Valid() && releases.CacheSound() && !host.w.leaked && host.w.journal == st && st.pending.None?
      requires host.w.config == raw && host.w.dumped == Look(raw, dump) && !dump.DumpFailed?
      requires (dump.HasEntry? ==> dump.entry.typ == RUNSC_TYPE)
      modifies this`attempts, this`calm, this`marks, this`convergeRestartedFor, this`recoveryGate, this`activationGate
      modifies releases`verifyCache, host`w, host`trace, host`clock, host`failures
      ensures Valid() && releases.CacheSound() && old(host.trace) <= host.trace
      ensures old(host.failures) <= host.failures
      ensures ok ==> !conflict && done.Some? && Installed(done.value)
      ensures conflict ==> !ok && InConflict()
      ensures ok ==> releases.Approved(done.value.generation.path)
      ensures From(course.from, old(Standing()))
      ensures !ok && !conflict && host.failures == old(host.failures) ==>
                Unreachable(host.trace, old(host.w), st, raw, old(|host.trace|), course)
      ensures ok ==> done.value.config == Rendered(host.setting, host.w, done.value.generation.path, dump)
      ensures ok ==> LookedAgain(host.trace, st, done.value)
    {
      hide TraceOk, SettingOk, Accounted, Alternating, JustServed, Verified, Load, ShimConfigIntact, Managed, Single;
      hide CleanBlock, RecordOk, RecordFor, Serves, JournalOk, ReleasesDir, ConfigsDir;
      hide Unattainable, Unobtainable;
      conflict, ok, done := false, false, None;
      course := Course(None, Standing(), Target(OtherPath(""), ConfigPath("", "")), 0);
      HostIsOk(host);
      ghost var archive;
      var found, config;
      found, config, archive := PrepareWanted(st, raw, dump);
      if found.None? {
        course := course.(archive := archive);
        return;
      }
      var gen := found.value;
      var want := Target(ShimOf(gen.path), config);
      VerifiedIsThere(host.setting, host.w, gen.path);
      WantedRecordOk(gen, want);
      ghost var before := host.w;
      var changed: bool;
      course := Course(archive, Standing(), want, 0);
      ghost var now, block, at;
      now, changed, ok, block, at := EnsureContainerdConfig(st, raw, gen, want);
      course := course.(at := at);
      StillPrepared(before, gen, config);
      if !ok { return; }
      if changed {
        ActivatedBlock(gen, want, block);
        before := host.w;
        conflict, ok := CheckMerged(want);
        StillPrepared(before, gen, config);
        if !ok { return; }
      }
      HostIsOk(host);
      done := Some(Installation(gen, config, block, changed));
    }

    /** What was made ready stays so while only containerd is worked on. */
    lemma StillPrepared(before: World, gen: Generation, config: ConfigPath)
      requires releases.host == host && (before.leaked || releases.CacheTrue(before))
      requires ProtocolOnly(before, host.w) || host.w == before.(dumped := host.w.dumped)
      requires Load(before, gen.path) == Some(gen) && Verified(host.setting, before, gen.path)
      requires ShimConfigIntact(host.setting, before, config)
      ensures releases.CacheSound() && Load(host.w, gen.path) == Some(gen)
      ensures Verified(host.setting, host.w, gen.path) && ShimConfigIntact(host.setting, host.w, config)
    {
      hide Load, Verified, ShimConfigIntact;
      releases.StaysSound(before);
      VerifiedIsThere(host.setting, before, gen.path);
      VerifiedStays(host.setting, before, host.w, gen.path);
      SameShimConfigs(host.setting, before, host.w, config);
    }

    lemma WantedRecordOk(gen: Generation, want: Target)
      requires host.Valid() && Load(host.w, gen.path) == Some(gen) && Verified(host.setting, host.w, gen.path)
      requires gen.path.parent == ReleasesDir(host.setting) && gen.path.version == host.setting.version
      requires want.config.dir == ConfigsDir(host.setting)
      ensures forall block :: block != "" && CleanBlock(block) ==> RecordOk(RecordFor(gen, want, block))
    {
      hide TraceOk, CleanBlock, IsDigest, Verified, ReleasesDir, ConfigsDir, Load;
      HostIsOk(host);
      InstallDirsAreAbsolute(host.setting);
      VerifiedIsThere(host.setting, host.w, gen.path);
    }

    /** The merged configuration has something else under our name, or points the active record's runtime elsewhere. */
    predicate InConflict()
      reads host`w
    {
      && host.w.dumped.dump.HasEntry?
      && (host.w.dumped.dump.entry.typ != RUNSC_TYPE
          || (host.w.journal.active.Some? &&
              Conflicts(host.w.dumped.dump.entry, Some(TargetOf(host.w.journal.active.value)))))
    }

    /** What the file and the merged configuration make of the node: in both special cases it is left as it was. */
    predicate Classified(before: World, dump: Dump, after: World, foreignOK: bool, conflict: bool, ok: bool) {
      var plain := !Managed(before.config).EndMissing? && dump.HasEntry?;
      var contrary := plain && Conflicts(dump.entry, PinnedTarget(before));
      && (contrary ==> conflict && after == before.(dumped := after.dumped))
      && (foreignOK <==> plain && !contrary && Managed(before.config).NoBlock?)
      && (foreignOK ==> after == before.(dumped := after.dumped))
      && (foreignOK ==> (ok <==> Serves(after.daemon, host.setting.handler, None)))
    }

    /** containerd does not load its file, the section in it has no end, or the target is out of reach. */
    predicate CannotInstall(t: seq<Snapshot>, b: Position, course: Course) {
      && b.length < |t| && From(course.from, b)
      && (|| t[b.length].world.dumped.dump.DumpFailed?
          || Managed(b.w.config).EndMissing?
          || Unreachable(t, b.w, b.w.journal, b.w.config, b.length, course))
    }

    /** Neither the target can be finished nor the predecessor settled. */
    predicate CannotRecover(t: seq<Snapshot>, b: Position, at: nat)
      requires b.w.journal.pending.Some?
    {
      var p := b.w.journal.pending.value;
      || (OnTarget(b.w.config, p) && OneBlock(p) &&
          Unfinishable(host.setting, b.w, t, b.length, at, p, b.recovery.Blocked(b.clock, RecoverySig(p, Commit))))
      || Irrevocable(b.w, t, b.length, b.recovery.Blocked(b.clock, RecoverySig(p, RollBack)))
    }

    /**
     A pass in which no step failed: what was pending is settled, unless there is a reason why it cannot be, and
     then the node is classified and the target installed, unless there is a reason why not.
     */
    predicate Explained(
        t: seq<Snapshot>, b: Position, foreignOK: bool, conflict: bool, ok: bool, report: Report)
    {
      var settled := report.settled;
      && t != [] && (b.w.journal.pending.None? ==> settled == b)
      && (settled.w.journal.pending.Some? ==>
            !ok && !foreignOK && !conflict && settled == b && CannotRecover(t, b, report.at))
      && (settled.w.journal.pending.None? ==>
            && 0 < settled.length < |t| && settled.w == t[settled.length - 1].world
            && t[settled.length].event == Looked
            && Classified(settled.w, t[settled.length].world.dumped.dump, t[|t| - 1].world, foreignOK, conflict, ok)
            && (!foreignOK && !conflict && !ok ==> CannotInstall(t, settled, report.course)))
    }

    /** What is installed is looked after before anything new is prepared. */
    method MaintainAndInstall(st: Journal, raw: string, dump: Dump)
      returns (conflict: bool, ok: bool, ghost done: Option<Installation>, ghost course: Course)
      requires Valid() && releases.CacheSound() && !host.w.leaked && host.w.journal == st && st.pending.None?
      requires host.w.config == raw && host.w.dumped == Look(raw, dump) && !dump.DumpFailed?
      requires (dump.HasEntry? ==> dump.entry.typ == RUNSC_TYPE)
      modifies this`attempts, this`calm, this`marks, this`convergeRestartedFor, this`recoveryGate, this`activationGate
      modifies releases`verifyCache, host`w, host`trace, host`clock, host`failures
      ensures Valid() && releases.CacheSound() && old(host.trace) <= host.trace
      ensures old(host.failures) <= host.failures
      ensures ok ==> !conflict && done.Some? && Installed(done.value)
      ensures conflict ==> !ok && InConflict()
      ensures ok ==> releases.Approved(done.value.generation.path)
      ensures From(course.from, old(Standing()))
      ensures !ok && !conflict && host.failures == old(host.failures) ==>
                Unreachable(host.trace, old(host.w), st, raw, old(|host.trace|), course)
      ensures ok ==> done.value.config == Rendered(host.setting, host.w, done.value.generation.path, dump)
      ensures ok ==> LookedAgain(host.trace, st, done.value)
      ensures old(ActiveBroken(st)) ==>
                |old(host.trace)| < |host.trace|
                && host.trace[|old(host.trace)|].event == Labelled(false, "", false, NoBasis)
    {
      hide TraceOk, SettingOk, Accounted, Alternating, Single, Serves, JournalOk, Installed, Unreachable, FilesBroken;
      hide InConflict, LookedAgain;
      MaintainActive(st);
      ghost var before, since := host.w, |host.trace|;
      conflict, ok, done, course := InstallWanted(st, raw, dump);
      if Unreachable(host.trace, before, st, raw, since, course) {
        LookKeepsUnreachable(host.trace, before, before.dumped, since, old(|host.trace|), course);
      }
    }

    /** What follows once no transaction is open: classify the node, then leave it or install. */
    method InstallOrLeave(st: Journal)
      returns (foreignOK: bool, conflict: bool, ok: bool, ghost done: Option<Installation>, ghost course: Course)
      requires Valid() && releases.CacheSound() && !host.w.leaked && host.w.journal == st && st.pending.None?
      modifies this`attempts, this`calm, this`marks, this`convergeRestartedFor, this`recoveryGate, this`activationGate
      modifies releases`verifyCache, host`w, host`trace, host`clock, host`failures
      ensures Valid() && releases.CacheSound() && old(host.trace) <= host.trace
      ensures old(host.failures) <= host.failures
      ensures conflict ==> !ok && !foreignOK && InConflict()
      ensures foreignOK ==> ForeignFound() && (ok ==> Serves(host.w.daemon, host.setting.handler, None))
      ensures ok && !foreignOK ==> done.Some? && Installed(done.value)
      ensures ok && !foreignOK ==> releases.Approved(done.value.generation.path)
      ensures host.failures == old(host.failures) ==>
                && |old(host.trace)| < |host.trace| && host.trace[|old(host.trace)|].event == Looked
                && Classified(old(host.w), host.trace[|old(host.trace)|].world.dumped.dump, host.w,
                              foreignOK, conflict, ok)
      ensures host.failures == old(host.failures) && !foreignOK && !conflict && !ok ==>
                CannotInstall(host.trace, old(Standing()), course)
      ensures ok && !foreignOK ==>
                && |old(host.trace)| < |host.trace|
                && done.value.config == Rendered(host.setting, host.w, done.value.generation.path,
                                                 host.trace[|old(host.trace)|].world.dumped.dump)
      ensures ok && !foreignOK ==> LookedAgain(host.trace, st, done.value)
      ensures old(ActiveBroken(st)) && |old(host.trace)| + 1 < |host.trace| ==>
                host.trace[|old(host.trace)| + 1].event == Labelled(false, "", false, NoBasis)
    {
      hide TraceOk, SettingOk, Accounted, Alternating, Verified, Load, ShimConfigIntact, Single, CleanBlock, Serves;
      hide LookedAgain;
      hide JournalOk, Installed, Managed, PinnedTarget, Unreachable, FilesBroken;
      foreignOK, conflict, ok, done := false, false, false, None;
      course := Course(None, Standing(), Target(OtherPath(""), ConfigPath("", "")), 0);
      ghost var settled := host.w;
      var raw := host.ReadConfig();
      if raw.None? { return; }
      var dump := host.ConfigDump();
      releases.OrderlyStaysApproved(settled);
      LookPinsTheSame(settled, host.w.dumped);
      LookKeepsBroken(settled, host.w.dumped);
      if dump.DumpFailed? { return; }
      var current := Managed(raw.value);
      if current.EndMissing? { return; }
      if dump.HasEntry? && Conflicts(dump.entry, PinnedTarget(host.w)) {
        conflict := true;
        return;
      }
      if current.NoBlock? && dump.HasEntry? {
        foreignOK := true;
        ok := VerifyServing(host.setting.handler, None);
        return;
      }
      ghost var looked, since := host.w, |host.trace|;
      conflict, ok, done, course := MaintainAndInstall(st, raw.value, dump);
      if Unreachable(host.trace, looked, st, raw.value, since, course) {
        LookKeepsUnreachable(host.trace, settled, looked.dumped, since, old(|host.trace|), course);
      }
    }

    /** reconcile: settle a pending record first, since until then neither file nor daemon can be attributed. */
    method ReconcilePass()
      returns (foreignOK: bool, conflict: bool, ok: bool, ghost done: Option<Installation>,
               ghost report: Report)
      requires Valid() && releases.CacheSound() && !host.w.leaked
      modifies this`attempts, this`calm, this`marks, this`convergeRestartedFor, this`recoveryGate, this`activationGate
      modifies releases`verifyCache, host`w, host`trace, host`clock, host`failures
      ensures Valid() && releases.CacheSound() && old(host.trace) <= host.trace
      ensures old(host.failures) <= host.failures
      ensures conflict ==> !ok && !foreignOK && InConflict()
      ensures foreignOK ==> ForeignFound() && (ok ==> Serves(host.w.daemon, host.setting.handler, None))
      ensures ok && !foreignOK ==> done.Some? && Installed(done.value)
      ensures ok && !foreignOK ==> releases.Approved(done.value.generation.path)
      ensures host.failures == old(host.failures) ==>
                Explained(host.trace, old(Standing()), foreignOK, conflict, ok, report)
      ensures ok && !foreignOK ==> LookedAgain(host.trace, report.settled.w.journal, done.value)
    {
      hide TraceOk, SettingOk, Accounted, Alternating, Verified, Load, ShimConfigIntact, Single, CleanBlock, Serves;
      hide JournalOk, Installed, Managed;
      hide InConflict, ForeignFound, Classified, CannotInstall, Unfinishable, Irrevocable, OnTarget;
      foreignOK, conflict, ok, done := false, false, false, None;
      ghost var at, course := 0, Course(None, Standing(), Target(OtherPath(""), ConfigPath("", "")), 0);
      report := Report(at, Standing(), course);
      var st := host.w.journal;
      // The preflight checks of the node.
      var failed := host.MayFail();
      if failed { return; }
      if st.pending.Some? {
        ghost var before := host.w;
        st, ok, at := RecoverPending(st);
        releases.StaysSound(before);
        report := report.(at := at);
        HostIsOk(host);
        if !ok { return; }
      }
      ghost var settled := Standing();
      HostIsOk(host);
      foreignOK, conflict, ok, done, course := InstallOrLeave(st);
      HostIsOk(host);
      report := Report(at, settled, course);
    }

    // ----- Labels ----------------------------------------------------------------------------------

    /** A settled journal, its section on disk, and the recorded files as they should be, as far as the pass knows. */
    ghost predicate Vouched()
      reads this, releases, host
    {
      var active := host.w.journal.active;
      && host.w.journal.pending.None? && active.Some? && active.value.handler == host.setting.handler
      && Managed(host.w.config) == Found(active.value.block) && FilesKept(active.value)
    }

    /** What the ready label stands for. */
    ghost predicate Healthy(foreignOK: bool)
      reads this, releases, host
    {
      if foreignOK then Serves(host.w.daemon, host.setting.handler, None)
      else Vouched() && Serves(host.w.daemon, host.setting.handler, Some(TargetOf(host.w.journal.active.value)))
    }

    /** verifiedActiveState: section, payload and shim configuration against the settled journal. */
    method VerifiedActiveState() returns (record: Option<Record>)
      requires Valid() && releases.CacheSound()
      modifies releases`verifyCache, host`failures
      ensures releases.CacheSound() && Valid()
      ensures record.Some? ==>
                var r := record.value;
                && host.w.journal == Journal(Some(r), None) && r.handler == host.setting.handler
                && Managed(host.w.config) == Found(r.block)
                && Load(host.w, r.generation).Some?
                && Load(host.w, r.generation).value.version == r.version
                && Load(host.w, r.generation).value.archive == r.archive
                && (host.w.leaked || Verified(host.setting, host.w, r.generation))
                && ShimConfigIntact(host.setting, host.w, r.config)
      ensures old(host.failures) <= host.failures
      ensures host.failures == old(host.failures) ==> (record.Some? <==> old(Vouched()))
    {
      hide TraceOk, SettingOk, Accounted, Alternating, Verified, Load, ShimConfigIntact, Managed;
      var st := host.w.journal;
      if st.pending.Some? || st.active.None? || st.active.value.handler != host.setting.handler { return None; }
      var raw := host.ReadConfig();
      if raw.None? { return None; }
      if Managed(raw.value) != Found(st.active.value.block) { return None; }
      var ok := releases.VerifiedActiveGeneration(st.active.value);
      if !ok { return None; }
      ok := releases.CheckShimConfig(st.active.value.config);
      if !ok { return None; }
      return st.active;
    }

    /** publishStatus: the label is true for what is verified now, never for what a pass believes. */
    method PublishStatus(foreignOK: bool, conflict: bool, ok: bool) returns (ghost basis: Basis)
      requires Valid() && releases.CacheSound() && (foreignOK && !conflict ==> ForeignFound())
      modifies this`ready, this`marks, releases`verifyCache, host`w, host`trace, host`failures
      ensures Valid() && releases.CacheSound() && old(host.trace) <= host.trace && host.w == old(host.w)
      ensures old(host.failures) <= host.failures
      ensures ready ==> ok && !conflict && ReadyTruth(host.setting, host.w, basis)
      ensures host.trace[|host.trace| - 1].event.Labelled? && host.trace[|host.trace| - 1].event.conflict == conflict
      ensures host.failures == old(host.failures) ==>
                && (host.trace[|host.trace| - 1].event.ready <==> !conflict && old(Healthy(foreignOK)))
                && (ready <==> ok && !conflict && old(Healthy(foreignOK)))
    {
      hide TraceOk, SettingOk, Accounted, Alternating, Verified, Load, ShimConfigIntact, Managed, Serves;
      var identity := NoBasis;
      var want: Option<Target> := None;
      if !conflict {
        if foreignOK {
          identity := ForeignHandler;
        } else {
          var record := VerifiedActiveState();
          if record.Some? {
            identity := Settled(record.value);
            want := Some(TargetOf(record.value));
          }
        }
      }
      var readyLabel := false;
      if identity != NoBasis {
        readyLabel := VerifyServing(host.setting.handler, want);
      }
      basis := identity;
      assert readyLabel ==> ReadyTruth(host.setting, host.w, identity);
      var version := if readyLabel then BasisVersion(identity) else "";
      var patched := host.SetNodeLabels(readyLabel, version, conflict, if readyLabel then identity else NoBasis);
      ready := ok && readyLabel && patched;
    }

    /** The active record is the one that goes with this installation. */
    ghost predicate RecordInstalled(done: Installation)
      reads host`w
    {
      host.w.journal.active ==
      Some(RecordFor(done.generation, Target(ShimOf(done.generation.path), done.config), done.block))
    }

    lemma InstalledIsHealthy(done: Installation)
      requires releases.host == host && Installed(done) && releases.Approved(done.generation.path)
      requires !host.w.edited && RecordInstalled(done)
      ensures Healthy(false)
    {
      hide Verified, Load, ShimConfigIntact, Managed, Serves;
    }

    /** Reconcile: a pass, and labels for whatever it left. */
    method Reconcile() returns (
      ok: bool, ghost began: Position, ghost ended: nat, ghost foreignOK: bool, ghost conflict: bool,
      ghost done: Option<Installation>, ghost report: Report)
      requires Valid()
      modifies this, releases, host
      ensures Valid() && old(host.trace) <= host.trace && releases.CacheSound()
      ensures old(host.failures) <= host.failures
      ensures ready ==> ok && exists basis :: ReadyTruth(host.setting, host.w, basis)
      ensures began == old(Standing()).(w := old(host.w).(edited := false, leaked := false), length := began.length)
      ensures old(|host.trace|) < began.length <= ended <= |host.trace|
      ensures host.failures == old(host.failures) ==>
                Explained(host.trace[..ended], began, foreignOK, conflict, ok, report)
      ensures ok && !foreignOK ==> done.Some? && Installed(done.value)
      ensures host.failures == old(host.failures) && ok ==>
                (foreignOK || (!host.w.edited && RecordInstalled(done.value)) ==> ready)
    {
      hide TraceOk, SettingOk, Accounted, Alternating, Verified, Load, ShimConfigIntact, Managed, Serves, ReadyTruth;
      hide Installed, Explained, RecordInstalled, Vouched, ForeignFound;
      host.StartPass();
      began := Standing();
      releases.Forget();
      var foreign, conflicting: bool;
      ghost var basis;
      foreign, conflicting, ok, done, report := ReconcilePass();
      foreignOK, conflict, ended := foreign, conflicting, |host.trace|;
      if ok && !foreign && !host.w.edited && RecordInstalled(done.value) { InstalledIsHealthy(done.value); }
      ghost var passed := host.trace;
      basis := PublishStatus(foreign, conflicting, ok);
      assert host.trace[..ended] == passed;
    }

    /** One pending record, undisturbed: at most two recovery restarts in any window shorter than the cooldown. */
    lemma RestartBudgetHolds(i: nat, j: nat, k: nat)
      requires Valid() && calm && host.w.journal.pending.Some? && i < j < k < |attempts|
      ensures attempts[i].time + cooldown <= attempts[k].time
    {
      hide TraceOk, SettingOk, Alternating;
      AtMostTwoPerWindow(host.w.journal.pending.value, cooldown, attempts, i, j, k);
    }

    /** Two convergence restarts are separated by a verified serving, whatever their blocks. */
    lemma ConvergenceBudgetHolds(i: nat, j: nat) returns (k: nat)
      requires Valid() && i < j && IsRestart(marks, i) && IsRestart(marks, j)
      ensures i < k < j && marks[k].TargetServed?
    {
      hide TraceOk, SettingOk, Accounted;
      k := ConvergenceIsEarned(marks, i, j);
    }

    /** Somebody changed the node: what was counted before says nothing any more. */
    method Disturbed()
      requires releases.host == host && host.Valid()
      modifies this`attempts, this`calm, this`marks
      ensures Valid()
    {
      attempts, calm, marks := [], false, [];
    }
  }

  lemma SameShimConfigs(c: Setting, before: World, after: World, path: ConfigPath)
    requires ShimConfigIntact(c, before, path) && after.shimConfigs == before.shimConfigs
    ensures ShimConfigIntact(c, after, path)
  {}

  lemma OwnPredecessor(st: Journal)
    requires JournalOk(st) && st.active.Some?
    ensures var a := st.active.value;
            && JournalOk(Journal(st.active, Some(Pending(a, a.block, a.handler)))) && a.block != ""
            && (st.pending.None? ==> JournalOk(st))
  {
    hide CleanBlock;
  }

  lemma BeginIsStep(w: World, j: Journal)
    requires w.journal.pending.None? && j.pending.Some? && j.active == w.journal.active
    ensures JournalStep(w, j)
  {}

  lemma PendingIsOk(st: Journal, p: Pending, raw: string)
    requires JournalOk(st) && RecordOk(p.target)
    requires match st.active
             case Some(a) => p.previousBlock == a.block && p.previousHandler == a.handler
             case None => p.previousHandler == "" && (p.previousBlock == "" || CleanBlock(p.previousBlock))
    ensures JournalOk(Journal(st.active, Some(p))) && CleanBlock(p.target.block)
  {
    hide Managed, END;
    EmptyIsClean();
  }

  lemma RecordIsClean(r: Record)
    requires RecordOk(r)
    ensures CleanBlock(r.block)
  {}

  lemma EmptyIsClean()
    ensures CleanBlock("")
  {
    MarkerFacts();
    hide END;
  }

  lemma PredecessorIsTarget(config: string, p: Pending)
    requires OnPredecessor(config, p)
    ensures p.target.block != "" ==> (OneBlock(p) <==> OnTarget(config, p))
  {
    hide Managed;
  }

  lemma RollBackAllowed(p: Pending, attempts: seq<Attempt>, config: string)
    requires OneBlock(p) <==> OnTarget(config, p)
    requires OneBlock(p) ==> MayTake(p, attempts, config, RollBack)
    ensures MayTake(p, attempts, config, RollBack)
  {
    hide Managed;
  }

  lemma SettledCloses(w: World, p: Pending)
    requires JournalOk(w.journal) && w.journal.pending == Some(p)
    requires w.daemon.running && w.daemon.ready && w.daemon.startedFrom == Some(w.config) && OnPredecessor(w.config, p)
    ensures JournalOk(Journal(w.journal.active, None)) && JournalStep(w, Journal(w.journal.active, None))
  {
    hide OnPredecessor, CleanBlock, RecordReadable;
  }

  lemma ConvergenceCloses(w: World, p: Pending, block: string)
    requires JournalOk(w.journal) && w.journal.pending == Some(p) && p.previousBlock == block
    requires w.daemon.running && w.daemon.ready && w.daemon.startedFrom == Some(w.config)
    requires w.edited || Managed(w.config) == Found(block)
    requires block != ""
    ensures JournalOk(Journal(w.journal.active, None)) && JournalStep(w, Journal(w.journal.active, None))
  {
    hide Managed, CleanBlock, RecordReadable;
  }

  lemma CommitIsOk(w: World, target: Record)
    requires JournalOk(w.journal) && w.journal.pending.Some? && w.journal.pending.value.target == target
    requires Serves(w.daemon, target.handler, Some(TargetOf(target)))
    ensures JournalOk(Journal(Some(target), None)) && JournalStep(w, Journal(Some(target), None))
  {}

  /**
   The life of a node, as long as it may be: passes of the installer, crashes behind any step that
   drop its memory and keep disk and daemon, and changes by others in between. Whatever happens,
   every state gone through and every step taken keep to StepOk.
   */
  method Lifetime(host: Host, cooldown: nat, turns: nat)
    requires host.Valid()
    modifies host
    ensures host.Valid()
  {
    hide TraceOk, SettingOk, Accounted, Alternating;
    var installer := new Installer(host, cooldown);
    for turn := 0 to turns
      invariant installer.Valid() && installer.host == host
      invariant fresh(installer) && fresh(installer.releases)
    {
      if * {
        var begun := |host.trace|;
        var ok;
        ghost var began, ended, foreignOK, conflict, done, report;
        ok, began, ended, foreignOK, conflict, done, report := installer.Reconcile();
        if * {
          var step: nat := *;
          if begun - 1 <= step < |host.trace| {
            host.CrashBehind(step);
            installer := new Installer(host, cooldown);
          }
        }
      } else {
        var next: World := *;
        var file: StateFile := *;
        if Single(next.config) && NamedByDigest(next)
           && (file.Written? ==> file.schema != STATE_SCHEMA || !Readable(file.journal)) {
          host.ChangeFromOutside(next, file);
          installer.Disturbed();
        }
      }
    }
  }
}
