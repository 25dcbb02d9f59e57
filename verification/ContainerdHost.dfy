/**
 The node the installer runs on: every operation it performs there is one atomic step that may
 fail, and the record of all states gone through. Old-or-new writes may fail behind the rename
 (internal/gvisor-installer/binaries.go), a restart may leave the daemon in any state.
 */
module ContainerdHost {
  import opened Options
  import opened ManagedBlock
  import opened EntryNames
  import opened Generation
  import opened Activation

  /** What CRI reports about the daemon. */
  datatype Status = Status(ready: bool, handlers: seq<string>, runtimes: map<string, Runtime>)

  class Host {
    const setting: Setting
    var w: World
    var trace: seq<Snapshot>
    var clock: nat
    // How many reads, writes and calls have failed; a daemon that does not come up, or a file it does not load,
    // is not one of them.
    ghost var failures: nat

    ghost predicate Valid()
      reads this
    {
      SettingOk(setting) && TraceOk(setting, trace) && trace[|trace| - 1].world == w
    }

    constructor (
        c: Setting, config: string, daemon: Daemon, releases: map<GenPath, Slot>,
        shimConfigs: map<ConfigPath, ShimFile>, base: string)
      requires SettingOk(c) && Single(config) && forall path :: path in releases ==> IsDigest(path.archive)
      ensures Valid() && setting == c && w.journal == EMPTY && w.config == config && w.daemon == daemon
    {
      setting := c;
      var start := World(EMPTY, config, daemon, daemon, false, false, Look(config, DumpFailed), {},
                         releases, shimConfigs, base);
      w := start;
      trace := [Snapshot(Start, start)];
      clock := 0;
      failures := 0;
    }

    /** Whether the next operation fails. */
    method MayFail() returns (failed: bool)
      modifies this`failures
      ensures failures == if failed then old(failures) + 1 else old(failures)
    {
      failed := *;
      if failed { failures := failures + 1; }
    }

    method Step(event: Event, next: World)
      requires Valid() && WorldOk(next) && StepOk(setting, w, Snapshot(event, next))
      modifies this`w, this`trace
      ensures Valid() && w == next && trace == old(trace) + [Snapshot(event, next)]
    {
      hide WorldOk, StepOk, SettingOk;
      TraceGrows(setting, trace, Snapshot(event, next));
      w := next;
      trace := trace + [Snapshot(event, next)];
    }

    method Now() returns (t: nat)
      modifies this`clock
      ensures t == clock >= old(clock)
    {
      var elapsed: int := *;
      clock := clock + if elapsed < 0 then 0 else elapsed;
      return clock;
    }

    /** writeState, which is one writeFileAtomic. */
    method WriteState(j: Journal) returns (ok: bool)
      requires Valid() && JournalOk(j) && JournalStep(w, j)
      modifies this`w, this`trace, this`failures
      ensures Valid() && old(trace) <= trace && failures == old(failures) + if ok then 0 else 1
      ensures ok ==> w == Journaled(old(w), j)
      ensures !ok ==> w == old(w) || w == Journaled(old(w), j)
    {
      var failed := MayFail();
      ok := !failed;
      if !ok {
        if * { return; }
      }
      WriteThenRead(j);
      hide SettingOk, JournalStep;
      Step(JournalWritten, Journaled(w, ReadState(Written(STATE_SCHEMA, j))));
    }

    method ReadConfig() returns (text: Option<string>)
      modifies this`failures
      ensures failures == old(failures) + if text.Some? then 0 else 1
      ensures text.Some? ==> text.value == w.config
    {
      var failed := MayFail();
      return if failed then None else Some(w.config);
    }

    /** writeFileAtomic on the configuration file: never without a durable pending record. */
    method WriteConfig(text: string) returns (ok: bool)
      requires Valid() && w.journal.pending.Some? && Single(text)
      modifies this`w, this`trace, this`failures
      ensures Valid() && old(trace) <= trace && failures == old(failures) + if ok then 0 else 1
      ensures ok ==> w == old(w).(config := text)
      ensures !ok ==> w == old(w) || w == old(w).(config := text)
    {
      var failed := MayFail();
      ok := !failed;
      if !ok {
        if * { return; }
      }
      hide SettingOk, JournalOk, IsDigest;
      LastIsOk(setting, trace);
      Step(ConfigWritten, w.(config := text));
    }

    /** `containerd config dump`: the file merged with its imports, or a refusal to load it. */
    method ConfigDump() returns (d: Dump)
      requires Valid()
      modifies this`w, this`trace
      ensures Valid() && trace == old(trace) + [Snapshot(Looked, w)] && w == old(w).(dumped := Look(old(w).config, d))
    {
      d := *;
      hide SettingOk, JournalOk, IsDigest;
      LastIsOk(setting, trace);
      Step(Looked, w.(dumped := Look(w.config, d)));
    }

    /** `systemctl restart containerd` and the wait for it to become ready: never without a durable pending record. */
    method RestartAndAwaitHealthy() returns (ok: bool)
      requires Valid() && w.journal.pending.Some?
      modifies this`w, this`trace
      ensures Valid() && trace == old(trace) + [Snapshot(Restarted(ok), w)] && w == old(w).(daemon := w.daemon)
      ensures ok ==> w.daemon.running && w.daemon.ready && w.daemon.startedFrom == Some(w.config)
    {
      var after: Daemon := *;
      ok := *;
      if ok {
        after := after.(running := true, ready := true, startedFrom := Some(w.config));
      } else if after.startedFrom != w.daemon.startedFrom && after.startedFrom != Some(w.config) {
        after := after.(startedFrom := None);
      }
      hide SettingOk, JournalOk, IsDigest;
      LastIsOk(setting, trace);
      Step(Restarted(ok), w.(daemon := after));
    }

    method CriStatus() returns (st: Option<Status>)
      modifies this`failures
      ensures old(failures) <= failures && (failures == old(failures) ==> (st.Some? <==> w.daemon.running))
      ensures st.Some? ==> w.daemon.running && st.value == Status(w.daemon.ready, w.daemon.handlers, w.daemon.runtimes)
    {
      if !w.daemon.running { return None; }
      var failed := MayFail();
      return if failed then None else Some(Status(w.daemon.ready, w.daemon.handlers, w.daemon.runtimes));
    }

    /** The labels of the node; a patch may be refused after the attempt. */
    method SetNodeLabels(ready: bool, version: string, conflict: bool, basis: Basis) returns (ok: bool)
      requires Valid()
      requires ready ==> !conflict && ReadyTruth(setting, w, basis) && version == BasisVersion(basis)
      requires !ready ==> version == ""
      modifies this`w, this`trace, this`failures
      ensures Valid() && w == old(w) && trace == old(trace) + [Snapshot(Labelled(ready, version, conflict, basis), w)]
      ensures failures == old(failures) + if ok then 0 else 1
    {
      var failed := MayFail();
      ok := !failed;
      hide SettingOk, JournalOk, ReadyTruth, IsDigest;
      LastIsOk(setting, trace);
      Step(Labelled(ready, version, conflict, basis), w);
    }

    method MakeOrderly(dirs: set<string>) returns (ok: bool)
      requires Valid()
      modifies this`w, this`trace, this`failures
      ensures Valid() && old(trace) <= trace && failures == old(failures) + if ok then 0 else 1
      ensures w == if ok then old(w).(orderly := old(w).orderly + dirs) else old(w)
    {
      var failed := MayFail();
      if failed { return false; }
      hide SettingOk, JournalOk, IsDigest;
      LastIsOk(setting, trace);
      Step(Prepared, w.(orderly := w.orderly + dirs));
      return true;
    }

    method PutRelease(path: GenPath, slot: Option<Slot>)
      requires Valid() && IsDigest(path.archive)
      modifies this`w, this`trace
      ensures Valid() && old(trace) <= trace
      ensures w == old(w).(releases :=
                if slot.Some? then old(w).releases[path := slot.value] else old(w).releases - {path})
    {
      hide SettingOk, JournalOk, IsDigest;
      LastIsOk(setting, trace);
      Step(Prepared, w.(releases := if slot.Some? then w.releases[path := slot.value] else w.releases - {path}));
    }

    method PutShimConfig(path: ConfigPath, content: string) returns (ok: bool)
      requires Valid()
      modifies this`w, this`trace, this`failures
      ensures Valid() && old(trace) <= trace && failures == old(failures) + if ok then 0 else 1
      ensures ok ==> w == old(w).(shimConfigs := old(w).shimConfigs[path := Regular(content)])
      ensures !ok ==> w == old(w) || w == old(w).(shimConfigs := old(w).shimConfigs[path := Regular(content)])
    {
      var failed := MayFail();
      ok := !failed;
      if !ok {
        if * { return; }
      }
      hide SettingOk, JournalOk, IsDigest;
      LastIsOk(setting, trace);
      Step(Prepared, w.(shimConfigs := w.shimConfigs[path := Regular(content)]));
    }

    /** A write through a link that leads out of a generation, to one place or another. */
    method FollowLink(from: GenPath, content: string, mode: string) returns (place: Place)
      requires Valid()
      modifies this`w, this`trace
      ensures Valid() && old(trace) <= trace
      ensures LeadsAway(place, from) && w == Overwritten(old(w), place, content, mode)
    {
      place := *;
      if !LeadsAway(place, from) || (place.ContainerdConfig? && !Single(content)) { place := Unmodelled; }
      hide SettingOk, IsDigest, Overwritten;
      LastIsOk(setting, trace);
      OverwrittenIsOk(setting, w, place, content, mode);
      Step(LinkFollowed, Overwritten(w, place, content, mode));
    }

    /** A file that is written has other names, in other generations or where nothing else here looks. */
    method WriteOtherName(from: GenPath, content: string, mode: string) returns (place: Place)
      requires Valid()
      modifies this`w, this`trace
      ensures Valid() && old(trace) <= trace && (place.PayloadOf? || place.ManifestOfGeneration? || place.Unmodelled?)
      ensures LeadsAway(place, from) && w == Overwritten(old(w), place, content, mode)
    {
      place := *;
      if !LeadsAway(place, from) || !(place.PayloadOf? || place.ManifestOfGeneration?) { place := Unmodelled; }
      hide SettingOk, IsDigest, Overwritten;
      LastIsOk(setting, trace);
      OverwrittenIsOk(setting, w, place, content, mode);
      Step(OtherNameWritten, Overwritten(w, place, content, mode));
    }

    // ----- What others do ---------------------------------------------------------------------

    /** Somebody edits the configuration file while a pass is running. */
    method EditDuringPass(text: string)
      requires Valid() && Single(text)
      modifies this`w, this`trace
      ensures Valid() && old(trace) <= trace && w == old(w).(config := text, edited := true)
    {
      hide SettingOk, JournalOk, IsDigest;
      LastIsOk(setting, trace);
      Step(OutsideChange, w.(config := text, edited := true));
    }

    /** Between passes anything may change; of the state file, only that it becomes unreadable. */
    method ChangeFromOutside(next: World, file: StateFile)
      requires Valid() && Single(next.config) && NamedByDigest(next)
      requires (file.Written? ==> file.schema != STATE_SCHEMA || !Readable(file.journal))
      modifies this`w, this`trace
      ensures Valid() && old(trace) <= trace
    {
      var journal := w.journal;
      if * { journal := ReadState(file); }
      WriteThenRead(EMPTY) by { EmptyIsOk(); }
      hide SettingOk, JournalOk, IsDigest;
      LastIsOk(setting, trace);
      Step(OutsideChange, next.(journal := journal));
    }

    /** A pass starts: nobody has edited the file during it yet. */
    method StartPass()
      requires Valid()
      modifies this`w, this`trace
      ensures Valid() && trace == old(trace) + [Snapshot(PassStarted, w)]
      ensures w == old(w).(edited := false, leaked := false)
    {
      hide SettingOk, JournalOk, IsDigest;
      LastIsOk(setting, trace);
      Step(PassStarted, w.(edited := false, leaked := false));
    }

    /** The installer stops behind any of the steps since then; the disk and the daemon stay as they were. */
    method CrashBehind(k: nat)
      requires Valid() && k < |trace|
      modifies this`w, this`trace
      ensures Valid() && trace == old(trace)[..k + 1] && w == old(trace)[k].world
    {
      hide SettingOk, JournalOk, IsDigest;
      TraceCut(setting, trace, k);
      w := trace[k].world;
      trace := trace[..k + 1];
    }
  }

  predicate LeadsAway(place: Place, from: GenPath) {
    (place.PayloadOf? || place.ManifestOfGeneration?) ==> place.path != from
  }

  lemma OverwrittenIsOk(c: Setting, w: World, place: Place, content: string, mode: string)
    requires WorldOk(w) && (place.ContainerdConfig? ==> Single(content))
    ensures WorldOk(Overwritten(w, place, content, mode))
    ensures StepOk(c, w, Snapshot(LinkFollowed, Overwritten(w, place, content, mode)))
    ensures place.PayloadOf? || place.ManifestOfGeneration? || place.Unmodelled? ==>
              StepOk(c, w, Snapshot(OtherNameWritten, Overwritten(w, place, content, mode)))
  {
    hide RecordOk, CleanBlock, Single, IsDigest, FileWritten, NamedByDigest;
    NamesStay(w, place, content, mode);
  }

  lemma NamesStay(w: World, place: Place, content: string, mode: string)
    requires NamedByDigest(w)
    ensures NamedByDigest(Overwritten(w, place, content, mode))
  {
    hide IsDigest, FileWritten;
  }

  lemma HostIsOk(host: Host)
    requires host.Valid()
    ensures SettingOk(host.setting) && WorldOk(host.w) && JournalOk(host.w.journal) && Single(host.w.config)
    ensures NamedByDigest(host.w) && host.trace != [] && host.trace[|host.trace| - 1].world == host.w
  {}

  lemma LastIsOk(c: Setting, t: seq<Snapshot>)
    requires TraceOk(c, t)
    ensures WorldOk(t[|t| - 1].world)
  {}

  lemma EmptyIsOk()
    ensures JournalOk(EMPTY)
  {}
}
