/**
 What the installer works on and what may survive it: the journal, containerd's configuration
 file, the live daemon and the installed files, with every state they go through
 (internal/gvisor-installer/state.go, cri.go, installer.go). A step of the installer is allowed
 only under the conditions of StepOk, and a crash may stop it behind any step.
 */
module Activation {
  import opened Options
  import opened ManagedBlock
  import opened EntryNames
  import opened Generation

  const STATE_SCHEMA: int := 1
  const RUNSC_TYPE: string := "io.containerd.runsc.v1"
  const OPTIONS_TYPE: string := RUNSC_TYPE + ".options"
  const UNMANAGED: string := "unmanaged"

  // ----- The journal -----------------------------------------------------------------------

  /** A path as its directory and its last part. */
  datatype ConfigPath = ConfigPath(dir: string, base: string)
  datatype ShimPath = ShimOf(generation: GenPath) | OtherPath(text: string)

  /** What a managed block registers. */
  datatype Target = Target(shim: ShimPath, config: ConfigPath)

  datatype Record = Record(
    generation: GenPath, config: ConfigPath, version: string, archive: string, handler: string, block: string)
  datatype Pending = Pending(target: Record, previousBlock: string, previousHandler: string)
  datatype Journal = Journal(active: Option<Record>, pending: Option<Pending>)

  const EMPTY: Journal := Journal(None, None)

  function TargetOf(r: Record): Target {
    Target(ShimOf(r.generation), r.config)
  }

  predicate IsAbs(path: string) {
    path != "" && path[0] == '/'
  }

  predicate RecordFilled(r: Record) {
    IsAbs(r.generation.parent) && IsAbs(r.config.dir) && r.version != "" && r.handler != "" && r.block != ""
  }

  predicate RecordReadable(r: Record) {
    RecordFilled(r) && IsDigest(r.archive)
  }

  predicate Readable(j: Journal) {
    (j.active.Some? ==> RecordReadable(j.active.value)) && (j.pending.Some? ==> RecordReadable(j.pending.value.target))
  }

  datatype StateFile = NoFile | Garbled | Written(schema: int, journal: Journal)

  /** readState: a missing, foreign or malformed file reads as no state at all. */
  function ReadState(file: StateFile): Journal {
    if file.Written? && file.schema == STATE_SCHEMA && Readable(file.journal) then file.journal else EMPTY
  }

  /** What the installer writes it reads back; the block is clean, so it can be spliced and found again. */
  predicate RecordOk(r: Record) {
    RecordReadable(r) && CleanBlock(r.block)
  }

  /** While both records exist, the one to fall back on is the active one. */
  predicate JournalOk(j: Journal) {
    && (j.active.Some? ==> RecordOk(j.active.value))
    && (j.pending.Some? ==>
          var p := j.pending.value;
          && RecordOk(p.target) && CleanBlock(p.previousBlock)
          && match j.active
             case Some(a) => p.previousBlock == a.block && p.previousHandler == a.handler
             case None => p.previousHandler == "")
  }

  lemma WriteThenRead(j: Journal)
    requires JournalOk(j)
    ensures ReadState(Written(STATE_SCHEMA, j)) == j && JournalOk(EMPTY)
  {}

  // ----- The live daemon ---------------------------------------------------------------------

  datatype Runtime = Runtime(typ: string, shim: ShimPath, config: ConfigPath)

  /** startedFrom: the configuration text the daemon last came up healthy with. */
  datatype Daemon = Daemon(
    running: bool, ready: bool, handlers: seq<string>, runtimes: map<string, Runtime>, startedFrom: Option<string>)

  /** What verifyServing asks of the daemon; a target also pins the loaded paths. */
  predicate Serves(d: Daemon, handler: string, want: Option<Target>) {
    && d.running && d.ready && handler in d.handlers && handler in d.runtimes
    && d.runtimes[handler].typ == RUNSC_TYPE
    && (want.Some? ==> d.runtimes[handler].shim == want.value.shim && d.runtimes[handler].config == want.value.config)
  }

  // ----- The world -----------------------------------------------------------------------------

  /** A runtime entry of `containerd config dump`, the file merged with its imports. */
  datatype MergedEntry = MergedEntry(typ: string, shim: ShimPath, optionsType: string, config: ConfigPath)
  datatype Dump = DumpFailed | NoEntry | HasEntry(entry: MergedEntry)
  datatype Look = Look(config: string, dump: Dump)

  datatype Slot = Squatter | Released(dir: Dir)
  datatype ShimFile = Regular(content: string) | Irregular

  /**
   journal is what readState returns. baseline is the daemon as it was when the pending record was
   written, edited says whether somebody changed the configuration file during this very pass, leaked
   whether a repair in this pass has written through a link or to a file of several names, and dumped is
   the last dump, and of which text; base is the file that shim configurations are rendered from.
   */
  datatype World = World(
    journal: Journal, config: string, daemon: Daemon,
    baseline: Daemon, edited: bool, leaked: bool, dumped: Look,
    orderly: set<string>, releases: map<GenPath, Slot>, shimConfigs: map<ConfigPath, ShimFile>, base: string)

  /** The settings of an installer: what it installs and the three functions it does not define itself. */
  datatype Setting = Setting(
    handler: string, version: string, installDir: string, sha: Sha, render: (string, Target) -> Option<string>,
    shimText: (string, GenPath, Dump) -> string)

  ghost predicate SettingOk(c: Setting) {
    && c.handler != "" && c.version != "" && IsAbs(c.installDir) && Digests(c.sha)
    && forall raw, want :: c.render(raw, want).Some? ==>
         c.render(raw, want).value != "" && CleanBlock(c.render(raw, want).value)
  }

  function ReleasesDir(c: Setting): string {
    c.installDir + "/releases"
  }

  function ConfigsDir(c: Setting): string {
    c.installDir + "/runsc-configs"
  }

  /** The file as it is now has been loaded by containerd's own check. */
  predicate Loadable(w: World) {
    w.dumped.config == w.config && !w.dumped.dump.DumpFailed?
  }

  predicate ParentsOrderly(c: Setting, w: World, path: GenPath) {
    c.installDir in w.orderly && path.parent in w.orderly
  }

  /** loadGeneration on the disk as it is. */
  function Load(w: World, path: GenPath): (g: Option<Generation>)
    ensures g.Some? ==> g.value.path == path && g.value.version == path.version && g.value.archive == path.archive
  {
    if path in w.releases && w.releases[path].Released? then LoadGeneration(path, w.releases[path].dir) else None
  }

  /** The generation at this path is exactly what its manifest says. */
  predicate Verified(c: Setting, w: World, path: GenPath) {
    match Load(w, path)
    case None => false
    case Some(g) => Exact(c.sha, ParentsOrderly(c, w, path), w.releases[path].dir, g.files)
  }

  /** The generation this record names is there and is the one recorded. */
  predicate OnRecord(w: World, r: Record) {
    && Load(w, r.generation).Some?
    && Load(w, r.generation).value.version == r.version && Load(w, r.generation).value.archive == r.archive
  }

  function ShimConfigName(c: Setting, content: string): string {
    var sum := c.sha(content);
    (if |sum| >= 32 then sum[..32] else sum) + ".toml"
  }

  /** Where the shim configuration goes that is rendered for a generation: it is named by its own digest. */
  function Rendered(c: Setting, w: World, path: GenPath, dump: Dump): ConfigPath {
    ConfigPath(ConfigsDir(c), ShimConfigName(c, c.shimText(w.base, path, dump)))
  }

  /** runscConfigIntact: the file's content hashes to its name. */
  predicate ShimConfigIntact(c: Setting, w: World, path: ConfigPath) {
    match if path in w.shimConfigs then w.shimConfigs[path] else Irregular
    case Irregular => false
    case Regular(content) => path.base == ShimConfigName(c, content)
  }

  /**
   At most one managed section, and the archive digest a generation's manifest gives is well formed (see
   ActivationIsReadBack).
   */
  predicate WorldOk(w: World) {
    JournalOk(w.journal) && Single(w.config) && NamedByDigest(w)
  }

  /** Where there is a manifest, the path's version and archive are those it gives. */
  predicate NamedByDigest(w: World) {
    forall path :: path in w.releases ==> IsDigest(path.archive)
  }

  /** What an activation records about a generation. */
  function RecordAbout(c: Setting, g: Generation, config: ConfigPath, block: string): Record {
    Record(g.path, config, g.version, g.archive, c.handler, block)
  }

  /**
   The transaction an activation opens for a loaded and verified generation is read back if and only if the
   archive digest in its manifest is well formed; otherwise the next read finds no transaction at all, and no
   active record either. The same holds for the record it commits.
   */
  lemma ActivationIsReadBack(
      c: Setting, w: World, path: GenPath, config: ConfigPath, block: string, active: Option<Record>,
      previousBlock: string, previousHandler: string)
    requires SettingOk(c) && Load(w, path).Some? && Verified(c, w, path)
    requires path.parent == ReleasesDir(c) && path.version == c.version && config.dir == ConfigsDir(c) && block != ""
    requires active.Some? ==> RecordReadable(active.value)
    ensures var r := RecordAbout(c, Load(w, path).value, config, block);
            var begun := Journal(active, Some(Pending(r, previousBlock, previousHandler)));
            var committed := Journal(Some(r), None);
            && ReadState(Written(STATE_SCHEMA, begun)) == (if IsDigest(path.archive) then begun else EMPTY)
            && ReadState(Written(STATE_SCHEMA, committed)) == (if IsDigest(path.archive) then committed else EMPTY)
  {
    hide Verified, IsDigest, Load;
    InstallDirsAreAbsolute(c);
    hide ReleasesDir, ConfigsDir;
  }

  lemma InstallDirsAreAbsolute(c: Setting)
    requires SettingOk(c)
    ensures IsAbs(ReleasesDir(c)) && IsAbs(ConfigsDir(c)) && c.version != "" && c.handler != ""
  {}

  /**
   And there are such directories: this one is loaded, verified and of the wanted version, with no digest in
   its manifest.
   */
  lemma MalformedDigestIsVerified(c: Setting, w: World, content: string) returns (after: World, path: GenPath)
    requires SettingOk(c)
    ensures after == w.(orderly := w.orderly + {c.installDir, ReleasesDir(c)}, releases := after.releases)
    ensures path == GenPath(ReleasesDir(c), c.version, "") && !IsDigest(path.archive)
    ensures Load(after, path).Some? && Verified(c, after, path)
  {
    path := GenPath(ReleasesDir(c), c.version, "");
    hide LoadGeneration, Exact, ReleasesDir;
    MinimalIsLoaded(c.sha, path, content);
    var d := Minimal(REQUIRED, c.sha, path, content);
    after := w.(orderly := w.orderly + {c.installDir, ReleasesDir(c)}, releases := w.releases[path := Released(d)]);
  }

  /** Where a link may lead, or another name of a file may be, as far as the model goes. */
  datatype Place =
    | PayloadOf(path: GenPath, name: string)
    | ManifestOfGeneration(path: GenPath)
    | ContainerdConfig
    | StateFilePlace
    | ShimConfigAt(file: ConfigPath)
    | Unmodelled

  /** The world behind a write to that place; what is written is neither a manifest nor a state file. */
  function Overwritten(w: World, place: Place, content: string, mode: string): World {
    var after := w.(leaked := true);
    match place
    case PayloadOf(path, name) =>
      if path in w.releases && w.releases[path].Released?
         && (name in w.releases[path].dir.nodes ==> w.releases[path].dir.nodes[name].File?)
      then after.(releases := w.releases[path := Released(FileWritten(w.releases[path].dir, name, content, mode))])
      else after
    case ManifestOfGeneration(path) =>
      if path in w.releases && w.releases[path].Released? && !w.releases[path].dir.manifest.NotRegular?
      then after.(releases := w.releases[path := Released(w.releases[path].dir.(manifest := Unparsable))])
      else after
    case ContainerdConfig => after.(config := content)
    case StateFilePlace => after.(journal := EMPTY)
    case ShimConfigAt(path) =>
      if path in w.shimConfigs && w.shimConfigs[path].Irregular? then after
      else after.(shimConfigs := w.shimConfigs[path := Regular(content)])
    case Unmodelled => after
  }

  // ----- Steps -----------------------------------------------------------------------------------

  datatype Basis = NoBasis | ForeignHandler | Settled(record: Record)

  datatype Event =
    | Start
    | PassStarted
    | JournalWritten
    | ConfigWritten
    | Restarted(healthy: bool)
    | Looked
    | Prepared
    | Labelled(ready: bool, version: string, conflict: bool, basis: Basis)
    | LinkFollowed
    | OtherNameWritten
    | OutsideChange

  datatype Snapshot = Snapshot(event: Event, world: World)

  /** The managed section on disk is the one to fall back on, or there is none when there was none. */
  predicate OnPredecessor(config: string, p: Pending) {
    Managed(config) == if p.previousBlock == "" then NoBlock else Found(p.previousBlock)
  }

  /** The daemon came up on what is on disk, and that is the predecessor. */
  predicate SettledOn(w: World, p: Pending) {
    && w.daemon.startedFrom == Some(w.config) && w.daemon.running && w.daemon.ready
    && (w.edited || OnPredecessor(w.config, p))
  }

  function Journaled(w: World, j: Journal): World {
    w.(journal := j, baseline := if w.journal.pending.None? && j.pending.Some? then w.daemon else w.baseline)
  }

  predicate Begins(before: World, j: Journal) {
    before.journal.pending.None? && j.pending.Some? && j.active == before.journal.active
  }

  predicate Commits(before: World, j: Journal) {
    && before.journal.pending.Some?
    && var target := before.journal.pending.value.target;
       j == Journal(Some(target), None) && Serves(before.daemon, target.handler, Some(TargetOf(target)))
  }

  predicate Abandons(before: World, j: Journal) {
    && before.journal.pending.Some? && j == Journal(before.journal.active, None)
    && (before.daemon == before.baseline || SettledOn(before, before.journal.pending.value))
  }

  /**
   The three ways the journal changes: a transaction begins, is committed while the daemon serves
   its target, or is abandoned when the daemon was never touched or has settled on the predecessor.
   */
  predicate JournalStep(before: World, j: Journal) {
    Begins(before, j) || Commits(before, j) || Abandons(before, j)
  }

  /** The ready label is true only for this. */
  predicate ReadyTruth(c: Setting, w: World, basis: Basis) {
    match basis
    case NoBasis => false
    case ForeignHandler =>
      && Managed(w.config).NoBlock? && Loadable(w) && w.dumped.dump.HasEntry? && w.dumped.dump.entry.typ == RUNSC_TYPE
      && Serves(w.daemon, c.handler, None)
    case Settled(r) =>
      && w.journal == Journal(Some(r), None) && r.handler == c.handler && Managed(w.config) == Found(r.block)
      && OnRecord(w, r) && (w.leaked || Verified(c, w, r.generation)) && ShimConfigIntact(c, w, r.config)
      && Serves(w.daemon, c.handler, Some(TargetOf(r)))
  }

  function BasisVersion(basis: Basis): string {
    match basis
    case NoBasis => ""
    case ForeignHandler => UNMANAGED
    case Settled(r) => r.version
  }

  /** The daemon was restarted and did not come up, or does not serve the target. */
  predicate NotServing(s: Snapshot, handler: string, want: Target) {
    s.event.Restarted? && (!s.event.healthy || !Serves(s.world.daemon, handler, Some(want)))
  }

  /** mergedEntryConflict: somebody else's runtime under our name, or an import that points ours elsewhere. */
  predicate Conflicts(entry: MergedEntry, pin: Option<Target>) {
    || entry.typ != RUNSC_TYPE
    || (pin.Some? &&
        !(entry.shim == pin.value.shim && entry.optionsType == OPTIONS_TYPE && entry.config == pin.value.config))
  }

  /** containerd does not load this file, or merges it into something that conflicts with the target. */
  predicate Objects(s: Snapshot, config: string, want: Target) {
    && s.event == Looked && s.world.dumped.config == config
    && match s.world.dumped.dump
       case DumpFailed => true
       case NoEntry => false
       case HasEntry(entry) => Conflicts(entry, Some(want))
  }

  predicate StepOk(c: Setting, before: World, s: Snapshot) {
    match s.event
    case Start => false
    case PassStarted => s.world == before.(edited := false, leaked := false)
    case JournalWritten => JournalStep(before, s.world.journal) && s.world == Journaled(before, s.world.journal)
    case ConfigWritten => before.journal.pending.Some? && s.world == before.(config := s.world.config)
    case Restarted(_) => before.journal.pending.Some? && s.world == before.(daemon := s.world.daemon)
    case Looked => s.world == before.(dumped := s.world.dumped)
    case Prepared =>
      s.world == before.(orderly := s.world.orderly, releases := s.world.releases, shimConfigs := s.world.shimConfigs)
    case Labelled(ready, version, conflict, basis) =>
      && s.world == before
      && (ready ==> !conflict && ReadyTruth(c, before, basis) && version == BasisVersion(basis))
      && (!ready ==> version == "")
    case LinkFollowed =>
      && s.world == before.(journal := s.world.journal, config := s.world.config, releases := s.world.releases,
                            shimConfigs := s.world.shimConfigs, leaked := true)
      && (s.world.journal == before.journal || s.world.journal == EMPTY)
    case OtherNameWritten => s.world == before.(releases := s.world.releases, leaked := true)
    case OutsideChange => s.world.journal == before.journal || s.world.journal == EMPTY
  }

  ghost predicate TraceOk(c: Setting, t: seq<Snapshot>) {
    && t != [] && t[0].event == Start && t[0].world.journal.active.None?
    && (forall k :: 0 <= k < |t| ==> WorldOk(t[k].world))
    && (forall k :: 0 < k < |t| ==> StepOk(c, t[k - 1].world, t[k]))
  }

  lemma TraceGrows(c: Setting, t: seq<Snapshot>, s: Snapshot)
    requires TraceOk(c, t) && WorldOk(s.world) && StepOk(c, t[|t| - 1].world, s)
    ensures TraceOk(c, t + [s])
  {
    hide WorldOk, StepOk;
    var more := t + [s];
    forall k | 0 < k < |more|
      ensures StepOk(c, more[k - 1].world, more[k])
    {
      if k < |t| { assert more[k - 1] == t[k - 1] && more[k] == t[k]; }
    }
  }

  lemma TraceCut(c: Setting, t: seq<Snapshot>, k: nat)
    requires TraceOk(c, t) && k < |t|
    ensures TraceOk(c, t[..k + 1])
  {
    hide WorldOk, StepOk;
  }

  // ----- What holds over every run ------------------------------------------------------------------

  /** A step the installer means to take: nobody else's, and none through a planted link. */
  predicate OwnStep(e: Event) {
    e != OutsideChange && e != LinkFollowed
  }

  predicate Undisturbed(t: seq<Snapshot>, i: nat, k: nat) {
    i <= k < |t| && forall j :: i < j <= k ==> OwnStep(t[j].event)
  }

  /**
   The active record is always earned: it was committed by some step j, the daemon then served its
   handler from its exact shim and configuration path, and it has not changed since.
   */
  lemma {:induction false} ActiveIsEarned(c: Setting, t: seq<Snapshot>, k: nat) returns (j: nat)
    requires TraceOk(c, t) && k < |t| && t[k].world.journal.active.Some?
    ensures 0 < j <= k && t[j].event == JournalWritten
    ensures var a := t[k].world.journal.active;
            && (forall i :: j <= i <= k ==> t[i].world.journal.active == a)
            && t[j - 1].world.journal.pending.Some? && t[j - 1].world.journal.pending.value.target == a.value
            && Serves(t[j - 1].world.daemon, a.value.handler, Some(TargetOf(a.value)))
  {
    hide WorldOk, Serves, ReadyTruth;
    assert StepOk(c, t[k - 1].world, t[k]);
    if t[k].event == JournalWritten && Commits(t[k - 1].world, t[k].world.journal) {
      j := k;
    } else {
      j := ActiveIsEarned(c, t, k - 1);
    }
  }

  /** While no transaction is open, the installer changes neither the configuration file nor the daemon. */
  lemma {:induction false} QuietWithoutPending(c: Setting, t: seq<Snapshot>, i: nat, k: nat)
    requires TraceOk(c, t) && Undisturbed(t, i, k)
    requires forall j :: i <= j < k ==> t[j].world.journal.pending.None?
    ensures t[k].world.config == t[i].world.config && t[k].world.daemon == t[i].world.daemon
  {
    hide WorldOk, ReadyTruth;
    if i < k {
      QuietWithoutPending(c, t, i, k - 1);
      assert StepOk(c, t[k - 1].world, t[k]);
      assert t[k - 1].world.journal.pending.None?;
    }
  }

  /** An open transaction is recorded once: until it closes, its record and the active one stay as they are. */
  lemma {:induction false} PendingStays(c: Setting, t: seq<Snapshot>, i: nat, k: nat)
    requires TraceOk(c, t) && Undisturbed(t, i, k)
    requires forall j :: i <= j <= k ==> t[j].world.journal.pending.Some?
    ensures t[k].world.journal == t[i].world.journal && t[k].world.baseline == t[i].world.baseline
  {
    hide WorldOk, ReadyTruth;
    if i < k {
      PendingStays(c, t, i, k - 1);
      assert StepOk(c, t[k - 1].world, t[k]);
      assert t[k - 1].world.journal.pending.Some? && t[k].world.journal.pending.Some?;
    }
  }

  /** How a closed transaction left the daemon, at the step that closed it. */
  predicate Closed(before: World, p: Pending, active: Option<Record>) {
    || (active == Some(p.target) && Serves(before.daemon, p.target.handler, Some(TargetOf(p.target))))
    || (active == before.journal.active && (before.daemon == before.baseline || SettledOn(before, p)))
  }

  /**
   Whenever no transaction is open and one was before, the daemon and the file are still as the
   closing step left them: serving the target, never touched, or settled on the predecessor.
   */
  lemma ClosedTransactionsAreSettled(c: Setting, t: seq<Snapshot>, i: nat, k: nat) returns (j: nat)
    requires TraceOk(c, t) && Undisturbed(t, i, k)
    requires t[i].world.journal.pending.Some? && t[k].world.journal.pending.None?
    ensures i < j <= k && t[j - 1].world.journal.pending.Some? && t[j].world.journal.pending.None?
    ensures t[k].world.config == t[j].world.config && t[k].world.daemon == t[j].world.daemon
    ensures t[j].world.config == t[j - 1].world.config && t[j].world.daemon == t[j - 1].world.daemon
    ensures Closed(t[j - 1].world, t[j - 1].world.journal.pending.value, t[j].world.journal.active)
  {
    hide WorldOk, Serves, SettledOn, TraceOk, StepOk, Journaled;
    j := LastClosing(t, i, k);
    QuietWithoutPending(c, t, j, k);
    ClosingStep(c, t, j);
  }

  lemma ClosingStep(c: Setting, t: seq<Snapshot>, j: nat)
    requires TraceOk(c, t) && 0 < j < |t| && OwnStep(t[j].event)
    requires t[j - 1].world.journal.pending.Some? && t[j].world.journal.pending.None?
    ensures t[j].world.config == t[j - 1].world.config && t[j].world.daemon == t[j - 1].world.daemon
    ensures Closed(t[j - 1].world, t[j - 1].world.journal.pending.value, t[j].world.journal.active)
  {
    hide WorldOk, Serves, SettledOn, ReadyTruth;
    assert StepOk(c, t[j - 1].world, t[j]);
  }

  lemma {:induction false} LastClosing(t: seq<Snapshot>, i: nat, k: nat) returns (j: nat)
    requires i < k < |t| && t[i].world.journal.pending.Some? && t[k].world.journal.pending.None?
    ensures i < j <= k && t[j - 1].world.journal.pending.Some?
    ensures forall m :: j <= m <= k ==> t[m].world.journal.pending.None?
  {
    if t[k - 1].world.journal.pending.Some? {
      j := k;
    } else {
      j := LastClosing(t, i, k - 1);
    }
  }
}
