/**
 Making a release exist as a verified generation (internal/gvisor-installer/binaries.go), the
 verdicts remembered during one pass, and the shim configurations (runscconfig.go).
 */
module Releases {
  import opened Options
  import opened EntryNames
  import opened ManagedBlock
  import opened Generation
  import opened Archive
  import opened Activation
  import opened ContainerdHost

  /** The verdict on a generation depends on its own files and the directories above it only. */
  lemma VerifiedStays(c: Setting, before: World, after: World, path: GenPath)
    requires Verified(c, before, path) && before.orderly <= after.orderly
    requires path in after.releases && after.releases[path] == before.releases[path]
    ensures Verified(c, after, path) && Load(after, path) == Load(before, path)
  {
    hide LoadGeneration;
    MoreOrderly(c, before, after, path);
  }

  lemma MoreOrderly(c: Setting, before: World, after: World, path: GenPath)
    requires Verified(c, before, path) && before.orderly <= after.orderly
    ensures ParentsOrderly(c, before, path) && ParentsOrderly(c, after, path)
  {
    hide LoadGeneration, Holds, NoExtras;
  }

  lemma VerifiedIsThere(c: Setting, w: World, path: GenPath)
    requires Verified(c, w, path)
    ensures path in w.releases && w.releases[path].Released? && Load(w, path).Some?
  {
    hide LoadGeneration, Exact;
  }

  /** Work on the installed files, during which somebody may edit containerd's configuration. */
  ghost predicate FilesOnly(before: World, after: World) {
    && after == before.(orderly := after.orderly, releases := after.releases, config := after.config,
                        edited := after.edited, leaked := after.leaked)
    && (before.leaked ==> after.leaked)
    && before.orderly <= after.orderly
    && (after.edited || (after.config == before.config && after.edited == before.edited))
  }

  /** One generation's directory changed, or nothing. */
  ghost predicate OnlyAt(before: World, after: World, path: GenPath) {
    && after == before.(releases := after.releases)
    && forall other :: other != path ==>
         && (other in before.releases <==> other in after.releases)
         && (other in before.releases ==> after.releases[other] == before.releases[other])
  }

  /** Installed files and, through links, some of the other files changed; the daemon did not. */
  ghost predicate LinksOnly(before: World, after: World) {
    && after == before.(journal := after.journal, config := after.config, releases := after.releases,
                        shimConfigs := after.shimConfigs, leaked := after.leaked)
    && (after.journal == before.journal || after.journal == EMPTY)
    && (before.leaked ==> after.leaked)
    && (!after.leaked ==> after == before.(releases := after.releases))
  }

  /** Of the node as the model knows it, only installed files changed. */
  ghost predicate ReleasesOnly(before: World, after: World) {
    && after == before.(releases := after.releases, leaked := after.leaked)
    && (before.leaked ==> after.leaked)
  }

  /** Installed files changed, somebody may have edited the configuration, and links may have been followed. */
  ghost predicate LinksOrFiles(before: World, after: World) {
    && after == before.(journal := after.journal, config := after.config, edited := after.edited,
                        orderly := after.orderly, releases := after.releases, shimConfigs := after.shimConfigs,
                        leaked := after.leaked)
    && before.orderly <= after.orderly && (after.journal == before.journal || after.journal == EMPTY)
  }

  lemma OverwrittenElsewhere(w: World, place: Place, from: GenPath, content: string, mode: string)
    requires LeadsAway(place, from)
    ensures LinksOnly(w, Overwritten(w, place, content, mode)) && Overwritten(w, place, content, mode).leaked
    ensures place.PayloadOf? || place.ManifestOfGeneration? || place.Unmodelled? ==>
              ReleasesOnly(w, Overwritten(w, place, content, mode))
    ensures from in w.releases ==>
              && from in Overwritten(w, place, content, mode).releases
              && Overwritten(w, place, content, mode).releases[from] == w.releases[from]
  {}

  /** A write through a link to that place leaves this generation exact. */
  predicate Harmless(c: Setting, w: World, path: GenPath, place: Place, content: string, mode: string)
    requires Verified(c, w, path)
  {
    match place
    case PayloadOf(other, name) =>
      var d, files := w.releases[path].dir, Load(w, path).value.files;
      other == path && (name in d.nodes ==> d.nodes[name].File?) ==>
        && (forall file :: file in files && OneFile(d, At(file), name) ==>
              files[file] == FileRecord(c.sha(content), mode))
        && (name in files || TEMP <= BaseName(name))
    case ManifestOfGeneration(other) => other != path
    case _ => true
  }

  /** So an approval outlives a link that is followed exactly when the place it leads to is harmless. */
  lemma ApprovalOutlivesLink(c: Setting, w: World, path: GenPath, place: Place, content: string, mode: string)
    requires Verified(c, w, path)
    ensures Verified(c, Overwritten(w, place, content, mode), path) <==> Harmless(c, w, path, place, content, mode)
  {
    hide Verified, Exact, LoadGeneration, Load, At, BaseName;
    VerifiedIsThere(c, w, path);
    if place.PayloadOf? && place.path == path
       && (place.name in w.releases[path].dir.nodes ==> w.releases[path].dir.nodes[place.name].File?) {
      PayloadOverwritten(c, w, path, place.name, content, mode);
    } else if place == ManifestOfGeneration(path) {
      ManifestOverwritten(c, w, path, content, mode);
    } else {
      VerifiedStays(c, w, Overwritten(w, place, content, mode), path);
    }
  }

  lemma ManifestOverwritten(c: Setting, w: World, path: GenPath, content: string, mode: string)
    requires Verified(c, w, path)
    ensures !Verified(c, Overwritten(w, ManifestOfGeneration(path), content, mode), path)
  {
    hide Exact;
  }

  lemma PayloadOverwritten(c: Setting, w: World, path: GenPath, name: string, content: string, mode: string)
    requires Verified(c, w, path)
    requires name in w.releases[path].dir.nodes ==> w.releases[path].dir.nodes[name].File?
    ensures Verified(c, Overwritten(w, PayloadOf(path, name), content, mode), path) <==>
              Harmless(c, w, path, PayloadOf(path, name), content, mode)
  {
    hide At, BaseName, ManifestFilesValid, FileWritten;
    var d, files := w.releases[path].dir, Load(w, path).value.files;
    var after := FileWritten(d, name, content, mode);
    assert Overwritten(w, PayloadOf(path, name), content, mode).releases[path] == Released(after);
    FileOverwritten(c.sha, ParentsOrderly(c, w, path), d, files, name, content, mode);
  }

  lemma FileOverwritten(sha: Sha, parents: bool, d: Dir, files: Files, name: string, content: string, mode: string)
    requires Exact(sha, parents, d, files) && (name in d.nodes ==> d.nodes[name].File?)
    ensures Exact(sha, parents, FileWritten(d, name, content, mode), files) <==>
              && (forall file :: file in files && OneFile(d, At(file), name) ==>
                    files[file] == FileRecord(sha(content), mode))
              && (name in files || TEMP <= BaseName(name))
  {
    hide At, BaseName;
    var after := FileWritten(d, name, content, mode);
    forall file | file in files
      ensures Holds(sha, after, At(file), files[file]) <==>
                (OneFile(d, At(file), name) ==> files[file] == FileRecord(sha(content), mode))
    {
      assert Holds(sha, d, At(file), files[file]);
    }
    assert NoExtras(after, files) <==> (name in files || TEMP <= BaseName(name)) by {
      assert forall other :: other in d.nodes && other != name ==>
        (Expected(d, files, other) <==> Expected(after, files, other));
      assert Expected(after, files, name) <==> (name in files || TEMP <= BaseName(name));
    }
    assert name != SIDECAR;
  }

  /**
   Where the installer claims readiness for a verified generation, the claim outlives any write through a link
   that leaves its runsc with another digest.
   */
  lemma LabelOutlivesPayload(c: Setting, w: World, r: Record, content: string, mode: string)
    requires ReadyTruth(c, w, Settled(r)) && Verified(c, w, r.generation)
    requires RUNSC in Load(w, r.generation).value.files
    requires c.sha(content) != Load(w, r.generation).value.files[RUNSC].sha512
    ensures var after := Overwritten(w, PayloadOf(r.generation, RUNSC), content, mode);
            ReadyTruth(c, after, Settled(r)) && !Verified(c, after, r.generation)
  {
    var place := PayloadOf(r.generation, RUNSC);
    hide Verified, Exact, Managed, Serves, ShimConfigName, At, FileWritten, ManifestFilesValid;
    RunscIsAFile(c, w, r.generation);
    assert Load(Overwritten(w, place, content, mode), r.generation) == Load(w, r.generation);
    ApprovalOutlivesLink(c, w, r.generation, place, content, mode);
    RequiredAreFixed();
    FixedAt(RUNSC);
  }

  lemma RunscIsAFile(c: Setting, w: World, path: GenPath)
    requires Verified(c, w, path) && RUNSC in Load(w, path).value.files
    ensures path in w.releases && w.releases[path].Released?
    ensures RUNSC in w.releases[path].dir.nodes && w.releases[path].dir.nodes[RUNSC].File?
  {
    hide Normalize, Fixed, LoadGeneration, At;
    RequiredAreFixed();
    FixedAt(RUNSC);
    assert Holds(c.sha, w.releases[path].dir, At(RUNSC), Load(w, path).value.files[RUNSC]);
  }

  /** A node on which this record is served, with a second generation beside the record's own. */
  function TwoGenerations(
      c: Setting, text: string, r: Record, d: Dir, other: GenPath, linked: Dir, shim: string): World
  {
    var runtime := Runtime(RUNSC_TYPE, ShimOf(r.generation), r.config);
    var daemon := Daemon(true, true, [c.handler], map[c.handler := runtime], Some(text));
    World(Journal(Some(r), None), text, daemon, daemon, false, false, Look(text, NoEntry),
          {c.installDir, r.generation.parent}, map[other := Released(linked), r.generation := Released(d)],
          map[r.config := Regular(shim)], "")
  }

  lemma TwoGenerationsAreReady(
      c: Setting, text: string, r: Record, d: Dir, other: GenPath, linked: Dir, shim: string)
    requires Managed(text) == Found(r.block) && r.handler == c.handler && other != r.generation
    requires r.version == r.generation.version && r.archive == r.generation.archive
    requires r.config.base == ShimConfigName(c, shim)
    requires LoadGeneration(r.generation, d).Some? && Exact(c.sha, true, d, LoadGeneration(r.generation, d).value.files)
    ensures var w := TwoGenerations(c, text, r, d, other, linked, shim);
            && ReadyTruth(c, w, Settled(r)) && Verified(c, w, r.generation)
            && Load(w, r.generation) == LoadGeneration(r.generation, d)
            && other in w.releases && w.releases[other] == Released(linked)
  {
    hide Managed, Exact, LoadGeneration, ShimConfigName, Verified, Load, ReadyTruth;
    var w := TwoGenerations(c, text, r, d, other, linked, shim);
    PlacedIsVerified(c, w, r.generation, d);
    NodeIsReady(c, w, r);
  }

  /**
   And there is such a node: one generation served and verified, and beside it one of the same version whose
   repair will follow a link at a temporary name into the first.
   */
  lemma ReadyBesideLink(
      c: Setting, text: string, block: string, archive: string, other: string, content: string, shim: string)
      returns (w: World, r: Record)
    requires SettingOk(c) && Managed(text) == Found(block) && archive != other
    ensures r.generation == GenPath(ReleasesDir(c), c.version, archive)
    ensures ReadyTruth(c, w, Settled(r)) && Verified(c, w, r.generation)
    ensures var files, path := Load(w, r.generation).value.files, GenPath(ReleasesDir(c), c.version, other);
            && RUNSC in files && files[RUNSC].sha512 == c.sha(content)
            && path in w.releases && w.releases[path].Released? && LeadsAway(PayloadOf(r.generation, RUNSC), path)
            && FixedNames(files) && Diverted(c.sha, Righted(w.releases[path].dir), files)
  {
    var path, beside := GenPath(ReleasesDir(c), c.version, archive), GenPath(ReleasesDir(c), c.version, other);
    r := Record(path, ConfigPath(ConfigsDir(c), ShimConfigName(c, shim)), c.version, archive, c.handler, block);
    var d := Minimal(REQUIRED, c.sha, path, content);
    var linked := Dir(EXECUTABLE, NoManifest, map[SIDECAR := Directory(EXECUTABLE), TempOf(RUNSC) := Link(0)]);
    w := TwoGenerations(c, text, r, d, beside, linked, shim);
    hide LoadGeneration, Exact, ReleasesDir, ConfigsDir, ShimConfigName, Managed, SettingOk, Righted, Minimal;
    hide TempOf, Diverted, FixedNames, Verified, Load, ReadyTruth, TwoGenerations;
    MinimalIsReady(c, path, content);
    LinkStopsRepair(c.sha, d.manifest.m.files, RUNSC);
    TwoGenerationsAreReady(c, text, r, d, beside, linked, shim);
  }

  lemma PlacedIsVerified(c: Setting, w: World, path: GenPath, d: Dir)
    requires path in w.releases && w.releases[path] == Released(d) && ParentsOrderly(c, w, path)
    requires LoadGeneration(path, d).Some? && Exact(c.sha, true, d, LoadGeneration(path, d).value.files)
    ensures Load(w, path) == LoadGeneration(path, d) && Verified(c, w, path)
  {
    hide LoadGeneration, Exact;
  }

  lemma NodeIsReady(c: Setting, w: World, r: Record)
    requires w.journal == Journal(Some(r), None) && r.handler == c.handler && Managed(w.config) == Found(r.block)
    requires Verified(c, w, r.generation) && r.version == r.generation.version && r.archive == r.generation.archive
    requires ShimConfigIntact(c, w, r.config) && Serves(w.daemon, c.handler, Some(TargetOf(r)))
    ensures ReadyTruth(c, w, Settled(r))
  {
    hide Managed, ShimConfigIntact, Serves, Exact, LoadGeneration;
  }

  lemma MinimalIsReady(c: Setting, path: GenPath, content: string)
    requires SettingOk(c)
    ensures var d := Minimal(REQUIRED, c.sha, path, content);
            var files := d.manifest.m.files;
            && LoadGeneration(path, d) == Some(Generation(path, path.version, path.archive, files))
            && Exact(c.sha, true, d, files) && RUNSC in files && files[RUNSC].sha512 == c.sha(content)
            && FixedNames(files)
  {
    hide LoadGeneration, Exact, Fixed;
    MinimalIsLoaded(c.sha, path, content);
    RequiredAreFixed();
  }

  class Releases {
    const host: Host
    var verifyCache: map<GenPath, bool>

    constructor (h: Host)
      ensures host == h && verifyCache == map[]
    {
      host := h;
      verifyCache := map[];
    }

    method Forget()
      modifies this`verifyCache
      ensures verifyCache == map[] && CacheSound()
    {
      verifyCache := map[];
    }

    /** A remembered approval agrees with a verification done now, unless a repair has written through a link. */
    ghost predicate CacheSound()
      reads this, host
    {
      host.w.leaked || CacheTrue(host.w)
    }

    ghost predicate CacheTrue(w: World)
      reads this
    {
      forall path :: Approved(path) ==> Verified(host.setting, w, path)
    }

    predicate Approved(path: GenPath)
      reads this
    {
      path in verifyCache && verifyCache[path]
    }

    /** The verdict a pass goes by: the one it remembers, or else that of a verification. */
    predicate Trusted(w: World, path: GenPath)
      reads this
    {
      if path in verifyCache then verifyCache[path] else Verified(host.setting, w, path)
    }

    /** verifyGeneration: hashes the whole payload; a read error counts as a failure. */
    method VerifyInstalled(g: Generation) returns (ok: bool)
      requires Load(host.w, g.path) == Some(g)
      modifies host`failures
      ensures old(host.failures) <= host.failures
      ensures ok ==> Verified(host.setting, host.w, g.path)
      ensures !ok && host.failures == old(host.failures) ==> !Verified(host.setting, host.w, g.path)
    {
      var legible: string -> bool := *;
      var v := VerifyGeneration(host.setting.sha, ParentsOrderly(host.setting, host.w, g.path),
                                host.w.releases[g.path].dir, g.files, legible);
      if v.Unreadable? { host.failures := host.failures + 1; }
      return v.Intact?;
    }

    /** verifyGenerationCached: unless reading fails, the verdict is the one remembered or the one found now. */
    method VerifyCached(g: Generation) returns (ok: bool)
      requires CacheSound() && Load(host.w, g.path) == Some(g)
      modifies this`verifyCache, host`failures
      ensures CacheSound() && ok == Approved(g.path) && old(host.failures) <= host.failures
      ensures ok ==> host.w.leaked || Verified(host.setting, host.w, g.path)
      ensures host.failures == old(host.failures) ==> ok == old(Trusted(host.w, g.path))
      ensures forall path :: path != g.path ==> (Approved(path) <==> old(Approved(path)))
      ensures forall path :: path != g.path ==> (Trusted(host.w, path) <==> old(Trusted(host.w, path)))
    {
      hide Verified, Load;
      if g.path in verifyCache { return verifyCache[g.path]; }
      ok := VerifyInstalled(g);
      verifyCache := verifyCache[g.path := ok];
    }

    /** verifiedActiveGeneration */
    method VerifiedActiveGeneration(active: Record) returns (ok: bool)
      requires CacheSound()
      modifies this`verifyCache, host`failures
      ensures CacheSound() && old(host.failures) <= host.failures
      ensures ok ==> host.w.leaked || Verified(host.setting, host.w, active.generation)
      ensures ok ==> OnRecord(host.w, active)
      ensures host.failures == old(host.failures) ==>
                (ok <==> OnRecord(host.w, active) && old(Trusted(host.w, active.generation)))
    {
      hide Verified, Load;
      var g := Load(host.w, active.generation);
      if g.None? { return false; }
      if g.value.version != active.version || g.value.archive != active.archive { return false; }
      ok := VerifyCached(g.value);
    }

    /** runscConfigIntact: a read error counts as a failure. */
    method CheckShimConfig(path: ConfigPath) returns (ok: bool)
      modifies host`failures
      ensures old(host.failures) <= host.failures && (ok ==> ShimConfigIntact(host.setting, host.w, path))
      ensures !ok && host.failures == old(host.failures) ==> !ShimConfigIntact(host.setting, host.w, path)
    {
      var failed := host.MayFail();
      return !failed && ShimConfigIntact(host.setting, host.w, path);
    }

    /**
     ensureRunscConfig: the rendered text is stored under its own digest, so a write that lands on an
     existing file leaves it with a content that hashes to its name.
     */
    method EnsureRunscConfig(g: Generation, dump: Dump) returns (path: Option<ConfigPath>)
      requires host.Valid()
      modifies host`w, host`trace, host`failures
      ensures host.Valid() && old(host.trace) <= host.trace && old(host.failures) <= host.failures
      ensures host.w == old(host.w).(shimConfigs := host.w.shimConfigs)
      ensures forall q :: ShimConfigIntact(host.setting, old(host.w), q) ==> ShimConfigIntact(host.setting, host.w, q)
      ensures path.Some? ==> ShimConfigIntact(host.setting, host.w, path.value)
      ensures path.Some? ==> path.value == Rendered(host.setting, host.w, g.path, dump)
      ensures path.None? ==> old(host.failures) < host.failures
    {
      hide TraceOk, SettingOk, ConfigsDir;
      // Rendered from a file of the image, the generation's runsc and the dump's cgroup driver.
      var desired := host.setting.shimText(host.w.base, g.path, dump);
      // That file is not there, or cannot be parsed.
      var failed := host.MayFail();
      if failed { return None; }
      var dest := ConfigPath(ConfigsDir(host.setting), ShimConfigName(host.setting, desired));
      if dest in host.w.shimConfigs && host.w.shimConfigs[dest] == Regular(desired) { return Some(dest); }
      failed := host.MayFail();
      if failed { return None; }
      var ok := host.PutShimConfig(dest, desired);
      if !ok { return None; }
      return Some(dest);
    }

    /** A recorded shim configuration, rendered once more if it is not intact. */
    method KeepShimConfig(g: Generation, dump: Dump, path: ConfigPath) returns (ok: bool)
      requires host.Valid()
      modifies host`w, host`trace, host`failures
      ensures host.Valid() && old(host.trace) <= host.trace && old(host.failures) <= host.failures
      ensures host.w == old(host.w).(shimConfigs := host.w.shimConfigs)
      ensures ok ==> ShimConfigIntact(host.setting, host.w, path)
      ensures host.failures == old(host.failures) ==>
                (ok <==> ShimConfigIntact(host.setting, old(host.w), path) ||
                         path == Rendered(host.setting, host.w, g.path, dump))
    {
      hide TraceOk, SettingOk, ConfigsDir;
      ok := CheckShimConfig(path);
      if ok { return; }
      var rendered := EnsureRunscConfig(g, dump);
      return rendered == Some(path);
    }

    // ----- ensureGeneration --------------------------------------------------------------------

    predicate Wanted(path: GenPath) {
      path.parent == ReleasesDir(host.setting) && path.version == host.setting.version
    }

    lemma AbsentIsNotTrusted(path: GenPath)
      requires CacheTrue(host.w) && path !in host.w.releases
      ensures !Approved(path) && !Trusted(host.w, path)
    {
      hide Verified, Load;
      if Approved(path) || Verified(host.setting, host.w, path) { VerifiedIsThere(host.setting, host.w, path); }
    }

    /** One candidate of intactGeneration. */
    method Candidate(path: GenPath) returns (g: Option<Generation>)
      requires CacheSound() && !host.w.leaked
      modifies this`verifyCache, host`failures
      ensures CacheSound() && old(host.failures) <= host.failures
      ensures g.Some? ==> Load(host.w, path) == g && Verified(host.setting, host.w, path) && Approved(path)
      ensures g.Some? ==> path.version == host.setting.version
      ensures g.Some? && host.failures == old(host.failures) ==> old(Trusted(host.w, path))
      ensures g.None? && path.version == host.setting.version ==>
                !Approved(path) && (host.failures == old(host.failures) ==> !old(Trusted(host.w, path)))
      ensures forall other :: other != path ==> (Approved(other) <==> old(Approved(other)))
      ensures forall other :: other != path ==> (Trusted(host.w, other) <==> old(Trusted(host.w, other)))
    {
      hide Verified, Load;
      if Trusted(host.w, path) { VerifiedIsThere(host.setting, host.w, path); }
      g := Load(host.w, path);
      if g.None? || g.value.version != host.setting.version { return None; }
      var ok := VerifyCached(g.value);
      if !ok { return None; }
    }

    /** Every directory whose name starts with the wanted version. */
    function Candidates(w: World): (all: set<GenPath>)
      ensures forall path :: path in all ==> path in w.releases && path.parent == ReleasesDir(host.setting)
    {
      set path | path in w.releases && path.parent == ReleasesDir(host.setting) &&
                 host.setting.version + "-" <= GenerationDirName(path.version, path.archive)
    }

    lemma WantedIsCandidate(path: GenPath)
      requires Wanted(path) && path in host.w.releases
      ensures path in Candidates(host.w)
    {
      hide ReleasesDir;
      assert host.setting.version + "-" + path.archive == GenerationDirName(path.version, path.archive);
    }

    /**
     intactGeneration: the active generation first, then every directory of the wanted version. Unless reading
     fails, one is found exactly when there is one.
     */
    method IntactGeneration() returns (g: Option<Generation>)
      requires CacheSound() && !host.w.leaked
      modifies this`verifyCache, host`failures
      ensures CacheSound() && old(host.failures) <= host.failures
      ensures g.Some? ==> Load(host.w, g.value.path) == g && Verified(host.setting, host.w, g.value.path)
      ensures g.Some? ==> Wanted(g.value.path) && Approved(g.value.path)
      ensures g.Some? && host.failures == old(host.failures) ==> old(Trusted(host.w, g.value.path))
      ensures g.None? ==> forall path :: Wanted(path) ==> !Approved(path)
      ensures g.None? && host.failures == old(host.failures) ==>
                forall path :: Wanted(path) ==> !old(Trusted(host.w, path))
    {
      hide Verified, Load, ReleasesDir, Candidates;
      var seen: set<GenPath> := {};
      var active := host.w.journal.active;
      if active.Some? && active.value.version == host.setting.version
         && active.value.generation.parent == ReleasesDir(host.setting) {
        g := Candidate(active.value.generation);
        if g.Some? { return; }
        seen := {active.value.generation};
      }
      var todo := Candidates(host.w);
      ghost var all := todo;
      while todo != {}
        invariant CacheSound() && todo <= all && old(host.failures) <= host.failures
        invariant forall path :: path in seen && Wanted(path) ==> !Approved(path)
        invariant host.failures == old(host.failures) ==>
                    forall path :: path in seen && Wanted(path) ==> !old(Trusted(host.w, path))
        invariant forall path :: path !in seen ==> (Trusted(host.w, path) <==> old(Trusted(host.w, path)))
        invariant all - todo <= seen
      {
        var path :| path in todo;
        todo := todo - {path};
        if path !in seen {
          seen := seen + {path};
          g := Candidate(path);
          if g.Some? { return; }
        }
      }
      forall path | Wanted(path)
        ensures !Approved(path)
        ensures host.failures == old(host.failures) ==> !old(Trusted(host.w, path))
      {
        if path in host.w.releases {
          WantedIsCandidate(path);
        } else {
          AbsentIsNotTrusted(path);
        }
      }
      return None;
    }

    /** A new state of one directory keeps what was approved of the others. */
    lemma OthersStayApproved(before: World, path: GenPath)
      requires OnlyAt(before, host.w, path) && !Approved(path)
      requires CacheTrue(before)
      ensures CacheTrue(host.w)
    {
      hide Verified, Load;
      forall other | Approved(other)
        ensures Verified(host.setting, host.w, other)
      {
        VerifiedIsThere(host.setting, before, other);
        VerifiedStays(host.setting, before, host.w, other);
      }
    }

    /** Everything a link leads to is written, in any order: it may be a file of several names. */
    method FollowAll(path: GenPath)
      requires host.Valid() && path in host.w.releases
      modifies host`w, host`trace
      ensures host.Valid() && old(host.trace) <= host.trace && LinksOnly(old(host.w), host.w)
      ensures path in host.w.releases && host.w.releases[path] == old(host.w).releases[path] && host.w.leaked
    {
      hide TraceOk, SettingOk, IsDigest, Overwritten;
      var more: int := *;
      for i := 0 to 1 + if more < 0 then 0 else more
        invariant i > 0 ==> host.w.leaked
        invariant host.Valid() && old(host.trace) <= host.trace && LinksOnly(old(host.w), host.w)
        invariant path in host.w.releases && host.w.releases[path] == old(host.w).releases[path]
      {
        var content: string, mode: string := *, *;
        ghost var before := host.w;
        var place := host.FollowLink(path, content, mode);
        OverwrittenElsewhere(before, place, path, content, mode);
      }
    }

    /** All other names of a file, outside the generation it was opened in, are written. */
    method WriteOtherNames(path: GenPath)
      requires host.Valid() && path in host.w.releases
      modifies host`w, host`trace
      ensures host.Valid() && old(host.trace) <= host.trace && ReleasesOnly(old(host.w), host.w)
      ensures path in host.w.releases && host.w.releases[path] == old(host.w).releases[path] && host.w.leaked
    {
      hide TraceOk, SettingOk, IsDigest, Overwritten;
      var more: int := *;
      for i := 0 to 1 + if more < 0 then 0 else more
        invariant i > 0 ==> host.w.leaked
        invariant host.Valid() && old(host.trace) <= host.trace && ReleasesOnly(old(host.w), host.w)
        invariant path in host.w.releases && host.w.releases[path] == old(host.w).releases[path]
      {
        var content: string, mode: string := *, *;
        ghost var before := host.w;
        var place := host.WriteOtherName(path, content, mode);
        OverwrittenElsewhere(before, place, path, content, mode);
      }
    }

    /**
     Every state a directory went through becomes a state of the node, and where a link was followed or a
     file of several names written, something else on the node is written in between.
     */
    method Replay(path: GenPath, history: seq<Dir>, leaks: set<nat>, echoes: set<nat>)
      requires host.Valid() && IsDigest(path.archive) && history != []
      requires path in host.w.releases && host.w.releases[path] == Released(history[0])
      requires forall position :: position in leaks || position in echoes ==> position < |history|
      modifies host`w, host`trace
      ensures host.Valid() && old(host.trace) <= host.trace && LinksOnly(old(host.w), host.w)
      ensures leaks == {} ==> ReleasesOnly(old(host.w), host.w)
      ensures host.w.leaked <==> old(host.w).leaked || leaks != {} || echoes != {}
      ensures !host.w.leaked ==> OnlyAt(old(host.w), host.w, path)
      ensures path in host.w.releases && host.w.releases[path] == Released(history[|history| - 1])
    {
      hide TraceOk, SettingOk, IsDigest;
      for i := 0 to |history|
        invariant host.Valid() && old(host.trace) <= host.trace && LinksOnly(old(host.w), host.w)
        invariant leaks == {} ==> ReleasesOnly(old(host.w), host.w)
        invariant host.w.leaked <==>
                    old(host.w).leaked || exists position :: (position in leaks || position in echoes) && position < i
        invariant !host.w.leaked ==> OnlyAt(old(host.w), host.w, path)
        invariant path in host.w.releases && host.w.releases[path] == Released(history[if i == 0 then 0 else i - 1])
      {
        if i > 0 { host.PutRelease(path, Some(Released(history[i]))); }
        if i in leaks { FollowAll(path); }
        if i in echoes { WriteOtherNames(path); }
      }
    }

    method MarkVerified(g: Generation)
      requires CacheSound() && Verified(host.setting, host.w, g.path)
      modifies this`verifyCache
      ensures CacheSound() && (old(CacheTrue(host.w)) ==> CacheTrue(host.w)) && Approved(g.path)
    {
      hide Verified;
      verifyCache := verifyCache[g.path := true];
    }

    /** publishGeneration: the manifest is written before the rename, so what appears is complete. */
    method PublishGeneration(g: Generation, staging: Dir) returns (ok: bool)
      requires host.Valid() && CacheTrue(host.w) && !Approved(g.path) && g.path !in host.w.releases
      requires IsDigest(g.path.archive)
      requires LoadGeneration(g.path, staging.(manifest := Stored(ManifestOf(g)))) == Some(g)
      requires Exact(host.setting.sha, true, staging.(manifest := Stored(ManifestOf(g))), g.files)
      requires ParentsOrderly(host.setting, host.w, g.path)
      modifies this`verifyCache, host`w, host`trace, host`failures
      ensures host.Valid() && CacheTrue(host.w) && old(host.trace) <= host.trace && OnlyAt(old(host.w), host.w, g.path)
      ensures ok ==> Load(host.w, g.path) == Some(g) && Verified(host.setting, host.w, g.path) && Approved(g.path)
      ensures old(host.failures) <= host.failures && (!ok ==> old(host.failures) < host.failures)
    {
      hide TraceOk, SettingOk, IsDigest, Exact, LoadGeneration;
      var failed := host.MayFail();
      if failed { return false; }
      var published := staging.(manifest := Stored(ManifestOf(g)));
      host.PutRelease(g.path, Some(Released(published)));
      OthersStayApproved(old(host.w), g.path);
      failed := host.MayFail();
      if failed { return false; }
      MarkVerified(g);
      return true;
    }

    /**
     The repair of a generation that is there but not intact. Nothing but its own directory changes, and all
     approvals stay true, unless a link or a file of several names stands at the temporary name of a drifted
     file. Where a link was followed it fails; otherwise nothing but installed files changes.
     */
    method Restore(g: Generation, staging: Dir) returns (ok: bool)
      requires host.Valid() && CacheTrue(host.w) && !host.w.leaked && !Approved(g.path) && IsDigest(g.path.archive)
      requires g.path in host.w.releases && host.w.releases[g.path].Released?
      requires FixedNames(g.files) && ManifestFilesValid(g.files) && AllHold(host.setting.sha, staging, g.files)
      requires g.path.version == g.version && g.path.archive == g.archive
      modifies this`verifyCache, host`w, host`trace, host`failures
      ensures host.Valid() && CacheSound() && old(host.trace) <= host.trace && LinksOnly(old(host.w), host.w)
      ensures old(host.failures) <= host.failures
      ensures !ok && host.failures == old(host.failures) ==>
                !Restorable(host.setting.sha, ParentsOrderly(host.setting, old(host.w), g.path),
                            old(host.w).releases[g.path].dir, g.files)
      ensures ok ==> Approved(g.path)
      ensures TempsAreOrdinary(host.setting.sha, Righted(old(host.w).releases[g.path].dir), g.files) ==>
                !host.w.leaked
      ensures !host.w.leaked ==> OnlyAt(old(host.w), host.w, g.path)
      ensures ok ==> ReleasesOnly(old(host.w), host.w)
      ensures ok ==> Load(host.w, g.path) == Some(g) && Verified(host.setting, host.w, g.path)
      ensures ok && !host.w.leaked ==>
                Restorable(host.setting.sha, ParentsOrderly(host.setting, old(host.w), g.path),
                           old(host.w).releases[g.path].dir, g.files)
      ensures ok && NoneShared(host.setting.sha, Righted(old(host.w).releases[g.path].dir), g.files) ==>
                Restorable(host.setting.sha, ParentsOrderly(host.setting, old(host.w), g.path),
                           old(host.w).releases[g.path].dir, g.files)
    {
      hide TraceOk, SettingOk, IsDigest, Exact, LoadGeneration, FixedNames, ManifestFilesValid, AllHold, AllTowards;
      hide TempsAreOrdinary, NoneShared, Restorable, Righted, Diverted, Grounded;
      var dir := new Directory(host.w.releases[g.path].dir);
      var io := RestoreGeneration(host.setting.sha, ParentsOrderly(host.setting, host.w, g.path), g, dir, staging);
      host.failures := host.failures + dir.failures;
      Replay(g.path, dir.history, dir.leaks, dir.echoes);
      if !host.w.leaked { OthersStayApproved(old(host.w), g.path); }
      if !io.Done? { return false; }
      MarkVerified(g);
      return true;
    }

    /** A download that takes its time; somebody may edit the configuration meanwhile. */
    method Download() returns (archive: Option<(string, seq<Entry>)>)
      requires host.Valid()
      modifies host`w, host`trace, host`failures
      ensures host.Valid() && old(host.trace) <= host.trace && FilesOnly(old(host.w), host.w)
      ensures host.failures == old(host.failures) + if archive.Some? then 0 else 1
      ensures host.w.releases == old(host.w).releases
      ensures host.w.orderly == old(host.w).orderly && host.w.leaked == old(host.w).leaked
      ensures archive.Some? ==> IsDigest(archive.value.0)
    {
      hide TraceOk, SettingOk, Single;
      if * {
        var text: string := *;
        if Single(text) { host.EditDuringPass(text); }
      }
      var digest: string := *;
      if !IsDigest(digest) {
        host.failures := host.failures + 1;
        return None;
      }
      var failed := host.MayFail();
      if failed { return None; }
      var entries: seq<Entry> := *;
      return Some((digest, entries));
    }

    /**
     The exact condition: the approvals of a pass survive a followed link when it leads to a harmless place
     for each.
     */
    lemma CacheOutlivesLink(place: Place, content: string, mode: string)
      requires CacheTrue(host.w)
      ensures CacheTrue(Overwritten(host.w, place, content, mode)) <==>
                forall path :: Approved(path) ==> Harmless(host.setting, host.w, path, place, content, mode)
    {
      hide Verified, Harmless, Overwritten;
      forall path | Approved(path)
        ensures Verified(host.setting, Overwritten(host.w, place, content, mode), path) <==>
                  Harmless(host.setting, host.w, path, place, content, mode)
      {
        ApprovalOutlivesLink(host.setting, host.w, path, place, content, mode);
      }
    }

    /** What a pass may find changed behind work on the installed files. */
    ghost predicate Worked(before: World)
      reads host
    {
      && LinksOrFiles(before, host.w)
      && (!host.w.leaked ==> FilesOnly(before, host.w))
    }

    /** The node with the directories above the generations in order. */
    function Tidied(w: World): World {
      w.(orderly := w.orderly + {host.setting.installDir, ReleasesDir(host.setting)})
    }

    /** An archive that can be unpacked, and put in place or into what stands in its place. */
    predicate Usable(w: World, digest: string, entries: seq<Entry>) {
      var path := GenPath(ReleasesDir(host.setting), host.setting.version, digest);
      && Acceptable(host.setting.sha, entries)
      && (path in w.releases && w.releases[path].Released? ==>
            Restorable(host.setting.sha, ParentsOrderly(host.setting, w, path), w.releases[path].dir,
                       Records(host.setting.sha, entries)))
    }

    /** ensureGeneration: a success is a generation of the wanted version, exact on disk, and no link was followed. */
    method EnsureGeneration() returns (g: Option<Generation>, ghost archive: Option<(string, seq<Entry>)>)
      requires host.Valid() && CacheTrue(host.w) && !host.w.leaked
      modifies this`verifyCache, host`w, host`trace, host`failures
      ensures host.Valid() && CacheSound() && old(host.trace) <= host.trace && Worked(old(host.w))
      ensures g.Some? ==> FilesOnly(old(host.w), host.w) && Load(host.w, g.value.path) == g
      ensures g.Some? ==> Verified(host.setting, host.w, g.value.path) && Wanted(g.value.path)
      ensures g.Some? ==> Approved(g.value.path)
      ensures old(host.failures) <= host.failures
      ensures host.failures == old(host.failures) ==>
                if exists path :: Wanted(path) && old(Trusted(Tidied(host.w), path))
                then g.Some? && host.w == old(Tidied(host.w))
                else archive.Some? && (Usable(old(Tidied(host.w)), archive.value.0, archive.value.1) ==> g.Some?)
    {
      hide TraceOk, SettingOk, IsDigest, Exact, LoadGeneration, Load, Verified, FixedNames, ManifestFilesValid;
      hide AllHold, Acceptable, Unpacked, Records, ReleasesDir;
      archive := None;
      var orderly := {host.setting.installDir, ReleasesDir(host.setting)};
      var ok := host.MakeOrderly(orderly);
      OrderlyStaysApproved(old(host.w));
      if !ok { return None, None; }
      g := IntactGeneration();
      if g.Some? { return; }
      ghost var asked := host.w;
      var downloaded := Download();
      archive := downloaded;
      OrderlyStaysApproved(asked);
      if downloaded.None? { return None, None; }
      var (digest, entries) := downloaded.value;
      g := Install(digest, entries);
    }

    /** What ensureGeneration does with a downloaded archive. */
    method Install(digest: string, entries: seq<Entry>) returns (g: Option<Generation>)
      requires host.Valid() && CacheTrue(host.w) && !host.w.leaked && IsDigest(digest)
      requires {host.setting.installDir, ReleasesDir(host.setting)} <= host.w.orderly
      requires forall path :: Wanted(path) ==> !Approved(path)
      modifies this`verifyCache, host`w, host`trace, host`failures
      ensures host.Valid() && CacheSound() && old(host.trace) <= host.trace && Worked(old(host.w))
      ensures g.Some? ==> FilesOnly(old(host.w), host.w) && Load(host.w, g.value.path) == g
      ensures g.Some? ==> Verified(host.setting, host.w, g.value.path) && Wanted(g.value.path)
      ensures g.Some? ==> Approved(g.value.path)
      ensures old(host.failures) <= host.failures
      ensures g.None? && host.failures == old(host.failures) ==> !Usable(old(host.w), digest, entries)
    {
      hide TraceOk, SettingOk, IsDigest, Exact, LoadGeneration, Load, Verified, FixedNames, ManifestFilesValid;
      hide AllHold, Acceptable, Unpacked, Records, ReleasesDir, TempsAreOrdinary, Restorable;
      var staging := new Directory(Dir(EXECUTABLE, NoManifest, map[]));
      var extraction := ExtractTar(host.setting.sha, entries, staging);
      host.failures := host.failures + staging.failures;
      if !extraction.Extracted? { return None; }
      // The staged runsc does not run, or reports another version than the one asked for.
      var failed := host.MayFail();
      if failed { return None; }
      var path := GenPath(ReleasesDir(host.setting), host.setting.version, digest);
      var release := Generation(path, host.setting.version, digest, extraction.files);
      HostDigests(host);
      PublishThenLoad(host.setting.sha, entries, staging.now, release);
      var ok := PutInPlace(release, staging.now);
      if !ok { return None; }
      return Some(release);
    }

    /** Into what stands in its place, if that is a directory, and otherwise in its stead. */
    method PutInPlace(g: Generation, staging: Dir) returns (ok: bool)
      requires host.Valid() && CacheTrue(host.w) && !host.w.leaked && !Approved(g.path) && IsDigest(g.path.archive)
      requires FixedNames(g.files) && ManifestFilesValid(g.files) && AllHold(host.setting.sha, staging, g.files)
      requires g.path.version == g.version && g.path.archive == g.archive
      requires LoadGeneration(g.path, staging.(manifest := Stored(ManifestOf(g)))) == Some(g)
      requires Exact(host.setting.sha, true, staging.(manifest := Stored(ManifestOf(g))), g.files)
      requires ParentsOrderly(host.setting, host.w, g.path)
      modifies this`verifyCache, host`w, host`trace, host`failures
      ensures host.Valid() && CacheSound() && old(host.trace) <= host.trace && Worked(old(host.w))
      ensures ok ==> FilesOnly(old(host.w), host.w) && Load(host.w, g.path) == Some(g)
      ensures ok ==> Verified(host.setting, host.w, g.path) && Approved(g.path)
      ensures old(host.failures) <= host.failures
      ensures !ok && host.failures == old(host.failures) ==>
                && g.path in old(host.w).releases && old(host.w).releases[g.path].Released?
                && !Restorable(host.setting.sha, ParentsOrderly(host.setting, old(host.w), g.path),
                               old(host.w).releases[g.path].dir, g.files)
    {
      hide TraceOk, SettingOk, IsDigest, Exact, LoadGeneration, Load, Verified, FixedNames, ManifestFilesValid;
      hide AllHold, TempsAreOrdinary, NoneShared, Restorable;
      if g.path in host.w.releases && host.w.releases[g.path].Released? {
        ok := Restore(g, staging);
        return;
      }
      if g.path in host.w.releases {
        var failed := host.MayFail();
        if failed { return false; }
        host.PutRelease(g.path, None);
        OthersStayApproved(old(host.w), g.path);
      }
      ok := PublishGeneration(g, staging);
    }

    lemma StaysSound(before: World)
      requires before.orderly <= host.w.orderly && before.releases == host.w.releases
      requires before.leaked || CacheTrue(before)
      requires before.leaked ==> host.w.leaked
      ensures CacheSound()
    {
      if CacheTrue(before) { OrderlyStaysApproved(before); }
    }

    lemma OrderlyStaysApproved(before: World)
      requires before.orderly <= host.w.orderly && before.releases == host.w.releases
      requires CacheTrue(before)
      ensures CacheTrue(host.w)
    {
      hide Verified, Load;
      forall other | Approved(other)
        ensures Verified(host.setting, host.w, other)
      {
        VerifiedIsThere(host.setting, before, other);
        VerifiedStays(host.setting, before, host.w, other);
      }
    }
  }

  lemma HostDigests(host: Host)
    requires host.Valid()
    ensures Digests(host.setting.sha)
  {
    hide TraceOk;
  }
}
