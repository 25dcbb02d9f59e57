/**
 An installed release directory (internal/gvisor-installer/generation.go): its manifest, the
 exact-set check, and the in-place repair that moves only towards the manifest.
 */
module Generation {
  import opened Options
  import opened EntryNames

  /** SHA-512 in hexadecimal. Nothing here needs it to be free of collisions. */
  type Sha = string -> string

  const RUNSC: string := "runsc"
  const SHIM: string := "containerd" + "-shim-runsc-v1"
  const GOFER: string := IN_SIDECAR + "checkpointgofer"
  const REQUIRED: set<string> := {RUNSC, SHIM, GOFER}
  const EXECUTABLE: string := "0755"
  const PLAIN: string := "0644"
  const MANIFEST_SCHEMA: int := 1
  const SHA512_HEX_LEN: nat := 128

  datatype FileRecord = FileRecord(sha512: string, mode: string)
  type Files = map<string, FileRecord>
  datatype Manifest = Manifest(schema: int, version: string, archive: string, files: Files)
  datatype ManifestNode = NoManifest | NotRegular | Unparsable | Stored(m: Manifest)

  /** Whether a file has this one name only; one with more of them, here or elsewhere, is told by its identity. */
  datatype Inode = Own | Shared(id: nat)

  /**
   Permission bits as their octal text. A directory other than the sidecar's is seen as a whole. A link,
   or anything else that is neither file nor directory, is told from the others by its identity; what is
   written to it ends up wherever it leads.
   */
  datatype Node = File(content: string, mode: string, inode: Inode) | Directory(mode: string) | Link(id: nat)

  /**
   A generation directory: every path in it but the manifest's, relative to it. Paths below the sidecar's
   name may be reached through a link that stands there.
   */
  datatype Dir = Dir(mode: string, manifest: ManifestNode, nodes: map<string, Node>)

  /** A directory name is the version and the digest it is made of (see DirNamesDiffer). */
  datatype GenPath = GenPath(parent: string, version: string, archive: string)
  datatype Generation = Generation(path: GenPath, version: string, archive: string, files: Files)

  predicate IsHexDigit(c: char) {
    '0' <= c <= '9' || 'a' <= c <= 'f' || 'A' <= c <= 'F'
  }

  predicate IsDigest(s: string) {
    |s| == SHA512_HEX_LEN && forall i :: 0 <= i < |s| ==> IsHexDigit(s[i])
  }

  ghost predicate Digests(sha: Sha) {
    forall content :: IsDigest(sha(content))
  }

  function GenerationDirName(version: string, archive: string): string {
    version + "-" + archive
  }

  /** Digests all have one length, so a directory name has one reading. */
  lemma DirNamesDiffer(v1: string, a1: string, v2: string, a2: string)
    requires IsDigest(a1) && IsDigest(a2) && GenerationDirName(v1, a1) == GenerationDirName(v2, a2)
    ensures v1 == v2 && a1 == a2
  {
    var name := GenerationDirName(v1, a1);
    assert name[..|name| - 129] == v1 && name[|name| - 128..] == a1;
    assert name[..|name| - 129] == v2 && name[|name| - 128..] == a2;
  }

  // ----- The manifest ------------------------------------------------------------------

  predicate RecordValid(name: string, rec: FileRecord) {
    Normalize(name).Some? && IsDigest(rec.sha512) && (rec.mode == EXECUTABLE || rec.mode == PLAIN)
  }

  /** validateManifestFiles */
  predicate ManifestFilesValid(files: Files) {
    && (forall required :: required in REQUIRED ==> required in files)
    && (forall name :: name in files ==> RecordValid(name, files[name]))
  }

  /** loadGeneration, for a path that holds this directory. */
  function LoadGeneration(path: GenPath, d: Dir): (g: Option<Generation>)
    ensures g.Some? ==> g.value.path == path && g.value.version == path.version && g.value.archive == path.archive
  {
    if !d.manifest.Stored? then None
    else
      var m := d.manifest.m;
      if m.schema == MANIFEST_SCHEMA && ManifestFilesValid(m.files)
         && path.version == m.version && path.archive == m.archive
      then Some(Generation(path, m.version, m.archive, m.files))
      else None
  }

  function ManifestOf(g: Generation): Manifest {
    Manifest(MANIFEST_SCHEMA, g.version, g.archive, g.files)
  }

  lemma RequiredAreFixed()
    ensures forall name :: name in REQUIRED ==> Fixed(name)
    ensures SIDECAR !in REQUIRED
  {
    hide Fixed, Normalize, Admitted, Split;
    PlainIsFixed(RUNSC, false);
    PlainIsFixed(SHIM, false);
    PlainIsFixed("checkpointgofer", true);
    assert |RUNSC| < |SIDECAR| < |SHIM| && |SIDECAR| < |GOFER|;
  }

  function Uniform(names: set<string>, sha: Sha, content: string): Files {
    map name | name in names :: FileRecord(sha(content), EXECUTABLE)
  }

  /** A release of these files with one content, under any digest at all. */
  function Minimal(names: set<string>, sha: Sha, path: GenPath, content: string): Dir {
    Dir(EXECUTABLE,
        Stored(Manifest(MANIFEST_SCHEMA, path.version, path.archive, Uniform(names, sha, content))),
        (map name | name in names :: File(content, EXECUTABLE, Own))[SIDECAR := Directory(EXECUTABLE)])
  }

  lemma MinimalIsExact(names: set<string>, sha: Sha, path: GenPath, content: string)
    requires SIDECAR !in names && forall name :: name in names ==> Fixed(name)
    ensures Exact(sha, true, Minimal(names, sha, path, content), Uniform(names, sha, content))
  {
    hide Normalize, BaseName;
  }

  lemma UniformIsValid(names: set<string>, sha: Sha, content: string)
    requires Digests(sha) && forall name :: name in names ==> Fixed(name)
    ensures Uniform(names, sha, content).Keys == names
    ensures forall name :: name in names ==> RecordValid(name, Uniform(names, sha, content)[name])
  {
    hide Normalize, IsDigest;
  }

  /** loadGeneration asks nothing of the digest, so such a directory is loaded and exact whatever its name. */
  lemma MinimalIsLoaded(sha: Sha, path: GenPath, content: string)
    requires Digests(sha)
    ensures var d := Minimal(REQUIRED, sha, path, content);
            && LoadGeneration(path, d) == Some(Generation(path, path.version, path.archive, d.manifest.m.files))
            && Exact(sha, true, d, d.manifest.m.files)
  {
    hide RecordValid, Exact, Uniform, Fixed;
    RequiredAreFixed();
    UniformIsValid(REQUIRED, sha, content);
    MinimalIsExact(REQUIRED, sha, path, content);
  }

  // ----- The exact-set check -------------------------------------------------------------

  /** Where a manifest's file lies in the directory: filepath.Join cleans the name. */
  function At(name: string): string {
    match Normalize(name)
    case Some(path) => path
    case None => name
  }

  predicate Holds(sha: Sha, d: Dir, name: string, want: FileRecord) {
    && name in d.nodes && d.nodes[name].File?
    && d.nodes[name].mode == want.mode && sha(d.nodes[name].content) == want.sha512
  }

  function BaseName(name: string): string {
    if IN_SIDECAR <= name then name[|IN_SIDECAR|..] else name
  }

  predicate Expected(d: Dir, files: Files, name: string)
    requires name in d.nodes
  {
    if d.nodes[name].Directory? then name == SIDECAR else name in files || TEMP <= BaseName(name)
  }

  predicate NoExtras(d: Dir, files: Files) {
    !d.manifest.NotRegular? && forall name :: name in d.nodes ==> Expected(d, files, name)
  }

  predicate DirectoriesRight(parents: bool, d: Dir) {
    parents && d.mode == EXECUTABLE && SIDECAR in d.nodes && d.nodes[SIDECAR] == Directory(EXECUTABLE)
  }

  /** The directory is exactly what its manifest says; parents: the directories above it are in order. */
  predicate Exact(sha: Sha, parents: bool, d: Dir, files: Files) {
    && DirectoriesRight(parents, d)
    && (forall name :: name in files ==> Holds(sha, d, At(name), files[name]))
    && NoExtras(d, files)
  }

  datatype Verdict = Intact | Drifted | Unreadable

  /** Which names can be read is up to the disk. */
  method CheckNoExtraFiles(d: Dir, files: Files, legible: string -> bool) returns (v: Verdict)
    ensures v.Intact? ==> NoExtras(d, files)
    ensures v.Drifted? ==> !NoExtras(d, files)
    ensures v.Unreadable? ==> exists name :: !legible(name)
  {
    if d.manifest.NotRegular? { return Drifted; }
    var todo := d.nodes.Keys;
    while todo != {}
      invariant todo <= d.nodes.Keys
      invariant forall name :: name in d.nodes && name !in todo ==> Expected(d, files, name)
    {
      var name :| name in todo;
      if !legible(name) { return Unreadable; }
      if !Expected(d, files, name) { return Drifted; }
      todo := todo - {name};
    }
    return Intact;
  }

  /** verifyGeneration: unless reading fails, the verdict is the exact-set equality. */
  method VerifyGeneration(sha: Sha, parents: bool, d: Dir, files: Files, legible: string -> bool) returns (v: Verdict)
    ensures v.Intact? ==> Exact(sha, parents, d, files)
    ensures v.Drifted? ==> !Exact(sha, parents, d, files)
    ensures v.Unreadable? ==> exists name :: !legible(name)
  {
    if !DirectoriesRight(parents, d) { return Drifted; }
    var todo := files.Keys;
    while todo != {}
      invariant todo <= files.Keys
      invariant forall name :: name in files && name !in todo ==> Holds(sha, d, At(name), files[name])
    {
      var name :| name in todo;
      if !legible(name) { return Unreadable; }
      if !Holds(sha, d, At(name), files[name]) { return Drifted; }
      todo := todo - {name};
    }
    v := CheckNoExtraFiles(d, files, legible);
  }

  // ----- A directory on disk and every state it goes through ---------------------------------

  class Directory {
    var now: Dir
    var history: seq<Dir>
    // The positions behind which a link was written through, or a file that has other names.
    var leaks: set<nat>
    var echoes: set<nat>
    // How many operations on the disk have failed.
    ghost var failures: nat

    ghost predicate Valid()
      reads this`now, this`history, this`leaks, this`echoes
    {
      && history != [] && history[|history| - 1] == now
      && forall position :: position in leaks || position in echoes ==> position < |history|
    }

    constructor (d: Dir)
      ensures Valid() && now == d && history == [d] && leaks == {} && echoes == {} && failures == 0
    {
      now := d;
      history := [d];
      leaks, echoes, failures := {}, {}, 0;
    }

    /** Whether the next operation on the disk fails. */
    method MayFail() returns (failed: bool)
      modifies this`failures
      ensures failures == if failed then old(failures) + 1 else old(failures)
    {
      failed := *;
      if failed { failures := failures + 1; }
    }

    method Fail()
      modifies this`failures
      ensures failures == old(failures) + 1
    {
      failures := failures + 1;
    }

    /** One atomic change on disk. */
    method Become(d: Dir)
      requires Valid()
      modifies this`now, this`history
      ensures Valid() && now == d && history == old(history) + [d]
    {
      now := d;
      history := history + [d];
    }

    /** A link was followed: whatever it leads to was written. */
    method Leak()
      requires Valid()
      modifies this`leaks
      ensures Valid() && leaks == old(leaks) + {|history| - 1} && leaks != {}
    {
      leaks := leaks + {|history| - 1};
      assert |history| - 1 in leaks;
    }

    /** A file was written that has other names. */
    method Echo()
      requires Valid()
      modifies this`echoes
      ensures Valid() && echoes == old(echoes) + {|history| - 1} && echoes != {}
    {
      echoes := echoes + {|history| - 1};
      assert |history| - 1 in echoes;
    }
  }

  /** One change leaves each payload file as it is or makes it what the manifest says. */
  predicate StepTowards(sha: Sha, files: Files, before: Dir, after: Dir) {
    forall name :: name in files ==> Kept(before, after, name) || Holds(sha, after, name, files[name])
  }

  predicate Kept(before: Dir, after: Dir, name: string) {
    && (name in before.nodes <==> name in after.nodes)
    && (name in before.nodes ==> before.nodes[name] == after.nodes[name])
  }

  predicate AllTowards(sha: Sha, files: Files, history: seq<Dir>) {
    forall i :: 0 < i < |history| ==> StepTowards(sha, files, history[i - 1], history[i])
  }

  /** So at every moment each payload file holds what it held at first, or what the manifest says. */
  lemma {:induction false} OldOrManifest(sha: Sha, files: Files, history: seq<Dir>, i: nat)
    requires i < |history| && AllTowards(sha, files, history)
    ensures StepTowards(sha, files, history[0], history[i])
  {
    if i > 0 {
      OldOrManifest(sha, files, history, i - 1);
    }
  }

  /** And what once agrees with the manifest stays so. */
  lemma {:induction false} RepairedStays(sha: Sha, files: Files, history: seq<Dir>, i: nat, j: nat, name: string)
    requires i <= j < |history| && AllTowards(sha, files, history)
    requires name in files && Holds(sha, history[i], name, files[name])
    ensures Holds(sha, history[j], name, files[name])
  {
    if i < j {
      RepairedStays(sha, files, history, i, j - 1, name);
    }
  }

  /** Failed: an I/O error. Blocked: the operation is refused because of what stands in its way. */
  datatype Io = Done | Failed | Blocked

  predicate IsDirectory(d: Dir, name: string) {
    name in d.nodes && d.nodes[name].Directory?
  }

  predicate IsLink(d: Dir, name: string) {
    name in d.nodes && d.nodes[name].Link?
  }

  predicate IsShared(d: Dir, name: string) {
    name in d.nodes && d.nodes[name].File? && d.nodes[name].inode.Shared?
  }

  /** Writing to this name writes what has other names as well. */
  predicate IsTied(d: Dir, name: string) {
    IsLink(d, name) || IsShared(d, name)
  }

  /** Two names of one file. */
  predicate OneFile(d: Dir, a: string, b: string) {
    a == b || (IsShared(d, a) && IsShared(d, b) && d.nodes[a].inode == d.nodes[b].inode)
  }

  /** At the temporary name of a drifted file, which will be opened, stands neither a link nor a file of other names. */
  predicate TempsAreOrdinary(sha: Sha, d: Dir, files: Files) {
    forall name :: name in files && !Holds(sha, d, name, files[name]) ==> !IsTied(d, TempOf(name))
  }

  /** Whatever else may stand there, it is no file of other names. */
  predicate NoneShared(sha: Sha, d: Dir, files: Files) {
    forall name :: name in files && !Holds(sha, d, name, files[name]) ==> !IsShared(d, TempOf(name))
  }

  /** Two entries are never one and the same link. */
  predicate LinksDiffer(d: Dir) {
    forall a, b :: a in d.nodes && b in d.nodes && a != b && d.nodes[a].Link? ==> d.nodes[a] != d.nodes[b]
  }

  predicate FixedNames(files: Files) {
    SIDECAR !in files && forall name :: name in files ==> Fixed(name)
  }

  /** Nothing but these names changed, nor the directory itself or its manifest. */
  ghost predicate Elsewhere(before: Dir, after: Dir, names: set<string>) {
    && after.mode == before.mode && after.manifest == before.manifest
    && forall name :: name !in names ==> Kept(before, after, name)
  }

  /** A change of names outside the manifest, or one that puts a file as the manifest has it. */
  lemma AsideIsTowards(sha: Sha, files: Files, before: Dir, after: Dir, temp: string, name: string)
    requires temp !in files && Elsewhere(before, after, {temp, name})
    requires Kept(before, after, name) || (name in files && Holds(sha, after, name, files[name]))
    ensures StepTowards(sha, files, before, after)
  {}

  function With(d: Dir, name: string, node: Node): Dir {
    d.(nodes := d.nodes[name := node])
  }

  /** Writing a file: the content appears under each of its names. */
  function FileWritten(d: Dir, name: string, content: string, mode: string): (after: Dir)
    requires name in d.nodes ==> d.nodes[name].File?
    ensures after.manifest == d.manifest && after.mode == d.mode
  {
    var inode := if name in d.nodes then d.nodes[name].inode else Own;
    d.(nodes := map other | other in d.nodes.Keys + {name} ::
      if OneFile(d, other, name) then File(content, mode, inode) else d.nodes[other])
  }

  function Without(d: Dir, name: string): Dir {
    d.(nodes := d.nodes - {name})
  }

  /** A step on disk that keeps to the manifest. */
  method Advance(sha: Sha, files: Files, dir: Directory, d: Dir)
    requires dir.Valid() && StepTowards(sha, files, dir.now, d)
    modifies dir`now, dir`history
    ensures dir.Valid() && dir.now == d && dir.history == old(dir.history) + [d]
    ensures AllTowards(sha, files, old(dir.history)) ==> AllTowards(sha, files, dir.history)
  {
    hide StepTowards;
    dir.Become(d);
  }

  /** Removing a leftover temporary file is tried once, and its failure ignored. */
  method DropTemp(sha: Sha, files: Files, dir: Directory, temp: string)
    requires dir.Valid() && temp !in files
    modifies dir`now, dir`history, dir`failures
    ensures dir.Valid() && old(dir.history) <= dir.history
    ensures old(dir.failures) <= dir.failures
    ensures AllTowards(sha, files, old(dir.history)) ==> AllTowards(sha, files, dir.history)
    ensures dir.now == old(dir.now) || dir.now == Without(old(dir.now), temp)
  {
    hide AllTowards;
    var failed := dir.MayFail();
    if !failed {
      assert StepTowards(sha, files, dir.now, Without(dir.now, temp));
      Advance(sha, files, dir, Without(dir.now, temp));
    }
  }

  lemma TempIsNoPayload(files: Files, name: string)
    requires FixedNames(files) && name in files
    ensures TempOf(name) !in files && TempOf(name) != name && TempOf(name) != SIDECAR && SIDECAR != name
  {
    hide TempOf, Fixed;
    assert Fixed(name);
    TempIsApart(name);
    assert TempOf(name) in files ==> Fixed(TempOf(name));
  }

  /** replaceFromStaging where an ordinary file or nothing stands at the temporary name: write, then rename over. */
  method ReplaceBeside(sha: Sha, files: Files, dir: Directory, name: string, content: string) returns (io: Io)
    requires dir.Valid() && FixedNames(files) && name in files && sha(content) == files[name].sha512
    requires !IsTied(dir.now, TempOf(name))
    modifies dir`now, dir`history, dir`failures
    ensures dir.Valid() && old(dir.history) <= dir.history
    ensures old(dir.failures) <= dir.failures && (io.Failed? ==> old(dir.failures) < dir.failures)
    ensures AllTowards(sha, files, old(dir.history)) ==> AllTowards(sha, files, dir.history)
    ensures io.Blocked? ==> IsDirectory(old(dir.now), TempOf(name)) || IsDirectory(old(dir.now), name)
    ensures IsDirectory(old(dir.now), TempOf(name)) || IsDirectory(old(dir.now), name) ==> !io.Done?
    ensures io.Done? ==> Holds(sha, dir.now, name, files[name])
    ensures Elsewhere(old(dir.now), dir.now, {TempOf(name), name})
  {
    hide StepTowards, AllTowards, TempOf, Fixed, Directory.Valid;
    TempIsNoPayload(files, name);
    var temp, mode := TempOf(name), files[name].mode;
    if IsDirectory(dir.now, temp) { return Blocked; }
    var failed := dir.MayFail();
    if failed { return Failed; }
    var partial: string, umasked: string := *, *;
    AsideIsTowards(sha, files, dir.now, With(dir.now, temp, File(partial, umasked, Own)), temp, name);
    Advance(sha, files, dir, With(dir.now, temp, File(partial, umasked, Own)));
    failed := dir.MayFail();
    if failed {
      DropTemp(sha, files, dir, temp);
      return Failed;
    }
    AsideIsTowards(sha, files, dir.now, With(dir.now, temp, File(content, mode, Own)), temp, name);
    Advance(sha, files, dir, With(dir.now, temp, File(content, mode, Own)));
    if IsDirectory(dir.now, name) {
      DropTemp(sha, files, dir, temp);
      return Blocked;
    }
    failed := dir.MayFail();
    if failed {
      DropTemp(sha, files, dir, temp);
      return Failed;
    }
    AsideIsTowards(sha, files, dir.now, With(Without(dir.now, temp), name, File(content, mode, Own)), temp, name);
    Advance(sha, files, dir, With(Without(dir.now, temp), name, File(content, mode, Own)));
    failed := dir.MayFail();
    if failed { return Failed; }
    return Done;
  }

  // ----- Writing through a link ---------------------------------------------------------------

  /** Outside these names links and directories stay what they are; files may appear and change. */
  ghost predicate LinksStay(before: Dir, after: Dir, names: set<string>) {
    && after.mode == before.mode
    && forall name :: name !in names ==> LinkStays(before, after, name)
  }

  predicate LinkStays(before: Dir, after: Dir, name: string) {
    if name in before.nodes && !before.nodes[name].File?
    then name in after.nodes && after.nodes[name] == before.nodes[name]
    else name in after.nodes ==> after.nodes[name].File?
  }

  lemma WrittenStays(d: Dir, name: string, content: string, mode: string)
    requires name in d.nodes ==> d.nodes[name].File?
    ensures LinksStay(d, FileWritten(d, name, content, mode), {})
    ensures var after := FileWritten(d, name, content, mode);
            name in after.nodes && after.nodes[name].File? && after.manifest == d.manifest
  {}

  lemma StayTwice(a: Dir, b: Dir, c: Dir, names: set<string>)
    requires LinksStay(a, b, {}) && LinksStay(b, c, names)
    ensures LinksStay(a, c, names)
  {
    forall name | name !in names
      ensures LinkStays(a, c, name)
    {
      assert LinkStays(a, b, name) && LinkStays(b, c, name);
    }
  }

  /** A file of this directory is written: cut short first, with its old mode if it was there. */
  method WriteFile(dir: Directory, name: string, content: string, mode: string) returns (ok: bool)
    requires dir.Valid() && (name in dir.now.nodes ==> dir.now.nodes[name].File?)
    modifies dir`now, dir`history, dir`failures
    ensures dir.Valid() && old(dir.history) <= dir.history && |old(dir.history)| < |dir.history|
    ensures old(dir.failures) <= dir.failures && (!ok ==> old(dir.failures) < dir.failures)
    ensures LinksStay(old(dir.now), dir.now, {})
    ensures name in dir.now.nodes && dir.now.nodes[name].File?
    ensures ok ==> exists before :: LinksStay(old(dir.now), before, {}) && name in before.nodes
                     && before.nodes[name].File? && dir.now == FileWritten(before, name, content, mode)
    ensures ok && name in old(dir.now).nodes ==> dir.now.nodes[name].inode == old(dir.now).nodes[name].inode
  {
    hide LinksStay;
    var partial: string, umasked: string := *, *;
    var first := if name in dir.now.nodes then dir.now.nodes[name].mode else umasked;
    WrittenStays(dir.now, name, partial, first);
    dir.Become(FileWritten(dir.now, name, partial, first));
    var failed := dir.MayFail();
    if failed { return false; }
    ghost var before := dir.now;
    WrittenStays(before, name, content, mode);
    dir.Become(FileWritten(dir.now, name, content, mode));
    StayTwice(old(dir.now), before, dir.now, {});
    return true;
  }

  /** The manifest is written by accident. */
  method GarbleManifest(dir: Directory) returns (ok: bool)
    requires dir.Valid()
    modifies dir`now, dir`history
    ensures dir.Valid() && old(dir.history) <= dir.history && dir.now.nodes == old(dir.now).nodes
    ensures dir.now.mode == old(dir.now).mode
  {
    var garbled: ManifestNode := *;
    if dir.now.manifest.NotRegular? || garbled.NoManifest? || garbled.NotRegular? { return false; }
    dir.Become(dir.now.(manifest := garbled));
    return true;
  }

  lemma SameNodesStay(before: Dir, after: Dir, names: set<string>)
    requires before.nodes == after.nodes && before.mode == after.mode
    ensures LinksStay(before, after, names)
  {}

  /** One write through a link: into a file of this directory, into its manifest, or somewhere else entirely. */
  method WriteThrough(dir: Directory, content: string, mode: string) returns (ok: bool)
    requires dir.Valid()
    modifies dir`now, dir`history, dir`failures, dir`leaks
    ensures dir.Valid() && old(dir.history) <= dir.history && LinksStay(old(dir.now), dir.now, {})
    ensures old(dir.failures) <= dir.failures && (!ok ==> old(dir.failures) < dir.failures)
    ensures old(dir.leaks) <= dir.leaks && (ok ==> dir.leaks != {})
  {
    hide LinksStay;
    SameNodesStay(dir.now, dir.now, {});
    if * {
      var name: string := *;
      if name in dir.now.nodes && !dir.now.nodes[name].File? {
        dir.Fail();
        return false;
      }
      ok := WriteFile(dir, name, content, mode);
    } else if * {
      ok := GarbleManifest(dir);
      if !ok { dir.Fail(); }
      SameNodesStay(old(dir.now), dir.now, {});
    } else {
      var failed := dir.MayFail();
      ok := !failed;
    }
    dir.Leak();
  }

  /** The payload file is itself the very link that stands at its temporary name. */
  predicate SameLink(d: Dir, name: string) {
    IsLink(d, TempOf(name)) && name in d.nodes && d.nodes[name] == d.nodes[TempOf(name)]
  }

  /** os.Rename, which leaves two names of one file or link as they are. */
  function Renamed(d: Dir, temp: string, name: string): Dir
    requires temp in d.nodes
  {
    if OneFile(d, temp, name) || (IsLink(d, temp) && name in d.nodes && d.nodes[name] == d.nodes[temp]) then d
    else With(Without(d, temp), name, d.nodes[temp])
  }

  lemma RenamedStays(d: Dir, temp: string, name: string)
    requires temp in d.nodes && temp != name
    ensures LinksStay(d, Renamed(d, temp, name), {temp, name})
    ensures name in Renamed(d, temp, name).nodes
  {}

  lemma WithoutStays(d: Dir, temp: string, name: string)
    ensures LinksStay(d, Without(d, temp), {temp, name}) && LinksStay(d, d, {temp, name})
  {}

  lemma LeftTheWay(sha: Sha, files: Files, history: seq<Dir>)
    requires |history| > 1 && !StepTowards(sha, files, history[|history| - 2], history[|history| - 1])
    ensures !AllTowards(sha, files, history)
  {}

  /** replaceFromStaging with a link at the temporary name: the content goes where it leads, the link over the file. */
  method ReplaceThrough(sha: Sha, files: Files, dir: Directory, name: string, content: string) returns (io: Io)
    requires dir.Valid() && FixedNames(files) && name in files && IsLink(dir.now, TempOf(name))
    modifies dir`now, dir`history, dir`failures, dir`leaks
    ensures dir.Valid() && old(dir.history) <= dir.history && LinksStay(old(dir.now), dir.now, {TempOf(name), name})
    ensures old(dir.failures) <= dir.failures && (io.Failed? ==> old(dir.failures) < dir.failures)
    ensures old(dir.leaks) <= dir.leaks && (io.Done? ==> dir.leaks != {})
    ensures io.Blocked? ==> IsDirectory(old(dir.now), name)
    ensures io.Done? ==> IsLink(dir.now, name)
    ensures io.Done? && !SameLink(old(dir.now), name) ==> !AllTowards(sha, files, dir.history)
  {
    hide TempOf, Fixed, FixedNames, AllTowards, LinksStay, StepTowards, Renamed, Without;
    TempIsNoPayload(files, name);
    var temp := TempOf(name);
    WithoutStays(dir.now, temp, name);
    var failed := dir.MayFail();
    if failed { return Failed; }
    var ok := WriteThrough(dir, content, files[name].mode);
    ghost var before := dir.now;
    LinkAndFile(old(dir.now), before, temp, name);
    WithoutStays(before, temp, name);
    StayTwice(old(dir.now), before, before, {temp, name});
    var blocked := ok && IsDirectory(dir.now, name);
    failed := dir.MayFail();
    if !ok || blocked || failed {
      if * {
        dir.Become(Without(dir.now, temp));
        StayTwice(old(dir.now), before, dir.now, {temp, name});
      }
      return if blocked then Blocked else Failed;
    }
    RenamedStays(before, temp, name);
    StayTwice(old(dir.now), before, Renamed(before, temp, name), {temp, name});
    dir.Become(Renamed(dir.now, temp, name));
    LinkPutOver(sha, files, before, temp, name);
    if !SameLink(old(dir.now), name) {
      assert dir.history[|dir.history| - 2] == before;
      LeftTheWay(sha, files, dir.history);
    }
    failed := dir.MayFail();
    if failed { return Failed; }
    return Done;
  }

  lemma LinkPutOver(sha: Sha, files: Files, d: Dir, temp: string, name: string)
    requires name in files && IsLink(d, temp) && temp != name
    ensures IsLink(Renamed(d, temp, name), name)
    ensures !(name in d.nodes && d.nodes[name] == d.nodes[temp]) ==>
              !StepTowards(sha, files, d, Renamed(d, temp, name))
  {
    var after := Renamed(d, temp, name);
    assert !(name in d.nodes && d.nodes[name] == d.nodes[temp]) ==>
      !Holds(sha, after, name, files[name]) && !Kept(d, after, name);
  }

  lemma LinkAndFile(before: Dir, after: Dir, temp: string, name: string)
    requires LinksStay(before, after, {}) && IsLink(before, temp)
    ensures IsLink(after, temp) && after.nodes[temp] == before.nodes[temp]
    ensures IsDirectory(after, name) ==> IsDirectory(before, name)
    ensures name in after.nodes && after.nodes[name] == after.nodes[temp] ==>
              name in before.nodes && before.nodes[name] == before.nodes[temp]
  {
    assert LinkStays(before, after, temp) && LinkStays(before, after, name);
  }

  /** A file of several names is written, and one of them may be the manifest's. */
  method WriteShared(dir: Directory, temp: string, content: string, mode: string) returns (ok: bool)
    requires dir.Valid() && IsShared(dir.now, temp)
    modifies dir`now, dir`history, dir`echoes, dir`failures
    ensures dir.Valid() && old(dir.history) <= dir.history && LinksStay(old(dir.now), dir.now, {})
    ensures old(dir.failures) <= dir.failures && (!ok ==> old(dir.failures) < dir.failures)
    ensures old(dir.echoes) <= dir.echoes && dir.echoes != {}
    ensures temp in dir.now.nodes && dir.now.nodes[temp].File?
    ensures ok ==> dir.now.nodes[temp].content == content && dir.now.nodes[temp].mode == mode
    ensures ok ==> forall other :: OneFile(dir.now, temp, other) ==> dir.now.nodes[other] == dir.now.nodes[temp]
  {
    hide LinksStay, Directory.Valid;
    ok := WriteFile(dir, temp, content, mode);
    dir.Echo();
    if * {
      ghost var written := dir.now;
      var garbled := GarbleManifest(dir);
      SameNodesStay(written, dir.now, {});
      StayTwice(old(dir.now), written, dir.now, {});
    }
  }

  /** replaceFromStaging with a file of several names at the temporary name: all of them get the content. */
  method ReplaceShared(sha: Sha, files: Files, dir: Directory, name: string, content: string) returns (io: Io)
    requires dir.Valid() && FixedNames(files) && name in files && sha(content) == files[name].sha512
    requires IsShared(dir.now, TempOf(name))
    modifies dir`now, dir`history, dir`failures, dir`echoes
    ensures dir.Valid() && old(dir.history) <= dir.history && LinksStay(old(dir.now), dir.now, {TempOf(name), name})
    ensures old(dir.failures) <= dir.failures && (io.Failed? ==> old(dir.failures) < dir.failures)
    ensures old(dir.echoes) <= dir.echoes && (io.Done? ==> dir.echoes != {})
    ensures io.Blocked? ==> IsDirectory(old(dir.now), name)
    ensures io.Done? ==> Holds(sha, dir.now, name, files[name])
  {
    hide TempOf, Fixed, LinksStay, Directory.Valid;
    TempIsNoPayload(files, name);
    var temp := TempOf(name);
    WithoutStays(dir.now, temp, name);
    var failed := dir.MayFail();
    if failed { return Failed; }
    var ok := WriteShared(dir, temp, content, files[name].mode);
    ghost var before := dir.now;
    WithoutStays(before, temp, name);
    StayTwice(old(dir.now), before, before, {temp, name});
    DirectoryStays(old(dir.now), before, name);
    var blocked := ok && IsDirectory(dir.now, name);
    failed := dir.MayFail();
    if !ok || blocked || failed {
      if * {
        dir.Become(Without(dir.now, temp));
        StayTwice(old(dir.now), before, dir.now, {temp, name});
      }
      return if blocked then Blocked else Failed;
    }
    RenamedStays(before, temp, name);
    StayTwice(old(dir.now), before, Renamed(before, temp, name), {temp, name});
    dir.Become(Renamed(dir.now, temp, name));
    failed := dir.MayFail();
    if failed { return Failed; }
    return Done;
  }

  lemma DirectoryStays(before: Dir, after: Dir, name: string)
    requires LinksStay(before, after, {})
    ensures IsDirectory(after, name) ==> IsDirectory(before, name)
  {
    assert LinkStays(before, after, name);
  }

  /** replaceFromStaging */
  method ReplaceFromStaging(sha: Sha, files: Files, dir: Directory, name: string, content: string) returns (io: Io)
    requires dir.Valid() && FixedNames(files) && name in files && sha(content) == files[name].sha512
    modifies dir
    ensures dir.Valid() && old(dir.history) <= dir.history
    ensures old(dir.failures) <= dir.failures && (io.Failed? ==> old(dir.failures) < dir.failures)
    ensures LinksStay(old(dir.now), dir.now, {TempOf(name), name})
    ensures old(dir.leaks) <= dir.leaks && old(dir.echoes) <= dir.echoes
    ensures io.Blocked? ==> IsDirectory(old(dir.now), TempOf(name)) || IsDirectory(old(dir.now), name)
    ensures !IsTied(old(dir.now), TempOf(name)) ==>
              && (AllTowards(sha, files, old(dir.history)) ==> AllTowards(sha, files, dir.history))
              && Elsewhere(old(dir.now), dir.now, {TempOf(name), name})
              && (io.Done? ==> !IsDirectory(old(dir.now), TempOf(name)) && !IsDirectory(old(dir.now), name))
    ensures !IsLink(old(dir.now), TempOf(name)) ==>
              dir.leaks == old(dir.leaks) && (io.Done? ==> Holds(sha, dir.now, name, files[name]))
    ensures !IsShared(old(dir.now), TempOf(name)) ==> dir.echoes == old(dir.echoes)
    ensures IsShared(old(dir.now), TempOf(name)) && io.Done? ==> dir.echoes != {}
    ensures IsLink(old(dir.now), TempOf(name)) && io.Done? ==> IsLink(dir.now, name) && dir.leaks != {}
    ensures IsLink(old(dir.now), TempOf(name)) && io.Done? && !SameLink(old(dir.now), name) ==>
              !AllTowards(sha, files, dir.history)
  {
    hide StepTowards, AllTowards, TempOf, Fixed, Holds;
    TempIsNoPayload(files, name);
    if IsLink(dir.now, TempOf(name)) {
      io := ReplaceThrough(sha, files, dir, name, content);
    } else if IsShared(dir.now, TempOf(name)) {
      io := ReplaceShared(sha, files, dir, name, content);
    } else {
      ghost var before := dir.now;
      io := ReplaceBeside(sha, files, dir, name, content);
      KeptLinksStay(before, dir.now, {TempOf(name), name});
    }
  }

  lemma KeptLinksStay(before: Dir, after: Dir, names: set<string>)
    requires Elsewhere(before, after, names)
    ensures LinksStay(before, after, names)
  {
    forall name | name !in names
      ensures LinkStays(before, after, name)
    {
      assert Kept(before, after, name);
    }
  }

  // ----- In-place repair ------------------------------------------------------------------

  /** Every file of the manifest is there, with its digest and mode. */
  predicate AllHold(sha: Sha, d: Dir, files: Files) {
    forall name :: name in files ==> Holds(sha, d, name, files[name])
  }

  /** No directory stands where a drifted file or its temporary file must go. */
  predicate Repairable(sha: Sha, d: Dir, files: Files) {
    forall name :: name in files && !Holds(sha, d, name, files[name]) ==>
                     !IsDirectory(d, name) && !IsDirectory(d, TempOf(name))
  }

  ghost predicate Untouched(d: Dir, now: Dir, names: set<string>) {
    forall name :: name in names ==> Kept(d, now, name) && Kept(d, now, TempOf(name))
  }

  lemma UntouchedByOthers(d: Dir, before: Dir, after: Dir, files: Files, name: string, names: set<string>)
    requires FixedNames(files) && name in files && names <= files.Keys && name !in names
    requires Untouched(d, before, names) && Elsewhere(before, after, {TempOf(name), name})
    ensures Untouched(d, after, names)
  {
    hide TempOf, Fixed;
    TempIsApart(name);
    forall other | other in names
      ensures Kept(d, after, other) && Kept(d, after, TempOf(other))
    {
      assert other in files && Fixed(other) && Fixed(name);
      TempIsApart(other);
      if TempOf(other) == TempOf(name) { TempsDiffer(other, name); }
      KeptElsewhere(d, before, after, {TempOf(name), name}, other);
      KeptElsewhere(d, before, after, {TempOf(name), name}, TempOf(other));
    }
  }

  lemma KeptElsewhere(d: Dir, before: Dir, after: Dir, names: set<string>, other: string)
    requires Kept(d, before, other) && Elsewhere(before, after, names) && other !in names
    ensures Kept(d, after, other)
  {
    assert Kept(before, after, other);
  }

  /** What the loop knows with these files still to do, as long as nothing of other names was opened. */
  ghost predicate Restoring(sha: Sha, files: Files, start: Dir, now: Dir, todo: set<string>) {
    && todo <= files.Keys && Untouched(start, now, todo)
    && (forall name :: name in files && name !in todo ==> Holds(sha, now, name, files[name]))
    && (forall name :: name in files && name !in todo && !Holds(sha, start, name, files[name]) ==> Free(start, name))
    && now.mode == start.mode && now.manifest == start.manifest && Kept(start, now, SIDECAR)
  }

  /** Nothing is in the way of this file, and its temporary file is one of its own. */
  predicate Free(d: Dir, name: string) {
    !IsDirectory(d, name) && !IsDirectory(d, TempOf(name)) && !IsTied(d, TempOf(name))
  }

  lemma RestoringStep(sha: Sha, files: Files, start: Dir, before: Dir, after: Dir, todo: set<string>, name: string)
    requires FixedNames(files) && Restoring(sha, files, start, before, todo) && name in todo
    requires Elsewhere(before, after, {TempOf(name), name}) && Holds(sha, after, name, files[name])
    requires before == after || Free(before, name)
    ensures Restoring(sha, files, start, after, todo - {name})
  {
    hide TempOf, Fixed;
    assert Fixed(name);
    TempIsApart(name);
    OthersHold(sha, files, before, after, name, todo);
    UntouchedByOthers(start, before, after, files, name, todo - {name});
    KeptElsewhere(start, before, after, {TempOf(name), name}, SIDECAR);
    assert Kept(start, before, name) && Kept(start, before, TempOf(name));
  }

  lemma AsAtFirst(sha: Sha, files: Files, start: Dir, now: Dir, todo: set<string>, name: string)
    requires FixedNames(files) && Untouched(start, now, todo) && name in todo && name in files
    ensures IsLink(now, TempOf(name)) <==> IsLink(start, TempOf(name))
    ensures IsShared(now, TempOf(name)) <==> IsShared(start, TempOf(name))
    ensures IsDirectory(now, name) <==> IsDirectory(start, name)
    ensures IsDirectory(now, TempOf(name)) <==> IsDirectory(start, TempOf(name))
    ensures Holds(sha, now, name, files[name]) <==> Holds(sha, start, name, files[name])
    ensures LinksDiffer(start) ==> !SameLink(now, name)
  {
    hide TempOf, FixedNames, LinksDiffer, Fixed;
    TempIsNoPayload(files, name);
    assert Kept(start, now, name) && Kept(start, now, TempOf(name));
    if LinksDiffer(start) && name in start.nodes && IsLink(start, TempOf(name)) {
      DifferentLinks(start, name, TempOf(name));
    }
  }

  lemma DifferentLinks(d: Dir, a: string, b: string)
    requires LinksDiffer(d) && a != b && a in d.nodes && IsLink(d, b)
    ensures d.nodes[a] != d.nodes[b]
  {}

  /** A link that has been moved over one of the payload files already dealt with. */
  predicate HasLink(d: Dir, files: Files, todo: set<string>) {
    exists name :: name in files && name !in todo && IsLink(d, name)
  }

  lemma LinkRemains(files: Files, before: Dir, after: Dir, todo: set<string>, name: string)
    requires FixedNames(files) && HasLink(before, files, todo) && name in todo && name in files
    requires LinksStay(before, after, {TempOf(name), name})
    ensures HasLink(after, files, todo - {name})
  {
    hide TempOf, Fixed;
    var link :| link in files && link !in todo && IsLink(before, link);
    TempIsNoPayload(files, name);
    assert LinkStays(before, after, link);
    assert IsLink(after, link);
  }

  lemma SidecarStays(files: Files, before: Dir, after: Dir, name: string)
    requires FixedNames(files) && name in files && LinksStay(before, after, {TempOf(name), name})
    requires IsDirectory(before, SIDECAR)
    ensures after.mode == before.mode && Kept(before, after, SIDECAR) && IsDirectory(after, SIDECAR)
  {
    hide TempOf, FixedNames, Fixed;
    TempIsNoPayload(files, name);
    assert LinkStays(before, after, SIDECAR);
  }

  /** What once left the way towards the manifest does not come back to it. */
  lemma AstrayStays(sha: Sha, files: Files, history: seq<Dir>, more: seq<Dir>)
    requires history <= more && !AllTowards(sha, files, history)
    ensures !AllTowards(sha, files, more)
  {
    hide StepTowards;
    var i :| 0 < i < |history| && !StepTowards(sha, files, history[i - 1], history[i]);
    assert more[i - 1] == history[i - 1] && more[i] == history[i];
  }

  /** A link at a temporary name will be opened: it is not the payload file itself, and nothing else comes first. */
  predicate Diverted(sha: Sha, d: Dir, files: Files) {
    !TempsAreOrdinary(sha, d, files) && NoneShared(sha, d, files) && LinksDiffer(d) && Repairable(sha, d, files)
  }

  /** The loop of restoreGeneration over the manifest's files. */
  method RestoreFiles(sha: Sha, files: Files, dir: Directory, staging: Dir) returns (io: Io)
    requires dir.Valid() && IsDirectory(dir.now, SIDECAR) && FixedNames(files) && AllHold(sha, staging, files)
    requires dir.leaks == {} && dir.echoes == {}
    modifies dir
    ensures dir.Valid() && old(dir.history) <= dir.history
    ensures old(dir.failures) <= dir.failures && (io.Failed? ==> old(dir.failures) < dir.failures)
    ensures dir.now.mode == old(dir.now.mode) && Kept(old(dir.now), dir.now, SIDECAR)
    ensures TempsAreOrdinary(sha, old(dir.now), files) ==>
              && (AllTowards(sha, files, old(dir.history)) ==> AllTowards(sha, files, dir.history))
              && dir.leaks == {} && dir.echoes == {}
              && (io.Blocked? ==> !Repairable(sha, old(dir.now), files))
    ensures io.Done? && dir.leaks == {} && (dir.echoes == {} || NoneShared(sha, old(dir.now), files)) ==>
              && AllHold(sha, dir.now, files) && Repairable(sha, old(dir.now), files)
              && TempsAreOrdinary(sha, old(dir.now), files)
    ensures io.Done? && dir.leaks != {} ==> HasLink(dir.now, files, {})
    ensures Diverted(sha, old(dir.now), files) && !io.Failed? ==> !AllTowards(sha, files, dir.history)
  {
    hide StepTowards, AllTowards, TempOf, Fixed, FixedNames, TempsAreOrdinary, NoneShared, Restoring, Repairable;
    hide Free, Directory.Valid;
    hide HasLink, LinksDiffer, LinksStay;
    ghost var start, first := dir.now, dir.history;
    var todo := files.Keys;
    ghost var astray := false;
    NothingRestored(sha, files, start);
    while todo != {}
      invariant dir.Valid() && first <= dir.history && todo <= files.Keys
      invariant dir.now.mode == start.mode && Kept(start, dir.now, SIDECAR)
      invariant !astray ==> Restoring(sha, files, start, dir.now, todo) && dir.leaks == {} && dir.echoes == {}
      invariant !astray ==> (AllTowards(sha, files, first) ==> AllTowards(sha, files, dir.history))
      invariant astray ==> !TempsAreOrdinary(sha, start, files) && (dir.leaks != {} || dir.echoes != {})
      invariant astray && NoneShared(sha, start, files) ==> dir.leaks != {}
      invariant astray && NoneShared(sha, start, files) && LinksDiffer(start) ==> !AllTowards(sha, files, dir.history)
      invariant dir.leaks != {} ==> HasLink(dir.now, files, todo)
      invariant old(dir.failures) <= dir.failures
    {
      var name :| name in todo;
      ghost var before, history, leaks, echoes := dir.now, dir.history, dir.leaks, dir.echoes;
      ghost var replaced := !Holds(sha, dir.now, name, files[name]);
      if !astray {
        RestoringMeans(sha, files, start, dir.now, todo);
        AsAtFirst(sha, files, start, dir.now, todo, name);
      }
      if !Holds(sha, dir.now, name, files[name]) {
        io := ReplaceFromStaging(sha, files, dir, name, staging.nodes[name].content);
        SidecarStays(files, before, dir.now, name);
        if astray && !AllTowards(sha, files, history) { AstrayStays(sha, files, history, dir.history); }
        if !astray && io.Blocked? { NotRepairable(sha, start, files, name); }
        if !astray && IsTied(start, TempOf(name)) { TiedInTheWay(sha, start, files, name); }
        if !io.Done? { return; }
      } else {
        KeptLinksStay(before, dir.now, {TempOf(name), name});
      }
      if leaks != {} {
        LinkRemains(files, before, dir.now, todo, name);
      } else if dir.leaks != {} {
        MovedLink(dir.now, files, todo, name);
      }
      if !astray {
        if replaced && IsTied(before, TempOf(name)) {
          astray := true;
        } else {
          FreeMeans(before, name);
          RestoringStep(sha, files, start, before, dir.now, todo, name);
        }
      }
      todo := todo - {name};
    }
    if !astray { RestoredAll(sha, files, start, dir.now); }
    return Done;
  }

  lemma FreeMeans(d: Dir, name: string)
    ensures !IsDirectory(d, name) && !IsDirectory(d, TempOf(name)) && !IsTied(d, TempOf(name)) ==> Free(d, name)
  {}

  lemma MovedLink(d: Dir, files: Files, todo: set<string>, name: string)
    requires name in files && IsLink(d, name)
    ensures HasLink(d, files, todo - {name})
  {}

  lemma TiedInTheWay(sha: Sha, d: Dir, files: Files, name: string)
    requires name in files && !Holds(sha, d, name, files[name]) && IsTied(d, TempOf(name))
    ensures !TempsAreOrdinary(sha, d, files) && (IsShared(d, TempOf(name)) ==> !NoneShared(sha, d, files))
  {}

  lemma NothingRestored(sha: Sha, files: Files, start: Dir)
    ensures Restoring(sha, files, start, start, files.Keys)
  {}

  lemma RestoringMeans(sha: Sha, files: Files, start: Dir, now: Dir, todo: set<string>)
    requires Restoring(sha, files, start, now, todo)
    ensures todo <= files.Keys && Untouched(start, now, todo)
    ensures now.mode == start.mode && now.manifest == start.manifest && Kept(start, now, SIDECAR)
  {}

  lemma RestoredAll(sha: Sha, files: Files, start: Dir, now: Dir)
    requires Restoring(sha, files, start, now, {})
    ensures AllHold(sha, now, files) && Repairable(sha, start, files) && TempsAreOrdinary(sha, start, files)
  {}

  lemma NotRepairable(sha: Sha, d: Dir, files: Files, name: string)
    requires name in files && !Holds(sha, d, name, files[name])
    requires IsDirectory(d, name) || IsDirectory(d, TempOf(name))
    ensures !Repairable(sha, d, files)
  {}

  lemma OthersHold(sha: Sha, files: Files, before: Dir, after: Dir, name: string, todo: set<string>)
    requires FixedNames(files) && name in files && name in todo && Elsewhere(before, after, {TempOf(name), name})
    requires forall other :: other in files && other !in todo ==> Holds(sha, before, other, files[other])
    ensures forall other :: other in files && other !in todo ==> Holds(sha, after, other, files[other])
  {
    hide TempOf, Fixed;
    assert Fixed(name);
    TempIsApart(name);
    forall other | other in files && other !in todo
      ensures Holds(sha, after, other, files[other])
    {
      assert Fixed(other);
      KeptElsewhere(before, before, after, {TempOf(name), name}, other);
    }
  }

  /** One name that the manifest does not name, or a directory, goes. */
  method RemoveExtra(sha: Sha, files: Files, dir: Directory, name: string) returns (ok: bool)
    requires dir.Valid() && name != SIDECAR && (IsDirectory(dir.now, name) || name !in files)
    modifies dir`now, dir`history, dir`failures
    ensures dir.Valid() && old(dir.history) <= dir.history
    ensures old(dir.failures) <= dir.failures && (!ok ==> old(dir.failures) < dir.failures)
    ensures Kept(old(dir.now), dir.now, SIDECAR)
    ensures dir.now.mode == old(dir.now.mode) && dir.now.manifest == old(dir.now.manifest)
    ensures ok ==> dir.now.nodes.Keys == old(dir.now.nodes.Keys) - {name}
    ensures AllHold(sha, old(dir.now), files) ==>
              && AllHold(sha, dir.now, files)
              && (AllTowards(sha, files, old(dir.history)) ==> AllTowards(sha, files, dir.history))
    ensures HasLink(old(dir.now), files, {}) ==> HasLink(dir.now, files, {})
  {
    hide StepTowards, AllTowards, AllHold, HasLink;
    var failed := dir.MayFail();
    if failed { return false; }
    ghost var before, history := dir.now, dir.history;
    dir.Become(Without(dir.now, name));
    DropExtra(sha, files, before, name);
    if AllHold(sha, before, files) && AllTowards(sha, files, history) { TowardsGrows(sha, files, history, dir.now); }
    return true;
  }

  /** removeGenerationExtras: every directory but the sidecar's, and every file the manifest does not name. */
  method RemoveGenerationExtras(sha: Sha, files: Files, dir: Directory) returns (io: Io)
    requires dir.Valid() && SIDECAR !in files && IsDirectory(dir.now, SIDECAR)
    modifies dir`now, dir`history, dir`failures
    ensures dir.Valid() && old(dir.history) <= dir.history && !io.Blocked?
    ensures old(dir.failures) <= dir.failures && (io.Failed? ==> old(dir.failures) < dir.failures)
    ensures Kept(old(dir.now), dir.now, SIDECAR) && dir.now.mode == old(dir.now.mode)
    ensures io.Done? ==> !dir.now.manifest.NotRegular? && dir.now.nodes.Keys <= files.Keys + {SIDECAR}
    ensures AllHold(sha, old(dir.now), files) ==>
              && AllHold(sha, dir.now, files)
              && (AllTowards(sha, files, old(dir.history)) ==> AllTowards(sha, files, dir.history))
    ensures HasLink(old(dir.now), files, {}) ==> HasLink(dir.now, files, {})
  {
    hide StepTowards, AllTowards, AllHold, HasLink, Directory.Valid;
    ghost var start, first := dir.now, dir.history;
    if dir.now.manifest.NotRegular? {
      var failed := dir.MayFail();
      if failed { return Failed; }
      SameNodes(sha, files, dir.now, dir.now.(manifest := NoManifest));
      Advance(sha, files, dir, dir.now.(manifest := NoManifest));
    }
    var todo := dir.now.nodes.Keys;
    while todo != {}
      invariant dir.Valid() && first <= dir.history
      invariant Kept(start, dir.now, SIDECAR) && dir.now.mode == start.mode && !dir.now.manifest.NotRegular?
      invariant AllHold(sha, start, files) ==>
                  && AllHold(sha, dir.now, files)
                  && (AllTowards(sha, files, first) ==> AllTowards(sha, files, dir.history))
      invariant HasLink(start, files, {}) ==> HasLink(dir.now, files, {})
      invariant old(dir.failures) <= dir.failures
      invariant forall name :: name in dir.now.nodes && name !in todo ==> name in files || name == SIDECAR
    {
      var name :| name in todo;
      if name in dir.now.nodes && name != SIDECAR && (IsDirectory(dir.now, name) || name !in files) {
        var removed := RemoveExtra(sha, files, dir, name);
        if !removed { return Failed; }
      }
      todo := todo - {name};
    }
    return Done;
  }

  lemma TowardsGrows(sha: Sha, files: Files, history: seq<Dir>, d: Dir)
    requires history != [] && AllTowards(sha, files, history) && StepTowards(sha, files, history[|history| - 1], d)
    ensures AllTowards(sha, files, history + [d])
  {
    hide StepTowards;
  }

  lemma SameNodes(sha: Sha, files: Files, before: Dir, after: Dir)
    requires before.nodes == after.nodes
    ensures StepTowards(sha, files, before, after)
    ensures AllHold(sha, before, files) ==> AllHold(sha, after, files)
    ensures HasLink(before, files, {}) ==> HasLink(after, files, {})
  {
    if HasLink(before, files, {}) {
      var name :| name in files && IsLink(before, name);
      assert IsLink(after, name);
    }
  }

  lemma DropExtra(sha: Sha, files: Files, d: Dir, name: string)
    requires IsDirectory(d, name) || name !in files
    ensures AllHold(sha, d, files) ==> StepTowards(sha, files, d, Without(d, name))
    ensures AllHold(sha, d, files) ==> AllHold(sha, Without(d, name), files)
    ensures HasLink(d, files, {}) ==> HasLink(Without(d, name), files, {})
  {
    if HasLink(d, files, {}) {
      var link :| link in files && IsLink(d, link);
      assert IsLink(Without(d, name), link);
    }
  }

  lemma NoStepYet(sha: Sha, files: Files, d: Dir)
    ensures AllTowards(sha, files, [d])
  {}

  /** Removing what is no directory at the sidecar's name takes everything reached through it away. */
  function Severed(d: Dir): Dir {
    d.(nodes := map name | name in d.nodes && name != SIDECAR && !(IN_SIDECAR <= name) :: d.nodes[name])
  }

  /** The directory with its own mode and the sidecar directory put right. */
  function Righted(d: Dir): Dir {
    With((if IsDirectory(d, SIDECAR) then d else Severed(d)).(mode := EXECUTABLE), SIDECAR, Directory(EXECUTABLE))
  }

  /** No payload file is reached through something else than a sidecar directory. */
  predicate Grounded(d: Dir, files: Files) {
    IsDirectory(d, SIDECAR) || forall name :: name in files && IN_SIDECAR <= name ==> name !in d.nodes
  }

  lemma SeveredIsTowards(sha: Sha, files: Files, d: Dir)
    requires SIDECAR !in files && !IsDirectory(d, SIDECAR)
    ensures StepTowards(sha, files, d, Severed(d)) <==> Grounded(d, files)
  {
    forall name | name in files && IN_SIDECAR <= name && name in d.nodes
      ensures !Kept(d, Severed(d), name) && !Holds(sha, Severed(d), name, files[name])
    {}
    forall name | name in files && !(IN_SIDECAR <= name)
      ensures Kept(d, Severed(d), name)
    {}
  }

  lemma SidecarIsTowards(sha: Sha, files: Files, d: Dir, mode: string)
    requires SIDECAR !in files
    ensures StepTowards(sha, files, d, With(d, SIDECAR, Directory(mode)))
  {}

  lemma NothingElse(sha: Sha, d: Dir, files: Files)
    requires SIDECAR !in files && AllHold(sha, d, files) && FixedNames(files) && !d.manifest.NotRegular?
    requires d.nodes.Keys == files.Keys + {SIDECAR} && d.mode == EXECUTABLE && d.nodes[SIDECAR] == Directory(EXECUTABLE)
    ensures Exact(sha, true, d, files)
  {
    hide Normalize;
    assert forall name :: name in files ==> Normalize(name) == Some(name);
    forall name | name in files
      ensures Holds(sha, d, At(name), files[name])
    {
      assert Fixed(name);
    }
  }

  lemma LinkIsInexact(sha: Sha, parents: bool, d: Dir, files: Files)
    requires FixedNames(files) && HasLink(d, files, {})
    ensures !Exact(sha, parents, d, files)
  {
    hide Normalize, Fixed, At, NoExtras, DirectoriesRight;
    var name :| name in files && name !in {} && IsLink(d, name);
    FixedAt(name);
    assert !Holds(sha, d, name, files[name]);
  }

  lemma FixedAt(name: string)
    requires Fixed(name)
    ensures At(name) == name
  {}

  /** A change that leaves every payload file alone. */
  method Aside(sha: Sha, files: Files, dir: Directory, d: Dir)
    requires dir.Valid() && StepTowards(sha, files, dir.now, d)
    modifies dir`now, dir`history
    ensures dir.Valid() && dir.now == d && old(dir.history) <= dir.history
    ensures AllTowards(sha, files, old(dir.history)) <==> AllTowards(sha, files, dir.history)
  {
    hide StepTowards, AllTowards;
    Advance(sha, files, dir, d);
    if !AllTowards(sha, files, old(dir.history)) { AstrayStays(sha, files, old(dir.history), dir.history); }
  }

  /** The directory's own mode; then the sidecar directory, made anew if anything else stands in its place. */
  method RestoreDirectories(sha: Sha, files: Files, dir: Directory) returns (ok: bool)
    requires dir.Valid() && FixedNames(files) && AllTowards(sha, files, dir.history)
    modifies dir`now, dir`history, dir`failures
    ensures dir.Valid() && old(dir.history) <= dir.history
    ensures old(dir.failures) <= dir.failures && (!ok ==> old(dir.failures) < dir.failures)
    ensures ok ==> (AllTowards(sha, files, dir.history) <==> Grounded(old(dir.now), files))
    ensures Grounded(old(dir.now), files) ==> AllTowards(sha, files, dir.history)
    ensures ok ==> dir.now == Righted(old(dir.now))
    ensures ok ==> dir.now.mode == EXECUTABLE && SIDECAR in dir.now.nodes
    ensures ok ==> dir.now.nodes[SIDECAR] == Directory(EXECUTABLE)
  {
    hide StepTowards, AllTowards, FixedNames, Severed;
    ghost var start := dir.now;
    var failed := dir.MayFail();
    if failed { return false; }
    SameNodes(sha, files, dir.now, dir.now.(mode := EXECUTABLE));
    Aside(sha, files, dir, dir.now.(mode := EXECUTABLE));
    SidecarApart(files);
    if !IsDirectory(dir.now, SIDECAR) {
      failed := dir.MayFail();
      if failed { return false; }
      ghost var made;
      ok, made := RemoveAndMake(sha, files, dir);
      if !ok { return; }
    }
    SeveredModes(start);
    failed := dir.MayFail();
    if failed { return false; }
    SidecarIsTowards(sha, files, dir.now, EXECUTABLE);
    Aside(sha, files, dir, With(dir.now, SIDECAR, Directory(EXECUTABLE)));
    return true;
  }

  lemma SeveredModes(d: Dir)
    ensures Severed(d.(mode := EXECUTABLE)) == Severed(d).(mode := EXECUTABLE)
    ensures forall mode :: With(With(d, SIDECAR, Directory(mode)), SIDECAR, Directory(EXECUTABLE))
                           == With(d, SIDECAR, Directory(EXECUTABLE))
  {}

  /** os.Remove and os.MkdirAll, whose mode is filtered by the umask. */
  method RemoveAndMake(sha: Sha, files: Files, dir: Directory) returns (ok: bool, ghost made: string)
    requires dir.Valid() && SIDECAR !in files && !IsDirectory(dir.now, SIDECAR) && AllTowards(sha, files, dir.history)
    modifies dir`now, dir`history, dir`failures
    ensures dir.Valid() && old(dir.history) <= dir.history
    ensures old(dir.failures) <= dir.failures && (!ok ==> old(dir.failures) < dir.failures)
    ensures AllTowards(sha, files, dir.history) <==> Grounded(old(dir.now), files)
    ensures ok ==> dir.now == With(Severed(old(dir.now)), SIDECAR, Directory(made))
  {
    hide StepTowards, AllTowards, Severed, Grounded;
    ghost var before := dir.now;
    SeveredIsTowards(sha, files, before);
    dir.Become(Severed(dir.now));
    if Grounded(before, files) {
      TowardsGrows(sha, files, old(dir.history), dir.now);
    } else {
      LeftTheWay(sha, files, dir.history);
    }
    var failed := dir.MayFail();
    if failed { return false, ""; }
    var umasked: string := *;
    SidecarIsTowards(sha, files, dir.now, umasked);
    Aside(sha, files, dir, With(dir.now, SIDECAR, Directory(umasked)));
    return true, umasked;
  }

  /** Nothing stops the loop over the payload, and nothing of other names is opened by it. */
  predicate Clear(sha: Sha, d: Dir, files: Files) {
    Repairable(sha, d, files) && TempsAreOrdinary(sha, d, files)
  }

  /** The obstacles to a repair, all of which can be looked up before it starts; what it puts right first is none. */
  predicate Restorable(sha: Sha, parents: bool, d: Dir, files: Files) {
    parents && Clear(sha, Righted(d), files)
  }

  /** Extras last, then the manifest, then the full check. */
  method FinishRestore(sha: Sha, parents: bool, g: Generation, dir: Directory) returns (io: Io)
    requires dir.Valid() && FixedNames(g.files) && ManifestFilesValid(g.files)
    requires g.path.version == g.version && g.path.archive == g.archive
    requires dir.now.mode == EXECUTABLE && SIDECAR in dir.now.nodes && dir.now.nodes[SIDECAR] == Directory(EXECUTABLE)
    modifies dir`now, dir`history, dir`failures
    ensures dir.Valid() && old(dir.history) <= dir.history
    ensures old(dir.failures) <= dir.failures && (io.Failed? ==> old(dir.failures) < dir.failures)
    ensures io.Done? ==> Exact(sha, parents, dir.now, g.files) && LoadGeneration(g.path, dir.now) == Some(g)
    ensures io.Done? ==> parents && !HasLink(old(dir.now), g.files, {})
    ensures io.Blocked? && AllHold(sha, old(dir.now), g.files) ==> !parents
    ensures AllHold(sha, old(dir.now), g.files) && AllTowards(sha, g.files, old(dir.history)) ==>
              AllTowards(sha, g.files, dir.history)
  {
    hide StepTowards, AllTowards, AllHold, FixedNames, HasLink, Exact, LoadGeneration, ManifestFilesValid;
    SidecarApart(g.files);
    io := RemoveGenerationExtras(sha, g.files, dir);
    if !io.Done? { return; }
    var written := dir.now.(manifest := Stored(ManifestOf(g)));
    SameNodes(sha, g.files, dir.now, written);
    var failed := dir.MayFail();
    if failed {
      if * { Advance(sha, g.files, dir, written); }
      return Failed;
    }
    Advance(sha, g.files, dir, written);
    WrittenIsLoaded(g, written);
    if AllHold(sha, written, g.files) && parents { AllThere(sha, written, g.files); }
    if HasLink(written, g.files, {}) { LinkIsInexact(sha, parents, written, g.files); }
    if Exact(sha, parents, written, g.files) { ExactNeedsParents(sha, parents, written, g.files); }
    var legible: string -> bool := *;
    var v := VerifyGeneration(sha, parents, dir.now, g.files, legible);
    if v.Unreadable? {
      dir.Fail();
      return Failed;
    }
    return if v.Intact? then Done else Blocked;
  }

  lemma WrittenIsLoaded(g: Generation, d: Dir)
    requires ManifestFilesValid(g.files) && g.path.version == g.version && g.path.archive == g.archive
    requires d.manifest == Stored(ManifestOf(g))
    ensures LoadGeneration(g.path, d) == Some(g)
  {
    hide ManifestFilesValid;
  }

  lemma ExactNeedsParents(sha: Sha, parents: bool, d: Dir, files: Files)
    requires Exact(sha, parents, d, files)
    ensures parents
  {}

  lemma AllThere(sha: Sha, d: Dir, files: Files)
    requires FixedNames(files) && AllHold(sha, d, files) && !d.manifest.NotRegular? && d.mode == EXECUTABLE
    requires SIDECAR in d.nodes && d.nodes[SIDECAR] == Directory(EXECUTABLE) && d.nodes.Keys <= files.Keys + {SIDECAR}
    ensures Exact(sha, true, d, files)
  {
    SidecarApart(files);
    assert files.Keys <= d.nodes.Keys by {
      forall name | name in files ensures name in d.nodes { assert Holds(sha, d, name, files[name]); }
    }
    hide FixedNames, AllHold, Exact;
    NothingElse(sha, d, files);
  }

  lemma SidecarApart(files: Files)
    requires FixedNames(files)
    ensures SIDECAR !in files
  {}

  /** What is left of the repair once both directories are right. */
  method RestoreContents(sha: Sha, parents: bool, g: Generation, dir: Directory, staging: Dir) returns (io: Io)
    requires dir.Valid() && FixedNames(g.files) && ManifestFilesValid(g.files) && AllHold(sha, staging, g.files)
    requires g.path.version == g.version && g.path.archive == g.archive && dir.leaks == {} && dir.echoes == {}
    requires dir.now.mode == EXECUTABLE && SIDECAR in dir.now.nodes && dir.now.nodes[SIDECAR] == Directory(EXECUTABLE)
    modifies dir
    ensures dir.Valid() && old(dir.history) <= dir.history
    ensures old(dir.failures) <= dir.failures && (io.Failed? ==> old(dir.failures) < dir.failures)
    ensures io.Done? ==> Exact(sha, parents, dir.now, g.files) && LoadGeneration(g.path, dir.now) == Some(g)
    ensures io.Done? ==> dir.leaks == {}
    ensures io.Done? && (dir.echoes == {} || NoneShared(sha, old(dir.now), g.files)) ==>
              parents && Clear(sha, old(dir.now), g.files)
    ensures io.Blocked? ==> !(parents && Clear(sha, old(dir.now), g.files))
    ensures TempsAreOrdinary(sha, old(dir.now), g.files) ==>
              && (AllTowards(sha, g.files, old(dir.history)) <==> AllTowards(sha, g.files, dir.history))
              && dir.leaks == {} && dir.echoes == {}
    ensures !AllTowards(sha, g.files, old(dir.history)) ==> !AllTowards(sha, g.files, dir.history)
    ensures Diverted(sha, old(dir.now), g.files) && !io.Failed? ==> !AllTowards(sha, g.files, dir.history)
  {
    hide StepTowards, AllTowards, Repairable, TempsAreOrdinary, NoneShared, LinksDiffer, AllHold, FixedNames, HasLink;
    hide Exact, LoadGeneration, ManifestFilesValid;
    io := RestoreFiles(sha, g.files, dir, staging);
    ghost var history := dir.history;
    if io.Done? { io := FinishRestore(sha, parents, g, dir); }
    if !AllTowards(sha, g.files, history) { AstrayStays(sha, g.files, history, dir.history); }
    if !AllTowards(sha, g.files, old(dir.history)) { AstrayStays(sha, g.files, old(dir.history), dir.history); }
  }

  /**
   restoreGeneration. Without I/O errors it succeeds, and writes to nothing that has other names, exactly when
   the directories above are in order and, with the directory's own two put right, no directory stands where a
   drifted file or its temporary file must go, and neither a link nor a file of other names at such a temporary
   name. Every state on the way then keeps each payload file or makes it what the manifest says, exactly when
   no payload file was reached through something else than a sidecar directory.
   */
  method RestoreGeneration(sha: Sha, parents: bool, g: Generation, dir: Directory, staging: Dir) returns (io: Io)
    requires dir.Valid() && dir.history == [dir.now] && dir.leaks == {} && dir.echoes == {}
    requires FixedNames(g.files) && ManifestFilesValid(g.files)
    requires g.path.version == g.version && g.path.archive == g.archive
    requires AllHold(sha, staging, g.files)
    modifies dir
    ensures dir.Valid() && old(dir.history) <= dir.history
    ensures old(dir.failures) <= dir.failures && (io.Failed? ==> old(dir.failures) < dir.failures)
    ensures io.Done? ==> Exact(sha, parents, dir.now, g.files) && LoadGeneration(g.path, dir.now) == Some(g)
    ensures io.Done? ==> dir.leaks == {}
    ensures io.Done? && (dir.echoes == {} || NoneShared(sha, Righted(old(dir.now)), g.files)) ==>
              Restorable(sha, parents, old(dir.now), g.files)
    ensures io.Blocked? ==> !Restorable(sha, parents, old(dir.now), g.files)
    ensures TempsAreOrdinary(sha, Righted(old(dir.now)), g.files) ==>
              && dir.leaks == {} && dir.echoes == {}
              && (Grounded(old(dir.now), g.files) ==> AllTowards(sha, g.files, dir.history))
    ensures !Grounded(old(dir.now), g.files) && !io.Failed? ==> !AllTowards(sha, g.files, dir.history)
    ensures Diverted(sha, Righted(old(dir.now)), g.files) && !io.Failed? ==> !AllTowards(sha, g.files, dir.history)
  {
    hide StepTowards, AllTowards, Repairable, TempsAreOrdinary, NoneShared, LinksDiffer, AllHold, FixedNames, HasLink;
    hide Exact, LoadGeneration, ManifestFilesValid, Righted, Grounded, Clear, Diverted;
    NoStepYet(sha, g.files, dir.now);
    var ok := RestoreDirectories(sha, g.files, dir);
    if !ok { return Failed; }
    io := RestoreContents(sha, parents, g, dir, staging);
  }

  // ----- Each obstacle alone stops the repair ---------------------------------------------------------

  /** Where both directories are right nothing needs to be put right. */
  lemma RightedIsSame(d: Dir)
    requires d.mode == EXECUTABLE && SIDECAR in d.nodes && d.nodes[SIDECAR] == Directory(EXECUTABLE)
    ensures Righted(d) == d
  {}

  /** A link at a temporary name passes the exact-set check like any leftover, and still stops the repair. */
  lemma LinkStopsRepair(sha: Sha, files: Files, name: string)
    requires FixedNames(files) && name in files
    ensures var d := Dir(EXECUTABLE, NoManifest, map[SIDECAR := Directory(EXECUTABLE), TempOf(name) := Link(0)]);
            && NoExtras(d, files) && Repairable(sha, d, files) && Grounded(d, files)
            && Diverted(sha, Righted(d), files) && !Restorable(sha, true, d, files)
  {
    hide TempOf, FixedNames, Fixed;
    TempIsNoPayload(files, name);
    var d := Dir(EXECUTABLE, NoManifest, map[SIDECAR := Directory(EXECUTABLE), TempOf(name) := Link(0)]);
    assert IsLink(d, TempOf(name)) && !Holds(sha, d, name, files[name]);
    RightedIsSame(d);
    hide Righted;
    TempHasPrefix(name);
    forall other | other in files
      ensures !IsDirectory(d, other) && !IsDirectory(d, TempOf(other))
    {
      TempIsNoPayload(files, other);
    }
  }

  lemma TempHasPrefix(name: string)
    ensures TEMP <= BaseName(TempOf(name))
  {
    TempText(name);
    TempStarts(name);
    hide TempOf;
    if IN_SIDECAR <= name {
      assert TempOf(name)[..|IN_SIDECAR|] == IN_SIDECAR;
      assert TempOf(name)[|IN_SIDECAR|..] == TEMP + name[|IN_SIDECAR|..];
    } else {
      assert !(IN_SIDECAR <= TempOf(name));
    }
  }

  /** A directory in the place of a payload file stops it. */
  lemma DirectoryStopsRepair(sha: Sha, files: Files, name: string)
    requires FixedNames(files) && name in files
    ensures var d := Dir(EXECUTABLE, NoManifest, map[SIDECAR := Directory(EXECUTABLE), name := Directory(EXECUTABLE)]);
            TempsAreOrdinary(sha, d, files) && !Restorable(sha, true, d, files)
  {
    hide TempOf, FixedNames, Fixed;
    SidecarApart(files);
    var d := Dir(EXECUTABLE, NoManifest, map[SIDECAR := Directory(EXECUTABLE), name := Directory(EXECUTABLE)]);
    assert IsDirectory(d, name) && !Holds(sha, d, name, files[name]);
    RightedIsSame(d);
    hide Righted;
  }

  /** So does a directory in the place of its temporary file. */
  lemma TempDirectoryStopsRepair(sha: Sha, files: Files, name: string)
    requires FixedNames(files) && name in files
    ensures var d := Dir(EXECUTABLE, NoManifest,
                         map[SIDECAR := Directory(EXECUTABLE), TempOf(name) := Directory(EXECUTABLE)]);
            TempsAreOrdinary(sha, d, files) && !Restorable(sha, true, d, files)
  {
    hide TempOf, FixedNames, Fixed;
    TempIsNoPayload(files, name);
    var d := Dir(EXECUTABLE, NoManifest, map[SIDECAR := Directory(EXECUTABLE), TempOf(name) := Directory(EXECUTABLE)]);
    assert IsDirectory(d, TempOf(name)) && !Holds(sha, d, name, files[name]);
    RightedIsSame(d);
    hide Righted;
  }

  /**
   A link in the sidecar's place is no obstacle, but what was reached through it is gone until it has been
   rewritten: neither its old bytes nor its manifest's.
   */
  lemma LinkedSidecarLosesPayload(sha: Sha, files: Files, name: string, content: string)
    requires FixedNames(files) && name in files && IN_SIDECAR <= name
    ensures var d := Dir(EXECUTABLE, NoManifest, map[SIDECAR := Link(0), name := File(content, EXECUTABLE, Own)]);
            && Restorable(sha, true, d, files) && !Grounded(d, files)
            && name !in Severed(d).nodes && !StepTowards(sha, files, d, Severed(d))
  {
    hide TempOf, FixedNames, Fixed;
    SidecarApart(files);
    var d := Dir(EXECUTABLE, NoManifest, map[SIDECAR := Link(0), name := File(content, EXECUTABLE, Own)]);
    assert IsLink(d, SIDECAR) && !IsDirectory(d, SIDECAR) && name in d.nodes;
    SeveredIsTowards(sha, files, d);
    OnlySidecarIsClear(sha, files, d);
  }

  /** Nor is a directory reached through such a link, although it stands where a payload file must go. */
  lemma LinkedDirectoryIsNoObstacle(sha: Sha, files: Files, name: string)
    requires FixedNames(files) && name in files && IN_SIDECAR <= name
    ensures var d := Dir(EXECUTABLE, NoManifest, map[SIDECAR := Link(0), name := Directory(EXECUTABLE)]);
            !Repairable(sha, d, files) && Restorable(sha, true, d, files)
  {
    hide TempOf, FixedNames, Fixed;
    SidecarApart(files);
    var d := Dir(EXECUTABLE, NoManifest, map[SIDECAR := Link(0), name := Directory(EXECUTABLE)]);
    assert IsDirectory(d, name) && !Holds(sha, d, name, files[name]) && !IsDirectory(d, SIDECAR);
    OnlySidecarIsClear(sha, files, d);
  }

  lemma OnlySidecarIsClear(sha: Sha, files: Files, d: Dir)
    requires FixedNames(files) && !IsDirectory(d, SIDECAR)
    requires forall name :: name in d.nodes ==> name == SIDECAR || IN_SIDECAR <= name
    ensures Restorable(sha, true, d, files)
  {
    hide TempOf, FixedNames, Fixed;
    assert Righted(d).nodes.Keys == {SIDECAR};
    forall name | name in files
      ensures !IsDirectory(Righted(d), name) && !IsDirectory(Righted(d), TempOf(name))
      ensures !IsTied(Righted(d), TempOf(name))
    {
      TempIsNoPayload(files, name);
    }
  }

  /**
   Two payload files, a link from one's temporary name to the other: the other then holds neither its old
   bytes nor its manifest's.
   */
  lemma LinkSpoilsPayload(sha: Sha, files: Files, name: string, victim: string, was: string, content: string)
    requires FixedNames(files) && name in files && victim in files && sha(content) == files[name].sha512
    requires was != content && files[victim].sha512 != files[name].sha512
    ensures var before := Dir(EXECUTABLE, NoManifest,
                              map[victim := File(was, files[victim].mode, Own), TempOf(name) := Link(0)]);
            var after := With(before, victim, File(content, files[name].mode, Own));
            !TempsAreOrdinary(sha, before, files) && !StepTowards(sha, files, before, after)
  {
    hide TempOf, FixedNames, Fixed;
    TempIsNoPayload(files, name);
    TempIsNoPayload(files, victim);
    var node := File(was, files[victim].mode, Own);
    var before := Dir(EXECUTABLE, NoManifest, map[victim := node, TempOf(name) := Link(0)]);
    var after := With(before, victim, File(content, files[name].mode, Own));
    assert IsLink(before, TempOf(name)) && !Holds(sha, before, name, files[name]);
    assert !Kept(before, after, victim) && !Holds(sha, after, victim, files[victim]);
  }

  /**
   The same with one file under both names; and with that, once the other was dealt with, the closing check
   fails, although nothing blocks the repair.
   */
  lemma SharedSpoilsPayload(
      sha: Sha, parents: bool, files: Files, name: string, victim: string, was: string, content: string)
    requires FixedNames(files) && name in files && victim in files && sha(content) == files[name].sha512
    requires was != content && files[victim].sha512 != files[name].sha512
    ensures var node := File(was, files[victim].mode, Shared(0));
            var before := Dir(EXECUTABLE, NoManifest, map[victim := node, TempOf(name) := node]);
            var after := FileWritten(before, TempOf(name), content, files[name].mode);
            && Repairable(sha, before, files) && !TempsAreOrdinary(sha, before, files)
            && !StepTowards(sha, files, before, after)
            && !Exact(sha, parents, Renamed(after, TempOf(name), name), files)
  {
    hide TempOf, FixedNames, Fixed;
    TempIsNoPayload(files, name);
    TempIsNoPayload(files, victim);
    var node := File(was, files[victim].mode, Shared(0));
    var before := Dir(EXECUTABLE, NoManifest, map[victim := node, TempOf(name) := node]);
    var after := FileWritten(before, TempOf(name), content, files[name].mode);
    assert IsShared(before, TempOf(name)) && OneFile(before, victim, TempOf(name));
    assert name !in before.nodes && !Holds(sha, before, name, files[name]);
    assert !Kept(before, after, victim) && !Holds(sha, after, victim, files[victim]);
    hide Exact, At;
    SpoiltStays(sha, parents, files, after, TempOf(name), name, victim);
  }

  /** A payload file that is not what the manifest says stays so when another one is put in place. */
  lemma SpoiltStays(sha: Sha, parents: bool, files: Files, d: Dir, temp: string, name: string, victim: string)
    requires FixedNames(files) && victim in files && victim in d.nodes && temp in d.nodes
    requires victim != temp && victim != name && !Holds(sha, d, victim, files[victim])
    ensures !Exact(sha, parents, Renamed(d, temp, name), files)
  {
    hide Fixed, FixedNames;
    FixedAtOf(files, victim);
    hide At;
    assert !Holds(sha, Renamed(d, temp, name), victim, files[victim]);
  }

  lemma FixedAtOf(files: Files, name: string)
    requires FixedNames(files) && name in files
    ensures At(name) == name
  {
    assert Fixed(name);
  }
}
