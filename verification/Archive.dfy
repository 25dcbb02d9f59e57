/**
 Unpacking a release archive into a staging directory (internal/gvisor-installer/extract.go):
 what is accepted, exactly, and that the result can be published as a generation.
 */
module Archive {
  import opened Options
  import opened EntryNames
  import opened Generation

  const MAX_ENTRIES: nat := 256
  const MAX_EXTRACTED_BYTES: nat := 0x8000_0000

  datatype Kind = DirectoryEntry | RegularEntry | OtherEntry
  datatype Entry = Entry(name: string, kind: Kind, mode: int, content: string)

  /** mode & 0o111 != 0 */
  predicate Executable(mode: int) {
    mode % 2 == 1 || mode / 8 % 2 == 1 || mode / 64 % 2 == 1
  }

  function EntryMode(name: string, mode: int): string {
    if name == RUNSC || name == SHIM || IN_SIDECAR <= name || Executable(mode) then EXECUTABLE else PLAIN
  }

  /** By its octal digits: executable if anybody may execute it, or where the installer knows it has to be. */
  lemma ModeByDigits(name: string, rest: int, user: nat, group: nat, others: nat)
    requires user < 8 && group < 8 && others < 8
    ensures EntryMode(name, ((rest * 8 + user) * 8 + group) * 8 + others) == EXECUTABLE <==>
              || name in {RUNSC, SHIM} || IN_SIDECAR <= name
              || Odd(user) || Odd(group) || Odd(others)
  {
    ExecutableByDigits(rest, user, group, others);
    assert EXECUTABLE != PLAIN;
    hide Executable, Odd;
  }

  predicate Odd(digit: nat) {
    digit % 2 == 1
  }

  lemma ExecutableByDigits(rest: int, user: nat, group: nat, others: nat)
    requires user < 8 && group < 8 && others < 8
    ensures Executable(((rest * 8 + user) * 8 + group) * 8 + others) <==> Odd(user) || Odd(group) || Odd(others)
  {
    var pair := (rest * 8 + user) * 8 + group;
    LastDigit(rest, user);
    LastDigit(rest * 8 + user, group);
    LastDigit(pair, others);
    assert (pair * 8 + others) / 64 == rest * 8 + user;
  }

  lemma LastDigit(front: int, digit: nat)
    requires digit < 8
    ensures (front * 8 + digit) % 2 == digit % 2 && (front * 8 + digit) / 8 == front
  {
    Parity(front * 4, digit);
    Octal(front, digit);
  }

  lemma Parity(half: int, rest: nat)
    ensures (2 * half + rest) % 2 == rest % 2
  {}

  lemma Octal(front: int, digit: nat)
    requires digit < 8
    ensures (8 * front + digit) / 8 == front
  {}

  // ----- Which archives are accepted, without following the loop ------------------------------

  predicate EntryAccepted(e: Entry) {
    match Normalize(e.name)
    case None => false
    case Some(name) =>
      match e.kind
      case DirectoryEntry => name == SIDECAR
      case RegularEntry => name != SIDECAR && e.content != ""
      case OtherEntry => false
  }

  predicate SameFile(a: Entry, b: Entry) {
    a.kind.RegularEntry? && b.kind.RegularEntry? && Normalize(a.name) == Normalize(b.name)
  }

  function Size(entries: seq<Entry>): nat {
    if entries == [] then 0
    else
      var last := entries[|entries| - 1];
      Size(entries[..|entries| - 1]) + if last.kind.RegularEntry? then |last.content| else 0
  }

  function RecordOf(sha: Sha, e: Entry): FileRecord {
    FileRecord(sha(e.content), EntryMode(At(e.name), e.mode))
  }

  /** The manifest records of an archive's regular files. */
  function Records(sha: Sha, entries: seq<Entry>): Files {
    if entries == [] then map[]
    else
      var last := entries[|entries| - 1];
      var front := Records(sha, entries[..|entries| - 1]);
      if last.kind.RegularEntry? then front[At(last.name) := RecordOf(sha, last)] else front
  }

  predicate EntriesAccepted(entries: seq<Entry>) {
    && (forall i :: 0 <= i < |entries| ==> EntryAccepted(entries[i]))
    && (forall i, j :: 0 <= i < j < |entries| ==> !SameFile(entries[i], entries[j]))
  }

  predicate HasRequired(sha: Sha, entries: seq<Entry>) {
    REQUIRED <= Records(sha, entries).Keys
  }

  predicate Acceptable(sha: Sha, entries: seq<Entry>) {
    && |entries| <= MAX_ENTRIES && EntriesAccepted(entries)
    && Size(entries) <= MAX_EXTRACTED_BYTES && HasRequired(sha, entries)
  }

  lemma {:induction false} SizeGrows(entries: seq<Entry>, k: nat)
    requires k <= |entries|
    ensures Size(entries[..k]) <= Size(entries)
  {
    if k == |entries| {
      assert entries[..k] == entries;
    } else {
      var front := entries[..|entries| - 1];
      SizeGrows(front, k);
      assert front[..k] == entries[..k];
    }
  }

  lemma {:induction false} RecordsOfRegulars(sha: Sha, entries: seq<Entry>, name: string)
    ensures name in Records(sha, entries) <==>
              exists i :: 0 <= i < |entries| && entries[i].kind.RegularEntry? && At(entries[i].name) == name
  {
    hide At;
    if entries != [] {
      var n := |entries| - 1;
      var front := entries[..n];
      RecordsOfRegulars(sha, front, name);
      assert forall i :: 0 <= i < n ==> front[i] == entries[i];
      if name in Records(sha, front) {
        var i :| 0 <= i < |front| && front[i].kind.RegularEntry? && At(front[i].name) == name;
        assert entries[i].kind.RegularEntry? && At(entries[i].name) == name;
      }
    }
  }

  lemma {:induction false} FewRecords(sha: Sha, entries: seq<Entry>)
    ensures |Records(sha, entries)| <= |entries|
  {
    if entries != [] {
      var front := entries[..|entries| - 1];
      FewRecords(sha, front);
      var last := entries[|entries| - 1];
      var all := Records(sha, front)[At(last.name) := RecordOf(sha, last)];
      assert all.Keys == Records(sha, front).Keys + {At(last.name)};
    }
  }

  /** Whatever is accepted keeps to both caps, and its names and records pass for a manifest. */
  lemma {:induction false} AcceptedRecords(sha: Sha, entries: seq<Entry>)
    requires Digests(sha) && EntriesAccepted(entries)
    ensures FixedNames(Records(sha, entries)) && |Records(sha, entries)| <= |entries|
    ensures HasRequired(sha, entries) ==> ManifestFilesValid(Records(sha, entries))
  {
    FewRecords(sha, entries);
    forall name | name in Records(sha, entries)
      ensures name != SIDECAR && Fixed(name) && RecordValid(name, Records(sha, entries)[name])
    {
      RecordIsValid(sha, entries, name);
    }
  }

  lemma {:induction false} RecordIsValid(sha: Sha, entries: seq<Entry>, name: string)
    requires Digests(sha) && EntriesAccepted(entries) && name in Records(sha, entries)
    ensures name != SIDECAR && Fixed(name) && RecordValid(name, Records(sha, entries)[name])
  {
    hide Normalize;
    var last := entries[|entries| - 1];
    if last.kind.RegularEntry? && At(last.name) == name {
      assert EntryAccepted(last);
      NormalizeIsStable(last.name);
    } else {
      RecordIsValid(sha, entries[..|entries| - 1], name);
    }
  }

  // ----- The loop --------------------------------------------------------------------------

  datatype Extraction = Extracted(files: Files) | Rejected | ExtractionFailed

  /** The staging directory holds these files, the sidecar directory if one needs it, and nothing else. */
  predicate Unpacked(sha: Sha, d: Dir, files: Files) {
    && AllHold(sha, d, files) && d.mode == EXECUTABLE && d.manifest.NoManifest?
    && d.nodes.Keys <= files.Keys + {SIDECAR}
    && (SIDECAR in d.nodes ==> d.nodes[SIDECAR] == Directory(EXECUTABLE))
    && ((exists name :: name in files && IN_SIDECAR <= name) ==> SIDECAR in d.nodes)
  }

  lemma SidecarUnpacked(sha: Sha, d: Dir, files: Files)
    requires Unpacked(sha, d, files)
    ensures Unpacked(sha, With(d, SIDECAR, Directory(EXECUTABLE)), files)
  {
    assert forall name :: name in files ==> Holds(sha, d, name, files[name]);
  }

  lemma EntryUnpacked(sha: Sha, d: Dir, files: Files, name: string, mode: string, content: string)
    requires Unpacked(sha, d, files) && name != SIDECAR && name !in d.nodes
    requires IN_SIDECAR <= name ==> SIDECAR in d.nodes
    ensures Unpacked(sha, With(d, name, File(content, mode, Own)), files[name := FileRecord(sha(content), mode)])
  {
    assert forall other :: other in files ==> Holds(sha, d, other, files[other]);
  }

  lemma NamesAreFiles(sha: Sha, d: Dir, files: Files)
    requires Unpacked(sha, d, files)
    ensures forall name :: name in files ==> name in d.nodes
    ensures forall name :: name in d.nodes && name != SIDECAR ==> name in files
  {
    assert forall name :: name in files ==> Holds(sha, d, name, files[name]);
  }

  /** writeEntry */
  method WriteEntry(
      sha: Sha, staging: Directory, files: Files, name: string, mode: string, content: string, remaining: int)
    returns (io: Io)
    requires staging.Valid() && Unpacked(sha, staging.now, files) && name != SIDECAR
    modifies staging
    ensures staging.Valid()
    ensures io.Blocked? ==> content == "" || |content| > remaining || name in files
    ensures io.Done? ==> content != "" && |content| <= remaining && name !in files
    ensures io.Done? ==> Unpacked(sha, staging.now, files[name := FileRecord(sha(content), mode)])
    ensures old(staging.failures) <= staging.failures
    ensures io.Failed? ==> old(staging.failures) < staging.failures
  {
    if remaining <= 0 { return Blocked; }
    var failed: bool;
    if IN_SIDECAR <= name {
      failed := staging.MayFail();
      if failed { return Failed; }
      SidecarUnpacked(sha, staging.now, files);
      staging.Become(With(staging.now, SIDECAR, Directory(EXECUTABLE)));
    }
    hide Unpacked;
    if name in staging.now.nodes { NamesAreFiles(sha, staging.now, files); }
    if name in staging.now.nodes { return Blocked; }
    failed := staging.MayFail();
    if failed { return Failed; }
    var n := if |content| > remaining then remaining + 1 else |content|;
    NamesAreFiles(sha, staging.now, files);
    if n == |content| { EntryUnpacked(sha, staging.now, files, name, mode, content); }
    staging.Become(With(staging.now, name, File(content[..n], mode, Own)));
    failed := staging.MayFail();
    if failed { return Failed; }
    if n > remaining || n == 0 { return Blocked; }
    assert content[..n] == content;
    return Done;
  }

  lemma AcceptedSoFar(entries: seq<Entry>, k: nat)
    requires k < |entries| && EntriesAccepted(entries[..k]) && EntryAccepted(entries[k])
    requires forall j :: 0 <= j < k ==> !SameFile(entries[j], entries[k])
    ensures EntriesAccepted(entries[..k + 1])
  {
    hide EntryAccepted, SameFile;
    var more := entries[..k + 1];
    assert forall i :: 0 <= i < k ==> more[i] == entries[..k][i];
    assert more[k] == entries[k];
  }

  lemma NotTwice(sha: Sha, entries: seq<Entry>, k: nat)
    requires k < |entries| && EntriesAccepted(entries[..k]) && EntryAccepted(entries[k])
    requires entries[k].kind.RegularEntry?
    ensures At(entries[k].name) in Records(sha, entries[..k]) ==> !EntriesAccepted(entries)
    ensures At(entries[k].name) !in Records(sha, entries[..k]) ==>
              forall j :: 0 <= j < k ==> !SameFile(entries[j], entries[k])
  {
    hide Normalize;
    var name := At(entries[k].name);
    RecordsOfRegulars(sha, entries[..k], name);
    if name in Records(sha, entries[..k]) {
      var j :| 0 <= j < k && entries[..k][j].kind.RegularEntry? && At(entries[..k][j].name) == name;
      assert EntryAccepted(entries[..k][j]);
      assert SameFile(entries[j], entries[k]);
    } else {
      forall j | 0 <= j < k
        ensures !SameFile(entries[j], entries[k])
      {
        assert entries[..k][j] == entries[j];
      }
    }
  }

  lemma OneMore(sha: Sha, entries: seq<Entry>, k: nat)
    requires k < |entries|
    ensures Size(entries[..k + 1])
            == Size(entries[..k]) + if entries[k].kind.RegularEntry? then |entries[k].content| else 0
    ensures Records(sha, entries[..k + 1]) ==
            if entries[k].kind.RegularEntry?
            then Records(sha, entries[..k])[At(entries[k].name) := RecordOf(sha, entries[k])]
            else Records(sha, entries[..k])
  {
    assert entries[..k + 1][..k] == entries[..k];
  }

  lemma EntryRefused(sha: Sha, entries: seq<Entry>, k: nat)
    requires k < |entries| && !EntryAccepted(entries[k])
    ensures !Acceptable(sha, entries)
  {}

  lemma TooLarge(sha: Sha, entries: seq<Entry>, k: nat)
    requires k < |entries| && Size(entries[..k + 1]) > MAX_EXTRACTED_BYTES
    ensures !Acceptable(sha, entries)
  {
    SizeGrows(entries, k + 1);
  }

  /** extractTar: unless reading or writing fails, an archive is unpacked if and only if it is acceptable. */
  method ExtractTar(sha: Sha, entries: seq<Entry>, staging: Directory) returns (r: Extraction)
    requires staging.Valid() && staging.now == Dir(EXECUTABLE, NoManifest, map[])
    modifies staging
    ensures staging.Valid()
    ensures r.Extracted? ==> Acceptable(sha, entries) && r.files == Records(sha, entries)
    ensures r.Extracted? ==> Unpacked(sha, staging.now, r.files)
    ensures r.Rejected? ==> !Acceptable(sha, entries)
    ensures old(staging.failures) <= staging.failures
    ensures r.ExtractionFailed? ==> old(staging.failures) < staging.failures
  {
    hide Unpacked, EntriesAccepted, Normalize, Size, Records, HasRequired;
    var files: Files := map[];
    var total, k := 0, 0;
    StartsEmpty(sha, entries);
    while k < |entries|
      invariant 0 <= k <= |entries| && k <= MAX_ENTRIES && staging.Valid()
      invariant files == Records(sha, entries[..k]) && total == Size(entries[..k]) <= MAX_EXTRACTED_BYTES
      invariant EntriesAccepted(entries[..k]) && Unpacked(sha, staging.now, files)
      invariant old(staging.failures) <= staging.failures
    {
      var failed := staging.MayFail();
      if failed { return ExtractionFailed; }
      var e := entries[k];
      if k + 1 > MAX_ENTRIES { return Rejected; }
      OneMore(sha, entries, k);
      if !EntryAccepted(e) { EntryRefused(sha, entries, k); }
      var normalized := Normalize(e.name);
      if normalized.None? { return Rejected; }
      var name := normalized.value;
      if e.kind.DirectoryEntry? {
        if name != SIDECAR { return Rejected; }
        AcceptedSoFar(entries, k);
      } else {
        if !e.kind.RegularEntry? { return Rejected; }
        if name == SIDECAR { return Rejected; }
        if Size(entries[..k + 1]) > MAX_EXTRACTED_BYTES { TooLarge(sha, entries, k); }
        if e.content != "" { NotTwice(sha, entries, k); }
        var io := WriteEntry(sha, staging, files, name, EntryMode(name, e.mode), e.content,
          MAX_EXTRACTED_BYTES - total);
        if io.Failed? { return ExtractionFailed; }
        if io.Blocked? { return Rejected; }
        AcceptedSoFar(entries, k);
        total := total + |e.content|;
        files := files[name := FileRecord(sha(e.content), EntryMode(name, e.mode))];
      }
      k := k + 1;
    }
    assert entries[..k] == entries;
    RequiredMeans(sha, entries);
    if !(REQUIRED <= files.Keys) { return Rejected; }
    return Extracted(files);
  }

  lemma RequiredMeans(sha: Sha, entries: seq<Entry>)
    ensures HasRequired(sha, entries) <==> REQUIRED <= Records(sha, entries).Keys
  {}

  lemma StartsEmpty(sha: Sha, entries: seq<Entry>)
    ensures Records(sha, entries[..0]) == map[] && Size(entries[..0]) == 0 && EntriesAccepted(entries[..0])
    ensures Unpacked(sha, Dir(EXECUTABLE, NoManifest, map[]), map[])
  {}

  /**
   publishGeneration writes the manifest into the staging directory and renames it into place:
   what is loaded from there is the generation published, and it passes the exact-set check.
   */
  lemma PublishThenLoad(sha: Sha, entries: seq<Entry>, staging: Dir, g: Generation)
    requires Digests(sha) && Acceptable(sha, entries) && g.files == Records(sha, entries)
    requires Unpacked(sha, staging, g.files)
    requires g.path.version == g.version && g.path.archive == g.archive
    ensures var published := staging.(manifest := Stored(ManifestOf(g)));
            && LoadGeneration(g.path, published) == Some(g)
            && Exact(sha, true, published, g.files)
    ensures FixedNames(g.files) && ManifestFilesValid(g.files) && AllHold(sha, staging, g.files)
    ensures |g.files| <= MAX_ENTRIES
  {
    AcceptedRecords(sha, entries);
    UnpackedIsComplete(sha, staging, g.files);
    hide Acceptable, Unpacked, Records;
    NothingElse(sha, staging.(manifest := Stored(ManifestOf(g))), g.files);
  }

  lemma UnpackedIsComplete(sha: Sha, d: Dir, files: Files)
    requires Unpacked(sha, d, files) && GOFER in files
    ensures d.nodes.Keys == files.Keys + {SIDECAR} && d.nodes[SIDECAR] == Directory(EXECUTABLE)
    ensures AllHold(sha, d, files) && d.mode == EXECUTABLE
    ensures forall m: ManifestNode :: AllHold(sha, d.(manifest := m), files)
  {
    assert IN_SIDECAR <= GOFER;
  }
}
