/**
 Names in a release archive (internal/gvisor-installer/extract.go): a flat file, or a file in
 the one sidecar directory, and never a name the installer keeps for itself.
 */
module EntryNames {
  import opened Options

  const SIDECAR: string := "gvisor-bin"
  const IN_SIDECAR: string := "gvisor-bin/"
  const MANIFEST: string := ".manifest.json"
  const TEMP: string := ".isola-tmp."

  /** strings.Split(s, "/") */
  function Split(s: string): (parts: seq<string>)
    ensures parts != []
  {
    if s == [] then [[]]
    else
      var rest := Split(s[1..]);
      if s[0] == '/' then [[]] + rest else [[s[0]] + rest[0]] + rest[1..]
  }

  function TrimPrefix(s: string, prefix: string): string {
    if prefix <= s then s[|prefix|..] else s
  }

  function TrimSuffix(s: string, suffix: string): string {
    if |suffix| <= |s| && s[|s| - |suffix|..] == suffix then s[..|s| - |suffix|] else s
  }

  predicate SafePart(part: string) {
    part != "" && part != "." && part != ".."
  }

  predicate Reserved(base: string) {
    base == MANIFEST || TEMP <= base
  }

  /** The two levels an entry may live on. */
  predicate InLayout(parts: seq<string>) {
    |parts| == 1 || (|parts| == 2 && parts[0] == SIDECAR)
  }

  function Cleaned(raw: string): string {
    TrimSuffix(TrimPrefix(raw, "./"), "/")
  }

  predicate Admitted(name: string) {
    var parts := Split(name);
    (forall i :: 0 <= i < |parts| ==> SafePart(parts[i])) && InLayout(parts) && !Reserved(parts[|parts| - 1])
  }

  /** normalizeEntryName; filepath.IsLocal refuses nothing that the test of the parts would admit. */
  function Normalize(raw: string): Option<string> {
    if Admitted(Cleaned(raw)) then Some(Cleaned(raw)) else None
  }

  lemma {:induction false} SplitEnds(s: string)
    requires s != [] && s[|s| - 1] == '/'
    ensures Split(s)[|Split(s)| - 1] == ""
  {
    if |s| == 1 {
      assert s[1..] == [];
    } else {
      SplitEnds(s[1..]);
      if s[0] != '/' && |Split(s[1..])| == 1 {
        SplitCount(s[1..]);
      }
    }
  }

  lemma {:induction false} SplitCount(s: string)
    ensures |Split(s)| == 1 <==> '/' !in s
    ensures '/' !in s ==> Split(s) == [s]
  {
    if s != [] {
      SplitCount(s[1..]);
      assert s == [s[0]] + s[1..];
    }
  }

  lemma SplitStarts(s: string)
    requires "./" <= s
    ensures Split(s)[0] == "."
  {
    assert s[1..][0] == '/';
  }

  lemma {:induction false} SplitAtSlash(a: string, b: string)
    requires '/' !in a
    ensures Split(a + "/" + b) == [a] + Split(b)
  {
    if a == [] {
      assert (a + "/" + b)[1..] == b;
    } else {
      SplitAtSlash(a[1..], b);
      assert (a + "/" + b)[1..] == a[1..] + "/" + b;
      assert (a + "/" + b)[0] == a[0];
      assert Split(a + "/" + b) == [[a[0]] + a[1..]] + Split(b);
      assert [a[0]] + a[1..] == a;
    }
  }

  /** The temporary name replaceFromStaging writes beside a payload file. */
  function TempOf(name: string): string {
    if IN_SIDECAR <= name then IN_SIDECAR + TEMP + name[|IN_SIDECAR|..] else TEMP + name
  }

  lemma {:induction false} SplitJoins(s: string)
    requires |Split(s)| == 2
    ensures s == Split(s)[0] + "/" + Split(s)[1]
  {
    assert s == [s[0]] + s[1..];
    if s[0] == '/' {
      SplitCount(s[1..]);
    } else {
      SplitJoins(s[1..]);
      assert Split(s)[0] == [s[0]] + Split(s[1..])[0];
      assert Split(s)[1] == Split(s[1..])[1];
      var a := Split(s[1..])[0];
      assert [s[0]] + (a + "/" + Split(s)[1]) == ([s[0]] + a) + "/" + Split(s)[1];
    }
  }

  /** An admitted name without the sidecar prefix is one part. */
  lemma FlatOrInside(name: string)
    requires Admitted(name)
    ensures '/' !in name || IN_SIDECAR <= name
  {
    SplitCount(name);
    if |Split(name)| == 2 {
      SplitJoins(name);
      hide Split;
      assert name[..11] == IN_SIDECAR;
    }
  }

  lemma SidecarPrefix(base: string)
    ensures '/' !in SIDECAR && IN_SIDECAR + base == SIDECAR + "/" + base
  {}

  lemma LastPart(base: string, inside: bool)
    requires '/' !in base
    ensures Split(if inside then IN_SIDECAR + base else base) == if inside then [SIDECAR, base] else [base]
  {
    hide Split;
    SplitCount(base);
    SidecarPrefix(base);
    SplitAtSlash(SIDECAR, base);
  }

  lemma BaseHasNoSlash(name: string)
    requires Admitted(name) && IN_SIDECAR <= name
    ensures '/' !in name[|IN_SIDECAR|..]
  {
    var base := name[|IN_SIDECAR|..];
    assert name == SIDECAR + "/" + base;
    SplitAtSlash(SIDECAR, base);
    hide Split;
    SplitCount(base);
  }

  lemma ReservedIsRefused(base: string, inside: bool)
    requires TEMP <= base && '/' !in base
    ensures !Admitted(if inside then IN_SIDECAR + base else base)
  {
    LastPart(base, inside);
    hide Split;
  }

  lemma TempStarts(name: string)
    ensures |TempOf(name)| > 10 && TempOf(name)[0] == (if IN_SIDECAR <= name then 'g' else '.')
    ensures IN_SIDECAR <= name ==> TempOf(name)[10] == '/'
    ensures name == if IN_SIDECAR <= name then IN_SIDECAR + TempOf(name)[|IN_SIDECAR + TEMP|..]
                    else TempOf(name)[|TEMP|..]
  {}

  predicate Fixed(name: string) {
    Normalize(name) == Some(name)
  }

  lemma FixedIsAdmitted(name: string)
    requires Admitted(name)
    ensures Fixed(name)
  {
    if "./" <= name {
      SplitStarts(name);
    } else if name != [] && name[|name| - 1] == '/' {
      SplitEnds(name);
    }
  }

  /** Normalising is done once: its results are its fixed points. */
  lemma NormalizeIsStable(raw: string)
    requires Normalize(raw).Some?
    ensures Fixed(Normalize(raw).value)
  {
    FixedIsAdmitted(Cleaned(raw));
  }

  lemma FixedMeans(name: string)
    ensures Fixed(name) <==> Admitted(name)
  {
    if Admitted(name) { FixedIsAdmitted(name); }
  }

  lemma TempText(name: string)
    ensures TempOf(name) == if IN_SIDECAR <= name then IN_SIDECAR + (TEMP + name[|IN_SIDECAR|..]) else TEMP + name
  {}

  /** Temporary names are never payload names, nor the sidecar directory. */
  lemma TempIsApart(name: string)
    requires Fixed(name)
    ensures !Fixed(TempOf(name)) && TempOf(name) != SIDECAR
  {
    hide Split, TempOf, Admitted, Fixed;
    FixedMeans(name);
    FixedMeans(TempOf(name));
    TempText(name);
    TempStarts(name);
    FlatOrInside(name);
    if IN_SIDECAR <= name {
      BaseHasNoSlash(name);
      ReservedIsRefused(TEMP + name[|IN_SIDECAR|..], true);
    } else {
      ReservedIsRefused(TEMP + name, false);
    }
  }

  lemma TempsDiffer(a: string, b: string)
    requires TempOf(a) == TempOf(b)
    ensures a == b
  {
    TempStarts(a);
    TempStarts(b);
    hide TempOf;
  }

  /** A plain name on either level is admitted as it is. */
  lemma PlainIsFixed(base: string, inside: bool)
    requires base != "" && base[0] != '.' && '/' !in base
    ensures Fixed(if inside then IN_SIDECAR + base else base)
  {
    hide Split;
    LastPart(base, inside);
    FixedIsAdmitted(if inside then IN_SIDECAR + base else base);
  }

  /** A file name of one part that is not kept for the installer. */
  predicate PlainBase(base: string) {
    '/' !in base && SafePart(base) && !Reserved(base)
  }

  /** A file of either level, or the sidecar directory. */
  ghost predicate IsPayloadName(name: string) {
    exists base :: PlainBase(base) && (name == base || name == IN_SIDECAR + base)
  }

  lemma AdmittedMeans(name: string)
    ensures Admitted(name) <==> IsPayloadName(name)
  {
    hide Split, Reserved, SafePart;
    if Admitted(name) {
      FlatOrInside(name);
      if '/' !in name {
        LastPart(name, false);
        assert PlainBase(name);
      } else {
        var base := name[|IN_SIDECAR|..];
        BaseHasNoSlash(name);
        assert name == IN_SIDECAR + base;
        LastPart(base, true);
        assert PlainBase(base);
      }
    }
    if base :| PlainBase(base) && (name == base || name == IN_SIDECAR + base) {
      LastPart(base, name != base);
      SidecarIsSafe();
    }
  }

  lemma SidecarIsSafe()
    ensures SafePart(SIDECAR)
  {}

  /** What is left of an entry's name: "./" before it and "/" behind it do not matter. */
  predicate Spelled(raw: string, name: string) {
    raw == name || raw == "./" + name || raw == name + "/" || raw == "./" + name + "/"
  }

  /** Exactly the names of payload files, in one of these spellings, are taken. */
  lemma NormalizeMeans(raw: string, name: string)
    ensures Normalize(raw) == Some(name) <==> IsPayloadName(name) && Spelled(raw, name)
  {
    AdmittedMeans(name);
    if Normalize(raw) == Some(name) { CleanedIsSpelled(raw); }
    if Admitted(name) && Spelled(raw, name) {
      FixedIsAdmitted(name);
      SpelledIsCleaned(raw, name);
    }
  }

  lemma CleanedIsSpelled(raw: string)
    ensures Spelled(raw, Cleaned(raw))
  {
    var rest := TrimPrefix(raw, "./");
    assert raw == rest || raw == "./" + rest;
    assert rest == Cleaned(raw) || rest == Cleaned(raw) + "/";
  }

  lemma SpelledIsCleaned(raw: string, name: string)
    requires Admitted(name) && Spelled(raw, name)
    ensures Cleaned(raw) == name
  {
    if "./" <= name { SplitStarts(name); }
    if name != [] && name[|name| - 1] == '/' { SplitEnds(name); }
    hide Split;
    SplitCount(name);
    assert name != "" && name != ".";
    assert |name| == 1 ==> name == [name[0]];
    assert !("./" <= name) && name[|name| - 1] != '/';
    hide Admitted;
    Trimmed(raw, name);
  }

  lemma Trimmed(raw: string, name: string)
    requires Spelled(raw, name) && name != "" && name != "." && !("./" <= name) && name[|name| - 1] != '/'
    ensures Cleaned(raw) == name
  {
    if raw == name {
      assert TrimPrefix(raw, "./") == name;
    } else if raw == name + "/" {
      NoDotSlash(name);
    } else if raw == "./" + name {
      assert TrimPrefix(raw, "./") == name;
    } else {
      assert TrimPrefix(raw, "./") == name + "/";
    }
  }

  lemma NoDotSlash(name: string)
    requires name != "" && name != "." && !("./" <= name)
    ensures !("./" <= name + "/")
  {
    var longer := name + "/";
    if |name| == 1 {
      assert name == [name[0]];
      assert longer[0] != '.';
    } else {
      var start := name[..2];
      assert start == [name[0], name[1]] && start != "./";
      assert longer[0] == name[0] && longer[1] == name[1];
    }
  }

  /** For instance the wanted binary with "./" before it, and the sidecar directory with "/" behind it. */
  lemma SpellingsOfPayload()
    ensures Normalize("./runsc") == Some("runsc") && Normalize("gvisor-bin/") == Some(SIDECAR)
  {
    hide Normalize, Reserved;
    assert PlainBase("runsc") && PlainBase(SIDECAR) by { NotReserved(); }
    NormalizeMeans("./runsc", "runsc");
    NormalizeMeans("gvisor-bin/", SIDECAR);
  }

  lemma NotReserved()
    ensures !Reserved("runsc") && !Reserved(SIDECAR)
  {}
}
