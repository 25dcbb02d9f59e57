/**
 The marked section of containerd's configuration file that the installer owns
 (internal/gvisor-installer/containerd.go): finding, splicing and removing it as text.
 */
module ManagedBlock {
  import opened SeqLaws

  // The two markers, in pieces short enough to be looked into.
  const BEGIN: string := "# BEGIN " + BEGIN_REST
  const BEGIN_REST: string := "isola-mana" + ("ged gVisor" + (" runtime (" + ("managed by" + BEGIN_TAIL)))
  const BEGIN_TAIL: string := " isola gvi" + ("sor-instal" + ("ler; do no" + "t edit)"))
  const END: string := "# END " + END_REST
  const END_REST: string := "isola-mana" + ("ged gVisor" + " runtime")

  predicate Plain(s: string) {
    forall i :: 0 <= i < |s| ==> s[i] != '#' && s[i] != '\n'
  }

  lemma PlainConcat(a: string, b: string)
    requires Plain(a) && Plain(b)
    ensures Plain(a + b)
  {}

  lemma RestIsPlain()
    ensures Plain(BEGIN_REST) && Plain(END_REST)
  {
    PlainConcat("ler; do no", "t edit)");
    PlainConcat("sor-instal", "ler; do no" + "t edit)");
    PlainConcat(" isola gvi", "sor-instal" + ("ler; do no" + "t edit)"));
    PlainConcat("managed by", BEGIN_TAIL);
    PlainConcat(" runtime (", "managed by" + BEGIN_TAIL);
    PlainConcat("ged gVisor", " runtime (" + ("managed by" + BEGIN_TAIL));
    PlainConcat("isola-mana", "ged gVisor" + (" runtime (" + ("managed by" + BEGIN_TAIL)));
    PlainConcat("ged gVisor", " runtime");
    PlainConcat("isola-mana", "ged gVisor" + " runtime");
  }

  predicate OneLine(s: string) {
    forall i :: 0 <= i < |s| ==> s[i] != '\n'
  }

  /** Each marker is one line; '#' starts BEGIN and occurs nowhere else in it; END differs in the third character. */
  lemma MarkerFacts()
    ensures |BEGIN| > 2 && |END| > 2 && OneLine(BEGIN) && OneLine(END)
    ensures forall i :: 0 < i < |BEGIN| ==> BEGIN[i] != '#'
    ensures BEGIN[2] == 'B' && END[0] == '#' && END[2] == 'E'
  {
    RestIsPlain();
    hide BEGIN_REST, END_REST;
    forall i | 0 <= i < |BEGIN|
      ensures BEGIN[i] != '\n' && (i > 0 ==> BEGIN[i] != '#')
    {
      assert BEGIN[i] == if i < 8 then "# BEGIN "[i] else BEGIN_REST[i - 8];
    }
    forall i | 0 <= i < |END|
      ensures END[i] != '\n'
    {
      assert END[i] == if i < 6 then "# END "[i] else END_REST[i - 6];
    }
  }

  // ----- strings.Index --------------------------------------------------------------

  predicate OccursAt(s: string, pat: string, i: int) {
    0 <= i <= i + |pat| <= |s| && s[i..i + |pat|] == pat
  }

  predicate Absent(s: string, pat: string) {
    forall i :: 0 <= i <= |s| ==> !OccursAt(s, pat, i)
  }

  function IndexFrom(s: string, pat: string, i: nat): (r: int)
    requires i <= |s|
    ensures r == -1 || (i <= r && OccursAt(s, pat, r))
    ensures forall j :: i <= j <= |s| && (r == -1 || j < r) ==> !OccursAt(s, pat, j)
    decreases |s| - i
  {
    if OccursAt(s, pat, i) then i
    else if i == |s| then -1
    else IndexFrom(s, pat, i + 1)
  }

  /** The first occurrence of pat in s, or -1. */
  function Index(s: string, pat: string): (r: int)
    ensures -1 <= r <= |s|
    ensures r == -1 <==> Absent(s, pat)
    ensures r == -1 || OccursAt(s, pat, r)
    ensures forall j :: 0 <= j < r ==> !OccursAt(s, pat, j)
  {
    IndexFrom(s, pat, 0)
  }

  lemma IndexIs(s: string, pat: string, r: nat)
    requires OccursAt(s, pat, r) && forall j :: 0 <= j < r ==> !OccursAt(s, pat, j)
    ensures Index(s, pat) == r
  {
    hide Index, OccursAt;
    OccursInside(s, pat, r);
    assert !OccursAt(s, pat, r) || Index(s, pat) != -1;
  }

  lemma OccursInside(s: string, pat: string, r: int)
    requires OccursAt(s, pat, r)
    ensures 0 <= r <= |s|
  {}

  lemma OccursInFront(a: string, b: string, pat: string, i: nat)
    requires i + |pat| <= |a|
    ensures OccursAt(a + b, pat, i) <==> OccursAt(a, pat, i)
  {
    assert (a + b)[i..i + |pat|] == a[i..i + |pat|];
  }

  lemma OccursBehind(a: string, b: string, pat: string, i: nat)
    ensures OccursAt(a + b, pat, |a| + i) <==> OccursAt(b, pat, i)
  {
    if i + |pat| <= |b| {
      assert (a + b)[|a| + i..|a| + i + |pat|] == b[i..i + |pat|];
    }
  }

  /** A line ends a, so no occurrence of a one-line pattern reaches from a into what follows. */
  lemma NoneAcrossLine(a: string, b: string, pat: string, i: nat)
    requires OneLine(pat) && a != [] && a[|a| - 1] == '\n' && i < |a| < i + |pat|
    ensures !OccursAt(a + b, pat, i)
  {
    if i + |pat| <= |a + b| {
      assert (a + b)[i..i + |pat|][|a| - 1 - i] == '\n';
    }
  }

  predicate EndsLine(a: string) {
    a == [] || a[|a| - 1] == '\n'
  }

  /** Behind complete lines without the pattern, the search goes on where they end. */
  lemma IndexBehindLines(a: string, b: string, pat: string)
    requires OneLine(pat) && EndsLine(a) && Absent(a, pat) && pat != []
    ensures Index(a + b, pat) == if Index(b, pat) == -1 then -1 else |a| + Index(b, pat)
  {
    forall i | 0 <= i < |a|
      ensures !OccursAt(a + b, pat, i)
    {
      if i + |pat| <= |a| { OccursInFront(a, b, pat, i); } else { NoneAcrossLine(a, b, pat, i); }
    }
    IndexBehindNone(a, b, pat);
  }

  lemma IndexBehindNone(a: string, b: string, pat: string)
    requires forall i :: 0 <= i < |a| ==> !OccursAt(a + b, pat, i)
    ensures Index(a + b, pat) == if Index(b, pat) == -1 then -1 else |a| + Index(b, pat)
  {
    hide OccursAt, Index;
    forall i | 0 <= i <= |b|
      ensures OccursAt(a + b, pat, |a| + i) <==> OccursAt(b, pat, i)
    {
      OccursBehind(a, b, pat, i);
    }
    if Index(b, pat) == -1 {
      forall i | 0 <= i <= |a + b|
        ensures !OccursAt(a + b, pat, i)
      {
        if i >= |a| { assert OccursAt(a + b, pat, |a| + (i - |a|)) <==> OccursAt(b, pat, i - |a|); }
      }
    } else {
      var r := Index(b, pat);
      OccursInside(b, pat, r);
      forall j | 0 <= j < |a| + r
        ensures !OccursAt(a + b, pat, j)
      {
        if j >= |a| { assert OccursAt(a + b, pat, |a| + (j - |a|)) <==> OccursAt(b, pat, j - |a|); }
      }
      IndexIs(a + b, pat, |a| + r);
    }
  }

  // ----- The section -------------------------------------------------------------------

  /** strings.Trim(s, "\n") */
  function Trim(s: string): (t: string)
    ensures t == [] || (t[0] != '\n' && t[|t| - 1] != '\n')
    decreases |s|
  {
    if s == [] then []
    else if s[0] == '\n' then Trim(s[1..])
    else if s[|s| - 1] == '\n' then Trim(s[..|s| - 1])
    else s
  }

  datatype Block = NoBlock | EndMissing | Found(text: string)

  /** managedBlock: the end marker is searched behind the begin marker. */
  function Managed(s: string): Block {
    var bi := Index(s, BEGIN);
    if bi < 0 then NoBlock
    else
      var rest := s[bi + |BEGIN|..];
      var ei := Index(rest, END);
      if ei < 0 then EndMissing else Found(Trim(rest[..ei]))
  }

  datatype Edit = Refused | Edited(text: string)

  function Section(block: string): string {
    BEGIN + ("\n" + block + "\n") + END
  }

  function WithFinalNewline(s: string): string {
    if s != [] && s[|s| - 1] != '\n' then s + "\n" else s
  }

  /** spliceManagedBlock: the end marker is searched from the begin marker on. */
  function Splice(s: string, block: string): Edit {
    var bi := Index(s, BEGIN);
    if bi < 0 then Edited(WithFinalNewline(s) + "\n" + Section(block) + "\n")
    else
      var ei := Index(s[bi..], END);
      if ei < 0 then Refused else Edited(s[..bi] + Section(block) + s[bi + ei + |END|..])
  }

  function TrimSuffixNewline(s: string): string {
    if s != [] && s[|s| - 1] == '\n' then s[..|s| - 1] else s
  }

  /** removeManagedBlock */
  function Remove(s: string): Edit {
    var bi := Index(s, BEGIN);
    if bi < 0 then Edited(s)
    else
      var ei := Index(s[bi..], END);
      if ei < 0 then Refused else Edited(TrimSuffixNewline(s[..bi]) + s[bi + ei + |END|..])
  }

  // ----- The laws --------------------------------------------------------------------------

  /** What the installer renders: no end marker inside, no newline at either end. */
  predicate CleanBlock(block: string) {
    Absent(block, END) && (block == [] || (block[0] != '\n' && block[|block| - 1] != '\n'))
  }

  lemma NoEndInsideBegin(rest: string, i: nat)
    requires i < |BEGIN|
    ensures !OccursAt(BEGIN + rest, END, i)
  {
    MarkerFacts();
    hide BEGIN, END;
    if i + |END| <= |BEGIN + rest| {
      assert (BEGIN + rest)[i..i + |END|][0] == BEGIN[i];
      assert i == 0 ==> (BEGIN + rest)[i..i + |END|][2] == BEGIN[2];
    }
  }

  /** The two searches for the end marker find the same place, whatever the file holds. */
  lemma EndSearchesAgree(s: string)
    requires Index(s, BEGIN) >= 0
    ensures var bi := Index(s, BEGIN); var behind := Index(s[bi + |BEGIN|..], END);
            Index(s[bi..], END) == if behind == -1 then -1 else |BEGIN| + behind
  {
    hide Index, BEGIN, END;
    var bi := Index(s, BEGIN);
    var rest := s[bi + |BEGIN|..];
    assert s[bi..] == BEGIN + rest by {
      assert OccursAt(s, BEGIN, bi);
      assert s[bi..bi + |BEGIN|] + rest == s[bi..];
    }
    forall i | 0 <= i < |BEGIN|
      ensures !OccursAt(BEGIN + rest, END, i)
    {
      NoEndInsideBegin(rest, i);
    }
    IndexBehindNone(BEGIN, rest, END);
  }

  /** pre can stand in front of a section: the section's begin marker is the first one. */
  predicate FrontOf(pre: string) {
    Index(pre + BEGIN, BEGIN) == |pre|
  }

  lemma FrontStays(pre: string, rest: string)
    requires FrontOf(pre)
    ensures Index((pre + BEGIN) + rest, BEGIN) == |pre|
  {
    hide Index, BEGIN, OccursAt;
    forall i | 0 <= i <= |pre|
      ensures OccursAt((pre + BEGIN) + rest, BEGIN, i) <==> OccursAt(pre + BEGIN, BEGIN, i)
    {
      OccursInFront(pre + BEGIN, rest, BEGIN, i);
    }
    IndexIs((pre + BEGIN) + rest, BEGIN, |pre|);
  }

  lemma BodyEnds(block: string, post: string)
    requires CleanBlock(block)
    ensures Index(("\n" + block + "\n") + (END + post), END) == |block| + 2
  {
    MarkerFacts();
    hide BEGIN, END;
    var body := "\n" + block + "\n";
    forall i | 0 <= i <= |body|
      ensures !OccursAt(body, END, i)
    {
      BodyHasNoEnd(block, i);
    }
    OccursAtStart(END, post);
    hide OccursAt, Index;
    IndexBehindLines(body, END + post, END);
    IndexIs(END + post, END, 0);
  }

  lemma OccursAtStart(pat: string, post: string)
    ensures OccursAt(pat + post, pat, 0)
  {
    assert (pat + post)[0..|pat|] == pat;
  }

  lemma BodyHasNoEnd(block: string, i: nat)
    requires CleanBlock(block)
    ensures !OccursAt("\n" + block + "\n", END, i)
  {
    MarkerFacts();
    hide BEGIN, END;
    var body := "\n" + block + "\n";
    if i + |END| <= |body| {
      assert body[i..i + |END|][0] == body[i];
      assert body[i..i + |END|][|END| - 1] == body[i + |END| - 1];
      if 0 < i && i + |END| < |body| {
        assert body[i..i + |END|] == block[i - 1..i - 1 + |END|];
        assert !OccursAt(block, END, i - 1);
      }
    }
  }

  lemma TrimBody(block: string)
    requires block == [] || (block[0] != '\n' && block[|block| - 1] != '\n')
    ensures Trim("\n" + block + "\n") == block
  {
    assert ("\n" + block + "\n")[1..] == block + "\n";
    TrimEnd(block);
  }

  lemma TrimEnd(block: string)
    requires block == [] || (block[0] != '\n' && block[|block| - 1] != '\n')
    ensures Trim(block + "\n") == block
  {
    if block == [] {
      assert (block + "\n")[1..] == [];
    } else {
      assert (block + "\n")[..|block + "\n"| - 1] == block;
    }
  }

  /** A text with a section in it, and where its parts start. */
  function Marked(pre: string, block: string, post: string): string {
    pre + Section(block) + post
  }

  lemma MarkedParts(pre: string, block: string, post: string)
    requires FrontOf(pre) && CleanBlock(block)
    ensures var t := Marked(pre, block, post); var n := |pre| + |BEGIN|;
            && Index(t, BEGIN) == |pre| && n <= |t|
            && t[..|pre|] == pre
            && t[n..] == ("\n" + block + "\n") + (END + post)
            && Index(t[n..], END) == |block| + 2
            && Index(t[|pre|..], END) == |BEGIN| + |block| + 2
            && |pre| + |BEGIN| + |block| + 2 + |END| <= |t|
            && t[|pre| + |BEGIN| + |block| + 2 + |END|..] == post
  {
    hide Index, BEGIN, END, OccursAt;
    var t := Marked(pre, block, post);
    var body := "\n" + block + "\n";
    assert t == (pre + BEGIN) + (body + (END + post));
    FrontStays(pre, body + (END + post));
    BodyEnds(block, post);
    EndSearchesAgree(t);
  }

  /** Reading back, splicing again and removing, for any text with a section in it. */
  lemma MarkedLaws(pre: string, block: string, post: string, other: string)
    requires FrontOf(pre) && CleanBlock(block)
    ensures Managed(Marked(pre, block, post)) == Found(block)
    ensures Splice(Marked(pre, block, post), other) == Edited(Marked(pre, other, post))
    ensures Remove(Marked(pre, block, post)) == Edited(TrimSuffixNewline(pre) + post)
  {
    hide Index, BEGIN, END, OccursAt, Section, Marked, Trim;
    MarkedParts(pre, block, post);
    TrimBody(block);
    var t := Marked(pre, block, post);
    assert t[|pre| + |BEGIN|..][..|block| + 2] == "\n" + block + "\n";
    MarkedIs(pre, other, post);
  }

  lemma MarkedIs(pre: string, block: string, post: string)
    ensures Marked(pre, block, post) == pre + Section(block) + post
  {}

  datatype Outside = Outside(pre: string, post: string)

  /** Everything in the file that is not the section; a first splice appends one behind a blank line. */
  function OutsideOf(s: string): Outside
    requires Splice(s, "").Edited?
  {
    var bi := Index(s, BEGIN);
    if bi < 0 then Outside(WithFinalNewline(s) + "\n", "\n")
    else Outside(s[..bi], s[bi + Index(s[bi..], END) + |END|..])
  }

  /** Whether a splice is refused does not depend on the block, and an accepted one replaces the section only. */
  lemma SpliceForm(s: string, block: string)
    ensures Splice(s, block).Refused? <==> Managed(s).EndMissing?
    ensures Remove(s).Refused? <==> Managed(s).EndMissing?
    ensures Splice(s, "").Edited? ==>
              var o := OutsideOf(s);
              FrontOf(o.pre) && Splice(s, block) == Edited(Marked(o.pre, block, o.post))
  {
    hide Index, BEGIN, END, OccursAt, Section, Trim;
    var bi := Index(s, BEGIN);
    if bi >= 0 {
      EndSearchesAgree(s);
      FirstMarkerFront(s);
    } else {
      AppendFront(s);
    }
  }

  lemma FirstMarkerFront(s: string)
    requires Index(s, BEGIN) >= 0
    ensures FrontOf(s[..Index(s, BEGIN)])
  {
    hide Index, BEGIN;
    var bi := Index(s, BEGIN);
    var front := s[..bi] + BEGIN;
    var rest := s[bi + |BEGIN|..];
    assert s == front + rest by {
      assert OccursAt(s, BEGIN, bi);
    }
    forall i | 0 <= i <= bi
      ensures OccursAt(front, BEGIN, i) <==> OccursAt(s, BEGIN, i)
    {
      OccursInFront(front, rest, BEGIN, i);
    }
    hide OccursAt;
    IndexIs(front, BEGIN, bi);
  }

  lemma AppendFront(s: string)
    requires Absent(s, BEGIN)
    ensures FrontOf(WithFinalNewline(s) + "\n") && Absent(WithFinalNewline(s) + "\n", BEGIN)
  {
    MarkerFacts();
    hide BEGIN, END, Index;
    var lines := WithFinalNewline(s) + "\n";
    forall i | 0 <= i <= |lines|
      ensures !OccursAt(lines, BEGIN, i)
    {
      if i + |BEGIN| <= |s| {
        assert lines == s + lines[|s|..];
        OccursInFront(s, lines[|s|..], BEGIN, i);
        assert !OccursAt(s, BEGIN, i);
      } else if i + |BEGIN| <= |lines| {
        assert lines[i..i + |BEGIN|][|BEGIN| - 1] == lines[i + |BEGIN| - 1] == '\n';
      }
    }
    IndexBehindLines(lines, BEGIN, BEGIN);
    OccursAtStart(BEGIN, []);
    Whole(BEGIN);
    IndexIs(BEGIN, BEGIN, 0);
  }

  /** Reading back a splice returns the block. */
  lemma ReadUndoesSplice(s: string, block: string)
    requires CleanBlock(block) && !Managed(s).EndMissing?
    ensures Splice(s, block).Edited? && Managed(Splice(s, block).text) == Found(block)
  {
    hide *;
    SpliceForm(s, block);
    SpliceForm(s, "");
    MarkedLaws(OutsideOf(s).pre, block, OutsideOf(s).post, "");
  }

  /** A later splice overwrites an earlier one and keeps everything outside the section. */
  lemma SpliceOverwrites(s: string, first: string, second: string)
    requires CleanBlock(first) && !Managed(s).EndMissing?
    ensures Splice(s, first).Edited? && Splice(Splice(s, first).text, second) == Splice(s, second)
    ensures Splice(s, "").Edited? && Splice(Splice(s, first).text, "").Edited?
    ensures CleanBlock(second) ==> OutsideOf(Splice(s, first).text) == OutsideOf(s)
  {
    SpliceForm(s, first);
    SpliceForm(s, second);
    SpliceForm(s, "");
    var o := OutsideOf(s);
    hide *;
    MarkedLaws(o.pre, first, o.post, second);
    MarkedLaws(o.pre, first, o.post, "");
    MarkedOutside(o.pre, first, o.post);
  }

  lemma MarkedOutside(pre: string, block: string, post: string)
    requires FrontOf(pre) && CleanBlock(block)
    ensures Splice(Marked(pre, block, post), "").Edited? && OutsideOf(Marked(pre, block, post)) == Outside(pre, post)
  {
    hide Index, BEGIN, END, OccursAt, Section, Marked;
    MarkedParts(pre, block, post);
  }

  /** Removing a first splice restores the newline-terminated file plus exactly one newline. */
  lemma RemoveUndoesFirstSplice(s: string, block: string)
    requires CleanBlock(block) && Managed(s).NoBlock?
    ensures Splice(s, block).Edited? && Remove(Splice(s, block).text) == Edited(WithFinalNewline(s) + "\n")
  {
    SpliceForm(s, block);
    SpliceForm(s, "");
    var o := OutsideOf(s);
    assert o == Outside(WithFinalNewline(s) + "\n", "\n");
    hide *;
    MarkedLaws(o.pre, block, o.post, "");
    TrimAppended(WithFinalNewline(s));
  }

  // ----- At most one pair of markers -------------------------------------------------------

  /** At most one section: removing it leaves none. A begin marker without an end is refused anyway. */
  predicate Single(s: string) {
    Managed(s).Found? ==> Remove(s).Edited? && Managed(Remove(s).text).NoBlock?
  }

  lemma RemoveEmpties(s: string)
    requires Single(s) && !Managed(s).EndMissing?
    ensures Remove(s).Edited? && Managed(Remove(s).text).NoBlock? && Single(Remove(s).text)
  {
    SpliceForm(s, "");
  }

  lemma SpliceKeepsSingle(s: string, block: string)
    requires Single(s) && CleanBlock(block) && !Managed(s).EndMissing?
    ensures Splice(s, block).Edited? && Single(Splice(s, block).text) && Managed(Splice(s, block).text) == Found(block)
  {
    ReadUndoesSplice(s, block);
    if Managed(s).NoBlock? {
      RemoveUndoesFirstSplice(s, block);
      AppendStaysEmpty(s);
    } else {
      SameRemainder(s, block);
    }
  }

  lemma AppendStaysEmpty(s: string)
    requires Managed(s).NoBlock?
    ensures Managed(WithFinalNewline(s) + "\n").NoBlock?
  {
    AppendFront(s);
  }

  /** What is left without the section does not depend on the block in it. */
  lemma SameRemainder(s: string, block: string)
    requires Managed(s).Found? && CleanBlock(block)
    ensures Splice(s, block).Edited? && Remove(Splice(s, block).text) == Remove(s)
  {
    SpliceForm(s, block);
    SpliceForm(s, "");
    assert Remove(s) == Edited(TrimSuffixNewline(OutsideOf(s).pre) + OutsideOf(s).post);
    hide *;
    MarkedLaws(OutsideOf(s).pre, block, OutsideOf(s).post, "");
  }

  lemma TrimAppended(s: string)
    ensures TrimSuffixNewline(s + "\n") == s
  {
    assert (s + "\n")[..|s|] == s;
  }

  /** What is read from a file is clean, so it can be spliced back in. */
  lemma ReadIsClean(s: string)
    requires Managed(s).Found?
    ensures CleanBlock(Managed(s).text)
  {
    OccursInside(s, BEGIN, Index(s, BEGIN));
    hide Index, BEGIN, END, Trim;
    var rest := s[Index(s, BEGIN) + |BEGIN|..];
    var ei := Index(rest, END);
    MarkerFacts();
    AbsentInFront(rest, END, ei);
    AbsentTrimmed(rest[..ei], END);
  }

  lemma AbsentInFront(s: string, pat: string, n: nat)
    requires n <= |s| && pat != [] && forall j :: 0 <= j < n ==> !OccursAt(s, pat, j)
    ensures Absent(s[..n], pat)
  {
    forall i | 0 <= i <= n
      ensures !OccursAt(s[..n], pat, i)
    {
      if i + |pat| <= n {
        SplitAt(s, n);
        OccursInFront(s[..n], s[n..], pat, i);
      }
    }
  }

  lemma {:induction false} AbsentTrimmed(s: string, pat: string)
    requires Absent(s, pat) && pat != []
    ensures Absent(Trim(s), pat)
    decreases |s|
  {
    hide OccursAt;
    if s != [] {
      if s[0] == '\n' {
        AbsentBehind(s, pat);
        AbsentTrimmed(s[1..], pat);
      } else if s[|s| - 1] == '\n' {
        AbsentInFront(s, pat, |s| - 1);
        AbsentTrimmed(s[..|s| - 1], pat);
      }
    }
  }

  lemma AbsentBehind(s: string, pat: string)
    requires s != [] && Absent(s, pat)
    ensures Absent(s[1..], pat)
  {
    forall i | 0 <= i <= |s| - 1
      ensures !OccursAt(s[1..], pat, i)
    {
      SplitAt(s, 1);
      OccursBehind(s[..1], s[1..], pat, i);
      assert !OccursAt(s, pat, 1 + i);
    }
  }
}
