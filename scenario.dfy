/**
  The situation the plugin's own test sets up: a work without a final
  catalogue identifier, five pages without `_urn`, six tokens of which the
  first two are 300006252 and 300006253, a `master` folder holding
  `00000001.tif` and a `media` folder holding `00000001.jpg` for the first
  page. The test's metadata file is not part of this model, so the work is
  covered both without an identifier and with one that is not final; any
  number of pages without `_urn` take the tokens after the work's in page
  order; the first page is then followed through to its new name and files.
  The lemmas are stated for any names, extensions and tokens; the test's
  values are one instance.
 */
module Scenario {
  import opened Names
  import opened Mets
  import opened Storage
  import opened Assignment
  import opened PageLoop
  import opened OidStep

  /** A rule set that lets the work, the physical root and the pages take their identifiers. */
  function TestRules(): RuleSet
  {
    RuleSet({(LogicalRoot, CatalogIdDigital), (PhysicalRoot, Urn), (PageNode, Urn)}, {}, true)
  }

  /** A work without an identifier needs one, and takes the first token, as its decimal text, in a new field. */
  lemma {:induction false} TestWorkAbsent(tokens: seq<nat>)
    requires tokens != []
    ensures WorkNeeded([])
    ensures NewLogical([], tokens, TestRules()) == [Metadata(CatalogIdDigital, Decimal(tokens[0]))]
  {
    assert FirstIndex([], CatalogIdDigital) == -1;
  }

  /** A work whose identifier is not final needs one, and its identifier is replaced by the first token's text. */
  lemma {:induction false} TestWorkReplaced(value: string, tokens: seq<nat>)
    requires !IsFinalWorkId(value) && tokens != []
    ensures WorkNeeded([Metadata(CatalogIdDigital, value)])
    ensures NewLogical([Metadata(CatalogIdDigital, value)], tokens, TestRules()) == [Metadata(CatalogIdDigital, Decimal(tokens[0]))]
  {
    assert FirstIndex([Metadata(CatalogIdDigital, value)], CatalogIdDigital) == 0;
  }

  /**
    Pages that all lack `_urn`, with the cursor at 1 after the work and a
    token for each: page `k` takes token `k + 1`, and the renames follow in
    page order with each page's file name.
   */
  lemma {:induction false} FreshPagesInOrder(pages: seq<Page>, tokens: seq<nat>, rules: RuleSet)
    requires UrnAllowed(rules) && |pages| + 1 <= |tokens|
    requires forall k :: 0 <= k < |pages| ==> !HasUrn(pages[k])
    ensures MissingUrns(pages) == |pages|
    ensures forall k :: 0 <= k < |pages| ==>
      && NewPages(pages, tokens, 1, rules)[k] == AssignedPage(pages[k], tokens[k + 1])
      && Renames(pages, tokens, 1, rules)[k] == Job(FileName(pages[k].imageName), tokens[k + 1])
  {
    MissingUrnsExtremes(pages);
    forall k | 0 <= k < |pages|
      ensures AssignFrom(pages, tokens, 1)[k] == AssignedPage(pages[k], tokens[k + 1])
      ensures Jobs(pages, tokens, 1)[k] == Job(FileName(pages[k].imageName), tokens[k + 1])
    {
      FreshPageAt(pages, tokens, k);
    }
  }

  /** Page `k` of pages that all lack `_urn` takes token `k + 1`, and its rename is the `k`-th. */
  lemma {:induction false} FreshPageAt(pages: seq<Page>, tokens: seq<nat>, k: nat)
    requires k < |pages| && |pages| + 1 <= |tokens| && MissingUrns(pages) == |pages|
    requires forall j :: 0 <= j < |pages| ==> !HasUrn(pages[j])
    ensures AssignFrom(pages, tokens, 1)[k] == AssignedPage(pages[k], tokens[k + 1])
    ensures Jobs(pages, tokens, 1)[k] == Job(FileName(pages[k].imageName), tokens[k + 1])
  {
    var prefix := pages[..k];
    assert forall j :: 0 <= j < |prefix| ==> !HasUrn(prefix[j]);
    MissingUrnsExtremes(prefix);
    AssignFromAt(pages, tokens, 1, k, 1 + k);
    JobAt(pages, tokens, 1, k, k);
  }

  /** A single page `<base>.<ext>` without `_urn`, with the cursor at 1, is renamed once, by the second token. */
  lemma {:induction false} OnePageJobs(base: string, ext: string, tokens: seq<nat>, rules: RuleSet)
    requires '/' !in base && '/' !in ext && |tokens| == 2 && UrnAllowed(rules)
    ensures var pages := [Page(base + "." + ext, [])];
      && MissingUrns(pages) == 1
      && Renames(pages, tokens, 1, rules) == [Job(base + "." + ext, tokens[1])]
  {
    var name := base + "." + ext;
    var pages := [Page(name, [])];
    assert !HasUrn(pages[0]);
    MissingUrnsStep(pages, 0);
    assert pages[..1] == pages && pages[..0] == [];
    JobsSnocFresh(pages, tokens, 1, 0, 1);
    assert '/' !in name;
  }

  /** A page `<base>.<ext>` without metadata, given token `oid`, is named `<oid>.<ext>` and carries `_urn` `oid`. */
  lemma {:induction false} FreshPageAssigned(base: string, ext: string, oid: nat)
    requires '.' !in ext && '/' !in base && '/' !in ext
    ensures var d := Decimal(oid);
      AssignedPage(Page(base + "." + ext, []), oid) == Page(Dotted(d, ext), [Metadata(Urn, d)])
  {
    var name := base + "." + ext;
    assert '/' !in name;
    SplitJoin(base, ext);
    var m := [Metadata(Urn, Decimal(oid))];
    assert [] + m == m;
  }

  /** The assignment of that page alone, from cursor 1. */
  lemma {:induction false} OnePageAssignFrom(base: string, ext: string, tokens: seq<nat>)
    requires '.' !in ext && '/' !in base && '/' !in ext && |tokens| == 2
    requires MissingUrns([Page(base + "." + ext, [])]) == 1
    ensures var d := Decimal(tokens[1]);
      AssignFrom([Page(base + "." + ext, [])], tokens, 1) == [Page(Dotted(d, ext), [Metadata(Urn, d)])]
  {
    var pages := [Page(base + "." + ext, [])];
    var d := Decimal(tokens[1]);
    assert pages[..0] == [];
    assert !HasUrn(pages[0]);
    AssignFromAt(pages, tokens, 1, 0, 1);
    FreshPageAssigned(base, ext, tokens[1]);
    var r := AssignFrom(pages, tokens, 1);
    var want := [Page(Dotted(d, ext), [Metadata(Urn, d)])];
    assert |r| == |want| && r[0] == want[0];
  }

  /** That page takes the second token as `_urn` and is named `<token>.<ext>`. */
  lemma {:induction false} OnePagePages(base: string, ext: string, tokens: seq<nat>, rules: RuleSet)
    requires '.' !in ext && '/' !in base && '/' !in ext && |tokens| == 2 && UrnAllowed(rules)
    ensures var pages := [Page(base + "." + ext, [])];
      var d := Decimal(tokens[1]);
      MissingUrns(pages) == 1 && NewPages(pages, tokens, 1, rules) == [Page(Dotted(d, ext), [Metadata(Urn, d)])]
  {
    OnePageJobs(base, ext, tokens, rules);
    OnePageAssignFrom(base, ext, tokens);
  }

  /** A folder holding only the listed file `<base>.<ext>` ends up holding only `<oid>.<ext>`. */
  lemma {:induction false} RenamedSingle(base: string, ext: string, oid: string)
    requires '.' !in ext
    ensures var f := base + "." + ext;
      Renamed({f}, [f], base, oid) == {Dotted(oid, ext)}
  {
    var f := base + "." + ext;
    SplitJoin(base, ext);
    assert Matched({f}, [f], base) == {f};
    assert Targets({f}, oid) == {Target(f, oid)};
  }

  /** Two folders, each holding only a file with base `base`, each hold only `<oid>.<that file's extension>` afterwards. */
  lemma {:induction false} TwoFoldersRenamed(base: string, m1: string, e1: string, m2: string, e2: string, oid: string)
    requires '.' !in e1 && '.' !in e2 && m1 != m2
    ensures RenamedAll(map[m1 := {base + "." + e1}, m2 := {base + "." + e2}], map[m1 := [base + "." + e1], m2 := [base + "." + e2]], base, oid)
         == map[m1 := {Dotted(oid, e1)}, m2 := {Dotted(oid, e2)}]
  {
    var folders := map[m1 := {base + "." + e1}, m2 := {base + "." + e2}];
    var listing := map[m1 := [base + "." + e1], m2 := [base + "." + e2]];
    RenamedSingle(base, e1, oid);
    RenamedSingle(base, e2, oid);
    var after := RenamedAll(folders, listing, base, oid);
    assert folders[m1] == {base + "." + e1} && listing[m1] == [base + "." + e1];
    assert folders[m2] == {base + "." + e2} && listing[m2] == [base + "." + e2];
    assert folders.Keys == {m1, m2};
    MapOfTwo(after, m1, {Dotted(oid, e1)}, m2, {Dotted(oid, e2)});
  }

  /** A map with exactly two keys is the display of its two entries. */
  lemma {:induction false} MapOfTwo(a: map<string, set<string>>, m1: string, v1: set<string>, m2: string, v2: set<string>)
    requires m1 != m2 && a.Keys == {m1, m2} && a[m1] == v1 && a[m2] == v2
    ensures a == map[m1 := v1, m2 := v2]
  {
    var want := map[m1 := v1, m2 := v2];
    forall k | k in a
      ensures a[k] == want[k]
    {
      assert k == m1 || k == m2;
    }
  }

  /**
    With that page and two folders each holding the page's file with its
    own extension (the test's `master` with `tif` and `media` with `jpg`),
    both files end up named after the second token, each keeping its
    extension.
   */
  lemma {:induction false} OnePageFolders(base: string, ext: string, m1: string, e1: string, m2: string, e2: string,
                                          tokens: seq<nat>, rules: RuleSet)
    requires '.' !in ext && '.' !in e1 && '.' !in e2 && '/' !in base && '/' !in ext && m1 != m2
    requires |tokens| == 2 && UrnAllowed(rules)
    ensures var pages := [Page(base + "." + ext, [])];
      var d := Decimal(tokens[1]);
      MissingUrns(pages) == 1
      && ApplyJobs(map[m1 := {base + "." + e1}, m2 := {base + "." + e2}], map[m1 := [base + "." + e1], m2 := [base + "." + e2]],
                   Renames(pages, tokens, 1, rules))
         == map[m1 := {Dotted(d, e1)}, m2 := {Dotted(d, e2)}]
  {
    var job := Job(base + "." + ext, tokens[1]);
    OnePageJobs(base, ext, tokens, rules);
    SplitJoin(base, ext);
    assert [job][..0] == [];
    assert SplitName(job.fileName).base == base;
    TwoFoldersRenamed(base, m1, e1, m2, e2, Decimal(tokens[1]));
  }
}
