/**
  What the assignment loop of the OID step produces, stated as functions of
  the pages before the loop, the fetched tokens and the cursor's start: the
  pages after assignment, the renames the loop performs in page order, the
  folders after those renames and the content-file locations after them.
 */
module Assignment {
  import opened Names
  import opened Mets
  import opened Storage

  /** One page that received an identifier: its file name before the rename and its token. */
  datatype Job = Job(fileName: string, oid: nat)

  /** The base and the extension of a page's image file name. */
  function PageParts(p: Page): NameParts
  {
    SplitName(FileName(p.imageName))
  }

  /** A page after it took token `oid`: a new `_urn` and the image name `<oid>.<its extension>`. */
  function AssignedPage(p: Page, oid: nat): Page
  {
    Page(Dotted(Decimal(oid), PageParts(p).ext), p.metadata + [Metadata(Urn, Decimal(oid))])
  }

  /**
    The page at position `k` after the loop, when the cursor starts at `c`:
    unchanged if it had `_urn`, otherwise assigned the token at the cursor's
    start plus the number of pages before it that lacked `_urn`.
   */
  function PageAfter(pages: seq<Page>, tokens: seq<nat>, c: nat, k: nat): Page
    requires k < |pages|
    requires HasUrn(pages[k]) || c + MissingUrns(pages[..k]) < |tokens|
  {
    if HasUrn(pages[k]) then pages[k] else AssignedPage(pages[k], tokens[c + MissingUrns(pages[..k])])
  }

  /** The pages after the loop, when the cursor starts at `c` and no page runs out of tokens. */
  function AssignFrom(pages: seq<Page>, tokens: seq<nat>, c: nat): (r: seq<Page>)
    requires c + MissingUrns(pages) <= |tokens|
    ensures |r| == |pages|
  {
    seq(|pages|, k requires 0 <= k < |pages| => PrefixFits(pages, tokens, c, k); PageAfter(pages, tokens, c, k))
  }

  /** The renames the loop performs, in page order. */
  function Jobs(pages: seq<Page>, tokens: seq<nat>, c: nat): (r: seq<Job>)
    requires c + MissingUrns(pages) <= |tokens|
    ensures |r| == MissingUrns(pages)
  {
    if pages == [] then []
    else
      var init := pages[..|pages| - 1];
      var last := pages[|pages| - 1];
      Jobs(init, tokens, c) + if HasUrn(last) then [] else [Job(FileName(last.imageName), tokens[c + MissingUrns(init)])]
  }

  /** The folders after the given renames, each renaming by the listing taken before the first. */
  function ApplyJobs(folders: map<string, set<string>>, listing: Listing, jobs: seq<Job>): (r: map<string, set<string>>)
    ensures r.Keys == folders.Keys
  {
    if jobs == [] then folders
    else
      var job := jobs[|jobs| - 1];
      RenamedAll(ApplyJobs(folders, listing, jobs[..|jobs| - 1]), listing, SplitName(job.fileName).base, Decimal(job.oid))
  }

  /** The location a content file takes when its page is renamed: `file://<oid>.<ext>`. */
  function ContentLocation(job: Job): string
  {
    "file://" + Dotted(Decimal(job.oid), SplitName(job.fileName).ext)
  }

  /** Content-file locations whose last path element is `oldName` become `location`; the others stay. */
  function Mirrored(locations: seq<string>, oldName: string, location: string): (r: seq<string>)
    ensures |r| == |locations|
  {
    seq(|locations|, i requires 0 <= i < |locations| => if FileName(locations[i]) == oldName then location else locations[i])
  }

  /** The content-file locations after the given renames. */
  function MirrorJobs(locations: seq<string>, jobs: seq<Job>): (r: seq<string>)
    ensures |r| == |locations|
  {
    if jobs == [] then locations
    else
      var job := jobs[|jobs| - 1];
      Mirrored(MirrorJobs(locations, jobs[..|jobs| - 1]), job.fileName, ContentLocation(job))
  }

  /** The cursor never goes past the tokens: every page before `k` leaves room for the pages from `k` on. */
  lemma {:induction false} PrefixFits(pages: seq<Page>, tokens: seq<nat>, c: nat, k: nat)
    requires c + MissingUrns(pages) <= |tokens|
    requires k < |pages|
    ensures c + MissingUrns(pages[..k]) + (if HasUrn(pages[k]) then 0 else 1) <= |tokens|
  {
    MissingUrnsPrefix(pages, k);
  }

  /** An assigned page carries `_urn`: the field appended after its old metadata. */
  lemma {:induction false} AssignedPageHasUrn(p: Page, oid: nat)
    ensures HasUrn(AssignedPage(p, oid))
  {
    assert AssignedPage(p, oid).metadata[|p.metadata|].mdType == Urn;
  }

  /** Every page carries `_urn` after assignment: it had one, or it was just given one. */
  lemma {:induction false} AssignedHasUrn(pages: seq<Page>, tokens: seq<nat>, c: nat, k: nat)
    requires c + MissingUrns(pages) <= |tokens|
    requires k < |pages|
    ensures HasUrn(AssignFrom(pages, tokens, c)[k])
  {
    PrefixFits(pages, tokens, c, k);
    if !HasUrn(pages[k]) {
      AssignedPageHasUrn(pages[k], tokens[c + MissingUrns(pages[..k])]);
    }
  }

  /** After assignment every page carries `_urn`, so the pages need nothing more. */
  lemma {:induction false} AssignFromComplete(pages: seq<Page>, tokens: seq<nat>, c: nat)
    requires c + MissingUrns(pages) <= |tokens|
    ensures forall k :: 0 <= k < |pages| ==> HasUrn(AssignFrom(pages, tokens, c)[k])
    ensures MissingUrns(AssignFrom(pages, tokens, c)) == 0
  {
    forall k | 0 <= k < |pages| ensures HasUrn(AssignFrom(pages, tokens, c)[k]) {
      AssignedHasUrn(pages, tokens, c, k);
    }
    MissingUrnsExtremes(AssignFrom(pages, tokens, c));
  }

  /** Among the pages that lack `_urn`, a later page takes a later token: tokens go out in page order. */
  lemma {:induction false} TokensInPageOrder(pages: seq<Page>, k1: nat, k2: nat)
    requires k1 < k2 < |pages|
    requires !HasUrn(pages[k1])
    ensures MissingUrns(pages[..k1]) < MissingUrns(pages[..k2])
  {
    var front := pages[..k2];
    assert front[..k1] == pages[..k1];
    assert front[k1] == pages[k1];
    MissingUrnsPrefix(front, k1);
  }

  /** A page given an identifier is named after its token: the base of its new image name is the token's text. */
  lemma {:induction false} AssignedName(pages: seq<Page>, tokens: seq<nat>, c: nat, k: nat)
    requires c + MissingUrns(pages) <= |tokens|
    requires k < |pages| && !HasUrn(pages[k])
    ensures c + MissingUrns(pages[..k]) < |tokens|
    ensures SplitName(AssignFrom(pages, tokens, c)[k].imageName).base == Decimal(tokens[c + MissingUrns(pages[..k])])
  {
    PrefixFits(pages, tokens, c, k);
    AssignedPageBase(pages[k], tokens[c + MissingUrns(pages[..k])]);
  }

  /** With distinct tokens, two pages that were assigned in the same run get distinct image names. */
  lemma {:induction false} DistinctTokensDistinctNames(pages: seq<Page>, tokens: seq<nat>, c: nat, k1: nat, k2: nat)
    requires c + MissingUrns(pages) <= |tokens|
    requires forall i, j :: 0 <= i < j < |tokens| ==> tokens[i] != tokens[j]
    requires k1 < k2 < |pages| && !HasUrn(pages[k1]) && !HasUrn(pages[k2])
    ensures c + MissingUrns(pages[..k1]) < |tokens| && c + MissingUrns(pages[..k2]) < |tokens|
    ensures PageAfter(pages, tokens, c, k1).imageName != PageAfter(pages, tokens, c, k2).imageName
  {
    TokensInPageOrder(pages, k1, k2);
    PrefixFits(pages, tokens, c, k1);
    PrefixFits(pages, tokens, c, k2);
    var i1, i2 := c + MissingUrns(pages[..k1]), c + MissingUrns(pages[..k2]);
    assert tokens[i1] != tokens[i2];
    PagesAfterDiffer(pages, tokens, c, k1, k2, i1, i2);
  }

  /** Two pages that take different tokens, at cursor positions `i1` and `i2`, end up with different image names. */
  lemma {:induction false} PagesAfterDiffer(pages: seq<Page>, tokens: seq<nat>, c: nat, k1: nat, k2: nat, i1: nat, i2: nat)
    requires k1 < |pages| && k2 < |pages| && !HasUrn(pages[k1]) && !HasUrn(pages[k2])
    requires i1 == c + MissingUrns(pages[..k1]) && i2 == c + MissingUrns(pages[..k2])
    requires i1 < |tokens| && i2 < |tokens| && tokens[i1] != tokens[i2]
    ensures PageAfter(pages, tokens, c, k1).imageName != PageAfter(pages, tokens, c, k2).imageName
  {
    PageAfterFresh(pages, tokens, c, k1, i1);
    PageAfterFresh(pages, tokens, c, k2, i2);
    AssignedPagesDiffer(pages[k1], pages[k2], tokens[i1], tokens[i2]);
  }

  /** A page without `_urn` leaves the loop assigned the token at its cursor position `i`. */
  lemma {:induction false} PageAfterFresh(pages: seq<Page>, tokens: seq<nat>, c: nat, k: nat, i: nat)
    requires k < |pages| && !HasUrn(pages[k])
    requires i == c + MissingUrns(pages[..k]) && i < |tokens|
    ensures PageAfter(pages, tokens, c, k) == AssignedPage(pages[k], tokens[i])
  {
  }

  /** A page without `_urn` is, after assignment, that page assigned the token at its cursor position `i`. */
  lemma {:induction false} AssignFromAt(pages: seq<Page>, tokens: seq<nat>, c: nat, k: nat, i: nat)
    requires c + MissingUrns(pages) <= |tokens|
    requires k < |pages| && !HasUrn(pages[k]) && i == c + MissingUrns(pages[..k])
    ensures i < |tokens|
    ensures AssignFrom(pages, tokens, c)[k] == AssignedPage(pages[k], tokens[i])
  {
    PrefixFits(pages, tokens, c, k);
    PageAfterFresh(pages, tokens, c, k, i);
  }

  /** Pages that took different tokens carry different image names, whatever their old names. */
  lemma {:induction false} AssignedPagesDiffer(p1: Page, p2: Page, t1: nat, t2: nat)
    requires t1 != t2
    ensures AssignedPage(p1, t1).imageName != AssignedPage(p2, t2).imageName
  {
    AssignedPageBase(p1, t1);
    AssignedPageBase(p2, t2);
    NamesOfDistinctTokens(AssignedPage(p1, t1).imageName, AssignedPage(p2, t2).imageName, t1, t2);
  }

  /** Names whose bases are the texts of two different tokens differ. */
  lemma {:induction false} NamesOfDistinctTokens(name1: string, name2: string, t1: nat, t2: nat)
    requires SplitName(name1).base == Decimal(t1) && SplitName(name2).base == Decimal(t2)
    requires t1 != t2
    ensures name1 != name2
  {
    DecimalInjective(t1, t2);
  }

  /** The base of an assigned page's new image name is the decimal text of its token. */
  lemma {:induction false} AssignedPageBase(p: Page, oid: nat)
    ensures SplitName(AssignedPage(p, oid).imageName).base == Decimal(oid)
  {
    SplitJoin(Decimal(oid), PageParts(p).ext);
  }

  /** The rename of the page at `k` is the job after those of the `m` pages before it that lacked `_urn`. */
  lemma {:induction false} JobAt(pages: seq<Page>, tokens: seq<nat>, c: nat, k: nat, m: nat)
    requires c + MissingUrns(pages) <= |tokens|
    requires k < |pages| && !HasUrn(pages[k]) && m == MissingUrns(pages[..k])
    ensures m < MissingUrns(pages) && c + m < |tokens|
    ensures Jobs(pages, tokens, c)[m] == Job(FileName(pages[k].imageName), tokens[c + m])
  {
    MissingUrnsPrefix(pages, k);
    var init := pages[..|pages| - 1];
    if k < |pages| - 1 {
      assert init[..k] == pages[..k];
      assert init[k] == pages[k];
      MissingUrnsPrefix(init, k);
      JobAt(init, tokens, c, k, m);
    } else {
      assert init == pages[..k];
    }
  }

  /** The pages once the loop has passed the first `i`: those assigned, the rest as they were. */
  function Assigned(pages: seq<Page>, tokens: seq<nat>, c: nat, i: nat): (r: seq<Page>)
    requires i <= |pages| && c + MissingUrns(pages[..i]) <= |tokens|
    ensures |r| == |pages|
  {
    if i == 0 then pages
    else
      MissingUrnsStep(pages, i - 1);
      Assigned(pages, tokens, c, i - 1)[i - 1 := PageAfter(pages, tokens, c, i - 1)]
  }

  /** Before the loop, no page is assigned. */
  lemma {:induction false} AssignedNone(pages: seq<Page>, tokens: seq<nat>, c: nat)
    requires c <= |tokens|
    ensures MissingUrns(pages[..0]) == 0
    ensures Assigned(pages, tokens, c, 0) == pages
  {
    assert pages[..0] == [];
  }

  /** The pages the loop has not reached are as they were. */
  lemma {:induction false} AssignedUntouched(pages: seq<Page>, tokens: seq<nat>, c: nat, i: nat, k: nat)
    requires i <= k < |pages| && c + MissingUrns(pages[..i]) <= |tokens|
    ensures Assigned(pages, tokens, c, i)[k] == pages[k]
  {
    if i > 0 {
      MissingUrnsStep(pages, i - 1);
      AssignedUntouched(pages, tokens, c, i - 1, k);
    }
  }

  /** A page the loop has passed is that page of the whole assignment. */
  lemma {:induction false} AssignedAt(pages: seq<Page>, tokens: seq<nat>, c: nat, i: nat, k: nat)
    requires k < i <= |pages| && c + MissingUrns(pages) <= |tokens| && c + MissingUrns(pages[..i]) <= |tokens|
    ensures Assigned(pages, tokens, c, i)[k] == AssignFrom(pages, tokens, c)[k]
  {
    MissingUrnsStep(pages, i - 1);
    PrefixFits(pages, tokens, c, k);
    if k < i - 1 {
      AssignedAt(pages, tokens, c, i - 1, k);
    }
  }

  /** After the last page, the loop's pages are the assignment of the whole document. */
  lemma {:induction false} AssignedAll(pages: seq<Page>, tokens: seq<nat>, c: nat)
    requires c + MissingUrns(pages) <= |tokens|
    ensures pages[..|pages|] == pages
    ensures Assigned(pages, tokens, c, |pages|) == AssignFrom(pages, tokens, c)
  {
    assert pages[..|pages|] == pages;
    forall k | 0 <= k < |pages|
      ensures Assigned(pages, tokens, c, |pages|)[k] == AssignFrom(pages, tokens, c)[k]
    {
      AssignedAt(pages, tokens, c, |pages|, k);
    }
  }

  /** Passing one more page changes that page alone, into its assignment. */
  lemma {:induction false} AssignedStep(pages: seq<Page>, tokens: seq<nat>, c: nat, i: nat)
    requires i < |pages| && c + MissingUrns(pages[..i + 1]) <= |tokens|
    ensures MissingUrns(pages[..i + 1]) == MissingUrns(pages[..i]) + (if HasUrn(pages[i]) then 0 else 1)
    ensures Assigned(pages, tokens, c, i + 1) == Assigned(pages, tokens, c, i)[i := PageAfter(pages, tokens, c, i)]
  {
    MissingUrnsStep(pages, i);
  }

  /** A page without `_urn` takes the token at the cursor `n`; the pages after it are as they were. */
  lemma {:induction false} AssignedTake(pages: seq<Page>, tokens: seq<nat>, c: nat, i: nat, n: nat, before: seq<Page>)
    requires i < |pages| && c + MissingUrns(pages[..i + 1]) <= |tokens|
    requires !HasUrn(pages[i]) && n == c + MissingUrns(pages[..i]) && n < |tokens|
    requires before == Assigned(pages, tokens, c, i)
    ensures before[i] == pages[i]
    ensures Assigned(pages, tokens, c, i + 1) == before[i := AssignedPage(pages[i], tokens[n])]
  {
    MissingUrnsStep(pages, i);
    AssignedUntouched(pages, tokens, c, i, i);
    PageAfterFresh(pages, tokens, c, i, n);
  }

  /** A page that already has `_urn` adds no job. */
  lemma {:induction false} JobsSnocKept(pages: seq<Page>, tokens: seq<nat>, c: nat, i: nat)
    requires i < |pages| && c + MissingUrns(pages[..i + 1]) <= |tokens|
    requires HasUrn(pages[i])
    ensures c + MissingUrns(pages[..i]) <= |tokens|
    ensures Jobs(pages[..i + 1], tokens, c) == Jobs(pages[..i], tokens, c)
  {
    MissingUrnsStep(pages, i);
    var p := pages[..i + 1];
    assert p[..|p| - 1] == pages[..i];
    assert p[|p| - 1] == pages[i];
  }

  /** A page without `_urn` adds its own job, with the token at the cursor, after the jobs of the pages before it. */
  lemma {:induction false} JobsSnocFresh(pages: seq<Page>, tokens: seq<nat>, c: nat, i: nat, n: nat)
    requires i < |pages| && c + MissingUrns(pages[..i + 1]) <= |tokens|
    requires !HasUrn(pages[i]) && n == c + MissingUrns(pages[..i])
    ensures n < |tokens|
    ensures Jobs(pages[..i + 1], tokens, c) == Jobs(pages[..i], tokens, c) + [Job(FileName(pages[i].imageName), tokens[n])]
  {
    MissingUrnsStep(pages, i);
    var p := pages[..i + 1];
    var init := p[..|p| - 1];
    assert init == pages[..i];
    assert p[|p| - 1] == pages[i];
    JobsSnoc(p, tokens, c);
  }

  /** The jobs of a non-empty page list are those of all but its last page, plus the last page's if it lacks `_urn`. */
  lemma {:induction false} JobsSnoc(pages: seq<Page>, tokens: seq<nat>, c: nat)
    requires pages != [] && c + MissingUrns(pages) <= |tokens|
    ensures var init := pages[..|pages| - 1];
      var last := pages[|pages| - 1];
      && c + MissingUrns(init) <= |tokens|
      && Jobs(pages, tokens, c)
         == Jobs(init, tokens, c) + if HasUrn(last) then [] else [Job(FileName(last.imageName), tokens[c + MissingUrns(init)])]
  {
  }

  /** Applying one more job renames by it after the earlier ones. */
  lemma {:induction false} ApplyJobsSnoc(folders: map<string, set<string>>, listing: Listing, jobs: seq<Job>, job: Job)
    ensures ApplyJobs(folders, listing, jobs + [job])
         == RenamedAll(ApplyJobs(folders, listing, jobs), listing, SplitName(job.fileName).base, Decimal(job.oid))
  {
    assert (jobs + [job])[..|jobs|] == jobs;
  }

  /** Mirroring one more job rewrites the locations after the earlier ones. */
  lemma {:induction false} MirrorJobsSnoc(locations: seq<string>, jobs: seq<Job>, job: Job)
    ensures MirrorJobs(locations, jobs + [job]) == Mirrored(MirrorJobs(locations, jobs), job.fileName, ContentLocation(job))
  {
    assert (jobs + [job])[..|jobs|] == jobs;
  }

  /** The bases the given renames look for. */
  predicate RenamesBase(jobs: seq<Job>, base: string)
  {
    exists j :: 0 <= j < |jobs| && SplitName(jobs[j].fileName).base == base
  }

  /** A file whose base no rename looks for stays in its folder through every rename. */
  lemma {:induction false} ApplyJobsKeeps(folders: map<string, set<string>>, listing: Listing, jobs: seq<Job>, d: string, f: string)
    requires d in folders && f in folders[d]
    requires !RenamesBase(jobs, SplitName(f).base)
    ensures f in ApplyJobs(folders, listing, jobs)[d]
  {
    if jobs != [] {
      var init := jobs[..|jobs| - 1];
      assert forall j :: 0 <= j < |init| ==> init[j] == jobs[j];
      ApplyJobsKeeps(folders, listing, init, d, f);
      var job := jobs[|jobs| - 1];
      var before := ApplyJobs(folders, listing, init);
      if d in listing {
        RenamedKeeps(before[d], listing[d], f, SplitName(job.fileName).base, Decimal(job.oid));
      }
    }
  }

  /**
    Job `j` is kept apart from the others: no other job looks for its base,
    and no later job looks for the base its files take, its token's text.
   */
  predicate RenamesApart(jobs: seq<Job>, j: nat)
    requires j < |jobs|
  {
    var base := SplitName(jobs[j].fileName).base;
    && (forall k :: 0 <= k < |jobs| && k != j ==> SplitName(jobs[k].fileName).base != base)
    && (forall k :: j < k < |jobs| ==> SplitName(jobs[k].fileName).base != Decimal(jobs[j].oid))
  }

  /** The last job's listed files reach their targets when no earlier job looks for the same base. */
  lemma {:induction false} ApplyJobsMovesLast(folders: map<string, set<string>>, listing: Listing, jobs: seq<Job>, d: string, f: string)
    requires jobs != [] && d in folders && d in listing && f in folders[d] && f in listing[d]
    requires SplitName(f).base == SplitName(jobs[|jobs| - 1].fileName).base
    requires forall k :: 0 <= k < |jobs| - 1 ==> SplitName(jobs[k].fileName).base != SplitName(f).base
    ensures Target(f, Decimal(jobs[|jobs| - 1].oid)) in ApplyJobs(folders, listing, jobs)[d]
  {
    var init := jobs[..|jobs| - 1];
    var last := jobs[|jobs| - 1];
    assert !RenamesBase(init, SplitName(f).base) by {
      forall k | 0 <= k < |init| ensures SplitName(init[k].fileName).base != SplitName(f).base {
        assert init[k] == jobs[k];
      }
    }
    ApplyJobsKeeps(folders, listing, init, d, f);
    RenamedAllReaches(ApplyJobs(folders, listing, init), listing, d, f, SplitName(last.fileName).base, Decimal(last.oid));
  }

  /** A file the earlier jobs leave in a folder stays there when the last job looks for another base. */
  lemma {:induction false} ApplyJobsKeepsLast(folders: map<string, set<string>>, listing: Listing, jobs: seq<Job>, d: string, g: string)
    requires jobs != [] && d in folders && g in ApplyJobs(folders, listing, jobs[..|jobs| - 1])[d]
    requires SplitName(g).base != SplitName(jobs[|jobs| - 1].fileName).base
    ensures g in ApplyJobs(folders, listing, jobs)[d]
  {
    var last := jobs[|jobs| - 1];
    RenamedAllKeeps(ApplyJobs(folders, listing, jobs[..|jobs| - 1]), listing, d, g, SplitName(last.fileName).base, Decimal(last.oid));
  }

  /**
    A listed file sharing job `j`'s base ends at `<token>.<its extension>`
    after all the renames, when job `j` is kept apart from the others.
   */
  lemma {:induction false} ApplyJobsMoves(folders: map<string, set<string>>, listing: Listing, jobs: seq<Job>, j: nat, d: string, f: string)
    requires j < |jobs| && RenamesApart(jobs, j)
    requires d in folders && d in listing && f in folders[d] && f in listing[d]
    requires SplitName(f).base == SplitName(jobs[j].fileName).base
    ensures Target(f, Decimal(jobs[j].oid)) in ApplyJobs(folders, listing, jobs)[d]
  {
    var n := |jobs|;
    if j == n - 1 {
      ApplyJobsMovesLast(folders, listing, jobs, d, f);
    } else {
      var init := jobs[..n - 1];
      assert RenamesApart(init, j) by {
        forall k | 0 <= k < |init| ensures init[k] == jobs[k] { }
      }
      ApplyJobsMoves(folders, listing, init, j, d, f);
      var t := Target(f, Decimal(jobs[j].oid));
      SplitJoin(Decimal(jobs[j].oid), SplitName(f).ext);
      ApplyJobsKeepsLast(folders, listing, jobs, d, t);
    }
  }

  /**
    When a page's file already carries the text of the token another page
    takes, the two renames collide: the first page's file is moved onto the
    second page's file and both then move to the second token's name, so the
    name the first page is given, `<t1>.<ext>`, is left without a file.
   */
  lemma {:induction false} ApplyJobsOverwrites(d: string, b: string, e: string, t1: nat, t2: nat)
    requires '.' !in e
    ensures var f1, f2 := Dotted(b, e), Dotted(Decimal(t1), e);
      ApplyJobs(map[d := {f1, f2}], map[d := [f1, f2]], [Job(f1, t1), Job(f2, t2)])[d] == {Dotted(Decimal(t2), e)}
    ensures t1 != t2 ==>
      var f1, f2 := Dotted(b, e), Dotted(Decimal(t1), e);
      f2 !in ApplyJobs(map[d := {f1, f2}], map[d := [f1, f2]], [Job(f1, t1), Job(f2, t2)])[d]
  {
    var f1, f2 := Dotted(b, e), Dotted(Decimal(t1), e);
    var folders, listing := map[d := {f1, f2}], map[d := [f1, f2]];
    var jobs := [Job(f1, t1), Job(f2, t2)];
    SplitJoin(b, e);
    SplitJoin(Decimal(t1), e);
    var first := [Job(f1, t1)];
    assert jobs[..1] == first && first[..|first| - 1] == [] && first[|first| - 1] == Job(f1, t1);
    assert ApplyJobs(folders, listing, []) == folders;
    var once := ApplyJobs(folders, listing, first);
    assert once == RenamedAll(folders, listing, SplitName(f1).base, Decimal(t1));
    assert once[d] == Renamed({f1, f2}, [f1, f2], b, Decimal(t1));
    RenamedOnto(f1, f2, b, e, Decimal(t1));
    assert ApplyJobs(folders, listing, jobs)[d] == Renamed(once[d], [f1, f2], Decimal(t1), Decimal(t2));
    RenamedLast(f1, f2, e, Decimal(t1), Decimal(t2));
    if t1 != t2 {
      DecimalInjective(t1, t2);
      SplitJoin(Decimal(t2), e);
    }
  }

  /** The content files a rename does not name keep their location through every rename. */
  lemma {:induction false} MirrorJobsKeeps(locations: seq<string>, jobs: seq<Job>, i: nat)
    requires i < |locations|
    requires forall j :: 0 <= j < |jobs| ==> jobs[j].fileName != FileName(locations[i])
    ensures MirrorJobs(locations, jobs)[i] == locations[i]
  {
    if jobs != [] {
      var init := jobs[..|jobs| - 1];
      assert forall j :: 0 <= j < |init| ==> init[j] == jobs[j];
      MirrorJobsKeeps(locations, init, i);
    }
  }

  /**
    Mirroring job `j` is not disturbed by the others: no earlier job
    re-points a file with the same old name, and no later job's old name is
    the last element of job `j`'s new location.
   */
  predicate MirrorsApart(jobs: seq<Job>, j: nat)
    requires j < |jobs|
  {
    && (forall k :: 0 <= k < j ==> jobs[k].fileName != jobs[j].fileName)
    && (forall k :: j < k < |jobs| ==> jobs[k].fileName != FileName(ContentLocation(jobs[j])))
  }

  /** The last job re-points a content file that bears its old name, when no earlier job bore that name. */
  lemma {:induction false} MirrorJobsMovesLast(locations: seq<string>, jobs: seq<Job>, i: nat)
    requires i < |locations| && jobs != []
    requires FileName(locations[i]) == jobs[|jobs| - 1].fileName
    requires forall k :: 0 <= k < |jobs| - 1 ==> jobs[k].fileName != jobs[|jobs| - 1].fileName
    ensures MirrorJobs(locations, jobs)[i] == ContentLocation(jobs[|jobs| - 1])
  {
    var init := jobs[..|jobs| - 1];
    assert forall k :: 0 <= k < |init| ==> init[k].fileName != FileName(locations[i]);
    MirrorJobsKeeps(locations, init, i);
  }

  /** A later job leaves a location alone when its old name is not the location's last element. */
  lemma {:induction false} MirrorJobsPasses(locations: seq<string>, jobs: seq<Job>, i: nat)
    requires i < |locations| && jobs != []
    requires jobs[|jobs| - 1].fileName != FileName(MirrorJobs(locations, jobs[..|jobs| - 1])[i])
    ensures MirrorJobs(locations, jobs)[i] == MirrorJobs(locations, jobs[..|jobs| - 1])[i]
  {
  }

  /** A content file named by a page's old file name ends at that page's new location, when no other page disturbs it. */
  lemma {:induction false} MirrorJobsMoves(locations: seq<string>, jobs: seq<Job>, j: nat, i: nat)
    requires i < |locations| && j < |jobs| && MirrorsApart(jobs, j)
    requires FileName(locations[i]) == jobs[j].fileName
    ensures MirrorJobs(locations, jobs)[i] == ContentLocation(jobs[j])
  {
    if j == |jobs| - 1 {
      MirrorJobsMovesLast(locations, jobs, i);
    } else {
      var init := jobs[..|jobs| - 1];
      forall k | 0 <= k < |init| ensures init[k] == jobs[k] { }
      assert MirrorsApart(init, j);
      MirrorJobsMoves(locations, init, j, i);
      MirrorJobsPasses(locations, jobs, i);
    }
  }

  /** The last element of a page's new content location is `<oid>.<ext>`, the page's new image name. */
  lemma {:induction false} ContentLocationName(job: Job)
    requires '/' !in job.fileName
    ensures FileName(ContentLocation(job)) == Dotted(Decimal(job.oid), SplitName(job.fileName).ext)
  {
    var parts := SplitName(job.fileName);
    if '.' in job.fileName {
      var n := |parts.base| + 1;
      forall k | 0 <= k < |parts.ext| ensures parts.ext[k] != '/' {
        assert parts.ext[k] == job.fileName[n + k];
      }
    }
    var x := Dotted(Decimal(job.oid), parts.ext);
    var p := "file://" + x;
    assert '/' !in x;
    assert p[|p| - 1] == x[|x| - 1];
    assert StripTrailingSeparators(p) == p;
    assert p[6] == '/';
    forall k | 6 < k < |p| ensures p[k] != '/' {
      assert p[k] == x[k - 7];
    }
    assert LastIndexOf(p, '/') == 6;
    assert p[7..] == x;
  }
}
