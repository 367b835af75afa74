/**
  The OID step itself: the work-identifier check, the demand count, the
  request for `pages + 1` tokens, the assignment of tokens to the work and
  to the pages without `_urn` in physical order, and the renames of the
  image files and the content files that follow each page's assignment.
 */
module OidStep {
  import opened Names
  import opened Mets
  import opened Storage
  import opened Assignment
  import opened Document
  import opened PageLoop

  /** How a run ends: FINISH, ERROR, or an unchecked exception that escapes `run()`. */
  datatype Status = Finish | Error | Crash

  /** The identifier request the run sends, if it gets that far. */
  datatype Request = NoRequest | Requested(count: nat)

  /**
    What a run did besides changing the document and the folders: its
    result, its request, whether it wrote the "executed multiple times"
    journal entry, and whether it wrote the metadata file.
   */
  datatype Report = Report(status: Status, request: Request, warned: bool, saved: bool)

  /** The identifier service's answer: the `oids` array, or anything the JSON reading fails on. */
  datatype Response = Tokens(oids: seq<nat>) | Unparsable

  /** The cursor's position after the work: one token further when the work took one. */
  function WorkCursor(logical: seq<Metadata>): nat
  {
    if WorkNeeded(logical) then 1 else 0
  }

  /** The run reads past the tokens, for the work or for a page. */
  predicate RunsOut(logical: seq<Metadata>, pages: seq<Page>, tokens: seq<nat>, rules: RuleSet)
  {
    (WorkNeeded(logical) && tokens == []) || PagesRunOut(pages, tokens, WorkCursor(logical), UrnAllowed(rules))
  }

  /** A page without `_urn` may take one exactly when the rule set allows `_urn` on pages. */
  lemma {:induction false} FreshPageCanAdd(rules: RuleSet, p: Page)
    requires !HasUrn(p)
    ensures CanAdd(rules, PageNode, p.metadata, Urn) <==> UrnAllowed(rules)
  {
  }

  /**
    The renames that follow a page's new `_urn`: every listed file sharing
    the page's base moves to `<oid>.<its extension>`, the page's image name
    becomes `<oid>.<its extension>` and, with `mirror`, the content files
    that pointed at the old name follow.
   */
  method RenamePage(doc: DigitalDocument, store: FileStore, i: nat, oid: nat, listing: Listing, mirror: bool)
    requires doc.Valid() && i < |doc.pages|
    requires listing.Keys <= store.folders.Keys && ListingDotted(listing)
    modifies doc, store
    ensures doc.Valid()
    ensures var p := old(doc.pages)[i];
      var job := Job(FileName(p.imageName), oid);
      && doc.pages == old(doc.pages)[i := Page(Dotted(Decimal(oid), PageParts(p).ext), p.metadata)]
      && store.folders == RenamedAll(old(store.folders), listing, SplitName(job.fileName).base, Decimal(oid))
      && doc.contentFiles == (if mirror then Mirrored(old(doc.contentFiles), job.fileName, ContentLocation(job)) else old(doc.contentFiles))
    ensures doc.logical == old(doc.logical) && doc.references == old(doc.references)
    ensures doc.physicalPresent == old(doc.physicalPresent) && doc.physical == old(doc.physical)
  {
    var oldName := FileName(doc.pages[i].imageName);
    var parts := SplitName(oldName);
    var value := Decimal(oid);
    store.RenameEverywhere(listing, parts.base, value);
    doc.SetImageName(i, Dotted(value, parts.ext));
    if mirror {
      doc.MirrorContentFiles(oldName, "file://" + Dotted(value, parts.ext));
    }
  }

  /**
    Gives page `i` the token `oid`: a new `_urn`, then the renames of
    RenamePage. When `_urn` may not be added, nothing changes.
   */
  method AssignPage(doc: DigitalDocument, store: FileStore, i: nat, oid: nat, rules: RuleSet, listing: Listing, mirror: bool)
    returns (added: bool)
    requires doc.Valid() && i < |doc.pages| && !HasUrn(doc.pages[i])
    requires listing.Keys <= store.folders.Keys && ListingDotted(listing)
    modifies doc, store
    ensures doc.Valid()
    ensures added <==> UrnAllowed(rules)
    ensures var p := old(doc.pages)[i];
      var job := Job(FileName(p.imageName), oid);
      && doc.pages == (if added then old(doc.pages)[i := AssignedPage(p, oid)] else old(doc.pages))
      && store.folders == (if added then RenamedAll(old(store.folders), listing, SplitName(job.fileName).base, Decimal(oid)) else old(store.folders))
      && doc.contentFiles == (if added && mirror then Mirrored(old(doc.contentFiles), job.fileName, ContentLocation(job)) else old(doc.contentFiles))
    ensures doc.logical == old(doc.logical) && doc.references == old(doc.references)
    ensures doc.physicalPresent == old(doc.physicalPresent) && doc.physical == old(doc.physical)
  {
    ghost var p := doc.pages[i];
    FreshPageCanAdd(rules, p);
    added := doc.AddPageUrn(i, oid, rules);
    if added {
      ghost var q := doc.pages[i];
      assert q.imageName == p.imageName;
      RenamePage(doc, store, i, oid, listing, mirror);
      assert doc.pages[i] == AssignedPage(p, oid);
    }
  }

  /** The document's pages, the folders and the content files are those the loop state `sw` describes. */
  ghost predicate Replays(doc: DigitalDocument, store: FileStore, sw: Sweep, folders0: map<string, set<string>>,
                          files0: seq<string>, listing: Listing, mirror: bool)
    reads doc, store
  {
    && doc.pages == sw.pages
    && store.folders == ApplyJobs(folders0, listing, sw.done)
    && doc.contentFiles == (if mirror then MirrorJobs(files0, sw.done) else files0)
  }

  /**
    One pass of the page loop at page `i`: a page with `_urn` is skipped, a
    page without one takes the token at the cursor, and reading past the
    tokens fails. The document and the folders follow the replayed loop.
   */
  method VisitPage(doc: DigitalDocument, store: FileStore, rules: RuleSet, tokens: seq<nat>, listing: Listing, mirror: bool,
                   i: nat, counter: nat, ghost sw: Sweep, ghost folders0: map<string, set<string>>, ghost files0: seq<string>)
    returns (next: nat, crashed: bool)
    requires doc.Valid() && i < |doc.pages|
    requires listing.Keys <= store.folders.Keys && ListingDotted(listing)
    requires !sw.crashed && counter == sw.counter && Replays(doc, store, sw, folders0, files0, listing, mirror)
    modifies doc, store
    ensures doc.Valid() && store.folders.Keys == old(store.folders).Keys
    ensures var after := Visit(sw, i, Setting(tokens, rules, listing, mirror));
      && crashed == after.crashed && next == after.counter
      && Replays(doc, store, after, folders0, files0, listing, mirror)
    ensures doc.logical == old(doc.logical) && doc.references == old(doc.references)
    ensures doc.physicalPresent == old(doc.physicalPresent) && doc.physical == old(doc.physical)
  {
    ghost var st := Setting(tokens, rules, listing, mirror);
    next, crashed := counter, false;
    if !HasUrn(doc.pages[i]) {
      if counter >= |tokens| {
        crashed := true;
        return;
      }
      var oid := tokens[counter];
      ghost var job := Job(FileName(doc.pages[i].imageName), oid);
      var added := AssignPage(doc, store, i, oid, rules, listing, mirror);
      if added {
        VisitTakes(sw, i, st);
        ApplyJobsSnoc(folders0, listing, sw.done, job);
        MirrorJobsSnoc(files0, sw.done, job);
        next := counter + 1;
      }
    }
  }

  /**
    The page loop of `run()`: every page without `_urn`, in physical order,
    takes the token at the cursor, and the cursor moves on when `_urn` could
    be added. Reading past the tokens stops the run where it is. The loop
    is the replayed loop of the page-loop module, its renames applied to
    the folders and, with `mirror`, to the content files.
   */
  method AssignPages(doc: DigitalDocument, store: FileStore, rules: RuleSet, tokens: seq<nat>, c0: nat, listing: Listing, mirror: bool)
    returns (counter: nat, crashed: bool, ghost stop: nat)
    requires doc.Valid() && c0 <= |tokens|
    requires listing.Keys <= store.folders.Keys && ListingDotted(listing)
    modifies doc, store
    ensures doc.Valid()
    ensures crashed <==> PagesRunOut(old(doc.pages), tokens, c0, UrnAllowed(rules))
    ensures !crashed ==>
      var renames := Renames(old(doc.pages), tokens, c0, rules);
      && counter == c0 + |renames|
      && doc.pages == NewPages(old(doc.pages), tokens, c0, rules)
      && store.folders == ApplyJobs(old(store.folders), listing, renames)
      && doc.contentFiles == (if mirror then MirrorJobs(old(doc.contentFiles), renames) else old(doc.contentFiles))
    ensures crashed ==> RenamedBefore(store.folders, old(store.folders), listing, old(doc.pages), tokens, c0, rules, stop)
    ensures doc.logical == old(doc.logical) && doc.references == old(doc.references)
    ensures doc.physicalPresent == old(doc.physicalPresent) && doc.physical == old(doc.physical)
  {
    ghost var pages0, folders0, files0 := doc.pages, store.folders, doc.contentFiles;
    ghost var st := Setting(tokens, rules, listing, mirror);
    ghost var start := Start(pages0, c0);
    ghost var sw := start;
    counter := c0;
    crashed := false;
    var i := 0;
    while i < |doc.pages|
      invariant 0 <= i <= |pages0| == |doc.pages|
      invariant doc.Valid() && listing.Keys <= store.folders.Keys
      invariant sw == Swept(start, st, i) && !sw.crashed && counter == sw.counter
      invariant Replays(doc, store, sw, folders0, files0, listing, mirror)
      invariant doc.logical == old(doc.logical) && doc.references == old(doc.references)
      invariant doc.physicalPresent == old(doc.physicalPresent) && doc.physical == old(doc.physical)
    {
      counter, crashed := VisitPage(doc, store, rules, tokens, listing, mirror, i, counter, sw, folders0, files0);
      if crashed {
        SweptEndsAt(start, st, i, sw);
        sw := Visit(sw, i, st);
        break;
      }
      sw := Visit(sw, i, st);
      i := i + 1;
    }
    assert sw == Swept(start, st, |pages0|);
    SweptClosed(start, st, sw);
    stop := StopOf(sw, rules);
  }

  /** The work's metadata after the run: the first token, when the work needed one. */
  function NewLogical(logical: seq<Metadata>, tokens: seq<nat>, rules: RuleSet): seq<Metadata>
    requires WorkNeeded(logical) ==> tokens != []
  {
    if WorkNeeded(logical) then WorkAssigned(logical, tokens[0], rules) else logical
  }

  /** The physical root's metadata after the run: the first token as `_urn`, when the work needed one. */
  function NewPhysical(physical: seq<Metadata>, logical: seq<Metadata>, tokens: seq<nat>, rules: RuleSet): seq<Metadata>
    requires WorkNeeded(logical) ==> tokens != []
  {
    if WorkNeeded(logical) then PhysicalAssigned(physical, tokens[0], rules) else physical
  }

  /** The renames the page loop performs: one per page without `_urn` when pages may carry `_urn`, none otherwise. */
  function Renames(pages: seq<Page>, tokens: seq<nat>, c: nat, rules: RuleSet): seq<Job>
    requires UrnAllowed(rules) ==> c + MissingUrns(pages) <= |tokens|
  {
    if UrnAllowed(rules) then Jobs(pages, tokens, c) else []
  }

  /** The pages after the run: each page without `_urn` assigned, when pages may carry `_urn`. */
  function NewPages(pages: seq<Page>, tokens: seq<nat>, c: nat, rules: RuleSet): seq<Page>
    requires UrnAllowed(rules) ==> c + MissingUrns(pages) <= |tokens|
  {
    if UrnAllowed(rules) then AssignFrom(pages, tokens, c) else pages
  }

  /**
    The folders after a run that stopped at page `stop`: the renames of the
    pages before it, in order, and no other.
   */
  ghost predicate RenamedBefore(folders: map<string, set<string>>, folders0: map<string, set<string>>, listing: Listing,
                                pages: seq<Page>, tokens: seq<nat>, c: nat, rules: RuleSet, stop: nat)
  {
    && stop <= |pages|
    && (UrnAllowed(rules) ==> c + MissingUrns(pages[..stop]) <= |tokens|)
    && folders == ApplyJobs(folders0, listing, Renames(pages[..stop], tokens, c, rules))
  }

  /** Where a failed loop stopped: the failing page when pages may carry `_urn`, the first page otherwise. */
  function StopOf(s: Sweep, rules: RuleSet): nat
  {
    if UrnAllowed(rules) && s.crashed then s.at else 0
  }

  /**
    The replayed loop in closed form: it fails exactly when the pages run
    out of tokens; otherwise its pages, renames and cursor are those of the
    assignment, and a failure leaves the renames of the pages before the
    one where it stopped.
   */
  lemma {:induction false} SweptClosed(start: Sweep, st: Setting, s: Sweep)
    requires start.done == [] && !start.crashed && start.counter <= |st.tokens|
    requires s == Swept(start, st, |start.pages|)
    ensures s.crashed <==> PagesRunOut(start.pages, st.tokens, start.counter, UrnAllowed(st.rules))
    ensures !s.crashed ==>
      && (UrnAllowed(st.rules) ==> start.counter + MissingUrns(start.pages) <= |st.tokens|)
      && s.done == Renames(start.pages, st.tokens, start.counter, st.rules)
      && s.pages == NewPages(start.pages, st.tokens, start.counter, st.rules)
      && s.counter == start.counter + |s.done|
    ensures s.crashed ==>
      var stop := StopOf(s, st.rules);
      && stop <= |start.pages|
      && (UrnAllowed(st.rules) ==> start.counter + MissingUrns(start.pages[..stop]) <= |st.tokens|)
      && s.done == Renames(start.pages[..stop], st.tokens, start.counter, st.rules)
  {
    SweptOutcome(start, st);
    if !UrnAllowed(st.rules) {
      assert start.pages[..0] == [];
    }
  }

  /**
    What handing the tokens to the work and the pages leaves behind, given
    the document and folders before (`logical`, `pages`, `physical`,
    `files`, `folders`) and after (the primed names): the run fails exactly
    when it reads past the tokens; otherwise the work, the physical root
    and the pages carry their tokens and the folders and content files
    show the renames, in page order, from one listing of the folders. A
    failure at the work leaves the folders as they were; a failure at a
    page leaves the renames of the pages before it.
   */
  ghost predicate TokensApplied(crashed: bool, tokens: seq<nat>, rules: RuleSet, mirror: bool,
                                logical: seq<Metadata>, pages: seq<Page>, physical: seq<Metadata>, files: seq<string>,
                                folders: map<string, set<string>>, listing: Listing, stop: nat,
                                logical': seq<Metadata>, pages': seq<Page>, physical': seq<Metadata>, files': seq<string>,
                                folders': map<string, set<string>>)
  {
    && (crashed <==> RunsOut(logical, pages, tokens, rules))
    && (!crashed ==>
          var c := WorkCursor(logical);
          var renames := Renames(pages, tokens, c, rules);
          && Lists(listing, folders)
          && logical' == NewLogical(logical, tokens, rules)
          && physical' == NewPhysical(physical, logical, tokens, rules)
          && pages' == NewPages(pages, tokens, c, rules)
          && folders' == ApplyJobs(folders, listing, renames)
          && files' == (if mirror then MirrorJobs(files, renames) else files))
    && (crashed && WorkNeeded(logical) && tokens == [] ==> folders' == folders)
    && (crashed && !(WorkNeeded(logical) && tokens == []) ==>
          && Lists(listing, folders)
          && RenamedBefore(folders', folders, listing, pages, tokens, WorkCursor(logical), rules, stop))
  }

  /**
    Everything `run()` does once it holds the tokens: the work takes the
    first token if it needs one, the folders are listed once, their sizes
    are compared with the page count (the comparison rebinds a local and
    has no effect), and the page loop assigns the remaining tokens.
    Reading past the tokens ends the run there, with the renames already
    done left on disk.
   */
  method ApplyTokens(doc: DigitalDocument, store: FileStore, rules: RuleSet, tokens: seq<nat>, mirror: bool)
    returns (crashed: bool, listing: Listing, ghost stop: nat)
    requires doc.Valid() && doc.physicalPresent && NamesDotted(store.folders)
    modifies doc, store
    ensures doc.Valid() && doc.physicalPresent && doc.references == old(doc.references)
    ensures TokensApplied(crashed, tokens, rules, mirror,
                          old(doc.logical), old(doc.pages), old(doc.physical), old(doc.contentFiles), old(store.folders), listing, stop,
                          doc.logical, doc.pages, doc.physical, doc.contentFiles, store.folders)
  {
    ghost var pages0 := doc.pages;
    var c := 0;
    if WorkNeeded(doc.logical) {
      if tokens == [] {
        crashed, listing, stop := true, map[], 0;
        return;
      }
      doc.AssignWork(tokens[0], rules);
      c := 1;
    }
    listing := store.ListAll();
    ListingOfDotted(listing, store.folders);
    var unchecked := listing.Keys;
    while unchecked != {}
    {
      var folder :| folder in unchecked;
      var files := listing[folder];
      if |doc.pages| != |files| {
        files := [];
      }
      unchecked := unchecked - {folder};
    }
    var counter;
    counter, crashed, stop := AssignPages(doc, store, rules, tokens, c, listing, mirror);
  }

  /** The run ends in an exception once it has the answer: the answer is not an `oids` array, or it is too short. */
  predicate Fails(logical: seq<Metadata>, pages: seq<Page>, rules: RuleSet, response: Response)
  {
    response.Unparsable? || RunsOut(logical, pages, response.oids, rules)
  }

  /**
    What the counting-and-request part of `run()` leaves behind, given the
    document before it (`logical`, `pages`, `physical`, `files`) and the
    folders before it (`folders`), and after it (the primed names):
    nothing happens when nothing is missing; otherwise `pages + 1` tokens
    are requested, the journal entry is written when the demand is not
    `pages + 1`, and the run either saves the closed-form result or ends in
    an exception with the renames done so far left in the folders.
   */
  ghost predicate RequestOutcome(report: Report, source: nat -> Response, rules: RuleSet, mirror: bool,
                                 logical: seq<Metadata>, pages: seq<Page>, physical: seq<Metadata>, files: seq<string>,
                                 folders: map<string, set<string>>, listing: Listing, stop: nat,
                                 logical': seq<Metadata>, pages': seq<Page>, physical': seq<Metadata>, files': seq<string>,
                                 folders': map<string, set<string>>)
  {
    var n := |pages| + 1;
    var response := source(n);
    if Demand(logical, pages) == 0 then
      && report == Report(Finish, NoRequest, false, false)
      && logical' == logical && pages' == pages && physical' == physical && files' == files && folders' == folders
    else
      && report.request == Requested(n)
      && report.warned == (Demand(logical, pages) != n)
      && report.status != Error
      && (report.status == Crash <==> Fails(logical, pages, rules, response))
      && report.saved == (report.status == Finish)
      && (report.status == Finish ==>
            var tokens := response.oids;
            var c := WorkCursor(logical);
            var renames := Renames(pages, tokens, c, rules);
            && Lists(listing, folders)
            && logical' == NewLogical(logical, tokens, rules)
            && physical' == NewPhysical(physical, logical, tokens, rules)
            && pages' == NewPages(pages, tokens, c, rules)
            && folders' == ApplyJobs(folders, listing, renames)
            && files' == (if mirror then MirrorJobs(files, renames) else files))
      && (report.status == Crash && (response.Unparsable? || (WorkNeeded(logical) && response.oids == [])) ==>
            folders' == folders)
      && (report.status == Crash && response.Tokens? && !(WorkNeeded(logical) && response.oids == []) ==>
            && Lists(listing, folders)
            && RenamedBefore(folders', folders, listing, pages, response.oids, WorkCursor(logical), rules, stop))
  }

  /** Once tokens were requested and read, the request's outcome is that of handing them over. */
  lemma {:induction false} AppliedOutcome(report: Report, source: nat -> Response, rules: RuleSet, mirror: bool, crashed: bool,
                                          logical: seq<Metadata>, pages: seq<Page>, physical: seq<Metadata>, files: seq<string>,
                                          folders: map<string, set<string>>, listing: Listing, stop: nat,
                                          logical': seq<Metadata>, pages': seq<Page>, physical': seq<Metadata>, files': seq<string>,
                                          folders': map<string, set<string>>)
    requires Demand(logical, pages) != 0 && source(|pages| + 1).Tokens?
    requires TokensApplied(crashed, source(|pages| + 1).oids, rules, mirror, logical, pages, physical, files, folders, listing, stop,
                           logical', pages', physical', files', folders')
    requires report == Report(if crashed then Crash else Finish, Requested(|pages| + 1), Demand(logical, pages) != |pages| + 1, !crashed)
    ensures RequestOutcome(report, source, rules, mirror, logical, pages, physical, files, folders, listing, stop,
                           logical', pages', physical', files', folders')
  {
  }

  /**
    The part of `run()` both variants share once the pages are known: count
    the missing identifiers, stop when there are none, request `pages + 1`
    tokens from `source` (the identifier service), and hand them to the
    work and the pages.
   */
  method RequestAndApply(doc: DigitalDocument, store: FileStore, rules: RuleSet, source: nat -> Response, mirror: bool)
    returns (report: Report, listing: Listing, ghost stop: nat)
    requires doc.Valid() && doc.physicalPresent && NamesDotted(store.folders)
    modifies doc, store
    ensures doc.Valid() && doc.physicalPresent && doc.references == old(doc.references)
    ensures RequestOutcome(report, source, rules, mirror,
                           old(doc.logical), old(doc.pages), old(doc.physical), old(doc.contentFiles), old(store.folders), listing, stop,
                           doc.logical, doc.pages, doc.physical, doc.contentFiles, store.folders)
  {
    var workNeeded := WorkNeeded(doc.logical);
    var missing := doc.CountMissingUrns();
    var demand := (if workNeeded then 1 else 0) + missing;
    if demand == 0 {
      report, listing, stop := Report(Finish, NoRequest, false, false), map[], 0;
      return;
    }
    var count := |doc.pages| + 1;
    var warned := demand != count;
    var response := source(count);
    if response.Unparsable? {
      report, listing, stop := Report(Crash, Requested(count), warned, false), map[], 0;
      return;
    }
    var crashed;
    crashed, listing, stop := ApplyTokens(doc, store, rules, response.oids, mirror);
    report := Report(if crashed then Crash else Finish, Requested(count), warned, !crashed);
    AppliedOutcome(report, source, rules, mirror, crashed, old(doc.logical), old(doc.pages), old(doc.physical), old(doc.contentFiles),
                   old(store.folders), listing, stop, doc.logical, doc.pages, doc.physical, doc.contentFiles, store.folders);
  }

  /** Building pages for a document without pages fails: there are images and the rule set rejects the new pages. */
  predicate PaginationFails(pages: seq<Page>, images: seq<string>, rules: RuleSet)
  {
    pages == [] && images != [] && !PaginationAllowed(rules)
  }

  /** The pages `run()` works on: the document's own, or one built per image when it has none. */
  function Paged(pages: seq<Page>, images: seq<string>): seq<Page>
  {
    if pages == [] then SynthesizedPages(images) else pages
  }

  /**
    `run()` of the module-base plugin: creates a physical root when there is
    none, builds one page per image (`images`, the listing of the image
    folder) when there are no pages, ends with ERROR when there are still
    none, and then requests and assigns tokens, renaming the files and
    pointing the content files at their new names. A rejected page ends the
    run with FINISH and nothing saved.
   */
  method RunModuleBase(doc: DigitalDocument, store: FileStore, rules: RuleSet, images: seq<string>, source: nat -> Response)
    returns (report: Report, listing: Listing, ghost stop: nat)
    requires doc.Valid() && NamesDotted(store.folders)
    modifies doc, store
    ensures doc.Valid() && doc.physicalPresent
    ensures PaginationFails(old(doc.pages), images, rules) ==>
      report == Report(Finish, NoRequest, false, false) && store.folders == old(store.folders)
    ensures !PaginationFails(old(doc.pages), images, rules) && Paged(old(doc.pages), images) == [] ==>
      report == Report(Error, NoRequest, false, false) && store.folders == old(store.folders)
    ensures !PaginationFails(old(doc.pages), images, rules) && Paged(old(doc.pages), images) != [] ==>
      && doc.references == old(doc.references) + (if old(doc.pages) == [] then seq(|images|, k => k) else [])
      && RequestOutcome(report, source, rules, true,
                        old(doc.logical), Paged(old(doc.pages), images), old(doc.physical), old(doc.contentFiles), old(store.folders),
                        listing, stop, doc.logical, doc.pages, doc.physical, doc.contentFiles, store.folders)
  {
    doc.EnsurePhysical();
    if doc.pages == [] {
      var ok := doc.Paginate(images, rules);
      if !ok {
        report, listing, stop := Report(Finish, NoRequest, false, false), map[], 0;
        return;
      }
    }
    if doc.pages == [] {
      report, listing, stop := Report(Error, NoRequest, false, false), map[], 0;
      return;
    }
    report, listing, stop := RequestAndApply(doc, store, rules, source, true);
  }

  /**
    `run()` of the oid-creation plugin: the same step without building
    pages and without touching the content files. A document without a
    physical root, or one without pages (whose child list is then `null`),
    ends in a NullPointerException before anything changes.
   */
  method RunOidCreation(doc: DigitalDocument, store: FileStore, rules: RuleSet, source: nat -> Response)
    returns (report: Report, listing: Listing, ghost stop: nat)
    requires doc.Valid() && NamesDotted(store.folders)
    modifies doc, store
    ensures doc.Valid() && doc.references == old(doc.references) && doc.physicalPresent == old(doc.physicalPresent)
    ensures !old(doc.physicalPresent) || old(doc.pages) == [] ==>
      && report == Report(Crash, NoRequest, false, false)
      && doc.logical == old(doc.logical) && doc.pages == old(doc.pages) && store.folders == old(store.folders)
    ensures old(doc.physicalPresent) && old(doc.pages) != [] ==>
      RequestOutcome(report, source, rules, false,
                     old(doc.logical), old(doc.pages), old(doc.physical), old(doc.contentFiles), old(store.folders),
                     listing, stop, doc.logical, doc.pages, doc.physical, doc.contentFiles, store.folders)
  {
    if !doc.physicalPresent || doc.pages == [] {
      report, listing, stop := Report(Crash, NoRequest, false, false), map[], 0;
      return;
    }
    report, listing, stop := RequestAndApply(doc, store, rules, source, false);
  }

  /**
    When pages may carry `_urn`, the run reads past the tokens exactly when
    the service returned fewer tokens than the document lacks.
   */
  lemma {:induction false} TokensShort(logical: seq<Metadata>, pages: seq<Page>, tokens: seq<nat>, rules: RuleSet)
    requires UrnAllowed(rules)
    ensures RunsOut(logical, pages, tokens, rules) <==> |tokens| < Demand(logical, pages)
  {
  }

  /**
    When pages may not carry `_urn`, the cursor never moves past the work,
    yet the first page without `_urn` still reads the token at the cursor:
    the run fails exactly when there are too few tokens for the work and,
    if some page lacks `_urn`, one more.
   */
  lemma {:induction false} RefusedPagesShort(logical: seq<Metadata>, pages: seq<Page>, tokens: seq<nat>, rules: RuleSet)
    requires !UrnAllowed(rules)
    ensures RunsOut(logical, pages, tokens, rules) <==>
      |tokens| < WorkCursor(logical) + (if MissingUrns(pages) > 0 then 1 else 0)
  {
  }

  /** A service that returns the `pages + 1` tokens requested never lets the run read past them. */
  lemma {:induction false} ServiceSuffices(logical: seq<Metadata>, pages: seq<Page>, tokens: seq<nat>, rules: RuleSet)
    requires |tokens| == |pages| + 1
    ensures !RunsOut(logical, pages, tokens, rules)
  {
    DemandBound(logical, pages);
    if UrnAllowed(rules) {
      TokensShort(logical, pages, tokens, rules);
    } else {
      RefusedPagesShort(logical, pages, tokens, rules);
    }
  }

  /**
    After a run that saved its result, with pages allowed to carry `_urn`
    and a work identifier that can be written, every page has `_urn`, and
    the work is still missing an identifier exactly when it needed one and
    the token it took has more than nine digits. So a second run requests
    nothing, unless the service hands out tokens of ten digits or more.
   */
  lemma {:induction false} RunSettles(logical: seq<Metadata>, pages: seq<Page>, tokens: seq<nat>, rules: RuleSet)
    requires UrnAllowed(rules) && !RunsOut(logical, pages, tokens, rules)
    requires WorkNeeded(logical) ==> HasType(logical, CatalogIdDigital) || CanAdd(rules, LogicalRoot, logical, CatalogIdDigital)
    ensures MissingUrns(NewPages(pages, tokens, WorkCursor(logical), rules)) == 0
    ensures WorkNeeded(NewLogical(logical, tokens, rules)) <==> WorkNeeded(logical) && tokens[0] >= 1_000_000_000
    ensures Demand(NewLogical(logical, tokens, rules), NewPages(pages, tokens, WorkCursor(logical), rules)) ==
      (if WorkNeeded(logical) && tokens[0] >= 1_000_000_000 then 1 else 0)
  {
    AssignFromComplete(pages, tokens, WorkCursor(logical));
    if WorkNeeded(logical) {
      WorkSettled(logical, tokens[0], rules);
    }
  }

  /** A run whose service answers with the `pages + 1` tokens it asked for saves its result. */
  lemma {:induction false} ServedRunSaves(report: Report, source: nat -> Response, rules: RuleSet, mirror: bool,
                                          logical: seq<Metadata>, pages: seq<Page>, physical: seq<Metadata>, files: seq<string>,
                                          folders: map<string, set<string>>, listing: Listing, stop: nat,
                                          logical': seq<Metadata>, pages': seq<Page>, physical': seq<Metadata>, files': seq<string>,
                                          folders': map<string, set<string>>)
    requires RequestOutcome(report, source, rules, mirror, logical, pages, physical, files, folders, listing, stop,
                            logical', pages', physical', files', folders')
    requires Demand(logical, pages) > 0
    requires source(|pages| + 1).Tokens? && |source(|pages| + 1).oids| == |pages| + 1
    ensures report == Report(Finish, Requested(|pages| + 1), Demand(logical, pages) != |pages| + 1, true)
  {
    ServiceSuffices(logical, pages, source(|pages| + 1).oids, rules);
  }

  /**
    After a saved run, with pages allowed to carry `_urn`, a work identifier
    that can be written and a work token below 10^9, the document lacks no
    identifier: running the step again finishes without a request.
   */
  lemma {:induction false} SavedRunSettles(report: Report, source: nat -> Response, rules: RuleSet, mirror: bool,
                                           logical: seq<Metadata>, pages: seq<Page>, physical: seq<Metadata>, files: seq<string>,
                                           folders: map<string, set<string>>, listing: Listing, stop: nat,
                                           logical': seq<Metadata>, pages': seq<Page>, physical': seq<Metadata>, files': seq<string>,
                                           folders': map<string, set<string>>)
    requires RequestOutcome(report, source, rules, mirror, logical, pages, physical, files, folders, listing, stop,
                            logical', pages', physical', files', folders')
    requires report.saved && UrnAllowed(rules)
    requires WorkNeeded(logical) ==> HasType(logical, CatalogIdDigital) || CanAdd(rules, LogicalRoot, logical, CatalogIdDigital)
    requires WorkNeeded(logical) ==> source(|pages| + 1).Tokens? && source(|pages| + 1).oids != []
                                     && source(|pages| + 1).oids[0] < 1_000_000_000
    ensures Demand(logical', pages') == 0
  {
    if Demand(logical, pages) > 0 {
      RunSettles(logical, pages, source(|pages| + 1).oids, rules);
    }
  }
}
