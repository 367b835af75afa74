/**
  The page loop of the OID step as a function on values: page by page, in
  physical order, a page without `_urn` takes the token at the cursor, its
  files are renamed in every listed folder and, in the variant that keeps
  content files, the content-file locations follow. Reading past the
  tokens stops the loop where it is. The lemmas relate the replayed loop to
  the closed forms of the assignment module.
 */
module PageLoop {
  import opened Names
  import opened Mets
  import opened Storage
  import opened Assignment

  /** What stays fixed during the loop: the tokens, the rule set, the folder listing, and whether content files follow. */
  datatype Setting = Setting(tokens: seq<nat>, rules: RuleSet, listing: Listing, mirror: bool)

  /**
    The state the loop changes: the pages, the cursor, the renames done so
    far, whether a page found no token left and, if so, which. The folders
    and the content-file locations are those the renames done produce
    (ApplyJobs, MirrorJobs).
   */
  datatype Sweep = Sweep(pages: seq<Page>, counter: nat, done: seq<Job>, crashed: bool, at: nat)

  /** Whether the rule set lets a page carry `_urn`; a page without one may then always take one. */
  predicate UrnAllowed(rules: RuleSet)
  {
    (PageNode, Urn) in rules.allowed
  }

  /**
    The page loop reads past the tokens: some page lacks `_urn` and, when
    pages may take `_urn`, the pages need more tokens than remain; when they
    may not, the cursor never moves and the first such page already fails.
   */
  predicate PagesRunOut(pages: seq<Page>, tokens: seq<nat>, c: nat, allowed: bool)
  {
    MissingUrns(pages) > 0 && if allowed then c + MissingUrns(pages) > |tokens| else c >= |tokens|
  }

  /** The loop at page `i`. */
  function Visit(s: Sweep, i: nat, st: Setting): (r: Sweep)
    requires i < |s.pages|
    ensures |r.pages| == |s.pages|
    ensures forall k :: 0 <= k < |s.pages| && k != i ==> r.pages[k] == s.pages[k]
    ensures s.counter <= r.counter <= s.counter + 1 && s.done <= r.done
    ensures |r.done| == |s.done| + (r.counter - s.counter)
    ensures s.crashed || HasUrn(s.pages[i]) ==> r == s
  {
    if s.crashed || HasUrn(s.pages[i]) then s
    else if s.counter >= |st.tokens| then s.(crashed := true, at := i)
    else if !UrnAllowed(st.rules) then s
    else
      var p := s.pages[i];
      var job := Job(FileName(p.imageName), st.tokens[s.counter]);
      s.(pages := s.pages[i := AssignedPage(p, job.oid)], counter := s.counter + 1, done := s.done + [job])
  }

  /** The loop after its first `i` pages; it keeps the page count. */
  function Swept(start: Sweep, st: Setting, i: nat): (r: Sweep)
    requires i <= |start.pages|
    ensures |r.pages| == |start.pages|
  {
    if i == 0 then start else Visit(Swept(start, st, i - 1), i - 1, st)
  }

  /** The loop as it begins: the document's pages and the cursor after the work. */
  function Start(pages: seq<Page>, c: nat): Sweep
  {
    Sweep(pages, c, [], false, 0)
  }

  /** When pages may not carry `_urn`, the loop changes nothing and fails exactly at a page without one when no token is left. */
  lemma {:induction false} SweptRefused(start: Sweep, st: Setting, i: nat)
    requires i <= |start.pages| && start.done == [] && !start.crashed
    requires !UrnAllowed(st.rules)
    ensures var s := Swept(start, st, i);
      && s.pages == start.pages && s.done == [] && s.counter == start.counter
      && (s.crashed <==> PagesRunOut(start.pages[..i], st.tokens, start.counter, false))
  {
    if i > 0 {
      SweptRefused(start, st, i - 1);
      MissingUrnsStep(start.pages, i - 1);
    }
  }

  /**
    When pages may carry `_urn` and the loop has not failed, the first `i`
    pages carry their assignment from the cursor on, the rest are as they
    were, and the renames are those of the assigned pages, in order.
   */
  predicate AssignedUpTo(s: Sweep, pages: seq<Page>, tokens: seq<nat>, c: nat, i: nat)
    requires i <= |pages|
  {
    && c + MissingUrns(pages[..i]) <= |tokens|
    && s.counter == c + MissingUrns(pages[..i])
    && s.pages == Assigned(pages, tokens, c, i)
    && s.done == Jobs(pages[..i], tokens, c)
  }

  /**
    What holds of the loop after `i` pages when pages may carry `_urn`: it
    has failed exactly when those pages need more tokens than remain; until
    then they are assigned, and a failure leaves everything as it was after
    the pages before the failing one, with every token used.
   */
  predicate Progress(s: Sweep, pages: seq<Page>, tokens: seq<nat>, c: nat, i: nat)
    requires i <= |pages|
  {
    && (s.crashed <==> PagesRunOut(pages[..i], tokens, c, true))
    && (!s.crashed ==> AssignedUpTo(s, pages, tokens, c, i))
    && (s.crashed ==>
          && s.at < i && !HasUrn(pages[s.at])
          && c + MissingUrns(pages[..s.at]) == |tokens|
          && AssignedUpTo(s, pages, tokens, c, s.at))
  }

  /** A failed loop stays failed, and the pages it had not reached only add to the shortfall. */
  lemma {:induction false} VisitAfterFailure(s: Sweep, pages: seq<Page>, st: Setting, c: nat, j: nat)
    requires j < |pages| == |s.pages| && UrnAllowed(st.rules)
    requires Progress(s, pages, st.tokens, c, j) && s.crashed
    ensures Progress(Visit(s, j, st), pages, st.tokens, c, j + 1)
  {
    MissingUrnsStep(pages, j);
  }

  /** A page that has `_urn` changes nothing. */
  lemma {:induction false} VisitKept(s: Sweep, pages: seq<Page>, st: Setting, c: nat, j: nat)
    requires j < |pages| == |s.pages| && UrnAllowed(st.rules)
    requires AssignedUpTo(s, pages, st.tokens, c, j) && !s.crashed && HasUrn(pages[j])
    ensures Progress(Visit(s, j, st), pages, st.tokens, c, j + 1)
  {
    MissingUrnsStep(pages, j);
    AssignedStep(pages, st.tokens, c, j);
    JobsSnocKept(pages, st.tokens, c, j);
    AssignedUntouched(pages, st.tokens, c, j, j);
    assert s.pages[j := pages[j]] == s.pages;
  }

  /** A page without `_urn` that finds no token left fails the loop there. */
  lemma {:induction false} VisitShort(s: Sweep, pages: seq<Page>, st: Setting, c: nat, j: nat)
    requires j < |pages| == |s.pages| && UrnAllowed(st.rules)
    requires AssignedUpTo(s, pages, st.tokens, c, j) && !s.crashed && !HasUrn(pages[j]) && s.counter >= |st.tokens|
    ensures Progress(Visit(s, j, st), pages, st.tokens, c, j + 1)
  {
    MissingUrnsStep(pages, j);
    AssignedUntouched(pages, st.tokens, c, j, j);
  }

  /** The loop at a page without `_urn` that finds a token: the page takes it, the cursor moves on, the rename is recorded. */
  lemma {:induction false} VisitTakes(s: Sweep, j: nat, st: Setting)
    requires j < |s.pages| && UrnAllowed(st.rules)
    requires !s.crashed && !HasUrn(s.pages[j]) && s.counter < |st.tokens|
    ensures var oid := st.tokens[s.counter];
      Visit(s, j, st) == s.(pages := s.pages[j := AssignedPage(s.pages[j], oid)], counter := s.counter + 1,
                            done := s.done + [Job(FileName(s.pages[j].imageName), oid)])
  {
  }

  /** A page without `_urn` that finds a token takes it: the loop's pages are the assignment of one more page. */
  lemma {:induction false} VisitFreshPages(s: Sweep, pages: seq<Page>, st: Setting, c: nat, j: nat)
    requires j < |pages| == |s.pages| && UrnAllowed(st.rules)
    requires !s.crashed && !HasUrn(pages[j]) && s.counter < |st.tokens|
    requires c + MissingUrns(pages[..j + 1]) <= |st.tokens| && s.counter == c + MissingUrns(pages[..j])
    requires s.pages == Assigned(pages, st.tokens, c, j)
    ensures Visit(s, j, st).pages == Assigned(pages, st.tokens, c, j + 1)
  {
    AssignedTake(pages, st.tokens, c, j, s.counter, s.pages);
    VisitTakes(s, j, st);
  }

  /** A page without `_urn` that finds a token takes it: its rename follows those of the pages before it. */
  lemma {:induction false} VisitFreshJobs(s: Sweep, pages: seq<Page>, st: Setting, c: nat, j: nat)
    requires j < |pages| == |s.pages| && UrnAllowed(st.rules)
    requires !s.crashed && !HasUrn(pages[j]) && s.counter < |st.tokens|
    requires c + MissingUrns(pages[..j + 1]) <= |st.tokens| && s.counter == c + MissingUrns(pages[..j])
    requires s.done == Jobs(pages[..j], st.tokens, c) && s.pages[j] == pages[j]
    ensures Visit(s, j, st).done == Jobs(pages[..j + 1], st.tokens, c)
  {
    JobsSnocFresh(pages, st.tokens, c, j, s.counter);
    VisitTakes(s, j, st);
  }

  /** A page without `_urn` that finds a token takes it, and its rename follows those of the pages before it. */
  lemma {:induction false} VisitFresh(s: Sweep, pages: seq<Page>, st: Setting, c: nat, j: nat)
    requires j < |pages| == |s.pages| && UrnAllowed(st.rules)
    requires AssignedUpTo(s, pages, st.tokens, c, j) && !s.crashed && !HasUrn(pages[j]) && s.counter < |st.tokens|
    ensures Progress(Visit(s, j, st), pages, st.tokens, c, j + 1)
  {
    MissingUrnsStep(pages, j);
    AssignedUntouched(pages, st.tokens, c, j, j);
    VisitFreshPages(s, pages, st, c, j);
    VisitFreshJobs(s, pages, st, c, j);
    VisitTakes(s, j, st);
  }

  /** One more page keeps the loop's progress, whichever way the page goes. */
  lemma {:induction false} VisitProgress(prev: Sweep, pages: seq<Page>, st: Setting, c: nat, j: nat)
    requires j < |pages| == |prev.pages| && UrnAllowed(st.rules)
    requires Progress(prev, pages, st.tokens, c, j)
    ensures Progress(Visit(prev, j, st), pages, st.tokens, c, j + 1)
  {
    if prev.crashed {
      VisitAfterFailure(prev, pages, st, c, j);
    } else if HasUrn(pages[j]) {
      VisitKept(prev, pages, st, c, j);
    } else if prev.counter >= |st.tokens| {
      VisitShort(prev, pages, st, c, j);
    } else {
      VisitFresh(prev, pages, st, c, j);
    }
  }

  /** When pages may carry `_urn`, the loop makes progress page by page. */
  lemma {:induction false} SweptAssigned(start: Sweep, st: Setting, i: nat)
    requires i <= |start.pages| && start.done == [] && !start.crashed && start.counter <= |st.tokens|
    requires UrnAllowed(st.rules)
    ensures Progress(Swept(start, st, i), start.pages, st.tokens, start.counter, i)
  {
    if i == 0 {
      AssignedNone(start.pages, st.tokens, start.counter);
    } else {
      SweptAssigned(start, st, i - 1);
      VisitProgress(Swept(start, st, i - 1), start.pages, st, start.counter, i - 1);
    }
  }

  /** Once the loop has failed, the pages after the failing one change nothing. */
  lemma {:induction false} SweptStaysCrashed(start: Sweep, st: Setting, i: nat, n: nat)
    requires i <= n <= |start.pages| && Swept(start, st, i).crashed
    ensures Swept(start, st, n) == Swept(start, st, i)
  {
    if n > i {
      SweptStaysCrashed(start, st, i, n - 1);
    }
  }

  /** A loop that fails at page `i` ends in the state it failed in. */
  lemma {:induction false} SweptEndsAt(start: Sweep, st: Setting, i: nat, sw: Sweep)
    requires i < |start.pages| && sw == Swept(start, st, i) && Visit(sw, i, st).crashed
    ensures Swept(start, st, |start.pages|) == Visit(sw, i, st)
  {
    SweptStaysCrashed(start, st, i + 1, |start.pages|);
  }

  /**
    The whole loop: it fails exactly when the pages run out of tokens. When
    pages may carry `_urn` and it does not fail, every page is assigned and
    the cursor has moved past one token per page that lacked `_urn`; when it
    fails, the renames done are those of the pages before the first page
    that found no token. When pages may not carry `_urn`, nothing is renamed
    and the pages and the cursor are as they were.
   */
  lemma {:induction false} SweptOutcome(start: Sweep, st: Setting)
    requires start.done == [] && !start.crashed && start.counter <= |st.tokens|
    ensures var s := Swept(start, st, |start.pages|);
      var allowed := UrnAllowed(st.rules);
      && (s.crashed <==> PagesRunOut(start.pages, st.tokens, start.counter, allowed))
      && (allowed && !s.crashed ==>
            && s.pages == AssignFrom(start.pages, st.tokens, start.counter)
            && s.done == Jobs(start.pages, st.tokens, start.counter)
            && s.counter == start.counter + MissingUrns(start.pages))
      && (allowed && s.crashed ==>
            && s.at < |start.pages| && !HasUrn(start.pages[s.at])
            && start.counter + MissingUrns(start.pages[..s.at]) == |st.tokens|
            && s.done == Jobs(start.pages[..s.at], st.tokens, start.counter))
      && (!allowed ==> s.pages == start.pages && s.done == [] && s.counter == start.counter)
  {
    var n := |start.pages|;
    assert start.pages[..n] == start.pages;
    if UrnAllowed(st.rules) {
      SweptAssigned(start, st, n);
      if !Swept(start, st, n).crashed {
        AssignedAll(start.pages, st.tokens, start.counter);
      }
    } else {
      SweptRefused(start, st, n);
    }
  }
}
