/**
  The metadata of a digitised work as the OID step reads it: metadata
  fields on the logical root, the physical root and the pages, the rule
  set that decides which field a node may carry, and the gap analysis
  that counts how many identifiers are still missing.
 */
module Mets {
  import opened Names

  /** The metadata types the step looks at; every other type is carried along untouched. */
  datatype MdType = CatalogIdDigital | Urn | PhysPageNumber | LogicalPageNumber | OtherType(name: string)

  datatype Metadata = Metadata(mdType: MdType, value: string)

  /** The three kinds of structure node the step adds metadata to. */
  datatype NodeKind = LogicalRoot | PhysicalRoot | PageNode

  /**
    The part of the rule set that addMetadata and addChild consult: the
    types a node kind may carry at all, the types it may carry at most once,
    and whether a page may be a child of the physical root.
   */
  datatype RuleSet = RuleSet(allowed: set<(NodeKind, MdType)>, single: set<(NodeKind, MdType)>, pageChildAllowed: bool)

  /** A page of the physical structure: its image file name and its metadata, in order. */
  datatype Page = Page(imageName: string, metadata: seq<Metadata>)

  /** Index of the first field of type `t`, or -1 (getAllMetadataByType(t).get(0)). */
  function FirstIndex(md: seq<Metadata>, t: MdType): (r: int)
    ensures -1 <= r < |md|
    ensures r >= 0 ==> md[r].mdType == t
    ensures forall k :: 0 <= k < |md| && (r == -1 || k < r) ==> md[k].mdType != t
  {
    if md == [] then -1
    else if md[0].mdType == t then 0
    else
      var r := FirstIndex(md[1..], t);
      if r == -1 then -1 else r + 1
  }

  /** Some field of the node has type `t` (getAllMetadataByType(t) is not empty). */
  predicate HasType(md: seq<Metadata>, t: MdType)
  {
    exists k :: 0 <= k < |md| && md[k].mdType == t
  }

  /** The first field of type `t` exists exactly when some field has type `t`. */
  lemma {:induction false} FirstIndexFound(md: seq<Metadata>, t: MdType)
    ensures FirstIndex(md, t) >= 0 <==> HasType(md, t)
  {
  }

  /** addMetadata succeeds unless the type is not allowed on the node or is single and already there. */
  predicate CanAdd(rules: RuleSet, kind: NodeKind, md: seq<Metadata>, t: MdType)
  {
    (kind, t) in rules.allowed && ((kind, t) in rules.single ==> !HasType(md, t))
  }

  predicate HasUrn(p: Page)
  {
    HasType(p.metadata, Urn)
  }

  /** The work needs an identifier unless its first CatalogIDDigital value is a final one. */
  predicate WorkNeeded(logical: seq<Metadata>): (r: bool)
    ensures !HasType(logical, CatalogIdDigital) ==> r
    ensures forall k ::
      (&& 0 <= k < |logical| && logical[k].mdType == CatalogIdDigital && IsFinalWorkId(logical[k].value)
       && forall j :: 0 <= j < k ==> logical[j].mdType != CatalogIdDigital) ==> !r
  {
    var i := FirstIndex(logical, CatalogIdDigital);
    !(i >= 0 && IsFinalWorkId(logical[i].value))
  }

  /** The number of pages without a `_urn`. */
  function MissingUrns(pages: seq<Page>): (n: nat)
    ensures n <= |pages|
  {
    if pages == [] then 0
    else MissingUrns(pages[..|pages| - 1]) + (if HasUrn(pages[|pages| - 1]) then 0 else 1)
  }

  /** How many identifiers the document lacks: the work, if not final, and every page without `_urn`. */
  function Demand(logical: seq<Metadata>, pages: seq<Page>): (r: nat)
    ensures MissingUrns(pages) <= r <= |pages| + 1
  {
    (if WorkNeeded(logical) then 1 else 0) + MissingUrns(pages)
  }

  /** Counting one more page adds one exactly when that page lacks `_urn`. */
  lemma {:induction false} MissingUrnsStep(pages: seq<Page>, i: nat)
    requires i < |pages|
    ensures MissingUrns(pages[..i + 1]) == MissingUrns(pages[..i]) + (if HasUrn(pages[i]) then 0 else 1)
  {
    assert pages[..i + 1][..i] == pages[..i];
  }

  /** A prefix never lacks more identifiers than the whole, and one more if the next page lacks one. */
  lemma {:induction false} MissingUrnsPrefix(pages: seq<Page>, i: nat)
    requires i < |pages|
    ensures MissingUrns(pages[..i]) + (if HasUrn(pages[i]) then 0 else 1) <= MissingUrns(pages)
  {
    MissingUrnsStep(pages, i);
    if i + 1 < |pages| {
      var init := pages[..|pages| - 1];
      assert init[..i + 1] == pages[..i + 1];
      assert init[..i] == pages[..i];
      MissingUrnsPrefix(init, i);
      assert pages[..|pages| - 1] == init;
    } else {
      assert pages[..i + 1] == pages;
    }
  }

  /** No page lacks `_urn` exactly when the count is zero; every page lacks one exactly when it is the page count. */
  lemma {:induction false} MissingUrnsExtremes(pages: seq<Page>)
    ensures MissingUrns(pages) == 0 <==> forall k :: 0 <= k < |pages| ==> HasUrn(pages[k])
    ensures MissingUrns(pages) == |pages| <==> forall k :: 0 <= k < |pages| ==> !HasUrn(pages[k])
  {
    if pages != [] {
      var init := pages[..|pages| - 1];
      MissingUrnsExtremes(init);
      assert forall k :: 0 <= k < |init| ==> init[k] == pages[k];
    }
  }

  /**
    Demand never exceeds pages + 1, the size of the batch the step requests;
    it is zero exactly when the work is final and every page has `_urn`, and
    it equals pages + 1 exactly when nothing has been assigned before.
   */
  lemma {:induction false} DemandBound(logical: seq<Metadata>, pages: seq<Page>)
    ensures Demand(logical, pages) <= |pages| + 1
    ensures Demand(logical, pages) == 0 <==> !WorkNeeded(logical) && forall k :: 0 <= k < |pages| ==> HasUrn(pages[k])
    ensures Demand(logical, pages) == |pages| + 1 <==> WorkNeeded(logical) && forall k :: 0 <= k < |pages| ==> !HasUrn(pages[k])
  {
    MissingUrnsExtremes(pages);
  }

  /**
    The work identifier after the work took `oid`: the first CatalogIDDigital
    field gets the new value; if there is none, a new field is appended when
    the rule set allows it and nothing changes when it does not.
   */
  function WorkAssigned(logical: seq<Metadata>, oid: nat, rules: RuleSet): (r: seq<Metadata>)
    ensures |logical| <= |r| <= |logical| + 1
    ensures forall k :: 0 <= k < |logical| && k != FirstIndex(logical, CatalogIdDigital) ==> r[k] == logical[k]
    ensures |r| > |logical| ==> !HasType(logical, CatalogIdDigital) && r[|logical|] == Metadata(CatalogIdDigital, Decimal(oid))
  {
    var i := FirstIndex(logical, CatalogIdDigital);
    if i >= 0 then logical[i := Metadata(CatalogIdDigital, Decimal(oid))]
    else if CanAdd(rules, LogicalRoot, logical, CatalogIdDigital) then logical + [Metadata(CatalogIdDigital, Decimal(oid))]
    else logical
  }

  /** The physical root after the work took `oid`: one more `_urn` with the same value, if the rule set allows it. */
  function PhysicalAssigned(physical: seq<Metadata>, oid: nat, rules: RuleSet): (r: seq<Metadata>)
    ensures physical <= r && |r| <= |physical| + 1
    ensures |r| > |physical| <==> CanAdd(rules, PhysicalRoot, physical, Urn)
    ensures |r| > |physical| ==> r[|physical|] == Metadata(Urn, Decimal(oid))
  {
    if CanAdd(rules, PhysicalRoot, physical, Urn) then physical + [Metadata(Urn, Decimal(oid))] else physical
  }

  /**
    Once the work has taken an `oid` below 10^9 and the identifier could be
    written, its identifier reads back as that token and counts as final,
    so a later run does not ask for it again. A larger token is written but
    is never final, so every later run asks for the work again.
   */
  lemma {:induction false} WorkSettled(logical: seq<Metadata>, oid: nat, rules: RuleSet)
    requires HasType(logical, CatalogIdDigital) || CanAdd(rules, LogicalRoot, logical, CatalogIdDigital)
    ensures var w := WorkAssigned(logical, oid, rules);
      && |w| >= |logical|
      && FirstIndex(w, CatalogIdDigital) >= 0
      && w[FirstIndex(w, CatalogIdDigital)].value == Decimal(oid)
      && (WorkNeeded(w) <==> oid >= 1_000_000_000)
  {
    var w := WorkAssigned(logical, oid, rules);
    var i := FirstIndex(logical, CatalogIdDigital);
    var j := if i >= 0 then i else |logical|;
    assert w[j].mdType == CatalogIdDigital;
    assert forall k :: 0 <= k < j ==> w[k] == logical[k];
    assert forall k :: 0 <= k < j ==> w[k].mdType != CatalogIdDigital;
    assert FirstIndex(w, CatalogIdDigital) == j;
    DecimalIsFinal(oid);
  }

  /** A page the step builds for an image: physical number `number`, logical number "uncounted". */
  function NewPage(image: string, number: nat): Page
  {
    Page(image, [Metadata(PhysPageNumber, Decimal(number)), Metadata(LogicalPageNumber, "uncounted")])
  }

  /** The pagination built for a list of images, one page per image in listing order. */
  function SynthesizedPages(images: seq<string>): (pages: seq<Page>)
    ensures |pages| == |images|
  {
    seq(|images|, k requires 0 <= k < |images| => NewPage(images[k], k + 1))
  }

  /** The pagination of one more image is the earlier pagination plus one page numbered after them. */
  lemma {:induction false} SynthesizedSnoc(images: seq<string>, i: nat)
    requires i < |images|
    ensures SynthesizedPages(images[..i + 1]) == SynthesizedPages(images[..i]) + [NewPage(images[i], i + 1)]
  {
    var a := SynthesizedPages(images[..i + 1]);
    var b := SynthesizedPages(images[..i]) + [NewPage(images[i], i + 1)];
    assert |a| == |b|;
    forall k | 0 <= k < |a| ensures a[k] == b[k] {
      assert images[..i + 1][k] == images[k];
    }
  }

  /** Whether the rule set lets a new page carry both page numbers and hang under the physical root. */
  predicate PaginationAllowed(rules: RuleSet)
  {
    && CanAdd(rules, PageNode, [], PhysPageNumber)
    && CanAdd(rules, PageNode, [Metadata(PhysPageNumber, "1")], LogicalPageNumber)
    && rules.pageChildAllowed
  }

  /** No synthesized page has `_urn`, so a synthesized pagination needs one identifier per image. */
  lemma {:induction false} SynthesizedNeedAll(images: seq<string>)
    ensures MissingUrns(SynthesizedPages(images)) == |images|
  {
    var pages := SynthesizedPages(images);
    forall k | 0 <= k < |pages| ensures !HasUrn(pages[k]) {
      assert pages[k].metadata[0].mdType != Urn && pages[k].metadata[1].mdType != Urn;
    }
    MissingUrnsExtremes(pages);
  }
}
