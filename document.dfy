/**
  The digital document of a process as the OID step changes it in place:
  the metadata of the logical root, the links from the logical root to the
  pages, the physical root with its metadata and its pages, and the
  locations of the content files.
 */
module Document {
  import opened Names
  import opened Mets
  import opened Assignment

  class DigitalDocument {
    var logical: seq<Metadata>
    /** The pages linked from the logical root (addReferenceTo), by their position under the physical root. */
    var references: seq<nat>
    var physicalPresent: bool
    var physical: seq<Metadata>
    var pages: seq<Page>
    var contentFiles: seq<string>

    /** A document without a physical root has neither physical metadata nor pages. */
    ghost predicate Valid()
      reads this
    {
      !physicalPresent ==> physical == [] && pages == []
    }

    constructor (logical: seq<Metadata>, references: seq<nat>, physicalPresent: bool, physical: seq<Metadata>,
                 pages: seq<Page>, contentFiles: seq<string>)
      requires !physicalPresent ==> physical == [] && pages == []
      ensures Valid()
      ensures this.logical == logical && this.references == references && this.physicalPresent == physicalPresent
      ensures this.physical == physical && this.pages == pages && this.contentFiles == contentFiles
    {
      this.logical := logical;
      this.references := references;
      this.physicalPresent := physicalPresent;
      this.physical := physical;
      this.pages := pages;
      this.contentFiles := contentFiles;
    }

    /** Counts the pages without `_urn`, page by page in physical order. */
    method CountMissingUrns() returns (n: nat)
      ensures n == MissingUrns(pages)
    {
      n := 0;
      var i := 0;
      while i < |pages|
        invariant 0 <= i <= |pages|
        invariant n == MissingUrns(pages[..i])
      {
        MissingUrnsStep(pages, i);
        if !HasUrn(pages[i]) {
          n := n + 1;
        }
        i := i + 1;
      }
      assert pages[..i] == pages;
    }

    /** Creates an empty physical root (a BoundBook) when the document has none. */
    method EnsurePhysical()
      requires Valid()
      modifies this
      ensures Valid() && physicalPresent
      ensures logical == old(logical) && references == old(references) && contentFiles == old(contentFiles)
      ensures physical == old(physical) && pages == old(pages)
    {
      if !physicalPresent {
        physicalPresent := true;
      }
    }

    /**
      Builds one page per image, in listing order: image name, physical page
      number `k + 1`, logical page number "uncounted", then the page goes
      under the physical root and is linked from the logical root. The rule
      set rejects either every page or none, so a rejection leaves the
      document without pages and reports failure.
     */
    method Paginate(images: seq<string>, rules: RuleSet) returns (ok: bool)
      requires Valid() && physicalPresent && pages == []
      modifies this
      ensures Valid()
      ensures ok <==> images == [] || PaginationAllowed(rules)
      ensures pages == if ok then SynthesizedPages(images) else []
      ensures references == if ok then old(references) + seq(|images|, k => k) else old(references)
      ensures logical == old(logical) && physicalPresent && physical == old(physical) && contentFiles == old(contentFiles)
    {
      ok := true;
      var i := 0;
      while i < |images|
        invariant 0 <= i <= |images|
        invariant i > 0 ==> PaginationAllowed(rules)
        invariant pages == SynthesizedPages(images[..i])
        invariant references == old(references) + seq(i, k => k)
        invariant logical == old(logical) && physicalPresent && physical == old(physical) && contentFiles == old(contentFiles)
      {
        var number := Decimal(i + 1);
        var md: seq<Metadata> := [];
        if !CanAdd(rules, PageNode, md, PhysPageNumber) {
          ok := false;
          return;
        }
        md := md + [Metadata(PhysPageNumber, number)];
        SinglePhysNumber(rules, number);
        if !CanAdd(rules, PageNode, md, LogicalPageNumber) {
          ok := false;
          return;
        }
        md := md + [Metadata(LogicalPageNumber, "uncounted")];
        if !rules.pageChildAllowed {
          ok := false;
          return;
        }
        assert md == NewPage(images[i], i + 1).metadata;
        SynthesizedSnoc(images, i);
        assert seq(i + 1, k => k) == seq(i, k => k) + [i];
        pages := pages + [Page(images[i], md)];
        references := references + [i];
        i := i + 1;
      }
      assert images[..i] == images;
    }

    /**
      Gives the work the token `oid`: the first CatalogIDDigital field takes
      its text, or a new field is added when the rule set allows it; then
      the physical root gets a `_urn` with the same text when allowed.
     */
    method AssignWork(oid: nat, rules: RuleSet)
      requires Valid() && physicalPresent
      modifies this
      ensures Valid()
      ensures logical == WorkAssigned(old(logical), oid, rules)
      ensures physical == PhysicalAssigned(old(physical), oid, rules)
      ensures references == old(references) && physicalPresent && pages == old(pages) && contentFiles == old(contentFiles)
    {
      var value := Decimal(oid);
      var i := FirstIndex(logical, CatalogIdDigital);
      if i >= 0 {
        logical := logical[i := Metadata(CatalogIdDigital, value)];
      } else if CanAdd(rules, LogicalRoot, logical, CatalogIdDigital) {
        logical := logical + [Metadata(CatalogIdDigital, value)];
      }
      if CanAdd(rules, PhysicalRoot, physical, Urn) {
        physical := physical + [Metadata(Urn, value)];
      }
    }

    /** Adds a `_urn` with the text of `oid` to page `k`, if the rule set allows it there. */
    method AddPageUrn(k: nat, oid: nat, rules: RuleSet) returns (added: bool)
      requires Valid() && k < |pages|
      modifies this
      ensures Valid()
      ensures added <==> CanAdd(rules, PageNode, old(pages)[k].metadata, Urn)
      ensures pages == if added then old(pages)[k := Page(old(pages)[k].imageName, old(pages)[k].metadata + [Metadata(Urn, Decimal(oid))])] else old(pages)
      ensures logical == old(logical) && references == old(references) && physicalPresent == old(physicalPresent)
      ensures physical == old(physical) && contentFiles == old(contentFiles)
    {
      added := CanAdd(rules, PageNode, pages[k].metadata, Urn);
      if added {
        pages := pages[k := Page(pages[k].imageName, pages[k].metadata + [Metadata(Urn, Decimal(oid))])];
      }
    }

    /** Sets the image name of page `k`. */
    method SetImageName(k: nat, name: string)
      requires Valid() && k < |pages|
      modifies this
      ensures Valid()
      ensures pages == old(pages)[k := Page(name, old(pages)[k].metadata)]
      ensures logical == old(logical) && references == old(references) && physicalPresent == old(physicalPresent)
      ensures physical == old(physical) && contentFiles == old(contentFiles)
    {
      pages := pages[k := Page(name, pages[k].metadata)];
    }

    /** Points every content file whose location ends in `oldName` at `location`. */
    method MirrorContentFiles(oldName: string, location: string)
      requires Valid()
      modifies this
      ensures Valid()
      ensures contentFiles == Mirrored(old(contentFiles), oldName, location)
      ensures logical == old(logical) && references == old(references) && physicalPresent == old(physicalPresent)
      ensures physical == old(physical) && pages == old(pages)
    {
      var i := 0;
      while i < |contentFiles|
        invariant 0 <= i <= |contentFiles| == |old(contentFiles)|
        invariant forall j :: 0 <= j < i ==> contentFiles[j] == Mirrored(old(contentFiles), oldName, location)[j]
        invariant forall j :: i <= j < |contentFiles| ==> contentFiles[j] == old(contentFiles)[j]
        invariant logical == old(logical) && references == old(references) && physicalPresent == old(physicalPresent)
        invariant physical == old(physical) && pages == old(pages)
      {
        if FileName(contentFiles[i]) == oldName {
          contentFiles := contentFiles[i := location];
        }
        i := i + 1;
      }
    }
  }

  /** Whether a page may take both page numbers does not depend on the physical number's text. */
  lemma {:induction false} SinglePhysNumber(rules: RuleSet, number: string)
    ensures CanAdd(rules, PageNode, [Metadata(PhysPageNumber, number)], LogicalPageNumber)
        == CanAdd(rules, PageNode, [Metadata(PhysPageNumber, "1")], LogicalPageNumber)
  {
    assert !HasType([Metadata(PhysPageNumber, number)], LogicalPageNumber);
    assert !HasType([Metadata(PhysPageNumber, "1")], LogicalPageNumber);
  }
}
