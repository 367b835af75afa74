/**
  The derivative image folders of a process on disk. A folder holds a set
  of file names; the step lists every folder once, before it renames
  anything, and then moves files within their folders by that listing.
 */
module Storage {
  import opened Names

  /** The folders and their files, as the step lists them once (getAllFolderAndFiles). */
  type Listing = map<string, seq<string>>

  /** The listing shows each folder of `folders` and exactly the files in it. */
  ghost predicate Lists(listing: Listing, folders: map<string, set<string>>)
  {
    && listing.Keys == folders.Keys
    && forall d :: d in listing ==> forall f :: f in listing[d] <==> f in folders[d]
  }

  /** Every file name carries an extension (the step splits each listed name at its last dot). */
  predicate NamesDotted(folders: map<string, set<string>>)
  {
    forall d, f :: d in folders && f in folders[d] ==> '.' in f
  }

  predicate ListingDotted(listing: Listing)
  {
    forall d, f :: d in listing && f in listing[d] ==> '.' in f
  }

  /** The name a file takes when its page gets identifier text `oid`: `<oid>.<its own extension>`. */
  function Target(name: string, oid: string): string
  {
    Dotted(oid, SplitName(name).ext)
  }

  /** The listed files still present in `files` whose base is `base`. */
  function Matched(files: set<string>, listing: seq<string>, base: string): set<string>
  {
    set f | f in listing && f in files && SplitName(f).base == base
  }

  function Targets(names: set<string>, oid: string): set<string>
  {
    set f | f in names :: Target(f, oid)
  }

  /**
    A folder's files once every listed file whose base is `base` has moved
    to `<oid>.<its own extension>`; listed files already gone are skipped.
   */
  function Renamed(files: set<string>, listing: seq<string>, base: string, oid: string): (r: set<string>)
    ensures forall g :: g in files && g !in listing ==> g in r
    ensures Matched(files, listing, base) == {} ==> r == files
  {
    var m := Matched(files, listing, base);
    (files - m) + Targets(m, oid)
  }

  /** Every folder after renaming one page's files in all listed folders. */
  function RenamedAll(folders: map<string, set<string>>, listing: Listing, base: string, oid: string): (r: map<string, set<string>>)
    ensures r.Keys == folders.Keys
  {
    map d | d in folders :: if d in listing then Renamed(folders[d], listing[d], base, oid) else folders[d]
  }

  /** A listed file present with the page's base reaches its target in its folder. */
  lemma {:induction false} RenamedAllReaches(folders: map<string, set<string>>, listing: Listing, d: string, f: string, base: string, oid: string)
    requires d in folders && d in listing && f in folders[d] && f in listing[d] && SplitName(f).base == base
    ensures Target(f, oid) in RenamedAll(folders, listing, base, oid)[d]
  {
    assert f in Matched(folders[d], listing[d], base);
  }

  /** A file whose base is not the page's base stays in its folder. */
  lemma {:induction false} RenamedAllKeeps(folders: map<string, set<string>>, listing: Listing, d: string, g: string, base: string, oid: string)
    requires d in folders && g in folders[d] && SplitName(g).base != base
    ensures g in RenamedAll(folders, listing, base, oid)[d]
  {
    if d in listing {
      RenamedKeeps(folders[d], listing[d], g, base, oid);
    }
  }

  /** The file `<b>.<e>` renamed to identifier text `o1` lands on the file `<o1>.<e>` next to it. */
  lemma {:induction false} RenamedOnto(f1: string, f2: string, b: string, e: string, o1: string)
    requires '.' !in e && f1 == Dotted(b, e) && f2 == Dotted(o1, e)
    ensures Renamed({f1, f2}, [f1, f2], b, o1) == {f2}
  {
    SplitJoin(b, e);
    SplitJoin(o1, e);
    assert Matched({f1, f2}, [f1, f2], b) == {f1};
  }

  /** The file `<o1>.<e>` renamed to identifier text `o2` becomes `<o2>.<e>`. */
  lemma {:induction false} RenamedLast(f1: string, f2: string, e: string, o1: string, o2: string)
    requires '.' !in e && f2 == Dotted(o1, e)
    ensures Renamed({f2}, [f1, f2], o1, o2) == {Dotted(o2, e)}
  {
    SplitJoin(o1, e);
    assert Matched({f2}, [f1, f2], o1) == {f2};
  }

  /** Every folder after renaming one page's files in the listed folders outside `todo`. */
  ghost function RenamedBut(folders: map<string, set<string>>, listing: Listing, todo: set<string>, base: string, oid: string): map<string, set<string>>
  {
    map d | d in folders :: if d in listing && d !in todo then Renamed(folders[d], listing[d], base, oid) else folders[d]
  }

  /** Renaming in one more folder of `todo` takes it out of `todo`; with nothing left, all listed folders are renamed. */
  lemma {:induction false} RenamedButStep(folders: map<string, set<string>>, listing: Listing, todo: set<string>, d: string, base: string, oid: string)
    requires d in todo && d in listing && d in folders
    ensures d in RenamedBut(folders, listing, todo, base, oid)
    ensures RenamedBut(folders, listing, todo - {d}, base, oid)
         == RenamedBut(folders, listing, todo, base, oid)[d := Renamed(RenamedBut(folders, listing, todo, base, oid)[d], listing[d], base, oid)]
  {
    var now := RenamedBut(folders, listing, todo, base, oid);
    var next := RenamedBut(folders, listing, todo - {d}, base, oid);
    var want := now[d := Renamed(folders[d], listing[d], base, oid)];
    assert now[d] == folders[d];
    forall e | e in folders
      ensures next[e] == want[e]
    {
      if e != d {
        assert next[e] == now[e];
      }
    }
    assert next.Keys == want.Keys;
  }

  /** Before the first folder nothing is renamed. */
  lemma {:induction false} RenamedButNone(folders: map<string, set<string>>, listing: Listing, base: string, oid: string)
    ensures RenamedBut(folders, listing, listing.Keys, base, oid) == folders
  {
  }

  /** With no folder left, every listed folder is renamed. */
  lemma {:induction false} RenamedButAll(folders: map<string, set<string>>, listing: Listing, base: string, oid: string)
    ensures RenamedBut(folders, listing, {}, base, oid) == RenamedAll(folders, listing, base, oid)
  {
  }

  /** A name of the form `<base>.<ext>` is its own target when the identifier text equals its base. */
  lemma {:induction false} TargetOfOwnBase(f: string, oid: string)
    requires '.' in f && SplitName(f).base == oid
    ensures Target(f, oid) == f
  {
  }

  /** Listing one more file adds it to the matched files exactly when it is present and has base `base`. */
  lemma {:induction false} MatchedSnoc(files: set<string>, listing: seq<string>, f: string, base: string)
    ensures Matched(files, listing + [f], base)
         == if f in files && SplitName(f).base == base then Matched(files, listing, base) + {f} else Matched(files, listing, base)
  {
    var m := Matched(files, listing, base);
    var m' := Matched(files, listing + [f], base);
    forall g ensures g in m' <==> g in m || (g == f && f in files && SplitName(f).base == base) {
      assert g in listing + [f] <==> g in listing || g == f;
    }
  }

  /** A listed file whose base is not `base` does not change what the renaming does. */
  lemma {:induction false} RenamedSkip(files: set<string>, listing: seq<string>, f: string, base: string, oid: string)
    requires SplitName(f).base != base
    ensures Renamed(files, listing + [f], base, oid) == Renamed(files, listing, base, oid)
  {
    MatchedSnoc(files, listing, f, base);
  }

  /** When the identifier text equals the base, every matched file is its own target and nothing changes. */
  lemma {:induction false} RenamedOwnBase(files: set<string>, listing: seq<string>, base: string)
    requires forall g :: g in listing ==> '.' in g
    ensures Renamed(files, listing, base, base) == files
  {
    var m := Matched(files, listing, base);
    forall g | g in m ensures Target(g, base) == g {
      TargetOfOwnBase(g, base);
    }
    assert Targets(m, base) == m;
  }

  /** No target of identifier text `oid` has a base other than `oid`. */
  lemma {:induction false} TargetsBase(m: set<string>, oid: string, x: string)
    requires x in Targets(m, oid)
    ensures SplitName(x).base == oid
  {
    var g :| g in m && x == Target(g, oid);
    SplitJoin(oid, SplitName(g).ext);
  }

  /**
    A folder's files after the listed files are moved one at a time, in
    listing order: a file whose base is `base` moves to its target when it
    is still there, and nothing happens when it is gone or named otherwise.
   */
  function Replayed(files: set<string>, listing: seq<string>, base: string, oid: string): set<string>
  {
    if listing == [] then files
    else
      ReplayStep(Replayed(files, listing[..|listing| - 1], base, oid), listing[|listing| - 1], base, oid)
  }

  /** One listed name moved, when its base is `base` and it is still present. */
  function ReplayStep(live: set<string>, f: string, base: string, oid: string): set<string>
  {
    if SplitName(f).base == base && f in live then live - {f} + {Target(f, oid)} else live
  }

  /** Moving one more matching file when the identifier text equals the base leaves the folder as it is. */
  lemma {:induction false} RenamedStepSame(files: set<string>, listing: seq<string>, f: string, base: string)
    requires forall g :: g in listing ==> '.' in g
    requires '.' in f && SplitName(f).base == base
    ensures var live := Renamed(files, listing, base, base);
      Renamed(files, listing + [f], base, base) == if f in live then live - {f} + {Target(f, base)} else live
  {
    RenamedOwnBase(files, listing, base);
    RenamedOwnBase(files, listing + [f], base);
    TargetOfOwnBase(f, base);
  }

  /** Moving one more matching file to a different identifier text takes it out and puts its target in. */
  lemma {:induction false} RenamedStepOther(files: set<string>, listing: seq<string>, f: string, base: string, oid: string)
    requires SplitName(f).base == base && base != oid
    ensures var live := Renamed(files, listing, base, oid);
      Renamed(files, listing + [f], base, oid) == if f in live then live - {f} + {Target(f, oid)} else live
  {
    var m := Matched(files, listing, base);
    MatchedSnoc(files, listing, f, base);
    if f in Targets(m, oid) {
      TargetsBase(m, oid, f);
    }
    if f in files && f !in m {
      assert Targets(m + {f}, oid) == Targets(m, oid) + {Target(f, oid)};
    }
  }

  /**
    Moving the listed files one at a time, as the step's loop does, gives
    the closed form: every listed file present with base `base` ends at its
    target and every other file stays.
   */
  lemma {:induction false} ReplayedIsRenamed(files: set<string>, listing: seq<string>, base: string, oid: string)
    requires forall g :: g in listing ==> '.' in g
    ensures Replayed(files, listing, base, oid) == Renamed(files, listing, base, oid)
  {
    if listing == [] {
      assert Matched(files, listing, base) == {};
    } else {
      var init := listing[..|listing| - 1];
      var f := listing[|listing| - 1];
      assert listing == init + [f];
      assert forall g :: g in init ==> g in listing;
      ReplayedIsRenamed(files, init, base, oid);
      if SplitName(f).base != base {
        RenamedSkip(files, init, f, base, oid);
      } else if base == oid {
        RenamedStepSame(files, init, f, base);
      } else {
        RenamedStepOther(files, init, f, base, oid);
      }
    }
  }

  /** A matched file leaves its folder and its target appears, when the identifier text differs from its base. */
  lemma {:induction false} RenamedMoves(files: set<string>, listing: seq<string>, f: string, base: string, oid: string)
    requires f in files && f in listing && SplitName(f).base == base
    requires base != oid
    ensures f !in Renamed(files, listing, base, oid)
    ensures Target(f, oid) in Renamed(files, listing, base, oid)
  {
    var m := Matched(files, listing, base);
    assert f in m;
    forall g | g in m ensures SplitName(Target(g, oid)).base == oid {
      SplitJoin(oid, SplitName(g).ext);
    }
    assert f !in Targets(m, oid);
  }

  /** A file that is not listed, or whose base differs, stays where it is. */
  lemma {:induction false} RenamedKeeps(files: set<string>, listing: seq<string>, g: string, base: string, oid: string)
    requires g in files && (g !in listing || SplitName(g).base != base)
    ensures g in Renamed(files, listing, base, oid)
  {
  }

  /** Every name the renaming adds is `<oid>.<ext>` for the extension of a matched file. */
  lemma {:induction false} RenamedAddsOnlyTargets(files: set<string>, listing: seq<string>, x: string, base: string, oid: string)
    requires x in Renamed(files, listing, base, oid) && x !in files
    ensures SplitName(x).base == oid
    ensures exists f :: f in listing && f in files && SplitName(f).base == base && x == Target(f, oid)
  {
    var m := Matched(files, listing, base);
    var f :| f in m && x == Target(f, oid);
    SplitJoin(oid, SplitName(f).ext);
  }

  class FileStore {
    var folders: map<string, set<string>>

    constructor (initial: map<string, set<string>>)
      ensures folders == initial
    {
      folders := initial;
    }

    /**
      Moves `src` to `dst` within `folder`, replacing a file of that name;
      a missing source fails and leaves every folder as it was.
     */
    method Move(folder: string, src: string, dst: string) returns (moved: bool)
      modifies this
      ensures moved <==> folder in old(folders) && src in old(folders)[folder]
      ensures folders == if moved then old(folders)[folder := old(folders)[folder] - {src} + {dst}] else old(folders)
    {
      moved := folder in folders && src in folders[folder];
      if moved {
        folders := folders[folder := folders[folder] - {src} + {dst}];
      }
    }

    /** Moves `name` within `folder` to its target when its base is `base`. */
    method MoveMatching(folder: string, name: string, base: string, oid: string)
      requires folder in folders
      modifies this
      ensures folders == old(folders)[folder := ReplayStep(old(folders)[folder], name, base, oid)]
    {
      var parts := SplitName(name);
      if parts.base == base {
        var _ := Move(folder, name, Dotted(oid, parts.ext));
      } else {
        assert folders[folder := folders[folder]] == folders;
      }
    }

    /** Moves every listed file of `folder` whose base is `base` to `<oid>.<its extension>`. */
    method RenameInFolder(folder: string, listing: seq<string>, base: string, oid: string)
      requires folder in folders
      requires forall g :: g in listing ==> '.' in g
      modifies this
      ensures folders == old(folders)[folder := Renamed(old(folders)[folder], listing, base, oid)]
    {
      ghost var files := folders[folder];
      assert old(folders)[folder := files] == old(folders);
      var j := 0;
      while j < |listing|
        invariant 0 <= j <= |listing|
        invariant folders == old(folders)[folder := Replayed(files, listing[..j], base, oid)]
      {
        assert listing[..j + 1][..j] == listing[..j];
        MoveMatching(folder, listing[j], base, oid);
        j := j + 1;
      }
      assert listing[..j] == listing;
      ReplayedIsRenamed(files, listing, base, oid);
    }

    /** Renames one page's files in every folder of the listing, folder by folder in any order. */
    method RenameEverywhere(listing: Listing, base: string, oid: string)
      requires listing.Keys <= folders.Keys
      requires ListingDotted(listing)
      modifies this
      ensures folders == RenamedAll(old(folders), listing, base, oid)
    {
      var todo := listing.Keys;
      ghost var folders0 := folders;
      RenamedButNone(folders0, listing, base, oid);
      while todo != {}
        invariant todo <= listing.Keys && listing.Keys <= folders0.Keys
        invariant folders == RenamedBut(folders0, listing, todo, base, oid)
        decreases todo
      {
        var d :| d in todo;
        RenamedButStep(folders0, listing, todo, d, base, oid);
        RenameInFolder(d, listing[d], base, oid);
        todo := todo - {d};
      }
      RenamedButAll(folders0, listing, base, oid);
    }

    /** Lists every folder once, each in whatever order the file system yields. */
    method ListAll() returns (listing: Listing)
      ensures Lists(listing, folders)
    {
      listing := map[];
      var todo := folders.Keys;
      while todo != {}
        invariant todo <= folders.Keys
        invariant listing.Keys == folders.Keys - todo
        invariant forall d :: d in listing ==> forall f :: f in listing[d] <==> f in folders[d]
        decreases todo
      {
        var d :| d in todo;
        var names := ListFolder(folders[d]);
        listing := listing[d := names];
        todo := todo - {d};
      }
    }
  }

  /** The files of one folder as a sequence without repetitions, in an unspecified order. */
  method ListFolder(files: set<string>) returns (names: seq<string>)
    ensures forall f :: f in names <==> f in files
    ensures |names| == |files|
  {
    names := [];
    var rest := files;
    while rest != {}
      invariant rest <= files
      invariant forall f :: f in names <==> f in files - rest
      invariant |names| + |rest| == |files|
      decreases rest
    {
      var f :| f in rest;
      names := names + [f];
      rest := rest - {f};
    }
  }

  /** A listing of dotted folders is dotted. */
  lemma {:induction false} ListingOfDotted(listing: Listing, folders: map<string, set<string>>)
    requires Lists(listing, folders) && NamesDotted(folders)
    ensures ListingDotted(listing)
  {
    forall d, f | d in listing && f in listing[d] ensures '.' in f {
      assert f in folders[d];
    }
  }
}
