/**
 * A remote folder rebuilt on this computer: the two walks of desktop/src/dragout.ts
 * (downloadTreeTo writes as it goes, planDir only plans) and where each entry lands.
 */
module DragOut {
  import opened Text
  import opened LocalNames
  import opened UniqueNames

  const MAX_FILES: nat := 5000

  /** A folder as the server lists it, its own listing inside. */
  datatype Entry = Folder(basename: string, entries: seq<Entry>) | Document(basename: string)

  /** One thing made here: where it is on the server, where it lands, segment by segment. */
  datatype Copy = Copy(remote: seq<string>, local: seq<string>, isFolder: bool)

  /** How the items of one folder are named here: namesInOneFolder. */
  type Naming = seq<string> -> seq<string>

  ghost predicate Sized(naming: Naming) {
    forall bases :: |naming(bases)| == |bases|
  }

  /** The names of one folder are each safe, and no two of them are one file. */
  ghost predicate Good(naming: Naming, key: Key) {
    Sized(naming) && forall bases :: GoodNames(naming(bases), key)
  }

  ghost predicate GoodNames(names: seq<string>, key: Key) {
    (forall i :: 0 <= i < |names| ==> IsSafe(names[i])) && KeysApart(names, key)
  }

  function OneFolder(key: Key, platform: Platform): Naming
    requires NumbersApart(key)
  {
    bases => Names(bases, {}, key, platform)
  }

  lemma OneFolderIsGood(key: Key, platform: Platform)
    requires NumbersApart(key)
    ensures Good(OneFolder(key, platform), key)
  {
    forall bases ensures GoodNames(Names(bases, {}, key, platform), key) {
      NamesAreApart(bases, key, platform);
      forall i | 0 <= i < |bases| ensures IsSafe(Names(bases, {}, key, platform)[i]) {
        NamesAreSafe(bases, {}, key, platform, i);
      }
    }
  }

  predicate Listed(e: Entry) {
    e.basename != "" && e.basename != ".trash"
  }

  /** The entries of a listing that are copied. */
  function Kept(entries: seq<Entry>): (r: seq<Entry>)
    ensures forall e :: e in r ==> e in entries && Listed(e)
    ensures |r| <= |entries|
  {
    if entries == [] then []
    else if Listed(entries[0]) then [entries[0]] + Kept(entries[1..])
    else Kept(entries[1..])
  }

  function Basenames(entries: seq<Entry>): (r: seq<string>)
    ensures |r| == |entries|
  {
    seq(|entries|, i requires 0 <= i < |entries| => entries[i].basename)
  }

  /** What a folder's entries become, one after another, each folder before what is in it. */
  function Copies(folder: Entry, remote: seq<string>, dest: seq<string>, naming: Naming): seq<Copy>
    requires folder.Folder? && Sized(naming)
    decreases folder, 1, 0
  {
    var kept := Kept(folder.entries);
    CopiesFrom(folder, kept, naming(Basenames(kept)), remote, dest, naming)
  }

  /** The entries from here on. */
  function CopiesFrom(folder: Entry, kept: seq<Entry>, names: seq<string>, remote: seq<string>, dest: seq<string>, naming: Naming)
    : seq<Copy>
    requires folder.Folder? && Sized(naming)
    requires |kept| == |names| && forall e :: e in kept ==> e in folder.entries
    decreases folder, 0, |kept|
  {
    if kept == [] then []
    else
      CopiesOf(folder, kept[0], names[0], remote, dest, naming)
      + CopiesFrom(folder, kept[1..], names[1..], remote, dest, naming)
  }

  /** One entry and everything in it. */
  function CopiesOf(folder: Entry, e: Entry, name: string, remote: seq<string>, dest: seq<string>, naming: Naming): seq<Copy>
    requires folder.Folder? && Sized(naming) && e in folder.entries
    decreases folder, 0, 0
  {
    var r, l := remote + [e.basename], dest + [name];
    [Copy(r, l, e.Folder?)] + if e.Folder? then Copies(e, r, l, naming) else []
  }

  // ── where things land ────────────────────────────────────────────────

  /** Two paths are one place when each of their segments has one key. */
  predicate OnePlace(a: seq<string>, b: seq<string>, key: Key) {
    |a| == |b| && forall i :: 0 <= i < |a| ==> key(a[i]) == key(b[i])
  }

  /** A copy lands below `dest`, by names that are all safe. */
  ghost predicate Below(c: Copy, dest: seq<string>) {
    && dest < c.local
    && forall i :: |dest| <= i < |c.local| ==> IsSafe(c.local[i])
  }

  lemma {:induction false} CopiesLandBelow(folder: Entry, remote: seq<string>, dest: seq<string>, naming: Naming, key: Key)
    requires folder.Folder? && Good(naming, key)
    ensures forall c :: c in Copies(folder, remote, dest, naming) ==> Below(c, dest)
    decreases folder, 1, 0
  {
    var kept := Kept(folder.entries);
    assert GoodNames(naming(Basenames(kept)), key);
    CopiesFromLandBelow(folder, kept, naming(Basenames(kept)), remote, dest, naming, key);
  }

  lemma {:induction false} CopiesFromLandBelow(folder: Entry, kept: seq<Entry>, names: seq<string>,
                                               remote: seq<string>, dest: seq<string>, naming: Naming, key: Key)
    requires folder.Folder? && Good(naming, key)
    requires |kept| == |names| && forall e :: e in kept ==> e in folder.entries
    requires GoodNames(names, key)
    ensures forall c :: c in CopiesFrom(folder, kept, names, remote, dest, naming) ==> Below(c, dest)
    ensures forall c :: c in CopiesFrom(folder, kept, names, remote, dest, naming) ==> |c.local| > |dest| && c.local[|dest|] in names
    decreases folder, 0, |kept|
  {
    if kept != [] {
      CopiesOfLandBelow(folder, kept[0], names[0], remote, dest, naming, key);
      CopiesFromLandBelow(folder, kept[1..], names[1..], remote, dest, naming, key);
    }
  }

  lemma {:induction false} CopiesOfLandBelow(folder: Entry, e: Entry, name: string, remote: seq<string>, dest: seq<string>, naming: Naming, key: Key)
    requires folder.Folder? && Good(naming, key) && e in folder.entries && IsSafe(name)
    ensures forall c :: c in CopiesOf(folder, e, name, remote, dest, naming) ==> Below(c, dest) && c.local[|dest|] == name
    decreases folder, 0, 0
  {
    var r, l := remote + [e.basename], dest + [name];
    if e.Folder? { CopiesLandBelow(e, r, l, naming, key); }
    forall c | c in CopiesOf(folder, e, name, remote, dest, naming) ensures Below(c, dest) && c.local[|dest|] == name {
      if c != Copy(r, l, e.Folder?) {
        assert Below(c, l);
        assert c.local[..|l|] == l;
      }
    }
  }

  /** All the places of a list of copies are different ones. */
  ghost predicate AllApart(copies: seq<Copy>, key: Key) {
    forall i, j :: 0 <= i < j < |copies| ==> !OnePlace(copies[i].local, copies[j].local, key)
  }

  lemma ApartOfConcat(a: seq<Copy>, b: seq<Copy>, key: Key)
    requires AllApart(a, key) && AllApart(b, key)
    requires forall c, d :: c in a && d in b ==> !OnePlace(c.local, d.local, key)
    ensures AllApart(a + b, key)
  {
    forall i, j | 0 <= i < j < |a + b| ensures !OnePlace((a + b)[i].local, (a + b)[j].local, key) {
      if i < |a| <= j { assert a[i] in a && b[j - |a|] in b; }
    }
  }

  lemma {:induction false} EntriesLandApart(folder: Entry, remote: seq<string>, dest: seq<string>, naming: Naming, key: Key)
    requires folder.Folder? && Good(naming, key)
    ensures AllApart(Copies(folder, remote, dest, naming), key)
    decreases folder, 1, 0
  {
    var kept := Kept(folder.entries);
    assert GoodNames(naming(Basenames(kept)), key);
    EntriesFromLandApart(folder, kept, naming(Basenames(kept)), remote, dest, naming, key);
  }

  lemma {:induction false} EntriesFromLandApart(folder: Entry, kept: seq<Entry>, names: seq<string>,
                                                remote: seq<string>, dest: seq<string>, naming: Naming, key: Key)
    requires folder.Folder? && Good(naming, key)
    requires |kept| == |names| && forall e :: e in kept ==> e in folder.entries
    requires GoodNames(names, key)
    ensures AllApart(CopiesFrom(folder, kept, names, remote, dest, naming), key)
    decreases folder, 0, |kept|
  {
    if kept != [] {
      var first := CopiesOf(folder, kept[0], names[0], remote, dest, naming);
      var rest := CopiesFrom(folder, kept[1..], names[1..], remote, dest, naming);
      EntryLandsApart(folder, kept[0], names[0], remote, dest, naming, key);
      EntriesFromLandApart(folder, kept[1..], names[1..], remote, dest, naming, key);
      CopiesOfLandBelow(folder, kept[0], names[0], remote, dest, naming, key);
      CopiesFromLandBelow(folder, kept[1..], names[1..], remote, dest, naming, key);
      forall c, d | c in first && d in rest ensures !OnePlace(c.local, d.local, key) {
        assert key(c.local[|dest|]) != key(d.local[|dest|]);
      }
      ApartOfConcat(first, rest, key);
    }
  }

  lemma {:induction false} EntryLandsApart(folder: Entry, e: Entry, name: string, remote: seq<string>, dest: seq<string>, naming: Naming, key: Key)
    requires folder.Folder? && Good(naming, key) && e in folder.entries
    ensures AllApart(CopiesOf(folder, e, name, remote, dest, naming), key)
    decreases folder, 0, 0
  {
    if e.Folder? {
      var r, l := remote + [e.basename], dest + [name];
      EntriesLandApart(e, r, l, naming, key);
      CopiesLandBelow(e, r, l, naming, key);
      forall c, d | c in [Copy(r, l, true)] && d in Copies(e, r, l, naming) ensures !OnePlace(c.local, d.local, key) {
        assert Below(d, l);
      }
      ApartOfConcat([Copy(r, l, true)], Copies(e, r, l, naming), key);
    }
  }

  /**
   * For every remote tree, whatever its listings hold - equal names, names apart by case only,
   * names that are one once made safe - distinct entries land in distinct places below the
   * destination, by safe names only.
   */
  lemma DownloadedTreeLandsApart(folder: Entry, remote: seq<string>, dest: seq<string>, key: Key, platform: Platform)
    requires folder.Folder? && NumbersApart(key)
    ensures Sized(OneFolder(key, platform))
    ensures AllApart(Copies(folder, remote, dest, OneFolder(key, platform)), key)
    ensures forall c :: c in Copies(folder, remote, dest, OneFolder(key, platform)) ==> Below(c, dest)
  {
    OneFolderIsGood(key, platform);
    EntriesLandApart(folder, remote, dest, OneFolder(key, platform), key);
    CopiesLandBelow(folder, remote, dest, OneFolder(key, platform), key);
  }

  /** A safe name cannot leave its folder: it is no dot name and holds no separator. */
  lemma SafeNamesStay(s: string)
    requires IsSafe(s)
    ensures s != "." && s != ".." && '/' !in s && '\\' !in s
  {
    forall c | c in s ensures c != '/' && c != '\\' {
      var i :| 0 <= i < |s| && s[i] == c;
      assert !BadChar(s[i]);
    }
  }

  // ── the walks ────────────────────────────────────────────────────────

  /** What is copied, and whether it is a folder. */
  datatype Source = Source(remote: seq<string>, isFolder: bool)

  /** Everything a tree lists, down to its last folder, in the order of the listings. */
  function Listing(entries: seq<Entry>, remote: seq<string>): seq<Source> {
    if entries == [] then []
    else
      var e := entries[0];
      var r := remote + [e.basename];
      (if !Listed(e) then [] else [Source(r, e.Folder?)] + if e.Folder? then Listing(e.entries, r) else [])
      + Listing(entries[1..], remote)
  }

  function Sources(copies: seq<Copy>): seq<Source> {
    if copies == [] then [] else [Source(copies[0].remote, copies[0].isFolder)] + Sources(copies[1..])
  }

  lemma {:induction false} SourcesOfConcat(a: seq<Copy>, b: seq<Copy>)
    ensures Sources(a + b) == Sources(a) + Sources(b)
  {
    if a == [] {
      assert a + b == b;
    } else {
      assert (a + b)[1..] == a[1..] + b;
      SourcesOfConcat(a[1..], b);
    }
  }

  lemma {:induction false} ListingOfKept(entries: seq<Entry>, remote: seq<string>)
    ensures Listing(Kept(entries), remote) == Listing(entries, remote)
  {
    if entries != [] {
      ListingOfKept(entries[1..], remote);
      if Listed(entries[0]) {
        assert Kept(entries) == [entries[0]] + Kept(entries[1..]);
        assert Kept(entries)[1..] == Kept(entries[1..]);
      }
    }
  }

  /** Every entry the tree lists is copied, from where it is listed, once and in order, whatever it
      is called here. */
  lemma {:induction false} EveryEntryLands(folder: Entry, remote: seq<string>, dest: seq<string>, naming: Naming)
    requires folder.Folder? && Sized(naming)
    ensures Sources(Copies(folder, remote, dest, naming)) == Listing(folder.entries, remote)
    decreases folder, 1, 0
  {
    var kept := Kept(folder.entries);
    ListingOfKept(folder.entries, remote);
    EveryEntryLandsFrom(folder, kept, naming(Basenames(kept)), remote, dest, naming);
  }

  lemma {:induction false} EveryEntryLandsFrom(folder: Entry, kept: seq<Entry>, names: seq<string>,
                                               remote: seq<string>, dest: seq<string>, naming: Naming)
    requires folder.Folder? && Sized(naming)
    requires |kept| == |names| && forall e :: e in kept ==> e in folder.entries && Listed(e)
    ensures Sources(CopiesFrom(folder, kept, names, remote, dest, naming)) == Listing(kept, remote)
    decreases folder, 0, |kept|
  {
    if kept != [] {
      var e := kept[0];
      assert e in kept;
      var r, l := remote + [e.basename], dest + [names[0]];
      var below := if e.Folder? then Copies(e, r, l, naming) else [];
      if e.Folder? { EveryEntryLands(e, r, l, naming); }
      EveryEntryLandsFrom(folder, kept[1..], names[1..], remote, dest, naming);
      SourcesOfConcat(CopiesOf(folder, e, names[0], remote, dest, naming), CopiesFrom(folder, kept[1..], names[1..], remote, dest, naming));
      SourcesOfConcat([Copy(r, l, e.Folder?)], below);
      SourcesOfOne(Copy(r, l, e.Folder?));
    }
  }

  lemma SourcesOfOne(c: Copy)
    ensures Sources([c]) == [Source(c.remote, c.isFolder)]
  {
    assert [c][1..] == [];
  }

  function Documents(copies: seq<Copy>): seq<Copy> {
    if copies == [] then [] else (if copies[0].isFolder then [] else [copies[0]]) + Documents(copies[1..])
  }

  function Folders(copies: seq<Copy>): seq<seq<string>> {
    if copies == [] then [] else (if copies[0].isFolder then [copies[0].local] else []) + Folders(copies[1..])
  }

  lemma {:induction false} DocumentsOfConcat(a: seq<Copy>, b: seq<Copy>)
    ensures Documents(a + b) == Documents(a) + Documents(b)
  {
    if a == [] {
      assert a + b == b;
    } else {
      assert (a + b)[1..] == a[1..] + b;
      DocumentsOfConcat(a[1..], b);
    }
  }

  lemma {:induction false} FoldersOfConcat(a: seq<Copy>, b: seq<Copy>)
    ensures Folders(a + b) == Folders(a) + Folders(b)
  {
    if a == [] {
      assert a + b == b;
    } else {
      assert (a + b)[1..] == a[1..] + b;
      FoldersOfConcat(a[1..], b);
    }
  }

  lemma SortedOfConcat(a: seq<Copy>, b: seq<Copy>)
    ensures Documents(a + b) == Documents(a) + Documents(b)
    ensures Folders(a + b) == Folders(a) + Folders(b)
  {
    DocumentsOfConcat(a, b);
    FoldersOfConcat(a, b);
  }

  class TreeWalk {
    const naming: Naming
    /** What has been made on this computer. */
    var made: seq<Copy>
    /** What planDir has collected: documents to fetch, folders to make. */
    var plan: seq<Copy>
    var dirs: seq<seq<string>>

    constructor (naming: Naming)
      ensures this.naming == naming && made == [] && plan == [] && dirs == []
    {
      this.naming, made, plan, dirs := naming, [], [], [];
    }

    /** Anything may stop the walk: the listing, a file, Stop. What was made by then is the
        first part of what the whole tree becomes. */
    method DownloadTreeTo(folder: Entry, remote: seq<string>, dest: seq<string>) returns (ok: bool)
      requires folder.Folder? && Sized(naming)
      modifies this`made
      ensures old(made) <= made <= old(made) + Copies(folder, remote, dest, naming)
      ensures ok ==> made == old(made) + Copies(folder, remote, dest, naming)
      decreases folder, 1
    {
      var kept := Kept(folder.entries);
      var names := naming(Basenames(kept));
      for i := 0 to |kept|
        invariant old(made) <= made
        invariant made + CopiesFrom(folder, kept[i..], names[i..], remote, dest, naming)
               == old(made) + Copies(folder, remote, dest, naming)
      {
        ghost var before := made;
        assert kept[i] in kept;
        CopiesFromHere(folder, kept, names, i, remote, dest, naming);
        ok := DownloadEntry(folder, kept[i], names[i], remote, dest);
        PrefixOfConcat(before, made, CopiesOf(folder, kept[i], names[i], remote, dest, naming),
                       CopiesFrom(folder, kept[i + 1..], names[i + 1..], remote, dest, naming));
        if !ok { return; }
      }
      ok := true;
    }

    method DownloadEntry(ghost folder: Entry, e: Entry, name: string, remote: seq<string>, dest: seq<string>)
      returns (ok: bool)
      requires folder.Folder? && Sized(naming) && e in folder.entries
      modifies this`made
      ensures old(made) <= made <= old(made) + CopiesOf(folder, e, name, remote, dest, naming)
      ensures ok ==> made == old(made) + CopiesOf(folder, e, name, remote, dest, naming)
      decreases folder, 0
    {
      var stopped: bool := *;
      if stopped { return false; }
      var r, l := remote + [e.basename], dest + [name];
      made := made + [Copy(r, l, e.Folder?)];
      ok := true;
      if e.Folder? {
        ghost var before := made;
        ok := DownloadTreeTo(e, r, l);
        assert before + Copies(e, r, l, naming) == old(made) + CopiesOf(folder, e, name, remote, dest, naming);
      }
    }

    /** The same walk, planning only: it gives up once there are too many documents. */
    method PlanDir(folder: Entry, remote: seq<string>, dest: seq<string>) returns (ok: bool)
      requires folder.Folder? && Sized(naming)
      modifies this`plan, this`dirs
      ensures ok ==> plan == old(plan) + Documents(Copies(folder, remote, dest, naming))
      ensures ok ==> dirs == old(dirs) + Folders(Copies(folder, remote, dest, naming))
      ensures ok && Kept(folder.entries) != [] ==> |plan| <= MAX_FILES
      decreases folder, 1
    {
      var kept := Kept(folder.entries);
      var names := naming(Basenames(kept));
      ghost var done: seq<Copy> := [];
      for i := 0 to |kept|
        invariant done + CopiesFrom(folder, kept[i..], names[i..], remote, dest, naming) == Copies(folder, remote, dest, naming)
        invariant plan == old(plan) + Documents(done) && dirs == old(dirs) + Folders(done)
        invariant i > 0 ==> |plan| <= MAX_FILES
      {
        ghost var these := CopiesOf(folder, kept[i], names[i], remote, dest, naming);
        ghost var rest := CopiesFrom(folder, kept[i + 1..], names[i + 1..], remote, dest, naming);
        assert kept[i] in kept;
        CopiesFromHere(folder, kept, names, i, remote, dest, naming);
        PlannedSoFar(done, these, rest);
        ghost var soFar, gathered := Documents(done), Folders(done);
        ok := PlanEntry(folder, kept[i], names[i], remote, dest);
        if !ok || |plan| > MAX_FILES { return false; }
        ConcatAssociates(old(plan), soFar, Documents(these));
        ConcatAssociates(old(dirs), gathered, Folders(these));
        done := done + these;
      }
      assert CopiesFrom(folder, kept[|kept|..], names[|kept|..], remote, dest, naming) == [];
      assert done == Copies(folder, remote, dest, naming);
      ok := true;
    }

    method PlanEntry(ghost folder: Entry, e: Entry, name: string, remote: seq<string>, dest: seq<string>)
      returns (ok: bool)
      requires folder.Folder? && Sized(naming) && e in folder.entries
      modifies this`plan, this`dirs
      ensures ok ==> plan == old(plan) + Documents(CopiesOf(folder, e, name, remote, dest, naming))
      ensures ok ==> dirs == old(dirs) + Folders(CopiesOf(folder, e, name, remote, dest, naming))
      decreases folder, 0
    {
      var listed: bool := *;
      if !listed { return false; }
      var r, l := remote + [e.basename], dest + [name];
      if e.Folder? {
        SortedOfConcat([Copy(r, l, true)], Copies(e, r, l, naming));
        dirs := dirs + [l];
        ok := PlanDir(e, r, l);
        return;
      }
      plan := plan + [Copy(r, l, false)];
      ok := true;
    }
  }

  lemma CopiesFromHere(folder: Entry, kept: seq<Entry>, names: seq<string>, i: nat,
                       remote: seq<string>, dest: seq<string>, naming: Naming)
    requires folder.Folder? && Sized(naming)
    requires |kept| == |names| && (forall e :: e in kept ==> e in folder.entries) && i < |kept|
    ensures kept[i] in folder.entries
    ensures CopiesFrom(folder, kept[i..], names[i..], remote, dest, naming)
         == CopiesOf(folder, kept[i], names[i], remote, dest, naming)
            + CopiesFrom(folder, kept[i + 1..], names[i + 1..], remote, dest, naming)
  {
    assert kept[i] in kept;
    assert kept[i..][0] == kept[i] && names[i..][0] == names[i];
    assert kept[i..][1..] == kept[i + 1..] && names[i..][1..] == names[i + 1..];
  }

  lemma PlannedSoFar(done: seq<Copy>, these: seq<Copy>, rest: seq<Copy>)
    ensures Documents(done + these) == Documents(done) + Documents(these)
    ensures Folders(done + these) == Folders(done) + Folders(these)
    ensures done + (these + rest) == (done + these) + rest
  {
    SortedOfConcat(done, these);
  }

  lemma PrefixOfConcat(before: seq<Copy>, made: seq<Copy>, these: seq<Copy>, rest: seq<Copy>)
    requires before <= made <= before + these
    ensures made <= before + (these + rest)
    ensures made == before + these ==> made + rest == before + (these + rest)
  {
    assert before + (these + rest) == (before + these) + rest;
  }
}
