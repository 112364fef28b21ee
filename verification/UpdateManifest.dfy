/**
 * Which releases of the manifest are marked as changing the schema, and what a regenerated
 * manifest keeps of the decisions in the one before (scripts/gen-update-manifest.py).
 */
module UpdateManifest {
  import opened Content

  // ── versions in order ────────────────────────────────────────────────

  /** A tag, and the three numbers read from it. The numbers do not tell the tag: v1.02.0 is not
      v1.2.0. */
  datatype Version = Version(tag: string, major: nat, minor: nat, patch: nat)

  function Key(v: Version): (nat, nat, nat) {
    (v.major, v.minor, v.patch)
  }

  predicate Before(v: Version, w: Version) {
    v.major < w.major || (v.major == w.major && (v.minor < w.minor || (v.minor == w.minor && v.patch < w.patch)))
  }

  /** The tags as they are walked: each once, none after a later one. Tags of equal keys stand in
      whatever order they came. */
  ghost predicate Ordered(order: seq<Version>) {
    forall i, j :: 0 <= i < j < |order| ==> order[i] != order[j] && !Before(order[j], order[i])
  }

  /** The migration file names a tag's tree holds. */
  type Tree = Version -> set<string>

  // ── the two walks ────────────────────────────────────────────────────

  /** Every name the first `n` tags hold. */
  function Seen(order: seq<Version>, n: nat, tree: Tree): set<string>
    requires n <= |order|
  {
    if n == 0 then {} else Seen(order, n - 1, tree) + tree(order[n - 1])
  }

  predicate Adds(order: seq<Version>, i: nat, tree: Tree)
    requires i < |order|
  {
    Seen(order, i, tree) != {} && tree(order[i]) - Seen(order, i, tree) != {}
  }

  function Marked(order: seq<Version>, tree: Tree): set<Version> {
    set i | 0 <= i < |order| && Adds(order, i, tree) :: order[i]
  }

  function NextPublished(order: seq<Version>, v: Version, published: set<Version>): Option<Version> {
    if order == [] then None
    else if Before(v, order[0]) && order[0] in published then Some(order[0])
    else NextPublished(order[1..], v, published)
  }

  function Carried(marked: set<Version>, order: seq<Version>, published: set<Version>): set<Version> {
    marked + set i | 0 <= i < |order| && order[i] in marked && order[i] !in published && NextPublished(order, order[i], published).Some?
               :: NextPublished(order, order[i], published).value
  }

  method MigrationReleases(order: seq<Version>, tree: Tree) returns (marked: set<Version>)
    ensures marked == Marked(order, tree)
  {
    var seen: set<string> := {};
    marked := {};
    for n := 0 to |order|
      invariant seen == Seen(order, n, tree)
      invariant marked == set i | 0 <= i < n && Adds(order, i, tree) :: order[i]
    {
      var names := tree(order[n]);
      OneMoreTag(order, n, tree);
      if seen != {} && names - seen != {} { marked := marked + {order[n]}; }
      seen := seen + names;
    }
  }

  lemma OneMoreTag(order: seq<Version>, n: nat, tree: Tree)
    requires n < |order|
    ensures (set i | 0 <= i < n + 1 && Adds(order, i, tree) :: order[i])
         == (set i | 0 <= i < n && Adds(order, i, tree) :: order[i]) + if Adds(order, n, tree) then {order[n]} else {}
  {
  }

  method CarryUnpublished(marked: set<Version>, order: seq<Version>, published: set<Version>) returns (out: set<Version>)
    ensures out == Carried(marked, order, published)
  {
    out := marked;
    for n := 0 to |order|
      invariant out == marked + set i | 0 <= i < n && order[i] in marked && order[i] !in published && NextPublished(order, order[i], published).Some?
                                  :: NextPublished(order, order[i], published).value
    {
      var v := order[n];
      if v in marked && v !in published {
        var next: Option<Version> := None;
        var k := 0;
        while k < |order| && next.None?
          invariant k <= |order|
          invariant NextPublished(order, v, published) == if next.Some? then next else NextPublished(order[k..], v, published)
        {
          if Before(v, order[k]) && order[k] in published { next := Some(order[k]); }
          assert order[k..][1..] == order[k + 1..];
          k := k + 1;
        }
        assert order[|order|..] == [];
        if next.Some? { out := out + {next.value}; }
      }
    }
  }

  // ── what must not happen ─────────────────────────────────────────────

  /** A tag up to `p` holds the name. */
  ghost predicate KnownBy(order: seq<Version>, tree: Tree, p: Version, name: string) {
    exists i :: 0 <= i < |order| && !Before(p, order[i]) && name in tree(order[i])
  }

  /** The tag's tree holds a name that no tag up to `p` holds. */
  ghost predicate NewSince(order: seq<Version>, tree: Tree, p: Version, t: Version) {
    exists name :: name in tree(t) && !KnownBy(order, tree, p, name)
  }

  /** Going from `p` to `q` the schema changes. */
  ghost predicate SchemaChanges(order: seq<Version>, tree: Tree, p: Version, q: Version) {
    exists i :: 0 <= i < |order| && Before(p, order[i]) && !Before(q, order[i]) && NewSince(order, tree, p, order[i])
  }

  /** Going from `p` to `q` an install meets a published version that says so. */
  ghost predicate IsTold(published: set<Version>, marks: set<Version>, p: Version, q: Version) {
    exists w :: w in published && w in marks && Before(p, w) && !Before(q, w)
  }

  /** From every published version that has a schema to every later one. */
  ghost predicate NothingPasses(order: seq<Version>, tree: Tree, published: set<Version>) {
    forall p, q ::
      p in published && q in published && Before(p, q)
      && (exists name :: KnownBy(order, tree, p, name)) && SchemaChanges(order, tree, p, q)
      ==> IsTold(published, Carried(Marked(order, tree), order, published), p, q)
  }

  /** No two tags have one key, unless nothing is before them: v1.02.0 beside v1.2.0. */
  ghost predicate TwinsOnlyAtTheStart(order: seq<Version>) {
    forall p, v, w :: p in order && v in order && w in order && v != w && Key(v) == Key(w) ==> !Before(p, w)
  }

  // ── the first tag with a new name ────────────────────────────────────

  lemma {:induction false} SeenHas(order: seq<Version>, n: nat, tree: Tree, name: string)
    requires n <= |order|
    ensures name in Seen(order, n, tree) <==> exists i :: 0 <= i < n && name in tree(order[i])
  {
    if n > 0 {
      SeenHas(order, n - 1, tree, name);
      if name in tree(order[n - 1]) { assert 0 <= n - 1 < n; }
    }
  }

  /** The first tag after `p` with a name no tag up to `p` holds is marked. */
  lemma FirstNewIsMarked(order: seq<Version>, tree: Tree, p: Version, i: nat)
    requires Ordered(order) && i < |order|
    requires exists name :: KnownBy(order, tree, p, name)
    requires Before(p, order[i]) && NewSince(order, tree, p, order[i])
    requires forall j :: 0 <= j < i ==> !(Before(p, order[j]) && NewSince(order, tree, p, order[j]))
    ensures Adds(order, i, tree)
  {
    var known :| KnownBy(order, tree, p, known);
    var k :| 0 <= k < |order| && !Before(p, order[k]) && known in tree(order[k]);
    assert k < i;
    SeenHas(order, i, tree, known);
    var name :| name in tree(order[i]) && !KnownBy(order, tree, p, name);
    SeenHas(order, i, tree, name);
    forall j | 0 <= j < i ensures name !in tree(order[j]) {
      assert !(Before(p, order[j]) && NewSince(order, tree, p, order[j]));
    }
    assert name in tree(order[i]) - Seen(order, i, tree);
  }

  lemma {:induction false} FindFirst(order: seq<Version>, tree: Tree, p: Version, n: nat) returns (i: nat)
    requires n < |order| && Before(p, order[n]) && NewSince(order, tree, p, order[n])
    ensures i <= n && Before(p, order[i]) && NewSince(order, tree, p, order[i])
    ensures forall j :: 0 <= j < i ==> !(Before(p, order[j]) && NewSince(order, tree, p, order[j]))
    decreases n
  {
    if j :| 0 <= j < n && Before(p, order[j]) && NewSince(order, tree, p, order[j]) {
      i := FindFirst(order, tree, p, j);
    } else {
      i := n;
    }
  }

  lemma {:induction false} NextPublishedIs(order: seq<Version>, v: Version, published: set<Version>)
    ensures var next := NextPublished(order, v, published);
            && (next.Some? ==> next.value in order && next.value in published && Before(v, next.value))
            && (Ordered(order) ==> forall q :: q in order && q in published && Before(v, q) ==> next.Some? && !Before(q, next.value))
  {
    if order != [] {
      NextPublishedIs(order[1..], v, published);
      assert Ordered(order) ==> Ordered(order[1..]);
      assert forall q :: q in order <==> q == order[0] || q in order[1..];
    }
  }

  /** A marked version is met, or the next published one after it is. */
  lemma MarkIsMet(marked: set<Version>, order: seq<Version>, published: set<Version>, v: Version, q: Version) returns (w: Version)
    requires Ordered(order) && v in order && q in order && v in marked && q in published
    requires !Before(q, v) && (v in published || Before(v, q))
    ensures w in published && w in Carried(marked, order, published) && !Before(w, v) && !Before(q, w)
  {
    w := v;
    if v !in published {
      NextPublishedIs(order, v, published);
      w := NextPublished(order, v, published).value;
    }
  }

  /** With no twins after `p`, an install going from `p` to `q` is told - also when more versions
      are marked by hand. */
  lemma TheInstallIsTold(order: seq<Version>, tree: Tree, marked: set<Version>, published: set<Version>, p: Version, q: Version)
    requires Marked(order, tree) <= marked
    requires Ordered(order) && TwinsOnlyAtTheStart(order) && forall v :: v in published ==> v in order
    requires p in published && q in published && Before(p, q)
    requires exists name :: KnownBy(order, tree, p, name)
    requires SchemaChanges(order, tree, p, q)
    ensures IsTold(published, Carried(marked, order, published), p, q)
  {
    var n :| 0 <= n < |order| && Before(p, order[n]) && !Before(q, order[n]) && NewSince(order, tree, p, order[n]);
    var i := FindFirst(order, tree, p, n);
    FirstNewIsMarked(order, tree, p, i);
    NotBeforeEarlier(order, i, n, q);
    var w := MarkIsMet(marked, order, published, order[i], q);
  }

  lemma NotBeforeEarlier(order: seq<Version>, i: nat, n: nat, q: Version)
    requires Ordered(order) && i <= n < |order| && !Before(q, order[n])
    ensures !Before(q, order[i])
  {
  }

  function TwinTree(p: Version, v: Version): Tree {
    x => if x == p then {"1"} else if x == v then {"2"} else {}
  }

  /** Twins after a published version let a change pass: the one that adds the file is not
      published, and the next published version after it is not the other one. */
  lemma TwinsLetAChangePass(order: seq<Version>, p: Version, v: Version, w: Version)
    requires Ordered(order) && p in order && v in order && w in order
    requires v != w && Key(v) == Key(w) && Before(p, w)
    ensures {p, w} <= (set x | x in order)
    ensures !NothingPasses(order, TwinTree(p, v), {p, w})
  {
    var tree, published := TwinTree(p, v), {p, w};
    var marks := Carried(Marked(order, tree), order, published);
    TwinAddsAFile(order, p, v, w);
    TheOtherIsUnmarked(order, p, v, w);
    forall x | x in published && Before(p, x) ensures x == w {}
    assert p in published && w in published && !IsTold(published, marks, p, w);
  }

  lemma TwinAddsAFile(order: seq<Version>, p: Version, v: Version, w: Version)
    requires p in order && v in order && Key(v) == Key(w) && Before(p, w)
    ensures KnownBy(order, TwinTree(p, v), p, "1") && SchemaChanges(order, TwinTree(p, v), p, w)
  {
    var tree := TwinTree(p, v);
    var k :| 0 <= k < |order| && order[k] == p;
    var n :| 0 <= n < |order| && order[n] == v;
    assert "1" in tree(order[k]);
    assert "2" in tree(v) && !KnownBy(order, tree, p, "2");
    assert NewSince(order, tree, p, order[n]);
  }

  lemma TheOtherIsUnmarked(order: seq<Version>, p: Version, v: Version, w: Version)
    requires Ordered(order) && v != w && Key(v) == Key(w) && Before(p, w)
    ensures w !in Carried(Marked(order, TwinTree(p, v)), order, {p, w})
  {
    var tree, published := TwinTree(p, v), {p, w};
    forall i | 0 <= i < |order| && order[i] in Marked(order, tree)
      ensures order[i] != w && NextPublished(order, order[i], published) != Some(w)
    {
      OnlyTheTwinAdds(order, tree, p, v, i);
      NextPublishedIs(order, v, published);
    }
  }

  lemma OnlyTheTwinAdds(order: seq<Version>, tree: Tree, p: Version, v: Version, i: nat)
    requires Ordered(order) && i < |order| && Before(p, v)
    requires tree(p) == {"1"} && tree(v) == {"2"} && forall x :: x != p && x != v ==> tree(x) == {}
    requires order[i] in Marked(order, tree)
    ensures order[i] == v
  {
    var j :| 0 <= j < |order| && Adds(order, j, tree) && order[j] == order[i];
    if order[j] == p {
      assert forall k :: 0 <= k < j ==> tree(order[k]) == {};
      forall name ensures name !in Seen(order, j, tree) { SeenHas(order, j, tree, name); }
    }
  }

  // ── the theorems ─────────────────────────────────────────────────────

  /** Whatever the tags hold and whichever of them are published, no schema change passes
      unmarked between two published versions - exactly when no two tags have equal numbers,
      or only the very first ones do. */
  lemma NoChangePassesUnmarked(order: seq<Version>)
    requires Ordered(order)
    ensures (forall tree: Tree, published: set<Version> :: published <= (set x | x in order) ==> NothingPasses(order, tree, published))
       <==> TwinsOnlyAtTheStart(order)
  {
    if TwinsOnlyAtTheStart(order) {
      forall tree: Tree, published: set<Version> | published <= (set x | x in order) ensures NothingPasses(order, tree, published) {
        forall p, q | p in published && q in published && Before(p, q)
          && (exists name :: KnownBy(order, tree, p, name)) && SchemaChanges(order, tree, p, q)
          ensures IsTold(published, Carried(Marked(order, tree), order, published), p, q)
        {
          TheInstallIsTold(order, tree, Marked(order, tree), published, p, q);
        }
      }
    } else {
      var p, v, w :| p in order && v in order && w in order && v != w && Key(v) == Key(w) && Before(p, w);
      TwinsLetAChangePass(order, p, v, w);
    }
  }

  /** No mark is there for nothing: of two published versions with none between them, the later
      one is marked exactly when the schema changes from the one to the other. */
  lemma MarkedExactlyWhenItChanges(order: seq<Version>, tree: Tree, published: set<Version>, p: Version, q: Version)
    requires Ordered(order) && forall v, w :: v in order && w in order && Key(v) == Key(w) ==> v == w
    requires forall v :: v in published ==> v in order
    requires p in published && q in published && Before(p, q)
    requires forall v :: v in published ==> !(Before(p, v) && Before(v, q))
    requires exists name :: KnownBy(order, tree, p, name)
    ensures q in Carried(Marked(order, tree), order, published) <==> SchemaChanges(order, tree, p, q)
  {
    if SchemaChanges(order, tree, p, q) { TheNextIsTold(order, tree, published, p, q); }
    if q in Carried(Marked(order, tree), order, published) { MarkMeansChange(order, tree, published, p, q); }
  }

  lemma TheNextIsTold(order: seq<Version>, tree: Tree, published: set<Version>, p: Version, q: Version)
    requires Ordered(order) && forall v, w :: v in order && w in order && Key(v) == Key(w) ==> v == w
    requires forall v :: v in published ==> v in order
    requires p in published && q in published && Before(p, q)
    requires forall v :: v in published ==> !(Before(p, v) && Before(v, q))
    requires exists name :: KnownBy(order, tree, p, name)
    requires SchemaChanges(order, tree, p, q)
    ensures q in Carried(Marked(order, tree), order, published)
  {
    TheInstallIsTold(order, tree, Marked(order, tree), published, p, q);
    var w :| w in published && w in Carried(Marked(order, tree), order, published) && Before(p, w) && !Before(q, w);
    assert Key(w) == Key(q);
  }

  lemma MarkMeansChange(order: seq<Version>, tree: Tree, published: set<Version>, p: Version, q: Version)
    requires Ordered(order) && forall v, w :: v in order && w in order && Key(v) == Key(w) ==> v == w
    requires p in order && p in published && q in published && Before(p, q)
    requires q in Carried(Marked(order, tree), order, published)
    ensures SchemaChanges(order, tree, p, q)
  {
    var v := q;
    if q !in Marked(order, tree) {
      var i :| 0 <= i < |order| && order[i] in Marked(order, tree) && order[i] !in published && NextPublished(order, order[i], published) == Some(q);
      v := order[i];
      NextPublishedIs(order, v, published);
      assert Before(p, v) by { if !Before(v, p) { assert Key(v) != Key(p); } }
    }
    var j :| 0 <= j < |order| && Adds(order, j, tree) && order[j] == v;
    AddedIsNew(order, tree, p, j);
  }

  /** What a marked tag adds is new since every version before it. */
  lemma AddedIsNew(order: seq<Version>, tree: Tree, p: Version, i: nat)
    requires Ordered(order) && i < |order| && Adds(order, i, tree) && Before(p, order[i])
    ensures NewSince(order, tree, p, order[i])
  {
    var name :| name in tree(order[i]) - Seen(order, i, tree);
    SeenHas(order, i, tree, name);
    forall k | 0 <= k < |order| && !Before(p, order[k]) ensures name !in tree(order[k]) {
      assert k < i;
    }
  }
}
