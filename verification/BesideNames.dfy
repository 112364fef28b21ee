/**
 * The names a session's saves in another format go by, and the names of what it keeps aside on
 * the way: recovery files and temporary files (desktop/src/openwith.ts). None of them is another.
 */
module BesideNames {
  import opened Content
  import opened FileSystem
  import opened WritingBack
  import opened Text

  function BesidePathFor(localPath: Path, ext: string): Path {
    Path(localPath.dir, Stem(localPath.base) + "." + ext)
  }

  /** The n-th conflict copy of one second. */
  function ConflictPath(target: Path, stamp: string, n: nat): Path {
    BesidePath(target, ConflictTag(stamp, n))
  }

  function ConflictTag(stamp: string, n: nat): string {
    ".filex-conflict-" + stamp + if n > 1 then "-" + Dec(n) else ""
  }

  function NumberedPath(p: Path, n: nat): Path {
    if n > 1 then BesidePath(p, " (" + Dec(n) + ")") else p
  }

  /** Where a save can go: the n-th free name of its format, or the n-th conflict copy of a second. */
  datatype Name = Numbered(format: string, n: nat) | Conflicted(format: string, stamp: string, n: nat)

  function NamePath(localPath: Path, name: Name): Path {
    match name
    case Numbered(format, n) => NumberedPath(BesidePathFor(localPath, format), n)
    case Conflicted(format, stamp, n) => ConflictPath(BesidePathFor(localPath, format), stamp, n)
  }

  /** What is kept aside of a save to `of`. */
  datatype Aside =
    | Temporary(of: Name, suffix: string)
    | Recovery(of: Name, stamp: string)
    | Fallback(of: Name, stamp: string, dir: string)

  function AsidePath(localPath: Path, a: Aside): Path {
    match a
    case Temporary(of, suffix) => TempPath(NamePath(localPath, of), suffix)
    case Recovery(of, stamp) => RecoveryPath(NamePath(localPath, of), stamp)
    case Fallback(of, stamp, dir) => FallbackPath(dir, stamp, RecoveryPath(NamePath(localPath, of), stamp))
  }

  /** Formats and stamps have no dot. */
  predicate ProperName(name: Name) {
    '.' !in name.format && (name.Conflicted? ==> '.' !in name.stamp)
  }

  predicate Proper(a: Aside) {
    ProperName(a.of) && (!a.Temporary? ==> '.' !in a.stamp)
  }

  function AsidePaths(localPath: Path, asides: set<Aside>): set<Path> {
    set a | a in asides :: AsidePath(localPath, a)
  }

  /** What a write-back to `of` may keep aside. */
  function StashAsides(of: Name, fallbackDir: Option<string>, stamp: string): set<Aside> {
    {Recovery(of, stamp)} + if fallbackDir.Some? then {Fallback(of, stamp, fallbackDir.value)} else {}
  }

  lemma StashAsidesArePaths(localPath: Path, of: Name, fallbackDir: Option<string>, stamp: string)
    ensures AsidePaths(localPath, StashAsides(of, fallbackDir, stamp))
         == StashPaths(RecoveryPath(NamePath(localPath, of), stamp), fallbackDir, stamp)
  {
    var asides := StashAsides(of, fallbackDir, stamp);
    assert Recovery(of, stamp) in asides;
    if fallbackDir.Some? { assert Fallback(of, stamp, fallbackDir.value) in asides; }
  }

  lemma AsidePathsOfBoth(localPath: Path, a: set<Aside>, b: set<Aside>)
    ensures AsidePaths(localPath, a + b) == AsidePaths(localPath, a) + AsidePaths(localPath, b)
  {
    forall p ensures p in AsidePaths(localPath, a + b) <==> p in AsidePaths(localPath, a) + AsidePaths(localPath, b) {
      if x :| x in a && AsidePath(localPath, x) == p { assert x in a + b; }
      if x :| x in b && AsidePath(localPath, x) == p { assert x in a + b; }
    }
  }

  // ── dots ─────────────────────────────────────────────────────────────

  function Dots(s: string): nat {
    if s == "" then 0 else Dots(s[..|s| - 1]) + if s[|s| - 1] == '.' then 1 else 0
  }

  lemma {:induction false} DotsOfConcat(a: string, b: string)
    ensures Dots(a + b) == Dots(a) + Dots(b)
  {
    if b == "" {
      assert a + b == a;
    } else {
      assert (a + b)[..|a + b| - 1] == a + b[..|b| - 1];
      DotsOfConcat(a, b[..|b| - 1]);
    }
  }

  lemma {:induction false} NoDots(s: string)
    ensures Dots(s) == 0 <==> '.' !in s
  {
    if s != "" {
      assert s == s[..|s| - 1] + [s[|s| - 1]];
      NoDots(s[..|s| - 1]);
    }
  }

  /** An extension has at most the dot it begins with. */
  lemma DotsOfBase(base: string)
    ensures Dots(base) == Dots(Stem(base)) + Dots(Ext(base)) && Dots(Ext(base)) <= 1
  {
    assert base == Stem(base) + Ext(base);
    DotsOfConcat(Stem(base), Ext(base));
    var dot := LastDot(base);
    if dot > 0 {
      assert Ext(base) == "." + base[dot + 1..];
      DotsOfConcat(".", base[dot + 1..]);
      NoDots(base[dot + 1..]);
      OneDot();
    }
  }

  lemma OneDot()
    ensures Dots(".") == 1
  {
    assert "."[..0] == "";
  }

  lemma DotsOfBeside(target: Path, tag: string)
    ensures Dots(BesidePath(target, tag).base) == Dots(target.base) + Dots(tag)
  {
    DotsOfBase(target.base);
    DotsOfConcat(Stem(target.base) + tag, Ext(target.base));
    DotsOfConcat(Stem(target.base), tag);
  }

  /** Text that begins with a dot, and has no other. */
  lemma DotAndMore(s: string)
    requires s != "" && s[0] == '.' && '.' !in s[1..]
    ensures Dots(s) == 1
  {
    assert s == "." + s[1..];
    DotsOfConcat(".", s[1..]);
    NoDots(s[1..]);
    OneDot();
  }

  lemma TagsAndTheirDots(stamp: string, n: nat)
    ensures Dots(" (" + Dec(n) + ")") == 0
    ensures Dots(".filex-recovered-" + stamp) == 1 + Dots(stamp)
    ensures '.' !in stamp ==> Dots(ConflictTag(stamp, n)) == 1
  {
    NoDots(" (" + Dec(n) + ")");
    DotsOfConcat(".filex-recovered-", stamp);
    DotAndMore(".filex-recovered-");
    if '.' !in stamp {
      ConflictTagIs(stamp, n);
      DotAndMore(ConflictTag(stamp, n));
    }
  }

  lemma ConflictTagIs(stamp: string, n: nat)
    requires '.' !in stamp
    ensures var tag := ConflictTag(stamp, n); |tag| > 7 && tag[0] == '.' && '.' !in tag[1..] && tag[7] == 'c'
  {
    var tag, number := ConflictTag(stamp, n), if n > 1 then "-" + Dec(n) else "";
    assert tag[1..] == "filex-conflict-" + stamp + number;
  }

  lemma RecoveryTagIs(stamp: string)
    requires '.' !in stamp
    ensures var tag := ".filex-recovered-" + stamp; |tag| > 7 && tag[0] == '.' && '.' !in tag[1..] && tag[7] == 'r'
  {
    var tag := ".filex-recovered-" + stamp;
    assert tag[1..] == "filex-recovered-" + stamp;
  }

  /** A save's name has one dot more than the document's stem, a conflict copy's two. */
  lemma DotsOfName(localPath: Path, name: Name)
    requires ProperName(name)
    ensures Dots(NamePath(localPath, name).base) == Dots(Stem(localPath.base)) + if name.Numbered? then 1 else 2
  {
    var want := BesidePathFor(localPath, name.format);
    DotsOfConcat(Stem(localPath.base) + ".", name.format);
    DotsOfConcat(Stem(localPath.base), ".");
    NoDots(name.format);
    OneDot();
    match name {
      case Numbered(format, n) =>
        if n > 1 {
          TagsAndTheirDots("", n);
          DotsOfBeside(want, " (" + Dec(n) + ")");
        }
      case Conflicted(format, stamp, n) =>
        TagsAndTheirDots(stamp, n);
        DotsOfBeside(want, ConflictTag(stamp, n));
    }
  }

  lemma DotsOfTemp(target: Path, suffix: string)
    ensures Dots(TempPath(target, suffix).base) >= Dots(target.base) + 2
  {
    var middle := "." + target.base + ".filex-openwith-";
    DotsOfConcat(middle, suffix);
    DotsOfConcat("." + target.base, ".filex-openwith-");
    DotsOfConcat(".", target.base);
    DotAndMore(".filex-openwith-");
    OneDot();
  }

  lemma DotsOfRecovery(target: Path, stamp: string)
    ensures Dots(RecoveryPath(target, stamp).base) == Dots(target.base) + 1 + Dots(stamp)
  {
    TagsAndTheirDots(stamp, 0);
    DotsOfBeside(target, ".filex-recovered-" + stamp);
  }

  lemma DotsOfFallback(dir: string, stamp: string, preferred: Path)
    ensures Dots(FallbackPath(dir, stamp, preferred).base) >= Dots(preferred.base)
  {
    DotsOfConcat(stamp + "-", preferred.base);
  }

  /** An aside has at least two dots more than the document's stem; a temporary one three. */
  lemma DotsOfAside(localPath: Path, a: Aside)
    requires Proper(a)
    ensures Dots(AsidePath(localPath, a).base) >= Dots(NamePath(localPath, a.of).base) + if a.Temporary? then 2 else 1
  {
    var q := NamePath(localPath, a.of);
    match a {
      case Temporary(of, suffix) => DotsOfTemp(q, suffix);
      case Recovery(of, stamp) => DotsOfRecovery(q, stamp);
      case Fallback(of, stamp, dir) =>
        DotsOfRecovery(q, stamp);
        DotsOfFallback(dir, stamp, RecoveryPath(q, stamp));
    }
  }

  // ── the theorems ─────────────────────────────────────────────────────

  /** Nothing kept aside goes by the document's own name. */
  lemma AsidesAreNotTheDocument(localPath: Path, asides: set<Aside>)
    requires forall a :: a in asides ==> Proper(a)
    ensures localPath !in AsidePaths(localPath, asides)
  {
    forall a | a in asides ensures AsidePath(localPath, a) != localPath {
      DotsOfName(localPath, a.of);
      DotsOfAside(localPath, a);
      DotsOfBase(localPath.base);
    }
  }

  /** The last part of a name before its extension. */
  function Inner(base: string): string {
    Ext(Stem(base))
  }

  lemma ExtOfDotless(a: string, u: string)
    requires a != "" && '.' !in u
    ensures Stem(a + "." + u) == a && Ext(a + "." + u) == "." + u
  {
    var s := a + "." + u;
    assert s[|a|] == '.' && forall k :: |a| < k < |s| ==> s[k] != '.';
    assert LastDot(s) == |a|;
  }

  /** A tagged name's inner part is its tag, when the tag's dot is the only one it has. */
  lemma InnerOfTagged(a: string, tag: string, ext: string)
    requires a != "" && tag != "" && tag[0] == '.' && '.' !in tag[1..] && '.' !in ext
    ensures Inner(a + tag + ("." + ext)) == tag
  {
    assert a + tag + ("." + ext) == (a + tag) + "." + ext;
    ExtOfDotless(a + tag, ext);
    assert tag == "." + tag[1..] && a + tag == a + "." + tag[1..];
    ExtOfDotless(a, tag[1..]);
  }

  lemma InnerOfConflict(localPath: Path, name: Name)
    requires localPath.base != "" && name.Conflicted? && ProperName(name)
    ensures var s := Inner(NamePath(localPath, name).base); |s| > 7 && s[7] == 'c'
  {
    var stem := Stem(localPath.base);
    ExtOfDotless(stem, name.format);
    ConflictTagIs(name.stamp, name.n);
    InnerOfTagged(stem, ConflictTag(name.stamp, name.n), name.format);
  }

  lemma StemOfNumbered(localPath: Path, name: Name)
    requires localPath.base != "" && name.Numbered? && ProperName(name)
    ensures var base := NamePath(localPath, name).base; Stem(base) != "" && Ext(base) == "." + name.format
  {
    var stem := Stem(localPath.base);
    ExtOfDotless(stem, name.format);
    if name.n > 1 {
      var numbered := stem + (" (" + Dec(name.n) + ")");
      assert NamePath(localPath, name).base == numbered + "." + name.format;
      ExtOfDotless(numbered, name.format);
    }
  }

  lemma InnerOfPrefixed(prefix: string, a: string, tag: string, ext: string)
    requires a != "" && tag != "" && tag[0] == '.' && '.' !in tag[1..] && '.' !in ext
    ensures Inner(prefix + (a + tag + ("." + ext))) == tag
  {
    assert prefix + (a + tag + ("." + ext)) == (prefix + a) + tag + ("." + ext);
    InnerOfTagged(prefix + a, tag, ext);
  }

  lemma InnerOfRecovery(prefix: string, q: Path, stamp: string, format: string)
    requires Stem(q.base) != "" && Ext(q.base) == "." + format && '.' !in stamp && '.' !in format
    ensures var s := Inner(prefix + RecoveryPath(q, stamp).base); |s| > 7 && s[7] == 'r'
  {
    RecoveryTagIs(stamp);
    InnerOfPrefixed(prefix, Stem(q.base), ".filex-recovered-" + stamp, format);
  }

  lemma InnerOfKept(localPath: Path, a: Aside)
    requires localPath.base != "" && Proper(a) && !a.Temporary? && a.of.Numbered?
    ensures var s := Inner(AsidePath(localPath, a).base); |s| > 7 && s[7] == 'r'
  {
    var q := NamePath(localPath, a.of);
    var prefix := if a.Fallback? then a.stamp + "-" else "";
    StemOfNumbered(localPath, a.of);
    InnerOfRecovery(prefix, q, a.stamp, a.of.format);
    PrefixOfKept(prefix, RecoveryPath(q, a.stamp), localPath, a);
  }

  lemma PrefixOfKept(prefix: string, kept: Path, localPath: Path, a: Aside)
    requires !a.Temporary? && prefix == (if a.Fallback? then a.stamp + "-" else "")
    requires kept == RecoveryPath(NamePath(localPath, a.of), a.stamp)
    ensures AsidePath(localPath, a).base == prefix + kept.base
  {
  }

  /** Nothing kept aside goes by a name a save goes by. */
  lemma AsidesAreNoTargets(localPath: Path, asides: set<Aside>, name: Name)
    requires localPath.base != "" && ProperName(name) && forall a :: a in asides ==> Proper(a)
    ensures NamePath(localPath, name) !in AsidePaths(localPath, asides)
  {
    forall a | a in asides ensures AsidePath(localPath, a) != NamePath(localPath, name) {
      DotsOfName(localPath, name);
      DotsOfName(localPath, a.of);
      DotsOfAside(localPath, a);
      if name.Conflicted? && !a.Temporary? && a.of.Numbered? {
        InnerOfConflict(localPath, name);
        InnerOfKept(localPath, a);
      }
    }
  }
}
