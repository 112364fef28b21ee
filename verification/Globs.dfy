/**
 * Which media types a desktop gives an extension: globs2 files read and put together
 * (parseGlobs2, addGlob, mergeGlobs - desktop/src/os-assoc.ts).
 */
module Globs {
  import opened Content
  import opened Text

  /** The types of the highest weight seen, each once, the first seen first. */
  datatype Hit = Hit(weight: real, types: seq<string>)

  type GlobMap = map<string, Hit>

  /** One glob that counts: its extension in lower case, its weight and its type. */
  datatype Glob = Glob(ext: string, weight: real, mediaType: string)

  const OWN_TYPE_PREFIX: string := "application/x-filex-"

  /** What the code asks of the platform: lower case, the number a text is, if it is a finite one,
      and whether a text is a media type. */
  datatype Platform = Platform(lower: string -> string, number: string -> Option<real>, isType: string -> bool)

  // ── one file ─────────────────────────────────────────────────────────

  function Field(parts: seq<string>, i: nat): string {
    if i < |parts| then parts[i] else ""
  }

  predicate InExtension(c: char) {
    c != '*' && c != '?' && c != '[' && c != ']' && c != '\\' && c != '/'
  }

  predicate IsPlainGlob(glob: string) {
    |glob| > 2 && glob[0] == '*' && glob[1] == '.' && forall i :: 2 <= i < |glob| ==> InExtension(glob[i])
  }

  function ReadGlob(line: string, p: Platform): Option<Glob> {
    var parts := Split(line, ':');
    var mediaType, glob := Field(parts, 1), Field(parts, 2);
    if line == "" || line[0] == '#' || mediaType == "" || glob == "" || "cs" in Split(Field(parts, 3), ',') then None
    else if OWN_TYPE_PREFIX <= mediaType || !p.isType(mediaType) || !IsPlainGlob(glob) || p.number(parts[0]).None? then None
    else Some(Glob(p.lower(glob[2..]), p.number(parts[0]).value, mediaType))
  }

  function AddTypes(have: seq<string>, more: seq<string>): (r: seq<string>)
    ensures forall t :: t in r <==> t in have || t in more
  {
    if more == [] then have
    else
      var r, t := AddTypes(have, more[..|more| - 1]), more[|more| - 1];
      assert forall x :: x in more <==> x in more[..|more| - 1] || x == t;
      if t in r then r else r + [t]
  }

  function At(m: GlobMap, ext: string): Option<Hit> {
    if ext in m then Some(m[ext]) else None
  }

  /** What becomes of one extension's hit when another comes. */
  function Combine(a: Option<Hit>, b: Option<Hit>): Option<Hit> {
    if b.None? then a
    else if a.None? || b.value.weight > a.value.weight then b
    else if b.value.weight == a.value.weight then Some(Hit(a.value.weight, AddTypes(a.value.types, b.value.types)))
    else a
  }

  function AddGlob(into: GlobMap, ext: string, hit: Hit): GlobMap {
    into[ext := Combine(At(into, ext), Some(hit)).value]
  }

  /** The lines of a file: each ends at its line feed, with the return before it. */
  function LinesOf(text: string): (lines: seq<string>)
    ensures lines != []
  {
    var parts := Split(text, '\n');
    seq(|parts|, i requires 0 <= i < |parts| => if i < |parts| - 1 then WithoutReturn(parts[i]) else parts[i])
  }

  /** The globs of the lines that hold one. */
  function GlobsOf(lines: seq<string>, p: Platform): seq<Glob> {
    if lines == [] then []
    else
      var g := ReadGlob(lines[|lines| - 1], p);
      GlobsOf(lines[..|lines| - 1], p) + if g.None? then [] else [g.value]
  }

  function Gathered(globs: seq<Glob>): GlobMap {
    if globs == [] then map[]
    else
      var g := globs[|globs| - 1];
      AddGlob(Gathered(globs[..|globs| - 1]), g.ext, Hit(g.weight, [g.mediaType]))
  }

  function Parsed(text: string, p: Platform): GlobMap {
    Gathered(GlobsOf(LinesOf(text), p))
  }

  method ParseGlobs2(text: string, p: Platform) returns (out: GlobMap)
    ensures out == Parsed(text, p)
  {
    var lines := LinesOf(text);
    ghost var globs: seq<Glob> := [];
    out := map[];
    for n := 0 to |lines|
      invariant globs == GlobsOf(lines[..n], p)
      invariant out == Gathered(globs)
    {
      OneMoreLine(lines, n, p);
      var g := ReadGlob(lines[n], p);
      if g.Some? {
        OneMoreGlob(globs, g.value);
        out := AddGlob(out, g.value.ext, Hit(g.value.weight, [g.value.mediaType]));
        globs := globs + [g.value];
      }
    }
    assert lines[..|lines|] == lines;
  }

  lemma OneMoreLine(lines: seq<string>, n: nat, p: Platform)
    requires n < |lines|
    ensures GlobsOf(lines[..n + 1], p)
         == if ReadGlob(lines[n], p).None? then GlobsOf(lines[..n], p) else GlobsOf(lines[..n], p) + [ReadGlob(lines[n], p).value]
  {
    assert lines[..n + 1][..n] == lines[..n];
  }

  lemma OneMoreGlob(globs: seq<Glob>, g: Glob)
    ensures Gathered(globs + [g]) == AddGlob(Gathered(globs), g.ext, Hit(g.weight, [g.mediaType]))
  {
    assert (globs + [g])[..|globs|] == globs;
  }

  // ── several files ────────────────────────────────────────────────────

  function MergedAt(maps: seq<GlobMap>, ext: string): Option<Hit> {
    if maps == [] then None else Combine(MergedAt(maps[..|maps| - 1], ext), At(maps[|maps| - 1], ext))
  }

  /** Several files as one; the extensions of each in any order. */
  method MergeGlobs(maps: seq<GlobMap>) returns (out: GlobMap)
    ensures forall ext :: At(out, ext) == MergedAt(maps, ext)
  {
    out := map[];
    for n := 0 to |maps|
      invariant forall ext :: At(out, ext) == MergedAt(maps[..n], ext)
    {
      var m, before := maps[n], out;
      var left := m.Keys;
      assert maps[..n + 1][..n] == maps[..n];
      while left != {}
        invariant left <= m.Keys
        invariant forall ext :: At(out, ext) == if ext in m.Keys - left then Combine(At(before, ext), At(m, ext)) else At(before, ext)
        decreases |left|
      {
        var ext :| ext in left;
        out := AddGlob(out, ext, m[ext]);
        left := left - {ext};
      }
    }
    assert maps[..|maps|] == maps;
  }

  // ── what the hit is ──────────────────────────────────────────────────

  ghost predicate Distinct(s: seq<string>) {
    forall i, j :: 0 <= i < j < |s| ==> s[i] != s[j]
  }

  /** The hit: of the highest weight any glob gives the extension, exactly the types globs give it
      with that weight, each once. */
  ghost predicate IsBest(globs: seq<Glob>, ext: string, h: Hit) {
    && (forall g :: g in globs && g.ext == ext ==> g.weight <= h.weight)
    && (forall t :: t in h.types <==> Glob(ext, h.weight, t) in globs)
    && Distinct(h.types) && h.types != []
  }

  /** An extension is known exactly when a glob is of it, and its hit is the best. */
  lemma {:induction false} HighestWeightWins(globs: seq<Glob>, ext: string)
    ensures match At(Gathered(globs), ext)
            case None => forall g :: g in globs ==> g.ext != ext
            case Some(h) => IsBest(globs, ext, h)
  {
    if globs != [] {
      var before, g := globs[..|globs| - 1], globs[|globs| - 1];
      HighestWeightWins(before, ext);
      assert globs == before + [g];
      OneMoreGlob(before, g);
      var h := At(Gathered(before), ext);
      if g.ext == ext {
        BestWithOneMore(before, ext, h, g);
      } else if h.Some? {
        assert forall x :: x in globs <==> x in before || x == g;
      }
    }
  }

  lemma BestWithOneMore(before: seq<Glob>, ext: string, h: Option<Hit>, g: Glob)
    requires g.ext == ext
    requires h.Some? ==> IsBest(before, ext, h.value)
    requires h.None? ==> forall x :: x in before ==> x.ext != ext
    ensures IsBest(before + [g], ext, Combine(h, Some(Hit(g.weight, [g.mediaType]))).value)
  {
    var all := before + [g];
    assert forall x :: x in all <==> x in before || x == g;
    var types := if h.Some? then h.value.types else [];
    assert [g.mediaType][..0] == [] && AddTypes(types, []) == types;
    assert AddTypes(types, [g.mediaType]) == if g.mediaType in types then types else types + [g.mediaType];
  }

  // ── files one by one, or as one ──────────────────────────────────────

  lemma AddTypesOneByOne(a: seq<string>, b: seq<string>, t: string)
    ensures AddTypes(a, AddTypes(b, [t])) == AddTypes(AddTypes(a, b), [t])
  {
    assert [t][..0] == [] && AddTypes(b, []) == b && AddTypes(AddTypes(a, b), []) == AddTypes(a, b);
    if t !in b {
      assert (b + [t])[..|b|] == b;
    }
  }

  lemma CombineOneByOne(a: Option<Hit>, b: Option<Hit>, weight: real, t: string)
    ensures var g := Some(Hit(weight, [t])); Combine(a, Combine(b, g)) == Combine(Combine(a, b), g)
  {
    if a.Some? && b.Some? { AddTypesOneByOne(a.value.types, b.value.types, t); }
  }

  lemma {:induction false} GlobsTogether(a: seq<Glob>, b: seq<Glob>, ext: string)
    ensures At(Gathered(a + b), ext) == Combine(At(Gathered(a), ext), At(Gathered(b), ext))
  {
    if b == [] {
      assert a + b == a;
    } else {
      var rest, g := b[..|b| - 1], b[|b| - 1];
      assert (a + b)[..|a + b| - 1] == a + rest;
      GlobsTogether(a, rest, ext);
      if g.ext == ext {
        CombineOneByOne(At(Gathered(a), ext), At(Gathered(rest), ext), g.weight, g.mediaType);
      }
    }
  }

  lemma {:induction false} GlobsOfBoth(a: seq<string>, b: seq<string>, p: Platform)
    ensures GlobsOf(a + b, p) == GlobsOf(a, p) + GlobsOf(b, p)
  {
    if b == [] {
      assert a + b == a;
    } else {
      assert (a + b)[..|a + b| - 1] == a + b[..|b| - 1];
      GlobsOfBoth(a, b[..|b| - 1], p);
    }
  }

  lemma LinesOfBoth(first: string, second: string)
    requires first == "" || first[|first| - 1] != '\r'
    ensures LinesOf(first + ['\n'] + second) == LinesOf(first) + LinesOf(second)
  {
    SplitAt(first, '\n', second);
    LastPart(first, '\n');
  }

  lemma MergedOfTwo(a: GlobMap, b: GlobMap, ext: string)
    ensures MergedAt([a, b], ext) == Combine(At(a, ext), At(b, ext))
  {
    assert [a, b][..1] == [a] && [a][..0] == [];
    assert MergedAt([a], ext) == At(a, ext);
  }

  /** Two files read one by one and put together are the two read as one - unless the first ends in
      a return with no line feed, which only then is taken off. */
  lemma FilesTogether(first: string, second: string, p: Platform, ext: string)
    requires first == "" || first[|first| - 1] != '\r'
    ensures At(Parsed(first + ['\n'] + second, p), ext) == MergedAt([Parsed(first, p), Parsed(second, p)], ext)
  {
    LinesOfBoth(first, second);
    GlobsOfBoth(LinesOf(first), LinesOf(second), p);
    GlobsTogether(GlobsOf(LinesOf(first), p), GlobsOf(LinesOf(second), p), ext);
    MergedOfTwo(Parsed(first, p), Parsed(second, p), ext);
  }

  /** The last part ends as the text does. */
  lemma {:induction false} LastPart(text: string, sep: char)
    ensures var parts := Split(text, sep); var last := parts[|parts| - 1];
            last != "" ==> text != "" && last[|last| - 1] == text[|text| - 1]
  {
    if text != "" {
      LastPart(text[1..], sep);
      if |Split(text[1..], sep)| == 1 && text[1..] == "" { assert Split("", sep) == [""]; }
    }
  }
}
