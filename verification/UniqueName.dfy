/**
 * Names kept apart on this computer: the numbering loop of uniqueLocalName
 * (desktop/src/local-name.ts) and the names a list of items gets side by side
 * (namesInOneFolder, desktop/src/dragout.ts).
 */
module UniqueNames {
  import opened Text
  import opened LocalNames

  /** `name`, `name (2)`, `name (3)`, ... before its extension. */
  function Candidate(name: string, n: nat): string {
    if n <= 1 then name
    else
      var dot := LastDot(name);
      var stem := if dot > 0 then name[..dot] else name;
      stem + Number(n) + name[|stem|..]
  }

  function Number(n: nat): string {
    " (" + Dec(n) + ")"
  }

  /** What this computer compares names by: names with one key are one file to it. */
  type Key = string -> string

  /** The numbered names are different files to this computer, as the loop relies on. */
  ghost predicate NumbersApart(key: Key) {
    forall name, m, n :: 1 <= m < n ==> Apart(key, name, m, n)
  }

  ghost predicate Apart(key: Key, name: string, m: nat, n: nat) {
    key(Candidate(name, m)) != key(Candidate(name, n))
  }

  /** Every key that folds one character at a time and leaves the digits alone does that. */
  lemma FoldsNumberApart(fold: char -> char)
    requires forall c :: '0' <= c <= '9' ==> fold(c) == c
    ensures NumbersApart(s => FoldAll(fold, s))
  {
    var key := s => FoldAll(fold, s);
    forall name, m, n | 1 <= m < n ensures Apart(key, name, m, n) {
      FoldKeepsNumbers(fold, name, m, n);
    }
  }

  function FoldAll(fold: char -> char, s: string): string {
    seq(|s|, i requires 0 <= i < |s| => fold(s[i]))
  }

  lemma FoldKeepsNumbers(fold: char -> char, name: string, m: nat, n: nat)
    requires forall c :: '0' <= c <= '9' ==> fold(c) == c
    requires 1 <= m < n
    ensures FoldAll(fold, Candidate(name, m)) != FoldAll(fold, Candidate(name, n))
  {
    var a, b := Candidate(name, m), Candidate(name, n);
    if m > 1 && |Dec(m)| == |Dec(n)| {
      if Dec(m) == Dec(n) { DecInjective(m, n); }
      var i :| 0 <= i < |Dec(m)| && Dec(m)[i] != Dec(n)[i];
      var dot := LastDot(name);
      var stem := if dot > 0 then name[..dot] else name;
      assert a[|stem| + 2 + i] == Dec(m)[i] && b[|stem| + 2 + i] == Dec(n)[i];
      assert Dec(m)[i] in Dec(m) && Dec(n)[i] in Dec(n);
      assert FoldAll(fold, a)[|stem| + 2 + i] != FoldAll(fold, b)[|stem| + 2 + i];
    } else {
      assert |a| != |b|;
    }
  }

  // ── the loop ends ────────────────────────────────────────────────────

  ghost function KeysBelow(name: string, key: Key, n: nat): set<string> {
    if n <= 1 then {} else KeysBelow(name, key, n - 1) + {key(Candidate(name, n - 1))}
  }

  lemma {:induction false} KeysBelowAre(name: string, key: Key, n: nat, k: string)
    ensures k in KeysBelow(name, key, n) <==> exists m :: 1 <= m < n && k == key(Candidate(name, m))
  {
    if n > 1 {
      KeysBelowAre(name, key, n - 1, k);
      if exists m :: 1 <= m < n && k == key(Candidate(name, m)) {
        var m :| 1 <= m < n && k == key(Candidate(name, m));
        assert m == n - 1 || m < n - 1;
      }
    }
  }

  lemma {:induction false} KeysBelowCount(name: string, key: Key, n: nat)
    requires NumbersApart(key) && 1 <= n
    ensures |KeysBelow(name, key, n)| == n - 1
  {
    if n > 1 {
      KeysBelowCount(name, key, n - 1);
      KeysBelowAre(name, key, n - 1, key(Candidate(name, n - 1)));
      forall m | 1 <= m < n - 1 ensures key(Candidate(name, m)) != key(Candidate(name, n - 1)) {
        assert Apart(key, name, m, n - 1);
      }
    }
  }

  lemma {:induction false} SubsetIsSmaller(a: set<string>, b: set<string>)
    requires a <= b
    ensures |a| <= |b|
  {
    if a != {} {
      var x :| x in a;
      SubsetIsSmaller(a - {x}, b - {x});
    }
  }

  /** Pigeonhole: n - 1 names that are all taken are n - 1 keys of `taken`. */
  lemma TriesAreBounded(name: string, taken: set<string>, key: Key, n: nat)
    requires NumbersApart(key) && 1 <= n
    requires forall m :: 1 <= m < n ==> key(Candidate(name, m)) in taken
    ensures n - 1 <= |taken|
  {
    KeysBelowCount(name, key, n);
    forall k | k in KeysBelow(name, key, n) ensures k in taken { KeysBelowAre(name, key, n, k); }
    SubsetIsSmaller(KeysBelow(name, key, n), taken);
  }

  /** The number of the first candidate that is free, the name itself being the first. */
  function FirstFree(name: string, taken: set<string>, key: Key, n: nat := 1): (r: nat)
    requires NumbersApart(key) && 1 <= n
    requires forall m :: 1 <= m < n ==> key(Candidate(name, m)) in taken
    ensures n <= r <= |taken| + 1
    ensures key(Candidate(name, r)) !in taken
    ensures forall m :: 1 <= m < r ==> key(Candidate(name, m)) in taken
    decreases |taken| + 1 - n
  {
    TriesAreBounded(name, taken, key, n);
    if key(Candidate(name, n)) in taken then
      TriesAreBounded(name, taken, key, n + 1);
      FirstFree(name, taken, key, n + 1)
    else n
  }

  function Unique(name: string, taken: set<string>, key: Key): string
    requires NumbersApart(key)
  {
    Candidate(name, FirstFree(name, taken, key))
  }

  /** The loop: its k-th try is the first one free, and k is at most |taken| + 1. */
  method UniqueLocalName(name: string, taken: set<string>, key: Key)
    returns (out: string, held: set<string>, tries: nat)
    requires NumbersApart(key)
    ensures out == Unique(name, taken, key)
    ensures key(out) !in taken && held == taken + {key(out)}
    ensures tries <= |taken| + 1
  {
    out := name;
    var dot := LastDot(name);
    var stem := if dot > 0 then name[..dot] else name;
    var ext := if dot > 0 then name[dot..] else "";
    var n: nat := 2;
    while key(out) in taken
      invariant 2 <= n && out == Candidate(name, n - 1)
      invariant forall m :: 1 <= m < n - 1 ==> key(Candidate(name, m)) in taken
      decreases |taken| + 2 - n
    {
      TriesAreBounded(name, taken, key, n);
      out := stem + Number(n) + ext;
      NumberGoesBetween(name, stem, ext, n);
      n := n + 1;
    }
    TriesAreBounded(name, taken, key, n - 1);
    held := taken + {key(out)};
    tries := n - 1;
    FirstFreeIs(name, taken, key, n - 1);
  }

  lemma NumberGoesBetween(name: string, stem: string, ext: string, n: nat)
    requires 2 <= n
    requires var dot := LastDot(name); if dot > 0 then stem == name[..dot] && ext == name[dot..] else stem == name && ext == ""
    ensures stem + Number(n) + ext == Candidate(name, n)
  {
    assert name[|stem|..] == ext;
  }

  lemma FirstFreeIs(name: string, taken: set<string>, key: Key, n: nat)
    requires NumbersApart(key) && 1 <= n && key(Candidate(name, n)) !in taken
    requires forall m :: 1 <= m < n ==> key(Candidate(name, m)) in taken
    ensures FirstFree(name, taken, key) == n
  {
    var r := FirstFree(name, taken, key);
  }

  // ── a numbered name is safe ──────────────────────────────────────────

  lemma {:induction false} DotStops(a: string, b: string)
    requires '.' in a
    ensures BeforeFirstDot(a + b) == BeforeFirstDot(a)
  {
    if a[0] != '.' {
      assert (a + b)[1..] == a[1..] + b;
      DotStops(a[1..], b);
    }
  }

  lemma {:induction false} NoDotGoesOn(a: string, b: string)
    requires '.' !in a
    ensures BeforeFirstDot(a + b) == a + BeforeFirstDot(b)
  {
    if a == "" {
      assert a + b == b;
    } else {
      assert (a + b)[1..] == a[1..] + b;
      NoDotGoesOn(a[1..], b);
    }
  }

  lemma BeforeFirstDotOfConcat(a: string, b: string)
    ensures BeforeFirstDot(a + b) == if '.' in a then BeforeFirstDot(a) else a + BeforeFirstDot(b)
  {
    if '.' in a { DotStops(a, b); } else { NoDotGoesOn(a, b); }
  }

  /** Nothing that ends in a bracket before its first dot is a device name. */
  lemma BracketIsNoDevice(s: string)
    requires var head := BeforeFirstDot(s); head != "" && head[|head| - 1] == ')'
    ensures !IsDeviceName(s)
  {
    var head := BeforeFirstDot(s);
    assert DropTrailingSpaces(head) == head;
    var u := Upper(head);
    assert u[|u| - 1] == ')';
  }

  lemma NumberHasNoDot(n: nat)
    ensures '.' !in Number(n)
    ensures Number(n)[|Number(n)| - 1] == ')'
    ensures forall c :: c in Number(n) ==> !BadChar(c)
  {
    forall c | c in Number(n) ensures c != '.' && !BadChar(c) {
      assert c == ' ' || c == '(' || c == ')' || c in Dec(n);
    }
  }

  /** A stem that was no device name is none with a number in it. */
  lemma NumberedIsNoDevice(stem: string, ext: string, n: nat)
    requires !IsDeviceName(stem + ext) && (ext == "" || ext[0] == '.')
    requires ext == "" && stem != "" ==> '.' !in stem || stem[0] == '.'
    ensures !IsDeviceName(stem + Number(n) + ext)
  {
    var r := stem + Number(n) + ext;
    assert r == stem + (Number(n) + ext);
    NumberHasNoDot(n);
    BeforeFirstDotOfConcat(stem, ext);
    BeforeFirstDotOfConcat(stem, Number(n) + ext);
    if '.' !in stem {
      BeforeFirstDotOfConcat(Number(n), ext);
      assert BeforeFirstDot(r) == stem + Number(n);
      BracketIsNoDevice(r);
    }
  }

  lemma NumberedHasNoBadChar(stem: string, ext: string, n: nat)
    requires forall i :: 0 <= i < |stem + ext| ==> !BadChar((stem + ext)[i])
    ensures forall i :: 0 <= i < |stem + Number(n) + ext| ==> !BadChar((stem + Number(n) + ext)[i])
  {
    var name, r := stem + ext, stem + Number(n) + ext;
    NumberHasNoDot(n);
    forall i | 0 <= i < |r| ensures !BadChar(r[i]) {
      if i < |stem| {
        assert r[i] == name[i];
      } else if i < |stem| + |Number(n)| {
        assert r[i] == Number(n)[i - |stem|] && r[i] in Number(n);
      } else {
        assert r[i] == name[i - |Number(n)|];
      }
    }
  }

  lemma NumberedIsSafe(stem: string, ext: string, n: nat)
    requires IsSafe(stem + ext) && (ext == "" || ext[0] == '.')
    requires ext == "" ==> forall i :: 1 <= i < |stem| ==> stem[i] != '.'
    ensures IsSafe(stem + Number(n) + ext)
  {
    var r := stem + Number(n) + ext;
    NumberHasNoDot(n);
    NumberedHasNoBadChar(stem, ext, n);
    NumberedIsNoDevice(stem, ext, n);
    assert r[|r| - 1] == if ext == "" then ')' else (stem + ext)[|stem + ext| - 1];
  }

  /** Numbering a safe name leaves it safe: the extension stays last. */
  lemma CandidateIsSafe(name: string, n: nat)
    requires IsSafe(name)
    ensures IsSafe(Candidate(name, n))
  {
    if n > 1 {
      var dot := LastDot(name);
      var stem := if dot > 0 then name[..dot] else name;
      assert name == stem + name[|stem|..];
      NumberedIsSafe(stem, name[|stem|..], n);
    }
  }

  // ── the names of one folder ──────────────────────────────────────────

  const FILEXPART: string := ".filexpart"

  /** A number is not part of what was cut to fit: a numbered copy and the suffix it wears while
      it is written fit in one name exactly when the name was short enough to begin with. */
  lemma NumberedFits(name: string, n: nat, platform: Platform)
    requires n > 1
    ensures NameLength(Candidate(name, n) + FILEXPART, platform) <= MAX_NAME
            <==> NameLength(name, platform) + |Number(n)| + |FILEXPART| <= MAX_NAME
  {
    LengthOfConcat(Candidate(name, n), FILEXPART, platform);
    NumberedLength(name, n, platform);
    AsciiLength(FILEXPART, platform);
  }

  lemma NumberIsAscii(n: nat)
    ensures forall i :: 0 <= i < |Number(n)| ==> Number(n)[i] <= '~'
  {
    var number := Number(n);
    forall i | 0 <= i < |number| ensures number[i] <= '~' {
      if 2 <= i < |number| - 1 { assert number[i] == Dec(n)[i - 2] && number[i] in Dec(n); }
    }
  }

  lemma LengthOfThree(a: string, b: string, c: string, platform: Platform)
    ensures NameLength(a + b + c, platform) == NameLength(a + c, platform) + NameLength(b, platform)
  {
    LengthOfConcat(a + b, c, platform);
    LengthOfConcat(a, b, platform);
    LengthOfConcat(a, c, platform);
  }

  lemma NumberedLength(name: string, n: nat, platform: Platform)
    requires n > 1
    ensures NameLength(Candidate(name, n), platform) == NameLength(name, platform) + |Number(n)|
  {
    var dot := LastDot(name);
    var stem := if dot > 0 then name[..dot] else name;
    assert name == stem + name[|stem|..];
    LengthOfThree(stem, Number(n), name[|stem|..], platform);
    NumberIsAscii(n);
    AsciiLength(Number(n), platform);
  }

  lemma {:induction false} AsciiLength(s: string, platform: Platform)
    requires forall i :: 0 <= i < |s| ==> s[i] <= '~'
    ensures NameLength(s, platform) == |s|
  {
    if s != "" { AsciiLength(s[..|s| - 1], platform); }
  }

  function SafeCopyName(base: string, platform: Platform): string {
    Safe(base, MAX_NAME - |FILEXPART|, platform)
  }

  function NameOf(base: string, taken: set<string>, key: Key, platform: Platform): string
    requires NumbersApart(key)
  {
    Unique(SafeCopyName(base, platform), taken, key)
  }

  /** The names `bases` get side by side, `taken` being held already. */
  function Names(bases: seq<string>, taken: set<string>, key: Key, platform: Platform): (names: seq<string>)
    requires NumbersApart(key)
    ensures |names| == |bases|
  {
    if bases == [] then []
    else
      var out := NameOf(bases[0], taken, key, platform);
      [out] + Names(bases[1..], taken + {key(out)}, key, platform)
  }

  method NamesInOneFolder(bases: seq<string>, key: Key, platform: Platform) returns (names: seq<string>)
    requires NumbersApart(key)
    ensures names == Names(bases, {}, key, platform)
  {
    var taken: set<string> := {};
    names := [];
    for i := 0 to |bases|
      invariant names + Names(bases[i..], taken, key, platform) == Names(bases, {}, key, platform)
    {
      NamesFromHere(names, bases, i, taken, key, platform);
      var out;
      out, taken := NameOne(bases[i], taken, key, platform);
      names := names + [out];
    }
    assert bases[|bases|..] == [] && names + [] == names;
  }

  method NameOne(base: string, taken: set<string>, key: Key, platform: Platform) returns (out: string, held: set<string>)
    requires NumbersApart(key)
    ensures out == NameOf(base, taken, key, platform) && held == taken + {key(out)}
  {
    var safe := SafeLocalName(base, |FILEXPART|, platform);
    var tries;
    out, held, tries := UniqueLocalName(safe, taken, key);
  }

  lemma NamesFromHere(names: seq<string>, bases: seq<string>, i: nat, taken: set<string>, key: Key, platform: Platform)
    requires NumbersApart(key) && i < |bases|
    ensures var out := NameOf(bases[i], taken, key, platform);
            names + Names(bases[i..], taken, key, platform)
            == (names + [out]) + Names(bases[i + 1..], taken + {key(out)}, key, platform)
  {
    assert bases[i..][0] == bases[i] && bases[i..][1..] == bases[i + 1..];
    var out := NameOf(bases[i], taken, key, platform);
    var rest := Names(bases[i + 1..], taken + {key(out)}, key, platform);
    assert Names(bases[i..], taken, key, platform) == [out] + rest;
    assert names + ([out] + rest) == (names + [out]) + rest;
  }

  ghost predicate KeysApart(names: seq<string>, key: Key) {
    forall i, j :: 0 <= i < j < |names| ==> key(names[i]) != key(names[j])
  }

  /** Each name's key is new: not in `taken`, nor the key of a name before it. */
  ghost predicate EachNew(names: seq<string>, taken: set<string>, key: Key) {
    names == [] || (key(names[0]) !in taken && EachNew(names[1..], taken + {key(names[0])}, key))
  }

  lemma {:induction false} NamesAreNew(bases: seq<string>, taken: set<string>, key: Key, platform: Platform)
    requires NumbersApart(key)
    ensures EachNew(Names(bases, taken, key, platform), taken, key)
  {
    if bases != [] {
      var out := NameOf(bases[0], taken, key, platform);
      NamesAreNew(bases[1..], taken + {key(out)}, key, platform);
      assert Names(bases, taken, key, platform)[1..] == Names(bases[1..], taken + {key(out)}, key, platform);
    }
  }

  lemma {:induction false} EachNewIsApart(names: seq<string>, taken: set<string>, key: Key)
    requires EachNew(names, taken, key)
    ensures forall i :: 0 <= i < |names| ==> key(names[i]) !in taken
    ensures KeysApart(names, key)
  {
    if names != [] {
      var rest := names[1..];
      EachNewIsApart(rest, taken + {key(names[0])}, key);
      assert forall i :: 1 <= i < |names| ==> names[i] == rest[i - 1];
      forall i, j | 0 <= i < j < |names| ensures key(names[i]) != key(names[j]) {
        assert names[j] == rest[j - 1];
      }
    }
  }

  /** However the folder is listed - equal names, names apart by case only, names that are one
      once made safe - no two items get one name here. */
  lemma NamesAreApart(bases: seq<string>, key: Key, platform: Platform)
    requires NumbersApart(key)
    ensures KeysApart(Names(bases, {}, key, platform), key)
  {
    NamesAreNew(bases, {}, key, platform);
    EachNewIsApart(Names(bases, {}, key, platform), {}, key);
  }

  lemma NameIsLater(bases: seq<string>, taken: set<string>, key: Key, platform: Platform, i: nat)
    requires NumbersApart(key) && 0 < i < |bases|
    ensures Names(bases, taken, key, platform)[i]
         == Names(bases[1..], taken + {key(NameOf(bases[0], taken, key, platform))}, key, platform)[i - 1]
  {
  }

  /** Each of them is its item's name beside some names already held. */
  lemma {:induction false} NameAt(bases: seq<string>, taken: set<string>, key: Key, platform: Platform, i: nat)
    returns (held: set<string>)
    requires NumbersApart(key) && i < |bases|
    ensures Names(bases, taken, key, platform)[i] == NameOf(bases[i], held, key, platform)
    decreases i
  {
    held := taken;
    if i > 0 {
      var later := taken + {key(NameOf(bases[0], taken, key, platform))};
      held := NameAt(bases[1..], later, key, platform, i - 1);
      NameIsLater(bases, taken, key, platform, i);
    }
  }

  /** And every one of them is safe. */
  lemma NamesAreSafe(bases: seq<string>, taken: set<string>, key: Key, platform: Platform, i: nat)
    requires NumbersApart(key) && i < |bases|
    ensures IsSafe(Names(bases, taken, key, platform)[i])
  {
    var held := NameAt(bases, taken, key, platform, i);
    UniqueIsSafe(bases[i], held, key, platform);
  }

  lemma UniqueIsSafe(base: string, taken: set<string>, key: Key, platform: Platform)
    requires NumbersApart(key)
    ensures IsSafe(NameOf(base, taken, key, platform))
  {
    var safe := SafeCopyName(base, platform);
    SafeIsSafe(base, MAX_NAME - |FILEXPART|, platform);
    CandidateIsSafe(safe, FirstFree(safe, taken, key));
  }
}
