/**
 * What a server name becomes when a copy of it is written on this computer
 * (desktop/src/local-name.ts). A name is a sequence of Unicode code points.
 */
module LocalNames {
  import opened Text

  const MAX_NAME: int := 255

  predicate IsForbidden(c: char) {
    c == '\\' || c == '/' || c == ':' || c == '*' || c == '?' || c == '"' || c == '<' || c == '>' || c == '|'
  }

  /** How a platform counts a name: UTF-16 units on Windows, bytes of UTF-8 elsewhere. */
  datatype Platform = Win32 | Posix

  predicate IsBidiControl(c: char) {
    var cp := c as int;
    cp == 0x061c || cp == 0x200e || cp == 0x200f || 0x202a <= cp <= 0x202e || 0x2066 <= cp <= 0x2069
  }

  predicate BadChar(c: char) {
    (c as int) < 0x20 || (c as int) == 0x7f || IsForbidden(c) || IsBidiControl(c)
  }

  function Width(c: char, platform: Platform): nat {
    var cp := c as int;
    match platform
    case Win32 => if cp >= 0x10000 then 2 else 1
    case Posix => if cp < 0x80 then 1 else if cp < 0x800 then 2 else if cp < 0x10000 then 3 else 4
  }

  function NameLength(s: string, platform: Platform): nat {
    if s == "" then 0 else NameLength(s[..|s| - 1], platform) + Width(s[|s| - 1], platform)
  }

  // ── device names ─────────────────────────────────────────────────────

  predicate Spells(s: string, a: char, b: char, c: char) {
    |s| >= 3 && s[0] == a && s[1] == b && s[2] == c
  }

  /** CON, PRN, AUX, NUL, COM1 to COM9 and LPT1 to LPT9. */
  predicate IsDevice(s: string) {
    || (|s| == 3 && (Spells(s, 'C', 'O', 'N') || Spells(s, 'P', 'R', 'N') || Spells(s, 'A', 'U', 'X') || Spells(s, 'N', 'U', 'L')))
    || (|s| == 4 && (Spells(s, 'C', 'O', 'M') || Spells(s, 'L', 'P', 'T')) && '1' <= s[3] <= '9')
  }

  /** Upper case as far as a device name can tell: its letters are ASCII, and no other letter's
      upper case is one of them. */
  function UpperChar(c: char): char {
    if 'a' <= c <= 'z' then c - 'a' + 'A' else c
  }

  function Upper(s: string): string {
    seq(|s|, i requires 0 <= i < |s| => UpperChar(s[i]))
  }

  function BeforeFirstDot(s: string): string {
    if s == "" || s[0] == '.' then "" else [s[0]] + BeforeFirstDot(s[1..])
  }

  function DropTrailingSpaces(s: string): string {
    if s != "" && s[|s| - 1] == ' ' then DropTrailingSpaces(s[..|s| - 1]) else s
  }

  predicate IsDeviceName(name: string) {
    IsDevice(Upper(DropTrailingSpaces(BeforeFirstDot(name))))
  }

  // ── a safe name ──────────────────────────────────────────────────────

  function Clean(s: string): string {
    seq(|s|, i requires 0 <= i < |s| => if BadChar(s[i]) then '_' else s[i])
  }

  /** The extension a cut keeps: from the last dot, when it is short. */
  function KeptExt(s: string): string {
    var dot := LastDot(s);
    if dot > 0 && NameLength(s[dot..], Win32) <= 16 then s[dot..] else ""
  }

  /** Loses characters from the end of the stem until it fits with its extension. */
  function CutStem(stem: string, ext: string, max: int, platform: Platform): string {
    if stem != "" && NameLength(stem + ext, platform) > max then CutStem(stem[..|stem| - 1], ext, max, platform) else stem
  }

  function Fit(s: string, max: int, platform: Platform): string {
    if NameLength(s, platform) <= max then s
    else
      var ext := KeptExt(s);
      CutStem(s[..|s| - |ext|], ext, max, platform) + ext
  }

  predicate DotOrSpace(c: char) {
    c == '.' || c == ' '
  }

  /** Trailing dots and spaces become underscores. */
  function FixTail(s: string): string {
    if s != "" && DotOrSpace(s[|s| - 1]) then FixTail(s[..|s| - 1]) + "_" else s
  }

  /** The name up to the device prefix. */
  function Trimmed(name: string, max: int, platform: Platform): string {
    FixTail(Fit(Clean(name), max, platform))
  }

  function Prefixed(s: string): string {
    if IsDeviceName(s) then "_" + s else if s == "" then "file" else s
  }

  /** The safe name for `max` units: what SafeLocalName computes. */
  function Safe(name: string, max: int, platform: Platform): string {
    Prefixed(Trimmed(name, max, platform))
  }

  /** What every safe name is, whatever its length. */
  ghost predicate IsSafe(s: string) {
    && s != ""
    && (forall i :: 0 <= i < |s| ==> !BadChar(s[i]))
    && !DotOrSpace(s[|s| - 1])
    && !IsDeviceName(s)
  }

  method SafeLocalName(name: string, reserve: nat, platform: Platform) returns (r: string)
    ensures r == Safe(name, MAX_NAME - reserve, platform)
  {
    var s := Trim(name, MAX_NAME - reserve, platform);
    r := WithPrefix(s);
  }

  method Trim(name: string, max: int, platform: Platform) returns (s: string)
    ensures s == Trimmed(name, max, platform)
  {
    s := Clean(name);
    s := CutToFit(s, max, platform);
    s := UnderscoreTail(s);
  }

  method WithPrefix(s: string) returns (r: string)
    ensures r == Prefixed(s)
  {
    r := s;
    if IsDeviceName(s) { r := "_" + s; }
    if r == "" { r := "file"; }
  }

  /** Characters are popped off the stem until the name fits. */
  method CutToFit(s: string, max: int, platform: Platform) returns (r: string)
    ensures r == Fit(s, max, platform)
  {
    if NameLength(s, platform) <= max { return s; }
    var ext := KeptExt(s);
    var stem := s[..|s| - |ext|];
    ghost var whole := stem;
    while |stem| > 0 && NameLength(stem + ext, platform) > max
      invariant CutStem(stem, ext, max, platform) == CutStem(whole, ext, max, platform)
    {
      stem := stem[..|stem| - 1];
    }
    return stem + ext;
  }

  /** Trailing dots and spaces are overwritten, from the end. */
  method UnderscoreTail(s: string) returns (chars: string)
    ensures chars == FixTail(s)
  {
    chars := s;
    var i := |s| - 1;
    assert s[..|s|] == s;
    while i >= 0 && DotOrSpace(chars[i])
      invariant -1 <= i < |s| == |chars|
      invariant chars[..i + 1] == s[..i + 1]
      invariant FixTail(s) == FixTail(s[..i + 1]) + chars[i + 1..]
    {
      ghost var before := chars;
      assert s[..i + 1][i] == chars[..i + 1][i] == chars[i];
      assert s[..i + 1][..i] == s[..i];
      chars := chars[i := '_'];
      assert chars[i..] == "_" + before[i + 1..];
      i := i - 1;
    }
    if i >= 0 { assert s[..i + 1][i] == chars[..i + 1][i] == chars[i]; }
    assert FixTail(s[..i + 1]) == s[..i + 1];
    assert chars == chars[..i + 1] + chars[i + 1..];
  }

  // ── lengths ──────────────────────────────────────────────────────────

  lemma {:induction false} LengthOfConcat(a: string, b: string, platform: Platform)
    ensures NameLength(a + b, platform) == NameLength(a, platform) + NameLength(b, platform)
  {
    if b == "" {
      assert a + b == a;
    } else {
      LengthOfConcat(a, b[..|b| - 1], platform);
      assert (a + b)[..|a + b| - 1] == a + b[..|b| - 1];
    }
  }

  lemma {:induction false} BytesAtMostThreeAUnit(s: string)
    ensures NameLength(s, Posix) <= 3 * NameLength(s, Win32)
  {
    if s != "" { BytesAtMostThreeAUnit(s[..|s| - 1]); }
  }

  lemma {:induction false} CutStemFits(stem: string, ext: string, max: int, platform: Platform)
    requires NameLength(ext, platform) <= max
    ensures NameLength(CutStem(stem, ext, max, platform) + ext, platform) <= max
    ensures CutStem(stem, ext, max, platform) <= stem
  {
    if stem != "" && NameLength(stem + ext, platform) > max {
      CutStemFits(stem[..|stem| - 1], ext, max, platform);
    } else if stem == "" {
      assert stem + ext == ext;
    }
  }

  lemma {:induction false} CutStemIsPrefix(stem: string, ext: string, max: int, platform: Platform)
    ensures CutStem(stem, ext, max, platform) <= stem
  {
    if stem != "" && NameLength(stem + ext, platform) > max {
      CutStemIsPrefix(stem[..|stem| - 1], ext, max, platform);
    }
  }

  /** A cut fits, except that the extension is never cut: it is 48 bytes at the most. */
  lemma FitFits(s: string, max: int, platform: Platform)
    requires 48 <= max
    ensures NameLength(Fit(s, max, platform), platform) <= max
  {
    if NameLength(s, platform) > max {
      var ext := KeptExt(s);
      BytesAtMostThreeAUnit(ext);
      CutStemFits(s[..|s| - |ext|], ext, max, platform);
    }
  }

  lemma FitAddsNothing(s: string, max: int, platform: Platform)
    ensures forall c :: c in Fit(s, max, platform) ==> c in s
  {
    var ext := KeptExt(s);
    CutStemIsPrefix(s[..|s| - |ext|], ext, max, platform);
  }

  lemma {:induction false} FixTailKeepsLength(s: string, platform: Platform)
    ensures NameLength(FixTail(s), platform) == NameLength(s, platform)
    ensures |FixTail(s)| == |s|
    ensures s != "" ==> !DotOrSpace(FixTail(s)[|s| - 1])
    ensures forall i :: 0 <= i < |s| ==> FixTail(s)[i] == s[i] || FixTail(s)[i] == '_'
  {
    if s != "" && DotOrSpace(s[|s| - 1]) { FixTailKeepsLength(s[..|s| - 1], platform); }
  }

  // ── the theorems ─────────────────────────────────────────────────────

  lemma {:induction false} DroppingKeepsHead(s: string)
    requires s != "" && s[0] != ' '
    ensures DropTrailingSpaces(s) != "" && DropTrailingSpaces(s)[0] == s[0]
  {
    if s[|s| - 1] == ' ' {
      assert s[..|s| - 1][0] == s[0];
      DroppingKeepsHead(s[..|s| - 1]);
    }
  }

  predicate DeviceHead(c: char) {
    c == 'C' || c == 'P' || c == 'A' || c == 'N' || c == 'L'
  }

  /** A device name begins with one of five letters; anything else is none. */
  lemma HeadDecides(s: string)
    requires s == "" || (s[0] != ' ' && !DeviceHead(UpperChar(s[0])))
    ensures !IsDeviceName(s)
  {
    var head := BeforeFirstDot(s);
    if head != "" { DroppingKeepsHead(head); }
    var stem := Upper(DropTrailingSpaces(head));
    assert stem == "" || !DeviceHead(stem[0]);
  }

  lemma {:induction false} AtMostFourEach(s: string, platform: Platform)
    ensures NameLength(s, platform) <= 4 * |s|
  {
    if s != "" { AtMostFourEach(s[..|s| - 1], platform); }
  }

  /** Safe but for the device name, and for being nothing at all. */
  ghost predicate AllButPrefixed(s: string) {
    && (forall i :: 0 <= i < |s| ==> !BadChar(s[i]))
    && (s != "" ==> !DotOrSpace(s[|s| - 1]))
  }

  lemma CleanedIsClean(name: string, max: int, platform: Platform)
    ensures forall i :: 0 <= i < |Fit(Clean(name), max, platform)| ==> !BadChar(Fit(Clean(name), max, platform)[i])
  {
    var c := Clean(name);
    var f := Fit(c, max, platform);
    FitAddsNothing(c, max, platform);
    assert !BadChar('_');
    forall i | 0 <= i < |f| ensures !BadChar(f[i]) {
      assert f[i] in c;
      var k :| 0 <= k < |c| && c[k] == f[i];
    }
  }

  lemma TrimmedFits(name: string, max: int, platform: Platform)
    requires 48 <= max
    ensures NameLength(Trimmed(name, max, platform), platform) <= max
    ensures AllButPrefixed(Trimmed(name, max, platform))
  {
    var f := Fit(Clean(name), max, platform);
    FitFits(Clean(name), max, platform);
    CleanedIsClean(name, max, platform);
    FixTailKeepsLength(f, platform);
    assert !BadChar('_');
  }

  lemma UnderscoredIsSafe(s: string, platform: Platform)
    requires AllButPrefixed(s) && s != ""
    ensures IsSafe("_" + s)
    ensures NameLength("_" + s, platform) == NameLength(s, platform) + 1
  {
    var r := "_" + s;
    HeadDecides(r);
    LengthOfConcat("_", s, platform);
    assert "_"[..0] == "";
    forall i | 0 <= i < |r| ensures !BadChar(r[i]) {
      assert r[i] == if i == 0 then '_' else s[i - 1];
    }
  }

  lemma FileIsSafe(platform: Platform)
    ensures IsSafe("file") && NameLength("file", platform) <= 16
  {
    var r := "file";
    assert r[0] == 'f' && r[1] == 'i' && r[2] == 'l' && r[3] == 'e';
    HeadDecides(r);
    AtMostFourEach(r, platform);
  }

  lemma PrefixedIsSafe(s: string, platform: Platform)
    requires AllButPrefixed(s)
    ensures IsSafe(Prefixed(s))
    ensures IsDeviceName(s) ==> NameLength(Prefixed(s), platform) == NameLength(s, platform) + 1
    ensures s == "" ==> NameLength(Prefixed(s), platform) <= 16
  {
    HeadDecides("");
    if s == "" { FileIsSafe(platform); } else { UnderscoredIsSafe(s, platform); }
  }

  /**
   * Every result is safe, and no longer than was asked for - or by one, when the device
   * prefix comes after the cut.
   */
  lemma SafeIsSafe(name: string, max: int, platform: Platform)
    requires 48 <= max
    ensures var r := Safe(name, max, platform);
            && IsSafe(r)
            && (NameLength(r, platform) <= max
                || (NameLength(r, platform) == max + 1 && r[0] == '_' && IsDeviceName(r[1..])))
  {
    var s := Trimmed(name, max, platform);
    TrimmedFits(name, max, platform);
    PrefixedIsSafe(s, platform);
    assert ("_" + s)[1..] == s;
  }

  /** The names that are kept as they are: exactly the safe ones that fit. */
  lemma KeptAsItIs(name: string, max: int, platform: Platform)
    requires 48 <= max
    ensures Safe(name, max, platform) == name <==> IsSafe(name) && NameLength(name, platform) <= max
  {
    if IsSafe(name) && NameLength(name, platform) <= max {
      assert Clean(name) == name;
    }
    if Safe(name, max, platform) == name {
      SafeIsSafe(name, max, platform);
      if NameLength(name, platform) > max { OneTooLong(name, max, platform); }
    }
  }

  /** A safe name one too long is cut shorter, and what is left still begins with the
      underscore, so no prefix brings the length back. */
  lemma OneTooLong(name: string, max: int, platform: Platform)
    requires 48 <= max && NameLength(name, platform) > max
    requires IsSafe(name) && name[0] == '_'
    ensures Safe(name, max, platform) != name
  {
    assert Clean(name) == name;
    TrimmedFits(name, max, platform);
    TrimmedKeepsHead(name, max, platform);
    HeadDecides(Trimmed(name, max, platform));
    PrefixedIsSafe("", platform);
  }

  lemma TrimmedKeepsHead(name: string, max: int, platform: Platform)
    requires Clean(name) == name && name != "" && name[0] == '_'
    ensures var s := Trimmed(name, max, platform); s == "" || s[0] == '_' || s[0] == '.'
  {
    var f, ext := Fit(name, max, platform), KeptExt(name);
    FixTailKeepsLength(f, platform);
    CutStemIsPrefix(name[..|name| - |ext|], ext, max, platform);
  }

  /** A safe name that fits is a fixed point. */
  lemma SafeTwice(name: string, max: int, platform: Platform)
    requires 48 <= max && NameLength(Safe(name, max, platform), platform) <= max
    ensures Safe(Safe(name, max, platform), max, platform) == Safe(name, max, platform)
  {
    SafeIsSafe(name, max, platform);
    KeptAsItIs(Safe(name, max, platform), max, platform);
  }
}
