/**
 * The user's mimeapps.list moved from one desktop entry's name to another
 * (retargetMimeapps, desktop/src/channel.ts).
 */
module MimeApps {
  import opened Content
  import opened Text
  import opened DesktopEntry

  function TrimStart(s: string): string {
    if s != "" && IsSpace(s[0]) then TrimStart(s[1..]) else s
  }

  function TrimEnd(s: string): string {
    if s != "" && IsSpace(s[|s| - 1]) then TrimEnd(s[..|s| - 1]) else s
  }

  function Trim(s: string): string {
    TrimEnd(TrimStart(s))
  }

  predicate IsHeader(line: string) {
    Trim(line) != "" && Trim(line)[0] == '['
  }

  /** The section the line after these is in. */
  function Section(lines: seq<string>): string {
    if lines == [] then ""
    else if IsHeader(lines[|lines| - 1]) then Trim(lines[|lines| - 1])
    else Section(lines[..|lines| - 1])
  }

  predicate IsAssociations(section: string) {
    section == "[Default Applications]" || section == "[Added Associations]" || section == "[Removed Associations]"
  }

  /** What comes up to and with the equals sign, and the items after it. */
  function UpToEquals(line: string): string
    requires '=' in line
  {
    line[..IndexOf(line, '=') + 1]
  }

  function Items(line: string): (items: seq<string>)
    requires '=' in line
    ensures items != []
  {
    Split(line[IndexOf(line, '=') + 1..], ';')
  }

  /** Line `i` says something of the desktop entry `app`. */
  predicate Mentions(lines: seq<string>, i: nat, app: string)
    requires i < |lines|
  {
    && !IsHeader(lines[i])
    && IsAssociations(Section(lines[..i]))
    && '=' in lines[i]
    && app in Items(lines[i])
  }

  function Renamed(items: seq<string>, from: string, to: string): seq<string> {
    seq(|items|, i requires 0 <= i < |items| => if items[i] == from then to else items[i])
  }

  /** Each item once, where it first stands; empty items stay as they are. */
  function Once(items: seq<string>): (r: seq<string>)
    ensures items != [] ==> r != []
    ensures forall x :: x in r <==> x in items
    ensures forall i, j :: 0 <= i < j < |r| && r[i] != "" ==> r[i] != r[j]
  {
    if items == [] then []
    else
      var before, last := Once(items[..|items| - 1]), items[|items| - 1];
      if last != "" && last in before then before else before + [last]
  }

  function NewLine(line: string, from: string, to: string): string
    requires '=' in line
  {
    UpToEquals(line) + Join(Once(Renamed(Items(line), from, to)), ';')
  }

  function NewLines(lines: seq<string>, from: string, to: string): (r: seq<string>)
    ensures |r| == |lines|
  {
    seq(|lines|, i requires 0 <= i < |lines| => if Mentions(lines, i, from) then NewLine(lines[i], from, to) else lines[i])
  }

  /** The new text, or None when it would not change. */
  function Retargeted(text: string, from: string, to: string): Option<string> {
    var lines := Split(text, '\n');
    if exists i :: 0 <= i < |lines| && Mentions(lines, i, from) then Some(Join(NewLines(lines, from, to), '\n')) else None
  }

  /** What a desktop starts: the first item that is installed. */
  function FirstInstalled(items: seq<string>, installed: set<string>): Option<string> {
    if items == [] then None
    else if items[0] in installed then Some(items[0])
    else FirstInstalled(items[1..], installed)
  }

  // ── what the new lines keep ──────────────────────────────────────────

  lemma {:induction false} TrimStartIgnoresTheRest(a: string, c: char, b: string, d: string)
    requires !IsSpace(c)
    ensures TrimStart(a + [c] + b) != "" && TrimStart(a + [c] + d) != ""
    ensures TrimStart(a + [c] + b)[0] == TrimStart(a + [c] + d)[0]
  {
    if a != "" && IsSpace(a[0]) {
      assert (a + [c] + b)[1..] == a[1..] + [c] + b;
      assert (a + [c] + d)[1..] == a[1..] + [c] + d;
      TrimStartIgnoresTheRest(a[1..], c, b, d);
    }
  }

  lemma {:induction false} TrimEndKeepsTheFirst(s: string)
    requires s != "" && !IsSpace(s[0])
    ensures TrimEnd(s) != "" && TrimEnd(s)[0] == s[0]
  {
    if IsSpace(s[|s| - 1]) { TrimEndKeepsTheFirst(s[..|s| - 1]); }
  }

  lemma {:induction false} TrimStartStarts(s: string)
    ensures TrimStart(s) != "" ==> !IsSpace(TrimStart(s)[0])
  {
    if s != "" && IsSpace(s[0]) { TrimStartStarts(s[1..]); }
  }

  /** What is written after the equals sign makes no line a header, nor a header another line. */
  lemma HeadersStay(line: string, after: string)
    requires '=' in line
    ensures IsHeader(UpToEquals(line) + after) == IsHeader(line)
  {
    var at := IndexOf(line, '=');
    var a, b := line[..at], line[at + 1..];
    assert line == a + ['='] + b && UpToEquals(line) + after == a + ['='] + after;
    TrimStartIgnoresTheRest(a, '=', b, after);
    TrimStartStarts(line);
    TrimStartStarts(UpToEquals(line) + after);
    TrimEndKeepsTheFirst(TrimStart(line));
    TrimEndKeepsTheFirst(TrimStart(UpToEquals(line) + after));
  }

  /** A line's new text, read again. */
  lemma NewLineReads(line: string, from: string, to: string)
    requires '=' in line && ';' !in to
    ensures var l := NewLine(line, from, to);
            && '=' in l && UpToEquals(l) == UpToEquals(line) && IsHeader(l) == IsHeader(line)
            && Items(l) == Once(Renamed(Items(line), from, to))
  {
    var at := IndexOf(line, '=');
    var items := Once(Renamed(Items(line), from, to));
    var after := Join(items, ';');
    forall i | 0 <= i < |items| ensures ';' !in items[i] { assert items[i] in Renamed(Items(line), from, to); }
    SplitOfJoin(items, ';');
    assert NewLine(line, from, to) == line[..at] + ['='] + after;
    IndexOfFirst(line[..at], '=', after);
    HeadersStay(line, after);
  }

  lemma {:induction false} SectionsStay(lines: seq<string>, from: string, to: string, n: nat)
    requires n <= |lines| && ';' !in to
    ensures Section(NewLines(lines, from, to)[..n]) == Section(lines[..n])
  {
    if n > 0 {
      var moved := NewLines(lines, from, to);
      assert moved[..n][..n - 1] == moved[..n - 1] && lines[..n][..n - 1] == lines[..n - 1];
      SectionsStay(lines, from, to, n - 1);
      if Mentions(lines, n - 1, from) { NewLineReads(lines[n - 1], from, to); }
    }
  }

  lemma {:induction false} NewLinesAreLines(text: string, from: string, to: string)
    requires '\n' !in to && ';' !in to
    ensures var lines := NewLines(Split(text, '\n'), from, to); Split(Join(lines, '\n'), '\n') == lines
  {
    var lines := Split(text, '\n');
    forall i | 0 <= i < |lines| ensures '\n' !in NewLines(lines, from, to)[i] {
      if Mentions(lines, i, from) { NewLineIsOneLine(lines[i], from, to); }
    }
    SplitOfJoin(NewLines(lines, from, to), '\n');
  }

  lemma NewLineIsOneLine(line: string, from: string, to: string)
    requires '=' in line && '\n' !in line && '\n' !in to
    ensures '\n' !in NewLine(line, from, to)
  {
    var items := Once(Renamed(Items(line), from, to));
    var after := line[IndexOf(line, '=') + 1..];
    forall i | 0 <= i < |items| ensures '\n' !in items[i] {
      assert items[i] in Renamed(Items(line), from, to);
      if items[i] != to {
        var k :| 0 <= k < |Items(line)| && Items(line)[k] == items[i];
        PartHas(after, ';', k, '\n');
      }
    }
    JoinHas(items, ';', '\n');
  }

  lemma {:induction false} PartHas(text: string, sep: char, i: nat, x: char)
    requires i < |Split(text, sep)| && x !in text
    ensures x !in Split(text, sep)[i]
  {
    if text != "" {
      var rest := Split(text[1..], sep);
      if text[0] == sep {
        if i > 0 { PartHas(text[1..], sep, i - 1, x); }
      } else {
        PartHas(text[1..], sep, i, x);
      }
    }
  }

  lemma {:induction false} OnceKeepsTheFirst(items: seq<string>, installed: set<string>)
    requires "" !in installed
    ensures FirstInstalled(Once(items), installed) == FirstInstalled(items, installed)
  {
    if items != [] {
      var before, last := items[..|items| - 1], items[|items| - 1];
      OnceKeepsTheFirst(before, installed);
      assert items == before + [last];
      FirstOfMore(before, last, installed);
      FirstOfMore(Once(before), last, installed);
    }
  }

  lemma {:induction false} FirstOfMore(items: seq<string>, last: string, installed: set<string>)
    ensures FirstInstalled(items + [last], installed)
         == if FirstInstalled(items, installed).Some? then FirstInstalled(items, installed)
            else if last in installed then Some(last) else None
    ensures FirstInstalled(items, installed).None? ==> forall x :: x in items ==> x !in installed
  {
    if items == [] {
      assert items + [last] == [last];
    } else {
      assert (items + [last])[1..] == items[1..] + [last];
      FirstOfMore(items[1..], last, installed);
    }
  }

  // ── the theorems ─────────────────────────────────────────────────────

  /** It changes exactly the lines that mention the old name: those say the new one instead,
      nothing twice, in the same order of preference; every other line stays as it is. */
  lemma OnlyTheMentionsChange(text: string, from: string, to: string)
    requires ';' !in to && '\n' !in to
    ensures var lines := Split(text, '\n');
            match Retargeted(text, from, to)
            case None => forall i :: 0 <= i < |lines| ==> !Mentions(lines, i, from)
            case Some(t) =>
              var moved := Split(t, '\n');
              && |moved| == |lines|
              && (exists i :: 0 <= i < |lines| && Mentions(lines, i, from))
              && (forall i :: 0 <= i < |lines| && !Mentions(lines, i, from) ==> moved[i] == lines[i])
              && (forall i :: 0 <= i < |lines| && Mentions(lines, i, from) ==> Moved(lines[i], moved[i], from, to))
  {
    var lines := Split(text, '\n');
    NewLinesAreLines(text, from, to);
    forall i | 0 <= i < |lines| && Mentions(lines, i, from) ensures Moved(lines[i], NewLines(lines, from, to)[i], from, to) {
      NewLineIsMoved(lines[i], from, to);
    }
  }

  /** `got` is `was` with the entry's name changed in its list. */
  ghost predicate Moved(was: string, got: string, from: string, to: string) {
    && '=' in was && '=' in got && UpToEquals(got) == UpToEquals(was)
    && (forall x :: x in Items(got) <==> (x in Items(was) && x != from) || x == to)
    && (forall i, j :: 0 <= i < j < |Items(got)| && Items(got)[i] != "" ==> Items(got)[i] != Items(got)[j])
    && (forall installed: set<string> :: "" !in installed ==>
          FirstInstalled(Items(got), installed) == FirstInstalled(Renamed(Items(was), from, to), installed))
  }

  lemma NewLineIsMoved(line: string, from: string, to: string)
    requires '=' in line && from in Items(line) && ';' !in to
    ensures Moved(line, NewLine(line, from, to), from, to)
  {
    NewLineReads(line, from, to);
    var items := Items(line);
    var renamed := Renamed(items, from, to);
    forall x ensures x in renamed <==> (x in items && x != from) || x == to {
      if x == to {
        var k :| 0 <= k < |items| && items[k] == from;
        assert renamed[k] == to;
      } else if x in items && x != from {
        var k :| 0 <= k < |items| && items[k] == x;
        assert renamed[k] == x;
      }
    }
    forall installed: set<string> | "" !in installed
      ensures FirstInstalled(Once(renamed), installed) == FirstInstalled(renamed, installed)
    {
      OnceKeepsTheFirst(renamed, installed);
    }
  }

  /** Nothing mentions the old name afterwards, so doing it again changes nothing. */
  lemma TwiceChangesNothing(text: string, from: string, to: string)
    requires ';' !in to && '\n' !in to && from != to
    ensures var r := Retargeted(text, from, to); r.Some? ==> Retargeted(r.value, from, to) == None
  {
    var lines := Split(text, '\n');
    var moved := NewLines(lines, from, to);
    NewLinesAreLines(text, from, to);
    forall i | 0 <= i < |lines| ensures !Mentions(moved, i, from) {
      SectionsStay(lines, from, to, i);
      if Mentions(lines, i, from) { NewLineIsMoved(lines[i], from, to); }
    }
  }

  // ── the walk over the lines ──────────────────────────────────────────

  lemma OneLineFurther(lines: seq<string>, n: nat)
    requires n < |lines|
    ensures Section(lines[..n + 1]) == if IsHeader(lines[n]) then Trim(lines[n]) else Section(lines[..n])
  {
    assert lines[..n + 1][..n] == lines[..n];
  }

  predicate Mentioned(lines: seq<string>, n: nat, app: string)
    requires n <= |lines|
  {
    exists i :: 0 <= i < n && Mentions(lines, i, app)
  }

  lemma OneMoreMentioned(lines: seq<string>, n: nat, app: string)
    requires n < |lines|
    ensures Mentioned(lines, n + 1, app) == (Mentioned(lines, n, app) || Mentions(lines, n, app))
  {
  }

  method Retarget(text: string, from: string, to: string) returns (r: Option<string>)
    ensures r == Retargeted(text, from, to)
  {
    var lines := Split(text, '\n');
    ghost var want := NewLines(lines, from, to);
    var current, changed := "", false;
    var out: seq<string> := [];
    for n := 0 to |lines|
      invariant current == Section(lines[..n])
      invariant out == want[..n]
      invariant changed == Mentioned(lines, n, from)
    {
      OneLineFurther(lines, n);
      OneMoreMentioned(lines, n, from);
      OneMore(want, n);
      var line, touched;
      line, current, touched := RetargetLine(lines, n, current, from, to);
      changed := changed || touched;
      out := out + [line];
    }
    OneMore(want, |lines|);
    r := if changed then Some(Join(out, '\n')) else None;
    assert changed == exists i :: 0 <= i < |lines| && Mentions(lines, i, from);
  }

  lemma OneMore<T>(s: seq<T>, n: nat)
    requires n <= |s|
    ensures n < |s| ==> s[..n + 1] == s[..n] + [s[n]]
    ensures s[..|s|] == s
  {
  }

  /** The callback of the walk: the line's new text, the section after it, and whether it changed. */
  method RetargetLine(lines: seq<string>, n: nat, current: string, from: string, to: string)
    returns (out: string, section: string, changed: bool)
    requires n < |lines| && current == Section(lines[..n])
    ensures out == NewLines(lines, from, to)[n] && changed == Mentions(lines, n, from)
    ensures section == if IsHeader(lines[n]) then Trim(lines[n]) else current
  {
    var line := lines[n];
    var trimmed := Trim(line);
    if trimmed != "" && trimmed[0] == '[' { return line, trimmed, false; }
    if !IsAssociations(current) || '=' !in line || from !in Items(line) { return line, current, false; }
    var next := RenameOnce(Items(line), from, to);
    return UpToEquals(line) + Join(next, ';'), current, true;
  }

  method RenameOnce(items: seq<string>, from: string, to: string) returns (next: seq<string>)
    ensures next == Once(Renamed(items, from, to))
  {
    next := [];
    for k := 0 to |items|
      invariant next == Once(Renamed(items, from, to)[..k])
    {
      var v := if items[k] == from then to else items[k];
      assert Renamed(items, from, to)[..k + 1][..k] == Renamed(items, from, to)[..k];
      if !(v != "" && v in next) { next := next + [v]; }
    }
    assert Renamed(items, from, to)[..|items|] == Renamed(items, from, to);
  }
}
