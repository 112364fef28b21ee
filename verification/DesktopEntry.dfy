/**
 * The desktop entry filex writes for itself (hiddenDesktopEntry, desktop/src/channel.ts), and
 * the entry as a desktop reads it: sections 3, 4 and 7 of the Desktop Entry Specification.
 */
module DesktopEntry {
  import opened Content
  import opened Text

  // ── what filex writes ────────────────────────────────────────────────

  /** JavaScript's \s. */
  predicate IsSpace(c: char) {
    || c == ' ' || '\t' <= c <= '\r' || c == '\U{00A0}' || c == '\U{1680}' || '\U{2000}' <= c <= '\U{200A}'
    || c == '\U{2028}' || c == '\U{2029}' || c == '\U{202F}' || c == '\U{205F}' || c == '\U{3000}' || c == '\U{FEFF}'
  }

  predicate NeedsQuotes(c: char) {
    || IsSpace(c) || c == '"' || c == '\'' || c == '\\' || c == '>' || c == '<' || c == '~' || c == '|' || c == '&'
    || c == ';' || c == '$' || c == '*' || c == '?' || c == '#' || c == '(' || c == ')' || c == '`'
  }

  predicate EscapedInQuotes(c: char) {
    c == '"' || c == '`' || c == '$' || c == '\\'
  }

  function Escape(s: string): string {
    if s == "" then "" else (if EscapedInQuotes(s[0]) then ['\\', s[0]] else [s[0]]) + Escape(s[1..])
  }

  function Doubled(s: string, c: char): string {
    if s == "" then "" else (if s[0] == c then [c, c] else [s[0]]) + Doubled(s[1..], c)
  }

  function Quote(program: string): string {
    if exists c :: c in program && NeedsQuotes(c) then "\"" + Escape(program) + "\"" else program
  }

  function AsString(s: string): string {
    Doubled(s, '\\')
  }

  function ExecValue(program: string): string {
    AsString(Doubled(Quote(program), '%')) + " %U"
  }

  /** Every run of line ends is one space. */
  function OneLine(s: string): (r: string)
    ensures '\n' !in r && '\r' !in r
  {
    if s == "" then ""
    else if s[0] != '\n' && s[0] != '\r' then [s[0]] + OneLine(s[1..])
    else if |s| > 1 && (s[1] == '\n' || s[1] == '\r') then OneLine(s[1..])
    else " " + OneLine(s[1..])
  }

  predicate IsIconName(s: string) {
    s != "" && forall c :: c in s ==> 'A' <= c <= 'Z' || 'a' <= c <= 'z' || '0' <= c <= '9' || c == '.' || c == '_' || c == '-'
  }

  function Line(key: string, value: string): string {
    key + "=" + value
  }

  function Head(comment: string): seq<string> {
    ["[Desktop Entry]", Line("Type", "Application"), Line("Name", "filex"), Line("Comment", AsString(OneLine(comment)))]
  }

  function Tail(mimeTypes: seq<string>, icon: Option<string>): seq<string> {
    (if icon.Some? && IsIconName(icon.value) then [Line("Icon", icon.value)] else [])
    + [Line("Terminal", "false"), Line("NoDisplay", "true"), Line("MimeType", Join(mimeTypes, ';') + ";"), ""]
  }

  function HiddenDesktopEntry(program: string, mimeTypes: seq<string>, comment: string, icon: Option<string>): string {
    Join(Head(comment) + [Line("TryExec", AsString(program)), Line("Exec", ExecValue(program))] + Tail(mimeTypes, icon), '\n')
  }

  // ── what a desktop reads ─────────────────────────────────────────────

  function IndexOf(s: string, c: char): (i: nat)
    ensures i <= |s| && (i < |s| ==> s[i] == c) && c !in s[..i]
  {
    if s == "" || s[0] == c then 0 else 1 + IndexOf(s[1..], c)
  }

  function DropLeading(s: string): string {
    if s != "" && s[0] == ' ' then DropLeading(s[1..]) else s
  }

  function DropTrailing(s: string): string {
    if s != "" && s[|s| - 1] == ' ' then DropTrailing(s[..|s| - 1]) else s
  }

  /** A line's key, unless it is a comment, a group header or has none. */
  function KeyOf(line: string): Option<string> {
    if line == "" || line[0] == '#' || line[0] == '[' || '=' !in line then None
    else Some(DropTrailing(line[..IndexOf(line, '=')]))
  }

  function ValueOf(line: string): string
    requires '=' in line
  {
    DropLeading(line[IndexOf(line, '=') + 1..])
  }

  /** The first value of the key among the lines of the [Desktop Entry] group. */
  function Lookup(lines: seq<string>, inGroup: bool, key: string): Option<string> {
    if lines == [] then None
    else if lines[0] != "" && lines[0][0] == '[' then Lookup(lines[1..], lines[0] == "[Desktop Entry]", key)
    else if inGroup && KeyOf(lines[0]) == Some(key) then Some(ValueOf(lines[0]))
    else Lookup(lines[1..], inGroup, key)
  }

  /** A value of type string, its escapes undone. */
  function Unescape(s: string): Option<string> {
    if s == "" then Some("")
    else if s[0] != '\\' then Before([s[0]], Unescape(s[1..]))
    else if |s| == 1 then None
    else if EscapeMeans(s[1]).None? then None
    else Before([EscapeMeans(s[1]).value], Unescape(s[2..]))
  }

  function EscapeMeans(c: char): Option<char> {
    match c
    case '\\' => Some('\\')
    case 's' => Some(' ')
    case 'n' => Some('\n')
    case 't' => Some('\t')
    case 'r' => Some('\r')
    case _ => None
  }

  function Before(a: string, b: Option<string>): Option<string> {
    if b.None? then None else Some(a + b.value)
  }

  predicate Reserved(c: char) {
    || c == ' ' || c == '\t' || c == '\n' || c == '"' || c == '\'' || c == '\\' || c == '>' || c == '<' || c == '~'
    || c == '|' || c == '&' || c == ';' || c == '$' || c == '*' || c == '?' || c == '#' || c == '(' || c == ')' || c == '`'
  }

  /** One argument of the command line, and what comes after it. */
  datatype Word = Word(text: string, quoted: bool, rest: string)

  function Ahead(c: char, w: Option<Word>): Option<Word> {
    if w.None? then None else Some(w.value.(text := [c] + w.value.text))
  }

  /** The inside of a quoted argument, up to the closing quote. */
  function QuotedWord(s: string): (w: Option<Word>)
    ensures w.Some? ==> |w.value.rest| < |s| && w.value.quoted
  {
    if s == "" then None
    else if s[0] == '"' then Some(Word("", true, s[1..]))
    else if s[0] == '\\' then
      if |s| > 1 && EscapedInQuotes(s[1]) then Ahead(s[1], QuotedWord(s[2..])) else None
    else if EscapedInQuotes(s[0]) then None
    else Ahead(s[0], QuotedWord(s[1..]))
  }

  function BareWord(s: string): (w: Option<Word>)
    ensures w.Some? ==> |w.value.rest| + |w.value.text| == |s| && !w.value.quoted
    ensures w.Some? && s != "" && s[0] != ' ' ==> w.value.text != ""
  {
    if s == "" || s[0] == ' ' then Some(Word("", false, s))
    else if Reserved(s[0]) then None
    else Ahead(s[0], BareWord(s[1..]))
  }

  /** The literal text of an argument: `%%` is a percent, and a field code inside is refused. */
  function Literally(s: string): Option<string> {
    if s == "" then Some("")
    else if s[0] != '%' then Before([s[0]], Literally(s[1..]))
    else if |s| > 1 && s[1] == '%' then Before("%", Literally(s[2..]))
    else None
  }

  /** An argument handed to the program: as it stands, or the addresses `%U` stands for. */
  datatype Argument = Literal(text: string) | Addresses

  function Expand(w: Word): Option<Argument> {
    if !w.quoted && w.text == "%U" then Some(Addresses)
    else
      var text := Literally(w.text);
      if text.None? then None else Some(Literal(text.value))
  }

  /** The command line: its arguments, or None when it is not a valid one. */
  function CommandLine(s: string): Option<seq<Argument>>
    decreases |s|
  {
    if s == "" then Some([])
    else if s[0] == ' ' then CommandLine(s[1..])
    else
      var word := if s[0] == '"' then QuotedWord(s[1..]) else BareWord(s);
      if word.None? || (word.value.rest != "" && word.value.rest[0] != ' ') then None
      else
        var arg, rest := Expand(word.value), CommandLine(word.value.rest);
        if arg.None? || rest.None? then None else Some([arg.value] + rest.value)
  }

  function ReadString(document: string, key: string): Option<string> {
    var v := Lookup(Split(document, '\n'), false, key);
    if v.None? then None else Unescape(v.value)
  }

  function ReadExec(document: string): Option<seq<Argument>> {
    var s := ReadString(document, "Exec");
    if s.None? then None else CommandLine(s.value)
  }

  // ── the three escapes, each undone ───────────────────────────────────

  lemma Joins(c: char, s: string, t: string)
    ensures [c] + (s + t) == ([c] + s) + t
    ensures s != "" ==> [s[0]] + s[1..] == s
    ensures "" + s == s && s + "" == s
  {
  }

  lemma UnescapeOne(c: char, t: string)
    ensures Unescape(AsString([c]) + t) == Before([c], Unescape(t))
  {
    assert [c][1..] == "" && AsString("") == "";
    if c == '\\' {
      assert AsString([c]) == [c, c] && ([c, c] + t)[2..] == t;
    } else {
      assert AsString([c]) == [c] && ([c] + t)[1..] == t;
    }
  }

  lemma AsStringStarts(s: string, t: string)
    requires s != ""
    ensures AsString(s) + t == AsString([s[0]]) + (AsString(s[1..]) + t)
  {
    Joins(s[0], s, "");
    DoubledConcat([s[0]], s[1..], '\\');
    Associates(AsString([s[0]]), AsString(s[1..]), t, "");
  }

  lemma BeforeBefore(c: char, s: string, t: Option<string>)
    ensures Before([c], Before(s, t)) == Before([c] + s, t)
  {
    if t.Some? { Joins(c, s, t.value); }
  }

  lemma {:induction false} UnescapeUndoes(s: string, t: string)
    ensures Unescape(AsString(s) + t) == Before(s, Unescape(t))
  {
    if s == "" {
      assert AsString(s) + t == t;
      BeforeBefore(' ', "", Unescape(t));
      assert Unescape(t).Some? ==> "" + Unescape(t).value == Unescape(t).value;
    } else {
      var rest := AsString(s[1..]) + t;
      UnescapeUndoes(s[1..], t);
      UnescapeOne(s[0], rest);
      AsStringStarts(s, t);
      BeforeBefore(s[0], s[1..], Unescape(t));
      assert [s[0]] + s[1..] == s;
    }
  }

  lemma {:induction false} LiterallyUndoes(s: string)
    ensures Literally(Doubled(s, '%')) == Some(s)
  {
    if s != "" {
      var rest := Doubled(s[1..], '%');
      LiterallyUndoes(s[1..]);
      Joins(s[0], s, "");
      if s[0] == '%' {
        assert Doubled(s, '%') == ['%', '%'] + rest;
        assert Doubled(s, '%')[2..] == rest;
      } else {
        assert Doubled(s, '%')[1..] == rest;
      }
    }
  }

  lemma {:induction false} DoubledConcat(a: string, b: string, c: char)
    ensures Doubled(a + b, c) == Doubled(a, c) + Doubled(b, c)
  {
    if a == "" {
      assert a + b == b;
    } else {
      assert (a + b)[1..] == a[1..] + b;
      DoubledConcat(a[1..], b, c);
    }
  }

  /** A character that means itself, `%` written twice. */
  lemma QuotedPlain(c: char, t: string, later: Word)
    requires !EscapedInQuotes(c) && QuotedWord(t) == Some(later)
    ensures QuotedWord(Doubled([c], '%') + t) == Some(later.(text := Doubled([c], '%') + later.text))
  {
    assert [c][1..] == "" && Doubled("", '%') == "";
    assert ([c] + t)[1..] == t;
    if c == '%' {
      assert (['%', '%'] + t)[1..] == ['%'] + t;
      assert ['%'] + (['%'] + later.text) == ['%', '%'] + later.text;
      assert Doubled([c], '%') == ['%', '%'];
    } else {
      assert Doubled([c], '%') == [c];
    }
  }

  lemma QuotedEscaped(c: char, t: string, later: Word)
    requires EscapedInQuotes(c) && QuotedWord(t) == Some(later)
    ensures QuotedWord(Doubled(['\\', c], '%') + t) == Some(later.(text := Doubled([c], '%') + later.text))
  {
    assert ['\\', c][1..] == [c] && [c][1..] == "" && Doubled("", '%') == "";
    assert Doubled([c], '%') == [c] && Doubled(['\\', c], '%') == ['\\', c];
    assert (['\\', c] + t)[2..] == t;
  }

  lemma ReservedNeedsQuotes(c: char)
    requires Reserved(c)
    ensures NeedsQuotes(c)
  {
  }

  lemma BarePlain(c: char, t: string, later: Word)
    requires !NeedsQuotes(c) && BareWord(t) == Some(later)
    ensures BareWord(Doubled([c], '%') + t) == Some(later.(text := Doubled([c], '%') + later.text))
  {
    assert !Reserved(c) by { if Reserved(c) { ReservedNeedsQuotes(c); } }
    assert c != ' ';
    assert [c][1..] == "" && Doubled("", '%') == "";
    assert ([c] + t)[1..] == t;
    if c == '%' {
      assert (['%', '%'] + t)[1..] == ['%'] + t;
      assert ['%'] + (['%'] + later.text) == ['%', '%'] + later.text;
      assert Doubled([c], '%') == ['%', '%'];
    } else {
      assert Doubled([c], '%') == [c];
    }
  }

  lemma Associates(a: string, b: string, c: string, d: string)
    ensures ((a + b) + c) + d == a + ((b + c) + d)
    ensures (a + b) + c == a + (b + c)
  {
  }

  /** Inside quotes: every escaped character comes out as it was, up to the closing quote. */
  lemma {:induction false} QuotedIsRead(s: string, rest: string)
    ensures QuotedWord((Doubled(Escape(s), '%') + "\"") + rest) == Some(Word(Doubled(s, '%'), true, rest))
  {
    if s == "" {
      assert (Doubled(Escape(s), '%') + "\"") + rest == "\"" + rest;
      assert ("\"" + rest)[1..] == rest;
    } else {
      var c := s[0];
      var one := if EscapedInQuotes(c) then ['\\', c] else [c];
      QuotedIsRead(s[1..], rest);
      DoubledConcat(one, Escape(s[1..]), '%');
      Associates(Doubled(one, '%'), Doubled(Escape(s[1..]), '%'), "\"", rest);
      var later := (Doubled(Escape(s[1..]), '%') + "\"") + rest;
      var word := Word(Doubled(s[1..], '%'), true, rest);
      Joins(c, s, "");
      DoubledConcat([c], s[1..], '%');
      if EscapedInQuotes(c) { QuotedEscaped(c, later, word); } else { QuotedPlain(c, later, word); }
    }
  }

  lemma {:induction false} BareIsRead(s: string, rest: string)
    requires forall c :: c in s ==> !NeedsQuotes(c)
    ensures BareWord(Doubled(s, '%') + (" " + rest)) == Some(Word(Doubled(s, '%'), false, " " + rest))
  {
    if s == "" {
      assert Doubled(s, '%') + (" " + rest) == " " + rest;
    } else {
      var c := s[0];
      assert !NeedsQuotes(c);
      BareIsRead(s[1..], rest);
      Joins(c, s, "");
      DoubledConcat([c], s[1..], '%');
      Associates(Doubled([c], '%'), Doubled(s[1..], '%'), " " + rest, "");
      BarePlain(c, Doubled(s[1..], '%') + (" " + rest), Word(Doubled(s[1..], '%'), false, " " + rest));
    }
  }

  lemma AddressesAreRead()
    ensures CommandLine(" %U") == Some([Addresses])
  {
    var s := "%U";
    assert " %U"[1..] == s && s[1..] == "U" && "U"[1..] == "";
    assert BareWord("") == Some(Word("", false, ""));
    assert ['U'] + "" == "U" && ['%'] + "U" == s;
    assert BareWord(s) == Some(Word("%U", false, ""));
    assert CommandLine("") == Some([]) && [Addresses] + [] == [Addresses];
    assert CommandLine(s) == Some([Addresses]);
  }

  /** One argument and what follows it. */
  lemma OneArgument(s: string, word: Word, program: string)
    requires s != "" && s[0] != ' ' && word.rest == " %U"
    requires (if s[0] == '"' then QuotedWord(s[1..]) else BareWord(s)) == Some(word)
    requires word.text == Doubled(program, '%')
    ensures CommandLine(s) == Some([Literal(program), Addresses])
  {
    AddressesAreRead();
    LiterallyUndoes(program);
    assert [Literal(program)] + [Addresses] == [Literal(program), Addresses];
    assert word.text != "%U" by {
      if program != "" && program[0] == '%' { assert word.text[1] == '%'; }
    }
  }

  /** The command line that is written for a program starts that program, and nothing else. */
  lemma CommandLineIsRead(program: string)
    requires program != ""
    ensures CommandLine(Doubled(Quote(program), '%') + " %U") == Some([Literal(program), Addresses])
  {
    var line := Doubled(Quote(program), '%') + " %U";
    if exists c :: c in program && NeedsQuotes(c) {
      var inside := Doubled(Escape(program), '%') + "\"";
      QuoteIsDoubled(program);
      assert line == "\"" + (inside + " %U");
      assert line[1..] == inside + " %U";
      QuotedIsRead(program, " %U");
      OneArgument(line, Word(Doubled(program, '%'), true, " %U"), program);
    } else {
      assert " " + "%U" == " %U";
      BareIsRead(program, "%U");
      assert !NeedsQuotes(program[0]);
      assert line[0] == program[0];
      OneArgument(line, Word(Doubled(program, '%'), false, " %U"), program);
    }
  }

  lemma QuoteIsDoubled(program: string)
    requires exists c :: c in program && NeedsQuotes(c)
    ensures Doubled(Quote(program), '%') == "\"" + (Doubled(Escape(program), '%') + "\"")
  {
    var q := "\"";
    assert q[1..] == "" && Doubled("", '%') == "" && Doubled(q, '%') == q;
    DoubledConcat(q + Escape(program), q, '%');
    DoubledConcat(q, Escape(program), '%');
  }

  lemma ExecValueIsRead(program: string)
    ensures Unescape(ExecValue(program)) == Some(Doubled(Quote(program), '%') + " %U")
  {
    var s := " %U";
    assert s[1..] == "%U" && "%U"[1..] == "U" && "U"[1..] == "";
    assert Unescape("") == Some("");
    assert ['U'] + "" == "U" && ['%'] + "U" == "%U" && [' '] + "%U" == s;
    assert Unescape("U") == Some("U") && Unescape("%U") == Some("%U");
    UnescapeUndoes(Doubled(Quote(program), '%'), s);
  }

  // ── the lines, and what is found among them ──────────────────────────

  predicate IsKey(key: string) {
    key != "" && key[0] != '#' && key[0] != '[' && key[|key| - 1] != ' ' && '=' !in key
  }

  lemma {:induction false} IndexOfFirst(a: string, c: char, b: string)
    requires c !in a
    ensures IndexOf(a + [c] + b, c) == |a|
  {
    if a != "" {
      assert (a + [c] + b)[1..] == a[1..] + [c] + b;
      IndexOfFirst(a[1..], c, b);
    }
  }

  lemma LineIsRead(key: string, value: string)
    requires IsKey(key)
    ensures '=' in Line(key, value)
    ensures KeyOf(Line(key, value)) == Some(key) && ValueOf(Line(key, value)) == DropLeading(value)
  {
    var line := Line(key, value);
    assert line == key + ['='] + value;
    IndexOfFirst(key, '=', value);
    assert line[|key|] == '=' && line[..|key|] == key && line[|key| + 1..] == value;
  }

  lemma Passed(line: string, rest: seq<string>, inGroup: bool, key: string)
    requires line == "" || line[0] != '['
    requires !inGroup || KeyOf(line) != Some(key)
    ensures Lookup([line] + rest, inGroup, key) == Lookup(rest, inGroup, key)
  {
    assert ([line] + rest)[1..] == rest;
  }

  lemma OtherKeyPassed(other: string, value: string, rest: seq<string>, key: string)
    requires IsKey(other) && other != key
    ensures Lookup([Line(other, value)] + rest, true, key) == Lookup(rest, true, key)
  {
    LineIsRead(other, value);
    assert Line(other, value)[0] == other[0];
    Passed(Line(other, value), rest, true, key);
  }

  lemma HeadIsPassed(comment: string, rest: seq<string>, key: string)
    requires key == "TryExec" || key == "Exec"
    ensures Lookup(Head(comment) + rest, false, key) == Lookup(rest, true, key)
  {
    var c := AsString(OneLine(comment));
    var l3 := [Line("Comment", c)] + rest;
    var l2 := [Line("Name", "filex")] + l3;
    OtherKeyPassed("Type", "Application", l2, key);
    OtherKeyPassed("Name", "filex", l3, key);
    OtherKeyPassed("Comment", c, rest, key);
    OneByOne("[Desktop Entry]", Line("Type", "Application"), Line("Name", "filex"), Line("Comment", c), rest);
    HeaderPassed([Line("Type", "Application")] + l2, key);
  }

  lemma OneByOne(a: string, b: string, c: string, d: string, rest: seq<string>)
    ensures [a, b, c, d] + rest == [a] + ([b] + ([c] + ([d] + rest)))
  {
  }

  lemma HeaderPassed(rest: seq<string>, key: string)
    ensures Lookup(["[Desktop Entry]"] + rest, false, key) == Lookup(rest, true, key)
  {
    assert (["[Desktop Entry]"] + rest)[1..] == rest;
  }

  lemma {:induction false} SameCharacters(s: string, c: char, x: char)
    ensures x in Doubled(s, c) <==> x in s
    ensures x != '\\' ==> (x in Escape(s) <==> x in s)
  {
    if s != "" {
      assert s == [s[0]] + s[1..];
      SameCharacters(s[1..], c, x);
    }
  }

  lemma ValuesAreOneLine(program: string)
    ensures '\n' in AsString(program) <==> '\n' in program
    ensures '\n' in ExecValue(program) <==> '\n' in program
  {
    var q := Quote(program);
    SameCharacters(program, '\\', '\n');
    SameCharacters(q, '%', '\n');
    SameCharacters(Doubled(q, '%'), '\\', '\n');
  }

  lemma HeadLines(comment: string)
    ensures Split(Join(Head(comment), '\n'), '\n') == Head(comment)
  {
    SameCharacters(OneLine(comment), '\\', '\n');
    SplitOfJoin(Head(comment), '\n');
  }

  /** The document, line by line as a desktop sees it: a line end in the program's path starts a
      line of its own. */
  lemma LinesOf(program: string, mimeTypes: seq<string>, comment: string, icon: Option<string>)
    ensures Split(HiddenDesktopEntry(program, mimeTypes, comment, icon), '\n')
         == Head(comment) + (Split(Line("TryExec", AsString(program)), '\n')
              + (Split(Line("Exec", ExecValue(program)), '\n') + Split(Join(Tail(mimeTypes, icon), '\n'), '\n')))
  {
    var head, tail := Head(comment), Tail(mimeTypes, icon);
    var try, exec := [Line("TryExec", AsString(program))], [Line("Exec", ExecValue(program))];
    assert head + [try[0], exec[0]] + tail == head + (try + (exec + tail));
    SplitOfTwo(head, try + (exec + tail), '\n');
    SplitOfTwo(try, exec + tail, '\n');
    SplitOfTwo(exec, tail, '\n');
    HeadLines(comment);
  }

  /** What is read of a key whose line is the first one after the head. */
  lemma FirstOfTheRest(document: string, comment: string, key: string, value: string, rest: seq<string>)
    requires key == "TryExec" || key == "Exec"
    requires Split(document, '\n') == Head(comment) + ([Line(key, value)] + rest)
    ensures ReadString(document, key) == Unescape(DropLeading(value))
  {
    HeadIsPassed(comment, [Line(key, value)] + rest, key);
    LineIsRead(key, value);
    assert Line(key, value)[0] == key[0];
  }

  lemma {:induction false} DropLeadingOfDoubled(s: string)
    ensures DropLeading(AsString(s)) == AsString(DropLeading(s))
  {
    if s != "" && s[0] == ' ' {
      assert AsString(s)[1..] == AsString(s[1..]);
      DropLeadingOfDoubled(s[1..]);
    }
  }

  lemma UnescapeOfAsString(s: string)
    ensures Unescape(AsString(s)) == Some(s)
  {
    UnescapeUndoes(s, "");
    assert AsString(s) + "" == AsString(s) && s + "" == s;
  }

  lemma TryExecIsFound(program: string, mimeTypes: seq<string>, comment: string, icon: Option<string>)
    requires '\n' !in program
    ensures ReadString(HiddenDesktopEntry(program, mimeTypes, comment, icon), "TryExec") == Unescape(DropLeading(AsString(program)))
  {
    LinesOf(program, mimeTypes, comment, icon);
    ValuesAreOneLine(program);
    SplitWhole(Line("TryExec", AsString(program)), '\n');
    FirstOfTheRest(HiddenDesktopEntry(program, mimeTypes, comment, icon), comment, "TryExec", AsString(program),
      Split(Line("Exec", ExecValue(program)), '\n') + Split(Join(Tail(mimeTypes, icon), '\n'), '\n'));
  }

  /** TryExec of a one-line path: the path without the spaces it begins with. */
  lemma TryExecOfOneLine(program: string, mimeTypes: seq<string>, comment: string, icon: Option<string>)
    requires '\n' !in program
    ensures ReadString(HiddenDesktopEntry(program, mimeTypes, comment, icon), "TryExec") == Some(DropLeading(program))
  {
    TryExecIsFound(program, mimeTypes, comment, icon);
    DropLeadingOfDoubled(program);
    UnescapeOfAsString(DropLeading(program));
  }

  lemma ExecIsFound(program: string, mimeTypes: seq<string>, comment: string, icon: Option<string>)
    requires '\n' !in program
    ensures ReadString(HiddenDesktopEntry(program, mimeTypes, comment, icon), "Exec") == Unescape(DropLeading(ExecValue(program)))
  {
    LinesOf(program, mimeTypes, comment, icon);
    ValuesAreOneLine(program);
    SplitWhole(Line("TryExec", AsString(program)), '\n');
    SplitWhole(Line("Exec", ExecValue(program)), '\n');
    SecondOfTheRest(comment, AsString(program), ExecValue(program), Split(Join(Tail(mimeTypes, icon), '\n'), '\n'));
  }

  lemma SecondOfTheRest(comment: string, try: string, exec: string, rest: seq<string>)
    ensures Lookup(Head(comment) + ([Line("TryExec", try)] + ([Line("Exec", exec)] + rest)), false, "Exec") == Some(DropLeading(exec))
  {
    var after := [Line("Exec", exec)] + rest;
    HeadIsPassed(comment, [Line("TryExec", try)] + after, "Exec");
    OtherKeyPassed("TryExec", try, after, "Exec");
    LineIsRead("Exec", exec);
    assert Line("Exec", exec)[0] == 'E';
  }

  /** Exec of a one-line path: the path as it is, then `%U`. */
  lemma ExecOfOneLine(program: string, mimeTypes: seq<string>, comment: string, icon: Option<string>)
    requires '\n' !in program && program != ""
    ensures ReadExec(HiddenDesktopEntry(program, mimeTypes, comment, icon)) == Some([Literal(program), Addresses])
  {
    ExecIsFound(program, mimeTypes, comment, icon);
    StartsWithNoSpace(program);
    ExecValueIsRead(program);
    CommandLineIsRead(program);
  }

  lemma StartsWithNoSpace(program: string)
    requires program != ""
    ensures DropLeading(ExecValue(program)) == ExecValue(program)
  {
    var q := Quote(program);
    assert q != "" && q[0] != ' ' by {
      if q[0] == ' ' { assert program[0] in program && NeedsQuotes(program[0]); }
    }
  }

  // ── a path with a line end in it ─────────────────────────────────────

  /** Every backslash is one of a pair, so no escape but that of a backslash is ever read. */
  predicate Paired(s: string) {
    s == "" || (if s[0] == '\\' then |s| > 1 && s[1] == '\\' && Paired(s[2..]) else Paired(s[1..]))
  }

  lemma {:induction false} AsStringIsPaired(s: string, t: string)
    requires Paired(t)
    ensures Paired(AsString(s) + t)
  {
    if s == "" {
      assert AsString(s) + t == t;
    } else {
      var rest := AsString(s[1..]) + t;
      AsStringIsPaired(s[1..], t);
      AsStringStarts(s, t);
      assert [s[0]][1..] == "" && AsString("") == "";
      if s[0] == '\\' {
        assert AsString([s[0]]) == ['\\', '\\'] && (['\\', '\\'] + rest)[2..] == rest;
      } else {
        assert AsString([s[0]]) == [s[0]] && ([s[0]] + rest)[1..] == rest;
      }
    }
  }

  /** What comes after a character that is no backslash, and what comes before it. */
  lemma {:induction false} PairedParts(a: string, c: char, b: string)
    requires Paired(a + [c] + b) && c != '\\'
    ensures Paired(a) && Paired(b)
  {
    var s := a + [c] + b;
    if a == "" {
      assert s[1..] == b;
    } else if a[0] == '\\' {
      assert |a| > 1 by { assert (a + [c] + b)[|a|] == c; }
      assert s[2..] == a[2..] + [c] + b;
      PairedParts(a[2..], c, b);
    } else {
      assert s[1..] == a[1..] + [c] + b;
      PairedParts(a[1..], c, b);
    }
  }

  lemma {:induction false} PiecesArePaired(s: string, sep: char, i: nat)
    requires Paired(s) && sep != '\\' && i < |Split(s, sep)|
    ensures Paired(Split(s, sep)[i])
    decreases |s|
  {
    var at := IndexOf(s, sep);
    if at == |s| {
      assert s[..at] == s;
      SplitWhole(s, sep);
    } else {
      var a, b := s[..at], s[at + 1..];
      assert s == a + [sep] + b;
      PairedParts(a, sep, b);
      SplitAt(a, sep, b);
      SplitWhole(a, sep);
      if i > 0 { PiecesArePaired(b, sep, i - 1); }
    }
  }

  lemma {:induction false} DropLeadingKeeps(s: string, x: char)
    ensures Paired(s) ==> Paired(DropLeading(s))
    ensures x !in s ==> x !in DropLeading(s)
  {
    if s != "" && s[0] == ' ' { DropLeadingKeeps(s[1..], x); }
  }

  lemma {:induction false} NoLineEndUnescaped(s: string)
    requires Paired(s) && '\n' !in s
    ensures Unescape(s).Some? ==> '\n' !in Unescape(s).value
  {
    if s != "" { NoLineEndUnescaped(if s[0] == '\\' then s[2..] else s[1..]); }
  }

  /** Were the line the key's, its value would read as text without a line end. */
  predicate Plain(line: string, key: string) {
    KeyOf(line) == Some(key) ==> '=' in line && Paired(ValueOf(line)) && '\n' !in ValueOf(line)
  }

  ghost predicate AllPlain(lines: seq<string>, key: string) {
    forall line :: line in lines ==> Plain(line, key)
  }

  lemma FallsApart(line: string, at: nat)
    requires at < |line|
    ensures line == line[..at] + [line[at]] + line[at + 1..]
  {
  }

  lemma PairedIsPlain(line: string, key: string)
    requires Paired(line) && '\n' !in line
    ensures Plain(line, key)
  {
    if '=' in line {
      var at := IndexOf(line, '=');
      FallsApart(line, at);
      PairedParts(line[..at], '=', line[at + 1..]);
      DropLeadingKeeps(line[at + 1..], '\n');
    }
  }

  lemma {:induction false} PlainLinesReadPlain(lines: seq<string>, inGroup: bool, key: string)
    requires AllPlain(lines, key)
    ensures var v := Lookup(lines, inGroup, key); v.Some? ==> Paired(v.value) && '\n' !in v.value
  {
    if lines != [] {
      var lookup := if lines[0] != "" && lines[0][0] == '[' then lines[0] == "[Desktop Entry]" else inGroup;
      assert lines[0] in lines;
      PlainLinesReadPlain(lines[1..], lookup, key);
    }
  }

  lemma PiecesArePlain(key: string, value: string, other: string)
    requires IsKey(key) && '\\' !in key && Paired(value)
    ensures AllPlain(Split(Line(key, value), '\n'), other)
  {
    var line := Line(key, value);
    LineIsPaired(key, value);
    var pieces := Split(line, '\n');
    forall piece | piece in pieces ensures Plain(piece, other) {
      var i :| 0 <= i < |pieces| && pieces[i] == piece;
      PiecesArePaired(line, '\n', i);
      PairedIsPlain(piece, other);
    }
  }

  lemma {:induction false} LineIsPaired(key: string, value: string)
    requires '\\' !in key && Paired(value)
    ensures Paired(Line(key, value))
  {
    if key == "" {
      assert Line(key, value) == "=" + value && Line(key, value)[1..] == value;
    } else {
      assert Line(key, value)[1..] == Line(key[1..], value);
      LineIsPaired(key[1..], value);
    }
  }

  lemma OtherKeyIsPlain(other: string, value: string, key: string)
    requires IsKey(other) && other != key
    ensures Plain(Line(other, value), key)
  {
    LineIsRead(other, value);
  }

  lemma {:induction false} JoinHas(parts: seq<string>, sep: char, x: char)
    requires x != sep && forall i :: 0 <= i < |parts| ==> x !in parts[i]
    ensures x !in Join(parts, sep)
  {
    if |parts| > 1 { JoinHas(parts[1..], sep, x); }
  }

  lemma TailLines(mimeTypes: seq<string>, icon: Option<string>)
    requires forall i :: 0 <= i < |mimeTypes| ==> '\n' !in mimeTypes[i]
    ensures Split(Join(Tail(mimeTypes, icon), '\n'), '\n') == Tail(mimeTypes, icon)
  {
    JoinHas(mimeTypes, ';', '\n');
    SplitOfJoin(Tail(mimeTypes, icon), '\n');
  }

  lemma OneLineIsPlain(other: string, value: string, key: string)
    requires IsKey(other) && other != key
    ensures AllPlain([Line(other, value)], key)
  {
    OtherKeyIsPlain(other, value, key);
  }

  lemma TailIsPlain(mimeTypes: seq<string>, icon: Option<string>, key: string)
    requires key == "TryExec" || key == "Exec"
    ensures AllPlain(Tail(mimeTypes, icon), key)
  {
    var types := Join(mimeTypes, ';') + ";";
    var a, b, c := [Line("Terminal", "false")], [Line("NoDisplay", "true")], [Line("MimeType", types)];
    OneLineIsPlain("Terminal", "false", key);
    OneLineIsPlain("NoDisplay", "true", key);
    OneLineIsPlain("MimeType", types, key);
    assert AllPlain([""], key);
    PlainBoth(a, b, key);
    PlainBoth(a + b, c, key);
    PlainBoth(a + b + c, [""], key);
    var i := if icon.Some? && IsIconName(icon.value) then [Line("Icon", icon.value)] else [];
    if icon.Some? { OneLineIsPlain("Icon", icon.value, key); }
    PlainBoth(i, a + b + c + [""], key);
    assert a + b + c + [""] == [a[0], b[0], c[0], ""];
  }

  lemma ValuesArePaired(program: string)
    ensures Paired(AsString(program)) && Paired(ExecValue(program))
  {
    AsStringIsPaired(program, "");
    assert AsString(program) + "" == AsString(program);
    assert Paired(" %U") by { assert " %U"[1..] == "%U" && "%U"[1..] == "U" && "U"[1..] == ""; }
    AsStringIsPaired(Doubled(Quote(program), '%'), " %U");
  }

  /** The lines after the head, whatever the path. */
  function Rest(program: string, mimeTypes: seq<string>, icon: Option<string>): seq<string> {
    Split(Line("TryExec", AsString(program)), '\n') + (Split(Line("Exec", ExecValue(program)), '\n') + Tail(mimeTypes, icon))
  }

  lemma RestIsPlain(program: string, mimeTypes: seq<string>, icon: Option<string>, key: string)
    requires key == "TryExec" || key == "Exec"
    ensures AllPlain(Rest(program, mimeTypes, icon), key)
  {
    ValuesArePaired(program);
    PiecesArePlain("TryExec", AsString(program), key);
    PiecesArePlain("Exec", ExecValue(program), key);
    TailIsPlain(mimeTypes, icon, key);
    var a, b, c := Split(Line("TryExec", AsString(program)), '\n'), Split(Line("Exec", ExecValue(program)), '\n'), Tail(mimeTypes, icon);
    PlainBoth(b, c, key);
    PlainBoth(a, b + c, key);
  }

  lemma PlainBoth(a: seq<string>, b: seq<string>, key: string)
    requires AllPlain(a, key) && AllPlain(b, key)
    ensures AllPlain(a + b, key)
  {
  }

  /** Whatever the path, no value read from the entry has a line end in it. */
  lemma ReadsOneLine(program: string, mimeTypes: seq<string>, comment: string, icon: Option<string>, key: string)
    requires key == "TryExec" || key == "Exec"
    requires forall i :: 0 <= i < |mimeTypes| ==> '\n' !in mimeTypes[i]
    ensures var v := ReadString(HiddenDesktopEntry(program, mimeTypes, comment, icon), key);
            v.Some? ==> '\n' !in v.value
  {
    var rest := Rest(program, mimeTypes, icon);
    RestIsPlain(program, mimeTypes, icon, key);
    PlainLinesReadPlain(rest, true, key);
    var v := Lookup(rest, true, key);
    if v.Some? { NoLineEndUnescaped(v.value); }
    LinesOf(program, mimeTypes, comment, icon);
    TailLines(mimeTypes, icon);
    HeadIsPassed(comment, rest, key);
  }

  // Reading an argument only ever drops characters.

  lemma {:induction false} QuotedKeeps(s: string, x: char)
    requires x !in s
    ensures var w := QuotedWord(s); w.Some? ==> x !in w.value.text && x !in w.value.rest
  {
    if s != "" && s[0] == '\\' && |s| > 1 { QuotedKeeps(s[2..], x); }
    else if s != "" { QuotedKeeps(s[1..], x); }
  }

  lemma {:induction false} BareKeeps(s: string, x: char)
    requires x !in s
    ensures var w := BareWord(s); w.Some? ==> x !in w.value.text && x !in w.value.rest
  {
    if s != "" { BareKeeps(s[1..], x); }
  }

  lemma {:induction false} LiterallyKeeps(s: string, x: char)
    requires x !in s
    ensures Literally(s).Some? ==> x !in Literally(s).value
  {
    if s != "" {
      LiterallyKeeps(s[1..], x);
      if |s| > 1 { LiterallyKeeps(s[2..], x); }
    }
  }

  lemma {:induction false} CommandLineKeeps(s: string, x: char)
    requires x !in s
    ensures var a := CommandLine(s); a.Some? && a.value != [] && a.value[0].Literal? ==> x !in a.value[0].text
    decreases |s|
  {
    if s != "" && s[0] == ' ' {
      CommandLineKeeps(s[1..], x);
    } else if s != "" {
      QuotedKeeps(s[1..], x);
      BareKeeps(s, x);
      var word := if s[0] == '"' then QuotedWord(s[1..]) else BareWord(s);
      if word.Some? { LiterallyKeeps(word.value.text, x); }
    }
  }

  // ── the theorems ─────────────────────────────────────────────────────

  /** Exec, read back from the whole entry, is the program and its addresses exactly when the
      path is not empty and is one line. */
  lemma ExecReadsBack(program: string, mimeTypes: seq<string>, comment: string, icon: Option<string>)
    requires forall i :: 0 <= i < |mimeTypes| ==> '\n' !in mimeTypes[i]
    ensures ReadExec(HiddenDesktopEntry(program, mimeTypes, comment, icon)) == Some([Literal(program), Addresses])
       <==> program != "" && '\n' !in program
  {
    if '\n' in program {
      ReadsOneLine(program, mimeTypes, comment, icon, "Exec");
      var s := ReadString(HiddenDesktopEntry(program, mimeTypes, comment, icon), "Exec");
      if s.Some? { CommandLineKeeps(s.value, '\n'); }
    } else if program != "" {
      ExecOfOneLine(program, mimeTypes, comment, icon);
    } else {
      ExecOfNothing(mimeTypes, comment, icon);
    }
  }

  lemma ExecOfNothing(mimeTypes: seq<string>, comment: string, icon: Option<string>)
    ensures ReadExec(HiddenDesktopEntry("", mimeTypes, comment, icon)) == Some([Addresses])
  {
    ExecIsFound("", mimeTypes, comment, icon);
    NothingIsRead();
  }

  lemma NothingIsRead()
    ensures Unescape(DropLeading(ExecValue(""))) == Some("%U") && CommandLine("%U") == Some([Addresses])
  {
    assert ExecValue("") == " %U" && " %U"[1..] == "%U" && "%U"[1..] == "U" && "U"[1..] == "";
    assert ['U'] + "" == "U" && ['%'] + "U" == "%U";
    assert Unescape("") == Some("") && Unescape("U") == Some("U");
    AddressesAreRead();
  }

  /** TryExec, read back from the whole entry, is the path exactly when it is one line and does
      not begin with a space: a desktop ignores the spaces after the equals sign. */
  lemma TryExecReadsBack(program: string, mimeTypes: seq<string>, comment: string, icon: Option<string>)
    requires forall i :: 0 <= i < |mimeTypes| ==> '\n' !in mimeTypes[i]
    ensures ReadString(HiddenDesktopEntry(program, mimeTypes, comment, icon), "TryExec") == Some(program)
       <==> '\n' !in program && (program == "" || program[0] != ' ')
  {
    if '\n' in program {
      ReadsOneLine(program, mimeTypes, comment, icon, "TryExec");
    } else {
      TryExecOfOneLine(program, mimeTypes, comment, icon);
      DropLeadingShortens(program);
    }
  }

  lemma {:induction false} DropLeadingShortens(s: string)
    ensures |DropLeading(s)| <= |s| && (s != "" && s[0] == ' ' ==> |DropLeading(s)| < |s|)
  {
    if s != "" && s[0] == ' ' { DropLeadingShortens(s[1..]); }
  }
}
