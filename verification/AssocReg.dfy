/**
 * The .reg document that tells Windows what filex opens (windowsAssocReg,
 * desktop/src/os-assoc.ts), and what importing it does to a registry.
 */
module AssocReg {
  import opened Content
  import opened Text

  // ── which kinds ──────────────────────────────────────────────────────

  predicate IsKindPart(s: string) {
    && 1 <= |s| <= 32
    && IsKindStart(s[0])
    && forall c :: c in s ==> IsKindStart(c) || c == '_' || c == '+' || c == '-'
  }

  predicate IsKindStart(c: char) {
    'a' <= c <= 'z' || '0' <= c <= '9'
  }

  /** KIND_RE: an extension of up to three parts. */
  predicate IsKind(k: string) {
    |Split(k, '.')| <= 3 && forall i :: 0 <= i < |Split(k, '.')| ==> IsKindPart(Split(k, '.')[i])
  }

  predicate Less(a: string, b: string) {
    b != "" && (a == "" || a[0] < b[0] || (a[0] == b[0] && Less(a[1..], b[1..])))
  }

  lemma {:induction false} LessIsTotal(a: string, b: string)
    ensures Less(a, b) || a == b || Less(b, a)
    ensures !(Less(a, b) && Less(b, a)) && !Less(a, a)
  {
    if a != "" && b != "" && a[0] == b[0] {
      LessIsTotal(a[1..], b[1..]);
      assert a == [a[0]] + a[1..] && b == [b[0]] + b[1..];
    }
    if a != "" && a != b { LessIsTotal(a[1..], a[1..]); }
    if a != "" && a == b { LessIsTotal(a[1..], b[1..]); }
  }

  lemma {:induction false} LessIsTransitive(a: string, b: string, c: string)
    requires Less(a, b) && Less(b, c)
    ensures Less(a, c)
  {
    if a != "" && a[0] == b[0] == c[0] { LessIsTransitive(a[1..], b[1..], c[1..]); }
  }

  ghost predicate Ascending(s: seq<string>) {
    forall i, j :: 0 <= i < j < |s| ==> Less(s[i], s[j])
  }

  /** A kind among the sorted ones, once. */
  function Insert(k: string, s: seq<string>): (r: seq<string>)
    requires Ascending(s)
    ensures Ascending(r)
    ensures forall x :: x in r <==> x == k || x in s
  {
    if s == [] then [k]
    else if s[0] == k then s
    else if Less(k, s[0]) then
      InsertFirst(k, s);
      [k] + s
    else
      LessIsTotal(k, s[0]);
      var rest := Insert(k, s[1..]);
      InsertLater(s[0], s[1..], k, rest);
      [s[0]] + rest
  }

  lemma InsertFirst(k: string, s: seq<string>)
    requires Ascending(s) && s != [] && Less(k, s[0])
    ensures Ascending([k] + s)
  {
    forall i, j | 0 <= i < j < |[k] + s| ensures Less(([k] + s)[i], ([k] + s)[j]) {
      if i == 0 && j > 1 { LessIsTransitive(k, s[0], s[j - 1]); }
    }
  }

  lemma InsertLater(first: string, s: seq<string>, k: string, rest: seq<string>)
    requires Ascending(rest) && Less(first, k)
    requires forall i :: 0 <= i < |s| ==> Less(first, s[i])
    requires forall x :: x in rest <==> x == k || x in s
    ensures Ascending([first] + rest)
  {
    forall i, j | 0 <= i < j < |[first] + rest| ensures Less(([first] + rest)[i], ([first] + rest)[j]) {
      if i == 0 { assert rest[j - 1] in rest; }
    }
  }

  /** windowsKinds: the well-formed one-part kinds, in lower case, sorted, each once. */
  function WindowsKinds(kinds: seq<string>, lower: string -> string): (r: seq<string>)
    ensures Ascending(r)
    ensures forall k :: k in r <==> IsKind(k) && '.' !in k && exists i :: 0 <= i < |kinds| && lower(kinds[i]) == k
  {
    if kinds == [] then []
    else
      var r, k := WindowsKinds(kinds[1..], lower), lower(kinds[0]);
      if IsKind(k) && '.' !in k then Insert(k, r) else r
  }

  /** Sorted kinds are known by which they are: the document does not depend on the order or the
      number of times a kind was given. */
  lemma {:induction false} SortedIsCanonical(a: seq<string>, b: seq<string>)
    requires Ascending(a) && Ascending(b) && forall k :: k in a <==> k in b
    ensures a == b
  {
    if a != [] { assert a[0] in a; }
    if b != [] { assert b[0] in b; }
    if a != [] && b != [] {
      assert a[0] in b && b[0] in a;
      var i :| 0 <= i < |b| && b[i] == a[0];
      var j :| 0 <= j < |a| && a[j] == b[0];
      LessIsTotal(a[0], b[0]);
      assert a[0] == b[0];
      forall k ensures k in a[1..] <==> k in b[1..] {
        LessIsTotal(a[0], a[0]);
        assert k in a <==> k == a[0] || k in a[1..];
        assert k in b <==> k == b[0] || k in b[1..];
      }
      SortedIsCanonical(a[1..], b[1..]);
      assert a == [a[0]] + a[1..] && b == [b[0]] + b[1..];
    }
  }

  // ── the document ─────────────────────────────────────────────────────

  /** What the document is written for. `classes` is the person's own classes, `progid` filex's
      own type there. */
  datatype Target = Target(classes: string, progid: string, exe: string, exeName: string, typeName: string) {
    function Progid(): string { classes + "\\" + progid }
    function Icon(): string { Progid() + "\\DefaultIcon" }
    function Command(): string { Progid() + "\\shell\\open\\command" }
    function OpenWith(kind: string): string { classes + "\\." + kind + "\\OpenWithProgids" }
    function Supported(): string { classes + "\\Applications\\" + exeName + "\\SupportedTypes" }

    predicate OneLine() {
      '\n' !in classes && '\n' !in progid && '\n' !in exe && '\n' !in exeName && '\n' !in typeName
    }

    /** What the constants of the source are like, and no more is asked of them: the classes' path
        is no deletion mark, and the type's name begins neither as an extension nor as
        `Applications` does. */
    predicate Sound() {
      && classes != "" && classes[0] != '-'
      && progid != "" && progid[0] != '.' && progid[0] != 'A'
    }
  }

  function EscapeReg(s: string): string {
    if s == "" then "" else (if s[0] == '\\' || s[0] == '"' then ['\\', s[0]] else [s[0]]) + EscapeReg(s[1..])
  }

  function RegString(s: string): string {
    "\"" + EscapeReg(s) + "\""
  }

  function Heading(key: string): string {
    "[" + key + "]"
  }

  function Block(key: string, line: string): seq<string> {
    [Heading(key), line, ""]
  }

  function ProgidLines(t: Target): seq<string> {
    Block(t.Progid(), "@=" + RegString(t.typeName))
    + (Block(t.Icon(), "@=" + RegString(t.exe + ",0"))
    + Block(t.Command(), "@=" + RegString("\"" + t.exe + "\" \"%1\"")))
  }

  /** One block a kind: its OpenWithProgids names filex, or no longer does. */
  function OpenWithLines(t: Target, kinds: seq<string>, data: string): seq<string> {
    if kinds == [] then []
    else Block(t.OpenWith(kinds[0]), RegString(t.progid) + data) + OpenWithLines(t, kinds[1..], data)
  }

  function SupportedLines(kinds: seq<string>, data: string): seq<string> {
    if kinds == [] then [] else [RegString("." + kinds[0]) + data] + SupportedLines(kinds[1..], data)
  }

  const HEADER: string := "Windows Registry Editor Version 5.00"
  const KEEP: string := "=\"\""
  const TAKE: string := "=-"

  function ProgidBlock(t: Target, add: seq<string>): seq<string> {
    if add != [] then ProgidLines(t) else []
  }

  function SupportedBlock(t: Target, add: seq<string>, drop: seq<string>): seq<string> {
    if add != [] || drop != [] then [Heading(t.Supported())] + (SupportedLines(add, KEEP) + (SupportedLines(drop, TAKE) + [""])) else []
  }

  function EraseBlock(t: Target, add: seq<string>): seq<string> {
    if add == [] then [Heading("-" + t.Progid()), ""] else []
  }

  function Body(t: Target, add: seq<string>, drop: seq<string>): seq<string> {
    ProgidBlock(t, add)
    + (OpenWithLines(t, add, KEEP)
    + (OpenWithLines(t, drop, TAKE)
    + (SupportedBlock(t, add, drop)
    + EraseBlock(t, add))))
  }

  function Lines(t: Target, add: seq<string>, drop: seq<string>): seq<string> {
    [HEADER] + ([""] + Body(t, add, drop))
  }

  function CrLf(lines: seq<string>): string {
    if lines == [] then ""
    else if |lines| == 1 then lines[0]
    else lines[0] + "\r" + "\n" + CrLf(lines[1..])
  }

  /** The kinds taken back: the ones to drop that are not to be added. */
  function Dropped(add: seq<string>, drop: seq<string>): (r: seq<string>)
    ensures forall k :: k in r <==> k in drop && k !in add
  {
    if drop == [] then []
    else (if drop[0] in add then [] else [drop[0]]) + Dropped(add, drop[1..])
  }

  // ── the registry, and what importing a document does ─────────────────

  /** The keys there are, and their values by key and name; the default value's name is empty. */
  datatype Registry = Registry(keys: set<string>, values: map<(string, string), string>)

  datatype Change = Open(key: string) | Erase(key: string) | Put(key: string, name: string, data: string) | Take(key: string, name: string)

  predicate Under(key: string, top: string) {
    key == top || top + "\\" <= key
  }

  /** A key brings the keys it stands in. */
  function Ancestors(key: string): set<string> {
    set i | 0 <= i <= |key| && (i == |key| || key[i] == '\\') :: key[..i]
  }

  function Apply(c: Change, r: Registry): Registry {
    match c
    case Open(key) => r.(keys := r.keys + Ancestors(key))
    case Erase(top) => Registry(set k | k in r.keys && !Under(k, top), map l | l in r.values && !Under(l.0, top) :: r.values[l])
    case Put(key, name, data) => r.(values := r.values[(key, name) := data])
    case Take(key, name) => r.(values := r.values - {(key, name)})
  }

  function ApplyAll(cs: seq<Change>, r: Registry): Registry {
    if cs == [] then r else Apply(cs[|cs| - 1], ApplyAll(cs[..|cs| - 1], r))
  }

  /** One line of a document. */
  datatype RegLine = Blank | Opens(key: string) | Erases(key: string) | Assigns(name: string, data: string) | Removes(name: string) | Bad

  /** A quoted string up to its closing quote, and what comes after. */
  function Quoted(s: string): (r: Option<(string, string)>)
    ensures r.Some? ==> |r.value.1| < |s|
  {
    if s == "" then None
    else if s[0] == '"' then Some(("", s[1..]))
    else
      var escaped := s[0] == '\\' && |s| > 1;
      var rest := Quoted(if escaped then s[2..] else s[1..]);
      if rest.None? then None else Some(([if escaped then s[1] else s[0]] + rest.value.0, rest.value.1))
  }

  function ReadData(name: string, s: string): RegLine {
    if s == "=-" then Removes(name)
    else if |s| > 1 && s[0] == '=' && s[1] == '"' then
      var data := Quoted(s[2..]);
      if data.Some? && data.value.1 == "" then Assigns(name, data.value.0) else Bad
    else Bad
  }

  function ReadLine(line: string): RegLine {
    if line == "" then Blank
    else if line[0] == '[' then
      if |line| > 2 && line[|line| - 1] == ']' then
        if line[1] == '-' then Erases(line[2..|line| - 1]) else Opens(line[1..|line| - 1])
      else Bad
    else if line[0] == '@' then ReadData("", line[1..])
    else if line[0] == '"' then
      var name := Quoted(line[1..]);
      if name.None? then Bad else ReadData(name.value.0, name.value.1)
    else Bad
  }

  function Then(c: Change, cs: Option<seq<Change>>): Option<seq<Change>> {
    if cs.None? then None else Some([c] + cs.value)
  }

  /** The lines as changes, `key` being the one that is open. A bad line refuses the document. */
  function Compile(lines: seq<string>, key: Option<string>): Option<seq<Change>> {
    if lines == [] then Some([])
    else match ReadLine(lines[0])
      case Blank => Compile(lines[1..], key)
      case Opens(k) => Then(Open(k), Compile(lines[1..], Some(k)))
      case Erases(k) => Then(Erase(k), Compile(lines[1..], None))
      case Assigns(name, data) => if key.None? then None else Then(Put(key.value, name, data), Compile(lines[1..], key))
      case Removes(name) => if key.None? then None else Then(Take(key.value, name), Compile(lines[1..], key))
      case Bad => None
  }

  function Stripped(lines: seq<string>): (r: seq<string>)
    ensures |r| == |lines|
  {
    seq(|lines|, i requires 0 <= i < |lines| => WithoutReturn(lines[i]))
  }

  /** The document's changes, or None when it is not one. */
  function ReadDocument(text: string): Option<seq<Change>> {
    var lines := Stripped(Split(text, '\n'));
    if lines[0] != HEADER then None else Compile(lines[1..], None)
  }

  function Import(text: string, r: Registry): Option<Registry> {
    var cs := ReadDocument(text);
    if cs.None? then None else Some(ApplyAll(cs.value, r))
  }

  // ── importing twice ──────────────────────────────────────────────────

  /** What the changes say of one value: nothing, that it goes, or what it becomes. It does not
      depend on the registry. */
  function SaysOfValue(cs: seq<Change>, key: string, name: string): Option<Option<string>> {
    if cs == [] then None
    else match cs[|cs| - 1]
      case Put(k, n, data) => if k == key && n == name then Some(Some(data)) else SaysOfValue(cs[..|cs| - 1], key, name)
      case Take(k, n) => if k == key && n == name then Some(None) else SaysOfValue(cs[..|cs| - 1], key, name)
      case Erase(top) => if Under(key, top) then Some(None) else SaysOfValue(cs[..|cs| - 1], key, name)
      case Open(_) => SaysOfValue(cs[..|cs| - 1], key, name)
  }

  function SaysOfKey(cs: seq<Change>, key: string): Option<bool> {
    if cs == [] then None
    else match cs[|cs| - 1]
      case Open(k) => if key in Ancestors(k) then Some(true) else SaysOfKey(cs[..|cs| - 1], key)
      case Erase(top) => if Under(key, top) then Some(false) else SaysOfKey(cs[..|cs| - 1], key)
      case Put(_, _, _) => SaysOfKey(cs[..|cs| - 1], key)
      case Take(_, _) => SaysOfKey(cs[..|cs| - 1], key)
  }

  function ValueAt(r: Registry, key: string, name: string): Option<string> {
    if (key, name) in r.values then Some(r.values[(key, name)]) else None
  }

  lemma {:induction false} ApplyAllIs(cs: seq<Change>, r: Registry, key: string, name: string)
    ensures ValueAt(ApplyAll(cs, r), key, name)
         == if SaysOfValue(cs, key, name).Some? then SaysOfValue(cs, key, name).value else ValueAt(r, key, name)
    ensures key in ApplyAll(cs, r).keys <==> if SaysOfKey(cs, key).Some? then SaysOfKey(cs, key).value else key in r.keys
  {
    if cs != [] { ApplyAllIs(cs[..|cs| - 1], r, key, name); }
  }

  lemma SameRegistry(a: Registry, b: Registry)
    requires forall key: string, name: string :: ValueAt(a, key, name) == ValueAt(b, key, name)
    requires forall key: string :: key in a.keys <==> key in b.keys
    ensures a == b
  {
    forall l ensures l in a.values <==> l in b.values {
      assert ValueAt(a, l.0, l.1) == ValueAt(b, l.0, l.1);
    }
    forall l | l in a.values ensures a.values[l] == b.values[l] {
      assert ValueAt(a, l.0, l.1) == ValueAt(b, l.0, l.1);
    }
    assert a.values == b.values && a.keys == b.keys;
  }

  /** Importing any document a second time changes nothing. */
  lemma ImportTwice(text: string, r: Registry)
    ensures var once := Import(text, r); once.Some? ==> Import(text, once.value) == once
  {
    var cs := ReadDocument(text);
    if cs.Some? {
      var once := ApplyAll(cs.value, r);
      forall key: string, name: string ensures ValueAt(ApplyAll(cs.value, once), key, name) == ValueAt(once, key, name) {
        ApplyAllIs(cs.value, r, key, name);
        ApplyAllIs(cs.value, once, key, name);
      }
      forall key: string ensures key in ApplyAll(cs.value, once).keys <==> key in once.keys {
        ApplyAllIs(cs.value, r, key, "");
        ApplyAllIs(cs.value, once, key, "");
      }
      SameRegistry(ApplyAll(cs.value, once), once);
    }
  }

  // ── the document, read back ──────────────────────────────────────────

  function ProgidChanges(t: Target): seq<Change> {
    [Open(t.Progid()), Put(t.Progid(), "", t.typeName),
     Open(t.Icon()), Put(t.Icon(), "", t.exe + ",0"),
     Open(t.Command()), Put(t.Command(), "", "\"" + t.exe + "\" \"%1\"")]
  }

  function PutOrTake(key: string, name: string, keep: bool): Change {
    if keep then Put(key, name, "") else Take(key, name)
  }

  function OpenWithChanges(t: Target, kinds: seq<string>, keep: bool): seq<Change> {
    if kinds == [] then []
    else [Open(t.OpenWith(kinds[0])), PutOrTake(t.OpenWith(kinds[0]), t.progid, keep)] + OpenWithChanges(t, kinds[1..], keep)
  }

  function SupportedChanges(t: Target, kinds: seq<string>, keep: bool): seq<Change> {
    if kinds == [] then [] else [PutOrTake(t.Supported(), "." + kinds[0], keep)] + SupportedChanges(t, kinds[1..], keep)
  }

  function ProgidPart(t: Target, add: seq<string>): seq<Change> {
    if add != [] then ProgidChanges(t) else []
  }

  function SupportedPart(t: Target, add: seq<string>, drop: seq<string>): seq<Change> {
    if add != [] || drop != [] then [Open(t.Supported())] + (SupportedChanges(t, add, true) + SupportedChanges(t, drop, false)) else []
  }

  function ErasePart(t: Target, add: seq<string>): seq<Change> {
    if add == [] then [Erase(t.Progid())] else []
  }

  function Changes(t: Target, add: seq<string>, drop: seq<string>): seq<Change> {
    ProgidPart(t, add)
    + (OpenWithChanges(t, add, true)
    + (OpenWithChanges(t, drop, false)
    + (SupportedPart(t, add, drop)
    + ErasePart(t, add))))
  }

  lemma HeadingIsRead(key: string)
    requires key != ""
    ensures key[0] != '-' ==> ReadLine(Heading(key)) == Opens(key)
    ensures ReadLine(Heading("-" + key)) == Erases(key)
  {
    assert Heading(key)[1..|Heading(key)| - 1] == key;
    var l := Heading("-" + key);
    assert l[2..|l| - 1] == key;
  }

  lemma EscapedOne(s: string, t: string)
    requires s != ""
    ensures EscapeReg(s) + t == (if s[0] == '\\' || s[0] == '"' then ['\\', s[0]] else [s[0]]) + (EscapeReg(s[1..]) + t)
  {
  }

  lemma QuotedOne(c: char, t: string)
    ensures var q := if c == '\\' || c == '"' then ['\\', c] else [c];
            Quoted(t).Some? ==> Quoted(q + t) == Some(([c] + Quoted(t).value.0, Quoted(t).value.1))
  {
    if c == '\\' || c == '"' {
      assert (['\\', c] + t)[2..] == t;
    } else {
      assert ([c] + t)[1..] == t;
    }
  }

  lemma {:induction false} QuotedIsRead(s: string, rest: string)
    ensures Quoted(EscapeReg(s) + ("\"" + rest)) == Some((s, rest))
  {
    if s == "" {
      assert EscapeReg(s) + ("\"" + rest) == "\"" + rest;
      assert ("\"" + rest)[1..] == rest;
    } else {
      QuotedIsRead(s[1..], rest);
      EscapedOne(s, "\"" + rest);
      QuotedOne(s[0], EscapeReg(s[1..]) + ("\"" + rest));
      assert [s[0]] + s[1..] == s;
    }
  }

  lemma DefaultIsRead(data: string)
    ensures ReadLine("@=" + RegString(data)) == Assigns("", data)
  {
    var line := "@=" + RegString(data);
    assert line[1..] == "=" + RegString(data);
    assert line[1..][2..] == EscapeReg(data) + ("\"" + "");
    QuotedIsRead(data, "");
  }

  lemma ValueLineIsRead(name: string, after: string)
    ensures ReadLine(RegString(name) + after) == ReadData(name, after)
  {
    var line := RegString(name) + after;
    assert line[1..] == EscapeReg(name) + ("\"" + after);
    QuotedIsRead(name, after);
  }

  lemma MarksAreRead(name: string)
    ensures ReadData(name, KEEP) == Assigns(name, "") && ReadData(name, TAKE) == Removes(name)
  {
    assert KEEP[2..] == "\"" && "\""[1..] == "";
    assert Quoted("\"") == Some(("", ""));
  }

  /** What comes next opens or deletes a key, so it does not matter which one was open. */
  predicate Starts(lines: seq<string>) {
    lines == [] || ReadLine(lines[0]).Opens? || ReadLine(lines[0]).Erases?
  }

  function After(cs: seq<Change>, rest: Option<seq<Change>>): Option<seq<Change>> {
    if rest.None? then None else Some(cs + rest.value)
  }

  lemma AfterBoth(a: seq<Change>, b: seq<Change>, rest: Option<seq<Change>>)
    ensures After(a, After(b, rest)) == After(a + b, rest)
    ensures After([], rest) == rest
    ensures a != [] ==> Then(a[0], After(a[1..], rest)) == After(a, rest)
  {
    if rest.Some? {
      assert a + (b + rest.value) == a + b + rest.value;
      assert [] + rest.value == rest.value;
      if a != [] { assert [a[0]] + (a[1..] + rest.value) == a + rest.value; }
    }
  }

  /** One block: its key opens, and its line says one thing of it. */
  lemma BlockIsRead(key: string, line: string, rest: seq<string>, open: Option<string>, c: Change)
    requires key != "" && key[0] != '-' && Starts(rest)
    requires c.Put? || c.Take?
    requires ReadLine(line) == if c.Put? then Assigns(c.name, c.data) else Removes(c.name)
    requires c.key == key
    ensures Starts(Block(key, line) + rest)
    ensures Compile(Block(key, line) + rest, open) == After([Open(key), c], Compile(rest, None))
  {
    HeadingIsRead(key);
    var l2 := [""] + rest;
    var l1 := [line] + l2;
    assert Block(key, line) + rest == [Heading(key)] + l1;
    assert ([Heading(key)] + l1)[1..] == l1 && l1[1..] == l2 && l2[1..] == rest;
    assert Compile(rest, Some(key)) == Compile(rest, None);
    assert ReadLine("") == Blank && Compile(l2, Some(key)) == Compile(rest, None);
    assert Compile(l1, Some(key)) == Then(c, Compile(rest, None));
    ThenThen(Open(key), c, Compile(rest, None));
  }

  lemma ThenThen(a: Change, b: Change, rest: Option<seq<Change>>)
    ensures Then(a, Then(b, rest)) == After([a, b], rest)
  {
    if rest.Some? { assert [a] + ([b] + rest.value) == [a, b] + rest.value; }
  }

  lemma KeysAreKeys(t: Target)
    requires t.Sound()
    ensures t.Progid() != "" && t.Progid()[0] != '-' && t.Icon() != "" && t.Icon()[0] != '-'
    ensures t.Command() != "" && t.Command()[0] != '-' && t.Supported() != "" && t.Supported()[0] != '-'
    ensures forall k: string :: t.OpenWith(k) != "" && t.OpenWith(k)[0] != '-'
  {
  }

  lemma DefaultBlockIsRead(key: string, data: string, rest: seq<string>, open: Option<string>)
    requires key != "" && key[0] != '-' && Starts(rest)
    ensures Starts(Block(key, "@=" + RegString(data)) + rest)
    ensures Compile(Block(key, "@=" + RegString(data)) + rest, open) == After([Open(key), Put(key, "", data)], Compile(rest, None))
  {
    DefaultIsRead(data);
    BlockIsRead(key, "@=" + RegString(data), rest, open, Put(key, "", data));
  }

  lemma ThreeBlocks(a: seq<string>, b: seq<string>, c: seq<string>, rest: seq<string>)
    ensures (a + (b + c)) + rest == a + (b + (c + rest))
  {
  }

  lemma ProgidIsRead(t: Target, rest: seq<string>, open: Option<string>)
    requires t.Sound() && Starts(rest)
    ensures Starts(ProgidLines(t) + rest)
    ensures Compile(ProgidLines(t) + rest, open) == After(ProgidChanges(t), Compile(rest, None))
  {
    KeysAreKeys(t);
    var icon, command := t.exe + ",0", "\"" + t.exe + "\" \"%1\"";
    var b1 := Block(t.Progid(), "@=" + RegString(t.typeName));
    var b2 := Block(t.Icon(), "@=" + RegString(icon));
    var b3 := Block(t.Command(), "@=" + RegString(command));
    DefaultBlockIsRead(t.Command(), command, rest, None);
    DefaultBlockIsRead(t.Icon(), icon, b3 + rest, None);
    DefaultBlockIsRead(t.Progid(), t.typeName, b2 + (b3 + rest), open);
    ThreeBlocks(b1, b2, b3, rest);
    ThreeAfter([Open(t.Progid()), Put(t.Progid(), "", t.typeName)], [Open(t.Icon()), Put(t.Icon(), "", icon)],
      [Open(t.Command()), Put(t.Command(), "", command)], Compile(rest, None));
    assert ProgidChanges(t) == [Open(t.Progid()), Put(t.Progid(), "", t.typeName)] + [Open(t.Icon()), Put(t.Icon(), "", icon)]
      + [Open(t.Command()), Put(t.Command(), "", command)];
  }

  lemma ThreeAfter(a: seq<Change>, b: seq<Change>, c: seq<Change>, rest: Option<seq<Change>>)
    ensures After(a, After(b, After(c, rest))) == After(a + b + c, rest)
  {
    AfterBoth(b, c, rest);
    AfterBoth(a, b + c, rest);
    assert a + (b + c) == a + b + c;
  }

  lemma ValueBlockIsRead(key: string, name: string, keep: bool, rest: seq<string>, open: Option<string>)
    requires key != "" && key[0] != '-' && Starts(rest)
    ensures var block := Block(key, RegString(name) + if keep then KEEP else TAKE);
            Starts(block + rest) && Compile(block + rest, open) == After([Open(key), PutOrTake(key, name, keep)], Compile(rest, None))
  {
    var mark := if keep then KEEP else TAKE;
    ValueLineIsRead(name, mark);
    MarksAreRead(name);
    BlockIsRead(key, RegString(name) + mark, rest, open, PutOrTake(key, name, keep));
  }

  lemma {:induction false} OpenWithIsRead(t: Target, kinds: seq<string>, keep: bool, rest: seq<string>, open: Option<string>)
    requires t.Sound() && Starts(rest)
    ensures var lines := OpenWithLines(t, kinds, if keep then KEEP else TAKE) + rest;
            Starts(lines) && Compile(lines, open) == After(OpenWithChanges(t, kinds, keep), Compile(rest, None))
  {
    var mark := if keep then KEEP else TAKE;
    if kinds == [] {
      AfterBoth([], [], Compile(rest, None));
      assert OpenWithLines(t, kinds, mark) + rest == rest;
    } else {
      var key := t.OpenWith(kinds[0]);
      var block, later := Block(key, RegString(t.progid) + mark), OpenWithLines(t, kinds[1..], mark);
      KeysAreKeys(t);
      OpenWithIsRead(t, kinds[1..], keep, rest, None);
      ValueBlockIsRead(key, t.progid, keep, later + rest, open);
      ConcatAssociates(block, later, rest);
      AfterBoth([Open(key), PutOrTake(key, t.progid, keep)], OpenWithChanges(t, kinds[1..], keep), Compile(rest, None));
    }
  }

  lemma {:induction false} SupportedIsRead(t: Target, kinds: seq<string>, keep: bool, rest: seq<string>)
    ensures Compile(SupportedLines(kinds, if keep then KEEP else TAKE) + rest, Some(t.Supported()))
         == After(SupportedChanges(t, kinds, keep), Compile(rest, Some(t.Supported())))
  {
    var mark, open := if keep then KEEP else TAKE, Some(t.Supported());
    var lines := SupportedLines(kinds, mark);
    if kinds == [] {
      AfterBoth([], [], Compile(rest, open));
      assert lines + rest == rest;
    } else {
      var name := "." + kinds[0];
      var later := SupportedLines(kinds[1..], mark) + rest;
      ValueLineIsRead(name, mark);
      MarksAreRead(name);
      SupportedIsRead(t, kinds[1..], keep, rest);
      assert lines + rest == [RegString(name) + mark] + later;
      assert ([RegString(name) + mark] + later)[1..] == later;
      AfterBoth(SupportedChanges(t, kinds, keep), [], Compile(rest, open));
      assert SupportedChanges(t, kinds, keep)[1..] == SupportedChanges(t, kinds[1..], keep);
    }
  }

  /** A heading whose values follow, up to a blank line. */
  lemma SectionIsRead(key: string, body: seq<string>, rest: seq<string>, cs: seq<Change>)
    requires key != "" && key[0] != '-' && Starts(rest)
    requires Compile(body + ([""] + rest), Some(key)) == After(cs, Compile([""] + rest, Some(key)))
    ensures var lines := [Heading(key)] + (body + [""]) + rest;
            Starts(lines) && Compile(lines, None) == After([Open(key)] + cs, Compile(rest, None))
  {
    HeadingIsRead(key);
    var end := [""] + rest;
    assert end[1..] == rest && ReadLine("") == Blank;
    assert Compile(end, Some(key)) == Compile(rest, None);
    var lines := [Heading(key)] + (body + [""]) + rest;
    assert lines == [Heading(key)] + (body + end) && lines[1..] == body + end;
    AfterBoth([Open(key)] + cs, [], Compile(rest, None));
    assert ([Open(key)] + cs)[1..] == cs;
  }

  lemma SupportedBlockIsRead(t: Target, add: seq<string>, drop: seq<string>, rest: seq<string>)
    requires t.Sound() && Starts(rest)
    ensures Starts(SupportedBlock(t, add, drop) + rest)
    ensures Compile(SupportedBlock(t, add, drop) + rest, None) == After(SupportedPart(t, add, drop), Compile(rest, None))
  {
    if add == [] && drop == [] {
      AfterBoth([], [], Compile(rest, None));
      ConcatAssociates([], [], rest);
      assert [] + rest == rest;
    } else {
      var a, d, end := SupportedLines(add, KEEP), SupportedLines(drop, TAKE), [""] + rest;
      KeysAreKeys(t);
      SupportedIsRead(t, drop, false, end);
      SupportedIsRead(t, add, true, d + end);
      AfterBoth(SupportedChanges(t, add, true), SupportedChanges(t, drop, false), Compile(end, Some(t.Supported())));
      ConcatAssociates(a, d, end);
      SectionIsRead(t.Supported(), a + d, rest, SupportedChanges(t, add, true) + SupportedChanges(t, drop, false));
      ConcatAssociates(a, d, [""]);
    }
  }

  lemma EraseBlockIsRead(t: Target, add: seq<string>)
    requires t.Sound()
    ensures Starts(EraseBlock(t, add)) && Compile(EraseBlock(t, add), None) == Some(ErasePart(t, add))
  {
    if add == [] {
      KeysAreKeys(t);
      HeadingIsRead(t.Progid());
      assert EraseBlock(t, add)[1..] == [""] && [""][1..] == [];
      assert Compile([""], None) == Some([]);
      assert [Erase(t.Progid())] + [] == [Erase(t.Progid())];
    }
  }

  /** The lines after the header, read back, are the changes they were written for. */
  lemma BodyIsRead(t: Target, add: seq<string>, drop: seq<string>)
    requires t.Sound()
    ensures Compile(Body(t, add, drop), None) == Some(Changes(t, add, drop))
  {
    var e, s := EraseBlock(t, add), SupportedBlock(t, add, drop);
    var d := OpenWithLines(t, drop, TAKE) + (s + e);
    var a := OpenWithLines(t, add, KEEP) + d;
    EraseBlockIsRead(t, add);
    SupportedBlockIsRead(t, add, drop, e);
    OpenWithIsRead(t, drop, false, s + e, None);
    OpenWithIsRead(t, add, true, d, None);
    if add != [] {
      ProgidIsRead(t, a, None);
    } else {
      EmptyFirst(a);
      EmptyFirst(Compile(a, None).value);
    }
  }

  lemma EmptyFirst<T>(s: seq<T>)
    ensures [] + s == s
  {
  }

  // ── its lines in the file ────────────────────────────────────────────

  lemma {:induction false} CrLfIsRead(lines: seq<string>)
    requires lines != [] && forall i :: 0 <= i < |lines| ==> '\n' !in lines[i]
    requires lines[|lines| - 1] == ""
    ensures Stripped(Split(CrLf(lines), '\n')) == lines
  {
    if |lines| == 1 {
      assert Split("", '\n') == [""];
    } else {
      var first := lines[0] + "\r";
      CrLfIsRead(lines[1..]);
      assert CrLf(lines) == first + ['\n'] + CrLf(lines[1..]);
      SplitAt(first, '\n', CrLf(lines[1..]));
      SplitWhole(first, '\n');
      var rest := Split(CrLf(lines[1..]), '\n');
      assert Stripped([first] + rest) == [WithoutReturn(first)] + Stripped(rest);
      assert first[..|first| - 1] == lines[0];
    }
  }

  lemma {:induction false} EscapeRegHas(s: string, x: char)
    requires x != '\\'
    ensures x in EscapeReg(s) <==> x in s
  {
    if s != "" {
      EscapeRegHas(s[1..], x);
      assert s == [s[0]] + s[1..];
    }
  }

  ghost predicate Clean(lines: seq<string>) {
    forall i :: 0 <= i < |lines| ==> '\n' !in lines[i]
  }

  lemma {:induction false} OpenWithLinesAreClean(t: Target, kinds: seq<string>, data: string)
    requires t.OneLine() && Clean(kinds) && '\n' !in data
    ensures Clean(OpenWithLines(t, kinds, data))
  {
    if kinds != [] {
      EscapeRegHas(t.progid, '\n');
      OpenWithLinesAreClean(t, kinds[1..], data);
      assert Clean(Block(t.OpenWith(kinds[0]), RegString(t.progid) + data));
    }
  }

  lemma {:induction false} SupportedLinesAreClean(kinds: seq<string>, data: string)
    requires Clean(kinds) && '\n' !in data
    ensures Clean(SupportedLines(kinds, data))
  {
    if kinds != [] {
      EscapeRegHas("." + kinds[0], '\n');
      SupportedLinesAreClean(kinds[1..], data);
    }
  }

  lemma DefaultIsClean(key: string, data: string)
    requires '\n' !in key && '\n' !in data
    ensures Clean(Block(key, "@=" + RegString(data)))
  {
    EscapeRegHas(data, '\n');
  }

  lemma ProgidLinesAreClean(t: Target)
    requires t.OneLine()
    ensures Clean(ProgidLines(t))
  {
    var icon, command := t.exe + ",0", "\"" + t.exe + "\" \"%1\"";
    DefaultIsClean(t.Progid(), t.typeName);
    DefaultIsClean(t.Icon(), icon);
    DefaultIsClean(t.Command(), command);
    CleanBoth(Block(t.Icon(), "@=" + RegString(icon)), Block(t.Command(), "@=" + RegString(command)));
    CleanBoth(Block(t.Progid(), "@=" + RegString(t.typeName)), Block(t.Icon(), "@=" + RegString(icon)) + Block(t.Command(), "@=" + RegString(command)));
  }

  lemma CleanBoth(a: seq<string>, b: seq<string>)
    requires Clean(a) && Clean(b)
    ensures Clean(a + b)
  {
  }

  lemma SupportedBlockIsClean(t: Target, add: seq<string>, drop: seq<string>)
    requires t.OneLine() && Clean(add) && Clean(drop)
    ensures Clean(SupportedBlock(t, add, drop))
  {
    var a, d := SupportedLines(add, KEEP), SupportedLines(drop, TAKE);
    SupportedLinesAreClean(add, KEEP);
    SupportedLinesAreClean(drop, TAKE);
    CleanBoth(d, [""]);
    CleanBoth(a, d + [""]);
    CleanBoth([Heading(t.Supported())], a + (d + [""]));
  }

  lemma LinesAreClean(t: Target, add: seq<string>, drop: seq<string>)
    requires t.OneLine() && Clean(add) && Clean(drop)
    ensures Clean(Lines(t, add, drop))
  {
    var e, s := EraseBlock(t, add), SupportedBlock(t, add, drop);
    var a, d := OpenWithLines(t, add, KEEP), OpenWithLines(t, drop, TAKE);
    SupportedBlockIsClean(t, add, drop);
    CleanBoth(s, e);
    OpenWithLinesAreClean(t, add, KEEP);
    OpenWithLinesAreClean(t, drop, TAKE);
    CleanBoth(d, s + e);
    CleanBoth(a, d + (s + e));
    ProgidLinesAreClean(t);
    CleanBoth(ProgidBlock(t, add), a + (d + (s + e)));
    CleanBoth([""], Body(t, add, drop));
    CleanBoth([HEADER], [""] + Body(t, add, drop));
  }

  lemma LinesEndBlank(t: Target, add: seq<string>, drop: seq<string>)
    ensures Lines(t, add, drop)[|Lines(t, add, drop)| - 1] == ""
  {
    var body := Body(t, add, drop);
    if add == [] {
      assert body[|body| - 1] == "" by { var e := EraseBlock(t, add); assert e[|e| - 1] == ""; }
    } else {
      var s := SupportedBlock(t, add, drop);
      assert EraseBlock(t, add) == [] && s[|s| - 1] == "";
      assert body[|body| - 1] == "";
    }
  }

  /** The document is read as the changes it was written for. */
  lemma DocumentIsRead(t: Target, add: seq<string>, drop: seq<string>)
    requires t.Sound() && t.OneLine() && Clean(add) && Clean(drop)
    ensures ReadDocument(CrLf(Lines(t, add, drop))) == Some(Changes(t, add, drop))
  {
    var lines := Lines(t, add, drop);
    LinesAreClean(t, add, drop);
    LinesEndBlank(t, add, drop);
    CrLfIsRead(lines);
    assert lines[1..] == [""] + Body(t, add, drop);
    BlankIsPassed(Body(t, add, drop));
    BodyIsRead(t, add, drop);
  }

  lemma BlankIsPassed(lines: seq<string>)
    ensures Compile([""] + lines, None) == Compile(lines, None)
  {
    assert ([""] + lines)[1..] == lines && ReadLine("") == Blank;
  }

  // ── what the changes say ─────────────────────────────────────────────

  lemma {:induction false} SaysOfBoth(a: seq<Change>, b: seq<Change>, key: string, name: string)
    ensures SaysOfValue(a + b, key, name) == if SaysOfValue(b, key, name).Some? then SaysOfValue(b, key, name) else SaysOfValue(a, key, name)
    ensures SaysOfKey(a + b, key) == if SaysOfKey(b, key).Some? then SaysOfKey(b, key) else SaysOfKey(a, key)
  {
    if b == [] {
      assert a + b == a;
    } else {
      assert (a + b)[..|a + b| - 1] == a + b[..|b| - 1];
      SaysOfBoth(a, b[..|b| - 1], key, name);
    }
  }

  lemma SaysOfOne(c: Change, key: string, name: string)
    ensures SaysOfValue([c], key, name) == match c {
      case Put(k, n, data) => if k == key && n == name then Some(Some(data)) else None
      case Take(k, n) => if k == key && n == name then Some(None) else None
      case Erase(top) => if Under(key, top) then Some(None) else None
      case Open(_) => None
    }
  {
    assert [c][..0] == [] && SaysOfValue([], key, name) == None;
  }

  function Say(keep: bool): Option<Option<string>> {
    Some(if keep then Some("") else None)
  }

  predicate IsClaim(t: Target, kinds: seq<string>, key: string, name: string) {
    name == t.progid && exists k :: k in kinds && key == t.OpenWith(k)
  }

  predicate IsSupport(t: Target, kinds: seq<string>, key: string, name: string) {
    key == t.Supported() && exists k :: k in kinds && name == "." + k
  }

  lemma {:induction false} OpenWithSays(t: Target, kinds: seq<string>, keep: bool, key: string, name: string)
    ensures SaysOfValue(OpenWithChanges(t, kinds, keep), key, name) == if IsClaim(t, kinds, key, name) then Say(keep) else None
  {
    if kinds != [] {
      var open, c := Open(t.OpenWith(kinds[0])), PutOrTake(t.OpenWith(kinds[0]), t.progid, keep);
      OpenWithSays(t, kinds[1..], keep, key, name);
      SaysOfBoth([open, c], OpenWithChanges(t, kinds[1..], keep), key, name);
      assert [open, c] == [open] + [c];
      SaysOfBoth([open], [c], key, name);
      SaysOfOne(open, key, name);
      SaysOfOne(c, key, name);
      assert forall k :: k in kinds <==> k == kinds[0] || k in kinds[1..];
    }
  }

  lemma {:induction false} SupportedSays(t: Target, kinds: seq<string>, keep: bool, key: string, name: string)
    ensures SaysOfValue(SupportedChanges(t, kinds, keep), key, name) == if IsSupport(t, kinds, key, name) then Say(keep) else None
  {
    if kinds != [] {
      var c := PutOrTake(t.Supported(), "." + kinds[0], keep);
      SupportedSays(t, kinds[1..], keep, key, name);
      SaysOfBoth([c], SupportedChanges(t, kinds[1..], keep), key, name);
      SaysOfOne(c, key, name);
      assert forall k :: k in kinds <==> k == kinds[0] || k in kinds[1..];
    }
  }

  lemma SupportedPartSays(t: Target, add: seq<string>, drop: seq<string>, key: string, name: string)
    requires forall k :: k in drop ==> k !in add
    ensures SaysOfValue(SupportedPart(t, add, drop), key, name)
         == if IsSupport(t, add, key, name) then Say(true) else if IsSupport(t, drop, key, name) then Say(false) else None
  {
    var a, d := SupportedChanges(t, add, true), SupportedChanges(t, drop, false);
    SupportedSays(t, add, true, key, name);
    SupportedSays(t, drop, false, key, name);
    SaysOfBoth(a, d, key, name);
    SaysOfBoth([Open(t.Supported())], a + d, key, name);
    SaysOfOne(Open(t.Supported()), key, name);
    forall j, k | j in add && k in drop ensures "." + j != "." + k {
      assert ("." + j)[1..] == j && ("." + k)[1..] == k;
    }
  }

  /** The three kinds of place are apart. */
  lemma PlacesAreApart(t: Target, j: string, k: string)
    requires t.Sound()
    ensures t.OpenWith(j) == t.OpenWith(k) ==> j == k
    ensures t.OpenWith(k) != t.Supported()
    ensures !Under(t.OpenWith(k), t.Progid()) && !Under(t.Supported(), t.Progid())
  {
    var n := |t.classes| + 1;
    assert t.OpenWith(k)[n] == '.' && t.Progid()[n] == t.progid[0] && t.Supported()[n] == 'A';
    var p, q := t.OpenWith(j), t.OpenWith(k);
    assert p[n + 1..|p| - 16] == j && q[n + 1..|q| - 16] == k;
  }

  lemma ProgidSays(t: Target, key: string, name: string)
    requires !Under(key, t.Progid())
    ensures SaysOfValue(ProgidChanges(t), key, name) == None
  {
    var p, i, c := t.Progid(), t.Icon(), t.Command();
    assert Under(p, p) && Under(i, p) && Under(c, p);
    var rest := [Open(c), Put(c, "", "\"" + t.exe + "\" \"%1\"")];
    var mid := [Open(i), Put(i, "", t.exe + ",0")];
    var top := [Open(p), Put(p, "", t.typeName)];
    PairSays(p, t.typeName, key, name);
    PairSays(i, t.exe + ",0", key, name);
    PairSays(c, "\"" + t.exe + "\" \"%1\"", key, name);
    SaysOfBoth(top, mid, key, name);
    SaysOfBoth(top + mid, rest, key, name);
    assert ProgidChanges(t) == top + mid + rest;
  }

  lemma PairSays(at: string, data: string, key: string, name: string)
    requires at != key
    ensures SaysOfValue([Open(at), Put(at, "", data)], key, name) == None
  {
    assert [Open(at), Put(at, "", data)] == [Open(at)] + [Put(at, "", data)];
    SaysOfBoth([Open(at)], [Put(at, "", data)], key, name);
    SaysOfOne(Open(at), key, name);
    SaysOfOne(Put(at, "", data), key, name);
  }

  /** Everything the document says of the values outside filex's own type. */
  lemma ChangesSay(t: Target, add: seq<string>, drop: seq<string>, key: string, name: string)
    requires t.Sound() && !Under(key, t.Progid()) && forall k :: k in drop ==> k !in add
    ensures SaysOfValue(Changes(t, add, drop), key, name)
         == if IsClaim(t, add, key, name) || IsSupport(t, add, key, name) then Say(true)
            else if IsClaim(t, drop, key, name) || IsSupport(t, drop, key, name) then Say(false)
            else None
  {
    var p, a, d := ProgidPart(t, add), OpenWithChanges(t, add, true), OpenWithChanges(t, drop, false);
    var s, e := SupportedPart(t, add, drop), ErasePart(t, add);
    ProgidSays(t, key, name);
    OpenWithSays(t, add, true, key, name);
    OpenWithSays(t, drop, false, key, name);
    SupportedPartSays(t, add, drop, key, name);
    SaysOfOne(Erase(t.Progid()), key, name);
    SaysOfBoth(s, e, key, name);
    SaysOfBoth(d, s + e, key, name);
    SaysOfBoth(a, d + (s + e), key, name);
    SaysOfBoth(p, a + (d + (s + e)), key, name);
    forall j, k | j in add && k in drop && key == t.OpenWith(j) ensures key != t.OpenWith(k) && key != t.Supported() {
      PlacesAreApart(t, j, k);
      PlacesAreApart(t, k, j);
    }
    forall k | key == t.OpenWith(k) ensures key != t.Supported() { PlacesAreApart(t, k, k); }
  }

  predicate NoErase(cs: seq<Change>) {
    forall i :: 0 <= i < |cs| ==> !cs[i].Erase?
  }

  lemma {:induction false} NoEraseKeeps(cs: seq<Change>, key: string)
    requires NoErase(cs)
    ensures SaysOfKey(cs, key).Some? ==> SaysOfKey(cs, key).value
    ensures (exists i :: 0 <= i < |cs| && cs[i] == Open(key)) ==> SaysOfKey(cs, key) == Some(true)
  {
    if cs != [] {
      NoEraseKeeps(cs[..|cs| - 1], key);
      assert key[..|key|] == key;
      if exists i :: 0 <= i < |cs| && cs[i] == Open(key) && i < |cs| - 1 {
        var i :| 0 <= i < |cs| && cs[i] == Open(key) && i < |cs| - 1;
        assert cs[..|cs| - 1][i] == Open(key);
      }
    }
  }

  lemma {:induction false} ClaimsEraseNothing(t: Target, kinds: seq<string>, keep: bool)
    ensures NoErase(OpenWithChanges(t, kinds, keep)) && NoErase(SupportedChanges(t, kinds, keep))
  {
    if kinds != [] { ClaimsEraseNothing(t, kinds[1..], keep); }
  }

  /** filex's own type is there exactly when a kind is. */
  lemma ProgidStands(t: Target, add: seq<string>, drop: seq<string>)
    ensures SaysOfKey(Changes(t, add, drop), t.Progid()) == Some(add != [])
  {
    var key := t.Progid();
    var p, a, d := ProgidPart(t, add), OpenWithChanges(t, add, true), OpenWithChanges(t, drop, false);
    var s, e := SupportedPart(t, add, drop), ErasePart(t, add);
    SaysOfBoth(s, e, key, "");
    SaysOfBoth(d, s + e, key, "");
    SaysOfBoth(a, d + (s + e), key, "");
    SaysOfBoth(p, a + (d + (s + e)), key, "");
    if add != [] {
      ClaimsEraseNothing(t, add, true);
      ClaimsEraseNothing(t, drop, false);
      NoEraseKeeps(a, key);
      NoEraseKeeps(d, key);
      SupportedErasesNothing(t, add, drop);
      NoEraseKeeps(s, key);
      ProgidOpens(t);
      assert e == [] && SaysOfKey(e, key) == None;
    }
  }

  lemma SupportedErasesNothing(t: Target, add: seq<string>, drop: seq<string>)
    ensures NoErase(SupportedPart(t, add, drop))
  {
    ClaimsEraseNothing(t, add, true);
    ClaimsEraseNothing(t, drop, false);
  }

  lemma ProgidOpens(t: Target)
    ensures SaysOfKey(ProgidChanges(t), t.Progid()) == Some(true)
  {
    assert ProgidChanges(t)[0] == Open(t.Progid());
    NoEraseKeeps(ProgidChanges(t), t.Progid());
  }

  // ── the theorems ─────────────────────────────────────────────────────

  /** Explorer's "Open with" offers filex for the kind; "Choose another app" does. */
  predicate IsOffered(r: Registry, t: Target, kind: string) {
    (t.OpenWith(kind), t.progid) in r.values
  }

  predicate IsListed(r: Registry, t: Target, kind: string) {
    (t.Supported(), "." + kind) in r.values
  }

  /** What windowsAssocReg asks of the kinds it writes. */
  ghost predicate AreKinds(add: seq<string>, drop: seq<string>) {
    Clean(add) && Clean(drop) && forall k :: k in drop ==> k !in add
  }

  lemma OneValue(t: Target, add: seq<string>, drop: seq<string>, r: Registry, key: string, name: string)
    requires t.Sound() && t.OneLine() && AreKinds(add, drop) && !Under(key, t.Progid())
    ensures var imported := Import(CrLf(Lines(t, add, drop)), r);
            && imported.Some?
            && ValueAt(imported.value, key, name)
            == if IsClaim(t, add, key, name) || IsSupport(t, add, key, name) then Some("")
               else if IsClaim(t, drop, key, name) || IsSupport(t, drop, key, name) then None
               else ValueAt(r, key, name)
  {
    DocumentIsRead(t, add, drop);
    ChangesSay(t, add, drop, key, name);
    ApplyAllIs(Changes(t, add, drop), r, key, name);
  }

  /** After the import a kind is offered and listed exactly when it was added, or was before and
      is not dropped: whatever the registry held. */
  lemma KindsAfterImport(t: Target, add: seq<string>, drop: seq<string>, r: Registry, kind: string)
    requires t.Sound() && t.OneLine() && AreKinds(add, drop)
    ensures var imported := Import(CrLf(Lines(t, add, drop)), r);
            && imported.Some?
            && (IsOffered(imported.value, t, kind) <==> kind in add || (IsOffered(r, t, kind) && kind !in drop))
            && (IsListed(imported.value, t, kind) <==> kind in add || (IsListed(r, t, kind) && kind !in drop))
  {
    OneValue(t, add, drop, r, t.OpenWith(kind), t.progid) by { PlacesAreApart(t, kind, kind); }
    OneValue(t, add, drop, r, t.Supported(), "." + kind) by { PlacesAreApart(t, kind, kind); }
    PlacesAreApart(t, kind, kind);
    forall k ensures t.OpenWith(k) == t.OpenWith(kind) ==> k == kind { PlacesAreApart(t, k, kind); }
    forall k ensures t.OpenWith(k) != t.Supported() { PlacesAreApart(t, k, k); }
    forall k: string ensures "." + k == "." + kind ==> k == kind { assert ("." + k)[1..] == k; }
  }

  /** When filex's kinds there lie within the two lists, exactly the added ones are left, in both
      places. */
  lemma ExactlyTheAddedAreLeft(t: Target, add: seq<string>, drop: seq<string>, r: Registry)
    requires t.Sound() && t.OneLine() && AreKinds(add, drop)
    requires forall k :: IsOffered(r, t, k) || IsListed(r, t, k) ==> k in add || k in drop
    ensures var imported := Import(CrLf(Lines(t, add, drop)), r);
            && imported.Some?
            && (forall k :: IsOffered(imported.value, t, k) <==> k in add)
            && (forall k :: IsListed(imported.value, t, k) <==> k in add)
  {
    var imported := Import(CrLf(Lines(t, add, drop)), r);
    KindsAfterImport(t, add, drop, r, "");
    forall k ensures (IsOffered(imported.value, t, k) <==> k in add) && (IsListed(imported.value, t, k) <==> k in add) {
      KindsAfterImport(t, add, drop, r, k);
    }
  }

  /** No kind is left offered by a type that is not there, exactly when a kind was added or every
      kind that was offered is dropped. */
  lemma NothingDangles(t: Target, add: seq<string>, drop: seq<string>, r: Registry)
    requires t.Sound() && t.OneLine() && AreKinds(add, drop)
    ensures var imported := Import(CrLf(Lines(t, add, drop)), r);
            && imported.Some?
            && ((forall k :: IsOffered(imported.value, t, k) ==> t.Progid() in imported.value.keys)
                <==> add != [] || forall k :: IsOffered(r, t, k) ==> k in drop)
  {
    var imported := Import(CrLf(Lines(t, add, drop)), r);
    DocumentIsRead(t, add, drop);
    ProgidStands(t, add, drop);
    ApplyAllIs(Changes(t, add, drop), r, t.Progid(), "");
    forall k ensures IsOffered(imported.value, t, k) <==> k in add || (IsOffered(r, t, k) && k !in drop) {
      KindsAfterImport(t, add, drop, r, k);
    }
  }

  /** filex's own type after an import that adds a kind: its name, its icon, and the verb that
      hands one document to the program, both in quotes. */
  lemma TypeAfterImport(t: Target, add: seq<string>, drop: seq<string>, r: Registry)
    requires t.Sound() && t.OneLine() && AreKinds(add, drop) && add != []
    ensures var imported := Import(CrLf(Lines(t, add, drop)), r);
            && imported.Some?
            && ValueAt(imported.value, t.Progid(), "") == Some(t.typeName)
            && ValueAt(imported.value, t.Icon(), "") == Some(t.exe + ",0")
            && ValueAt(imported.value, t.Command(), "") == Some("\"" + t.exe + "\" \"%1\"")
  {
    DocumentIsRead(t, add, drop);
    TypeSays(t);
    assert Under(t.Progid(), t.Progid()) && Under(t.Icon(), t.Progid()) && Under(t.Command(), t.Progid());
    OnlyTheTypeSays(t, add, drop, t.Progid(), "");
    OnlyTheTypeSays(t, add, drop, t.Icon(), "");
    OnlyTheTypeSays(t, add, drop, t.Command(), "");
    ApplyAllIs(Changes(t, add, drop), r, t.Progid(), "");
    ApplyAllIs(Changes(t, add, drop), r, t.Icon(), "");
    ApplyAllIs(Changes(t, add, drop), r, t.Command(), "");
  }

  lemma OnlyTheTypeSays(t: Target, add: seq<string>, drop: seq<string>, key: string, name: string)
    requires t.Sound() && Under(key, t.Progid()) && add != [] && forall k :: k in drop ==> k !in add
    ensures SaysOfValue(Changes(t, add, drop), key, name) == SaysOfValue(ProgidChanges(t), key, name)
  {
    var p, a, d := ProgidPart(t, add), OpenWithChanges(t, add, true), OpenWithChanges(t, drop, false);
    var s, e := SupportedPart(t, add, drop), ErasePart(t, add);
    forall k ensures key != t.OpenWith(k) && key != t.Supported() { PlacesAreApart(t, k, k); }
    OpenWithSays(t, add, true, key, name);
    OpenWithSays(t, drop, false, key, name);
    SupportedPartSays(t, add, drop, key, name);
    PlacesAreApart(t, "", "");
    SaysOfBoth(s, e, key, name);
    SaysOfBoth(d, s + e, key, name);
    SaysOfBoth(a, d + (s + e), key, name);
    SaysOfBoth(p, a + (d + (s + e)), key, name);
  }

  lemma TypeSays(t: Target)
    ensures SaysOfValue(ProgidChanges(t), t.Progid(), "") == Some(Some(t.typeName))
    ensures SaysOfValue(ProgidChanges(t), t.Icon(), "") == Some(Some(t.exe + ",0"))
    ensures SaysOfValue(ProgidChanges(t), t.Command(), "") == Some(Some("\"" + t.exe + "\" \"%1\""))
  {
    var icon, command := t.exe + ",0", "\"" + t.exe + "\" \"%1\"";
    var p, i, c := t.Progid(), t.Icon(), t.Command();
    assert |i| != |c| && |p| < |i| && |p| < |c|;
    var top, mid, rest := [Open(p), Put(p, "", t.typeName)], [Open(i), Put(i, "", icon)], [Open(c), Put(c, "", command)];
    assert ProgidChanges(t) == top + mid + rest;
    forall key ensures SaysOfValue(ProgidChanges(t), key, "")
      == if key == c then Some(Some(command)) else if key == i then Some(Some(icon)) else if key == p then Some(Some(t.typeName)) else None
    {
      ThreePairsSay(p, t.typeName, i, icon, c, command, key);
    }
  }

  lemma ThreePairsSay(p: string, x: string, i: string, y: string, c: string, z: string, key: string)
    ensures SaysOfValue([Open(p), Put(p, "", x)] + [Open(i), Put(i, "", y)] + [Open(c), Put(c, "", z)], key, "")
         == if key == c then Some(Some(z)) else if key == i then Some(Some(y)) else if key == p then Some(Some(x)) else None
  {
    var top, mid, rest := [Open(p), Put(p, "", x)], [Open(i), Put(i, "", y)], [Open(c), Put(c, "", z)];
    SaysOfBoth(top, mid, key, "");
    SaysOfBoth(top + mid, rest, key, "");
    OnePairSays(p, x, key);
    OnePairSays(i, y, key);
    OnePairSays(c, z, key);
  }

  lemma OnePairSays(at: string, data: string, key: string)
    ensures SaysOfValue([Open(at), Put(at, "", data)], key, "") == if key == at then Some(Some(data)) else None
  {
    assert [Open(at), Put(at, "", data)] == [Open(at)] + [Put(at, "", data)];
    SaysOfBoth([Open(at)], [Put(at, "", data)], key, "");
    SaysOfOne(Open(at), key, "");
    SaysOfOne(Put(at, "", data), key, "");
  }

  /** No other value outside filex's own type is touched. */
  lemma OthersStay(t: Target, add: seq<string>, drop: seq<string>, r: Registry, key: string, name: string)
    requires t.Sound() && t.OneLine() && AreKinds(add, drop) && !Under(key, t.Progid())
    requires forall k :: k in add || k in drop ==> (key, name) != (t.OpenWith(k), t.progid) && (key, name) != (t.Supported(), "." + k)
    ensures var imported := Import(CrLf(Lines(t, add, drop)), r);
            imported.Some? && ValueAt(imported.value, key, name) == ValueAt(r, key, name)
  {
    OneValue(t, add, drop, r, key, name);
  }

  // ── the writer ───────────────────────────────────────────────────────

  predicate IsNameCharacter(c: char) {
    'A' <= c <= 'Z' || 'a' <= c <= 'z' || '0' <= c <= '9' || c == '.' || c == '_' || c == ' ' || c == '-'
  }

  predicate IsExeName(s: string) {
    && 5 <= |s| <= 68
    && (forall i :: 0 <= i < |s| - 4 ==> IsNameCharacter(s[i]))
    && s[|s| - 4] == '.' && (s[|s| - 3] == 'e' || s[|s| - 3] == 'E')
    && (s[|s| - 2] == 'x' || s[|s| - 2] == 'X') && (s[|s| - 1] == 'e' || s[|s| - 1] == 'E')
  }

  const CLASSES: string := "HKEY_CURRENT_USER\\Software\\Classes"
  const WIN_APP_PROGID: string := "filex.AppDocument"

  /** The document for these kinds, or None for a program name that is none. Its changes are
      those of the one-part kinds, the added ones not dropped. */
  method WindowsAssocReg(exe: string, exeName: string, add: seq<string>, drop: seq<string>, typeName: string, lower: string -> string)
    returns (text: Option<string>)
    ensures text.Some? <==> IsExeName(exeName)
    ensures var t := Target(CLASSES, WIN_APP_PROGID, exe, exeName, typeName);
            var a, d := WindowsKinds(add, lower), Dropped(WindowsKinds(add, lower), WindowsKinds(drop, lower));
            && t.Sound() && AreKinds(a, d)
            && (text.Some? ==> text.value == CrLf(Lines(t, a, d)))
            && (text.Some? && '\n' !in exe && '\n' !in typeName ==> t.OneLine())
  {
    var t := Target(CLASSES, WIN_APP_PROGID, exe, exeName, typeName);
    var a := WindowsKinds(add, lower);
    var d := Dropped(a, WindowsKinds(drop, lower));
    KindsAreClean(a);
    KindsAreClean(d);
    OwnNamesAreSound(t);
    if !IsExeName(exeName) { return None; }
    var lines := WriteLines(t, a, d);
    text := Some(CrLf(lines));
  }

  lemma OwnNamesAreSound(t: Target)
    requires t.classes == CLASSES && t.progid == WIN_APP_PROGID
    ensures t.Sound()
    ensures IsExeName(t.exeName) && '\n' !in t.exe && '\n' !in t.typeName ==> t.OneLine()
  {
    OwnNamesAreOneLine(t.classes, t.progid);
    if IsExeName(t.exeName) { ExeNameIsOneLine(t.exeName); }
  }

  lemma OwnNamesAreOneLine(classes: string, progid: string)
    requires classes == CLASSES && progid == WIN_APP_PROGID
    ensures '\n' !in classes && classes != "" && classes[0] != '-'
    ensures '\n' !in progid && progid != "" && progid[0] != '.' && progid[0] != 'A'
  {
  }

  lemma ExeNameIsOneLine(name: string)
    requires IsExeName(name)
    ensures '\n' !in name
  {
  }

  method WriteLines(t: Target, add: seq<string>, drop: seq<string>) returns (lines: seq<string>)
    ensures lines == Lines(t, add, drop)
  {
    lines := [HEADER, ""];
    if add != [] { lines := lines + ProgidLines(t); }
    var claims := WriteOpenWith(t, add, KEEP);
    lines := lines + claims;
    var releases := WriteOpenWith(t, drop, TAKE);
    lines := lines + releases;
    if add != [] || drop != [] {
      var listed := WriteSupported(add, KEEP);
      var unlisted := WriteSupported(drop, TAKE);
      lines := lines + ([Heading(t.Supported())] + (listed + (unlisted + [""])));
    }
    if add == [] { lines := lines + [Heading("-" + t.Progid()), ""]; }
    LinesInParts(ProgidBlock(t, add), claims, releases, SupportedBlock(t, add, drop), EraseBlock(t, add));
  }

  lemma LinesInParts(p: seq<string>, a: seq<string>, d: seq<string>, s: seq<string>, e: seq<string>)
    ensures [HEADER, ""] + p + a + d + s + e == [HEADER] + ([""] + (p + (a + (d + (s + e)))))
    ensures [HEADER, ""] + [] == [HEADER, ""]
    ensures [HEADER, ""] + p + a + d + s + [] == [HEADER, ""] + p + a + d + s
    ensures [HEADER, ""] + p + a + d + [] == [HEADER, ""] + p + a + d
  {
  }

  method WriteOpenWith(t: Target, kinds: seq<string>, data: string) returns (lines: seq<string>)
    ensures lines == OpenWithLines(t, kinds, data)
  {
    lines := [];
    for i := 0 to |kinds|
      invariant lines + OpenWithLines(t, kinds[i..], data) == OpenWithLines(t, kinds, data)
    {
      var block := Block(t.OpenWith(kinds[i]), RegString(t.progid) + data);
      assert kinds[i..][1..] == kinds[i + 1..];
      ConcatAssociates(lines, block, OpenWithLines(t, kinds[i + 1..], data));
      lines := lines + block;
    }
  }

  method WriteSupported(kinds: seq<string>, data: string) returns (lines: seq<string>)
    ensures lines == SupportedLines(kinds, data)
  {
    lines := [];
    for i := 0 to |kinds|
      invariant lines + SupportedLines(kinds[i..], data) == SupportedLines(kinds, data)
    {
      var line := RegString("." + kinds[i]) + data;
      assert kinds[i..][1..] == kinds[i + 1..];
      ConcatAssociates(lines, [line], SupportedLines(kinds[i + 1..], data));
      lines := lines + [line];
    }
  }

  lemma KindsAreClean(kinds: seq<string>)
    requires forall k :: k in kinds ==> IsKind(k) && '.' !in k
    ensures Clean(kinds)
  {
    forall i | 0 <= i < |kinds| ensures '\n' !in kinds[i] {
      assert kinds[i] in kinds;
      SplitWhole(kinds[i], '.');
      assert Split(kinds[i], '.')[0] == kinds[i];
    }
  }
}
