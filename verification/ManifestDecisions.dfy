/**
 * The decisions a person made in one manifest, carried into the ones built after it
 * (inherit, and the loop of main that calls it, scripts/gen-update-manifest.py).
 */
module ManifestDecisions {
  import opened Content

  /** A release of the manifest; a field may be missing. */
  datatype Record = Record(
    version: string, autoOk: Option<bool>, migrations: Option<bool>, severity: Option<string>,
    minVersion: Option<string>, notes: Option<string>)

  type Manifest = map<string, Record>

  /** Python's str.isspace. */
  predicate IsSpace(c: char) {
    || '\t' <= c <= '\r' || '\U{001C}' <= c <= ' ' || c == '\U{0085}' || c == '\U{00A0}' || c == '\U{1680}'
    || '\U{2000}' <= c <= '\U{200A}' || c == '\U{2028}' || c == '\U{2029}' || c == '\U{202F}' || c == '\U{205F}' || c == '\U{3000}'
  }

  function Strip(s: string): (r: string)
    ensures r != "" ==> !IsSpace(r[0]) && !IsSpace(r[|r| - 1])
    ensures s != "" && !IsSpace(s[0]) && !IsSpace(s[|s| - 1]) ==> r == s
  {
    if s == "" then ""
    else if IsSpace(s[0]) then Strip(s[1..])
    else if IsSpace(s[|s| - 1]) then Strip(s[..|s| - 1])
    else s
  }

  function WithoutV(tag: string): string {
    if tag != "" && tag[0] == 'v' then WithoutV(tag[1..]) else tag
  }

  /** str.lower of the whole text. */
  type Lower = string -> string

  predicate IsBareTitle(notes: string, tag: string, lower: Lower) {
    var n := lower(Strip(notes));
    n == lower("filex " + tag) || n == lower(tag) || n == lower(WithoutV(tag))
  }

  /** The notes say something of the release. */
  predicate Says(notes: Option<string>, tag: string, lower: Lower) {
    notes.Some? && Strip(notes.value) != "" && !IsBareTitle(notes.value, tag, lower)
  }

  function Text(s: Option<string>): string {
    if s.Some? then s.value else ""
  }

  function Inherited(e: Record, prev: Record, lower: Lower): Record {
    e.(autoOk := if prev.autoOk == Some(false) then Some(false) else e.autoOk,
       migrations := if prev.migrations == Some(true) then Some(true) else e.migrations,
       severity := if prev.severity == Some("security") then Some("security") else e.severity,
       minVersion := if Text(prev.minVersion) != "" && e.minVersion.None? then prev.minVersion else e.minVersion,
       notes := KeptNotes(e.notes, Strip(Text(prev.notes)), e.version, lower))
  }

  /** The previous notes, stripped, when they say something and the new ones do not. */
  function KeptNotes(notes: Option<string>, previous: string, tag: string, lower: Lower): Option<string> {
    if previous != "" && !IsBareTitle(previous, tag, lower) && (Text(notes) == "" || IsBareTitle(Text(notes), tag, lower))
    then Some(previous) else notes
  }

  /** What one run knows: the releases as GitHub lists them with what was asked for by name, the
      versions switched back on, and the hand-written summaries. */
  datatype Facts = Facts(listed: Manifest, auto: set<string>, highlights: map<string, string>)

  function Rebuilt(e: Record, prev: Option<Record>, auto: bool, highlight: string, lower: Lower): Record {
    var r := if prev.None? then e else Inherited(e, prev.value, lower);
    var on := if auto then r.(autoOk := Some(true)) else r;
    if (Text(on.notes) == "" || IsBareTitle(Text(on.notes), on.version, lower)) && highlight != "" then on.(notes := Some(highlight)) else on
  }

  function Run(f: Facts, previous: Manifest, lower: Lower): Manifest {
    map tag | tag in f.listed ::
      Rebuilt(f.listed[tag], if tag in previous then Some(previous[tag]) else None, tag in f.auto,
        if tag in f.highlights then f.highlights[tag] else "", lower)
  }

  /** One run after another, each from the manifest before it. */
  function Runs(runs: seq<Facts>, first: Manifest, lower: Lower): Manifest {
    if runs == [] then first else Run(runs[|runs| - 1], Runs(runs[..|runs| - 1], first, lower), lower)
  }

  /** A release stays listed, with what the script reads of it: its tag, and a first line that is
      empty or no blank. */
  ghost predicate StaysListed(runs: seq<Facts>, tag: string) {
    forall i :: 0 <= i < |runs| ==> IsListed(runs[i].listed, tag)
  }

  ghost predicate IsListed(listed: Manifest, tag: string) {
    tag in listed && listed[tag].version == tag && listed[tag].notes.Some? && (listed[tag].notes.value == "" || Strip(listed[tag].notes.value) != "")
  }

  // ── over any number of runs ──────────────────────────────────────────

  /** The first manifest (0) or a run (counted from 1) switched the release off, and no run from
      then on asked for it by name. */
  ghost predicate OffSince(runs: seq<Facts>, first: Manifest, tag: string, i: nat)
    requires tag in first && StaysListed(runs, tag)
  {
    && i <= |runs|
    && (if i == 0 then first[tag].autoOk == Some(false)
        else IsListed(runs[i - 1].listed, tag) && runs[i - 1].listed[tag].autoOk == Some(false))
    && forall j :: 0 <= j < |runs| && i - 1 <= j ==> tag !in runs[j].auto
  }

  ghost predicate SwitchedOff(runs: seq<Facts>, first: Manifest, tag: string)
    requires tag in first && StaysListed(runs, tag)
  {
    exists i: nat :: OffSince(runs, first, tag, i)
  }

  lemma SwitchedOffBefore(runs: seq<Facts>, first: Manifest, tag: string)
    requires tag in first && StaysListed(runs, tag) && runs != []
    requires StaysListed(runs[..|runs| - 1], tag) && IsListed(runs[|runs| - 1].listed, tag)
    ensures SwitchedOff(runs, first, tag) <==>
      tag !in runs[|runs| - 1].auto
      && (runs[|runs| - 1].listed[tag].autoOk == Some(false) || SwitchedOff(runs[..|runs| - 1], first, tag))
  {
    var before, last := runs[..|runs| - 1], runs[|runs| - 1];
    if i: nat :| OffSince(runs, first, tag, i) {
      assert runs[|runs| - 1] == last;
      if i < |runs| { OffSinceBefore(runs, before, last, first, tag, i); }
    }
    if tag !in last.auto {
      if last.listed[tag].autoOk == Some(false) { assert OffSince(runs, first, tag, |runs|); }
      if i: nat :| OffSince(before, first, tag, i) { OffSinceBefore(runs, before, last, first, tag, i); }
    }
  }

  lemma OffSinceBefore(runs: seq<Facts>, before: seq<Facts>, last: Facts, first: Manifest, tag: string, i: nat)
    requires tag in first && StaysListed(runs, tag) && StaysListed(before, tag) && runs == before + [last] && i <= |before|
    ensures OffSince(runs, first, tag, i) <==> tag !in last.auto && OffSince(before, first, tag, i)
  {
    assert runs[|before|] == last && forall j :: 0 <= j < |before| ==> runs[j] == before[j];
  }

  /** Automatic upgrades of a release are off exactly when they were switched off and it was not
      asked for by name since. */
  lemma {:induction false} OffUntilAskedFor(runs: seq<Facts>, first: Manifest, tag: string, lower: Lower)
    requires tag in first && StaysListed(runs, tag)
    ensures tag in Runs(runs, first, lower)
    ensures Runs(runs, first, lower)[tag].autoOk == Some(false) <==> SwitchedOff(runs, first, tag)
  {
    if runs == [] {
      assert first[tag].autoOk == Some(false) ==> OffSince(runs, first, tag, 0);
    } else {
      var before := runs[..|runs| - 1];
      assert StaysListed(before, tag) && IsListed(runs[|runs| - 1].listed, tag);
      OffUntilAskedFor(before, first, tag, lower);
      SwitchedOffBefore(runs, first, tag);
    }
  }

  /** A release is marked as changing the schema exactly when the first manifest or some run said
      so: nothing takes the mark away. */
  lemma {:induction false} MarksStay(runs: seq<Facts>, first: Manifest, tag: string, lower: Lower)
    requires tag in first && StaysListed(runs, tag)
    ensures tag in Runs(runs, first, lower)
    ensures Runs(runs, first, lower)[tag].migrations == Some(true)
       <==> first[tag].migrations == Some(true) || exists i :: 0 <= i < |runs| && Marks(runs[i], tag)
  {
    if runs != [] {
      var before, last := runs[..|runs| - 1], runs[|runs| - 1];
      assert StaysListed(before, tag) && IsListed(last.listed, tag);
      MarksStay(before, first, tag, lower);
      RebuiltMarks(last.listed[tag], Runs(before, first, lower)[tag], tag in last.auto,
        if tag in last.highlights then last.highlights[tag] else "", lower);
      assert runs == before + [last];
    }
  }

  /** A security release stays one, and no other becomes one. */
  lemma {:induction false} SecurityStays(runs: seq<Facts>, first: Manifest, tag: string, lower: Lower)
    requires tag in first && StaysListed(runs, tag)
    ensures tag in Runs(runs, first, lower)
    ensures Runs(runs, first, lower)[tag].severity == Some("security")
       <==> first[tag].severity == Some("security") || exists i :: 0 <= i < |runs| && IsSecurity(runs[i], tag)
  {
    if runs != [] {
      var before, last := runs[..|runs| - 1], runs[|runs| - 1];
      assert StaysListed(before, tag) && IsListed(last.listed, tag);
      SecurityStays(before, first, tag, lower);
      RebuiltMarks(last.listed[tag], Runs(before, first, lower)[tag], tag in last.auto,
        if tag in last.highlights then last.highlights[tag] else "", lower);
      assert runs == before + [last];
    }
  }

  lemma RebuiltMarks(e: Record, prev: Record, auto: bool, highlight: string, lower: Lower)
    ensures var r := Rebuilt(e, Some(prev), auto, highlight, lower);
            && (r.migrations == Some(true) <==> e.migrations == Some(true) || prev.migrations == Some(true))
            && (r.severity == Some("security") <==> e.severity == Some("security") || prev.severity == Some("security"))
  {
  }

  lemma RebuiltNotes(e: Record, prev: Record, auto: bool, highlight: string, lower: Lower)
    requires Says(prev.notes, e.version, lower)
    ensures var r := Rebuilt(e, Some(prev), auto, highlight, lower);
            if Text(e.notes) == "" || IsBareTitle(Text(e.notes), e.version, lower) then r.notes == Some(Strip(prev.notes.value))
            else r.notes == e.notes
  {
    StripTwice(prev.notes.value);
  }

  predicate Marks(f: Facts, tag: string) {
    tag in f.listed && f.listed[tag].migrations == Some(true)
  }

  predicate IsSecurity(f: Facts, tag: string) {
    tag in f.listed && f.listed[tag].severity == Some("security")
  }

  /** The least version to upgrade from stays until a run names another. */
  lemma {:induction false} MinVersionStays(runs: seq<Facts>, first: Manifest, tag: string, lower: Lower)
    requires tag in first && StaysListed(runs, tag) && Text(first[tag].minVersion) != ""
    requires forall i :: 0 <= i < |runs| ==> IsListed(runs[i].listed, tag) && runs[i].listed[tag].minVersion.None?
    ensures tag in Runs(runs, first, lower) && Runs(runs, first, lower)[tag].minVersion == first[tag].minVersion
  {
    if runs != [] {
      var before := runs[..|runs| - 1];
      assert StaysListed(before, tag) && IsListed(runs[|runs| - 1].listed, tag);
      MinVersionStays(before, first, tag, lower);
    }
  }

  lemma StripTwice(s: string)
    ensures Strip(Strip(s)) == Strip(s)
  {
  }

  /** Notes that say something are never replaced by ones that do not; and as long as every run
      has only the heading to offer, they stay the ones they were. */
  lemma {:induction false} NotesStay(runs: seq<Facts>, first: Manifest, tag: string, lower: Lower)
    requires tag in first && StaysListed(runs, tag) && Says(first[tag].notes, tag, lower)
    ensures tag in Runs(runs, first, lower) && Says(Runs(runs, first, lower)[tag].notes, tag, lower)
    ensures (forall f :: f in runs ==> OnlyTheHeading(f, tag, lower)) ==>
      Strip(Runs(runs, first, lower)[tag].notes.value) == Strip(first[tag].notes.value)
  {
    if runs != [] {
      var before, last := runs[..|runs| - 1], runs[|runs| - 1];
      assert StaysListed(before, tag) && IsListed(last.listed, tag) && last in runs;
      NotesStay(before, first, tag, lower);
      NotesStayOnce(last, Runs(before, first, lower), tag, lower);
    }
  }

  lemma NotesStayOnce(f: Facts, previous: Manifest, tag: string, lower: Lower)
    requires IsListed(f.listed, tag) && tag in previous && Says(previous[tag].notes, tag, lower)
    ensures Says(Run(f, previous, lower)[tag].notes, tag, lower)
    ensures OnlyTheHeading(f, tag, lower) ==> Strip(Run(f, previous, lower)[tag].notes.value) == Strip(previous[tag].notes.value)
  {
    StripTwice(previous[tag].notes.value);
    RebuiltNotes(f.listed[tag], previous[tag], tag in f.auto, if tag in f.highlights then f.highlights[tag] else "", lower);
  }

  predicate OnlyTheHeading(f: Facts, tag: string, lower: Lower) {
    tag in f.listed && (Text(f.listed[tag].notes) == "" || IsBareTitle(Text(f.listed[tag].notes), tag, lower))
  }

  // ── the dict that is changed in place ────────────────────────────────

  class Entry {
    const version: string
    var autoOk: Option<bool>
    var migrations: Option<bool>
    var severity: Option<string>
    var minVersion: Option<string>
    var notes: Option<string>

    constructor (r: Record)
      ensures Value() == r
    {
      version, autoOk, migrations := r.version, r.autoOk, r.migrations;
      severity, minVersion, notes := r.severity, r.minVersion, r.notes;
    }

    function Value(): Record
      reads this
    {
      Record(version, autoOk, migrations, severity, minVersion, notes)
    }

    method Inherit(prev: Option<Record>, lower: Lower)
      modifies this
      ensures Value() == if prev.None? then old(Value()) else Inherited(old(Value()), prev.value, lower)
    {
      if prev.None? { return; }
      if prev.value.autoOk == Some(false) { autoOk := Some(false); }
      if prev.value.migrations == Some(true) { migrations := Some(true); }
      if prev.value.severity == Some("security") { severity := Some("security"); }
      if Text(prev.value.minVersion) != "" && minVersion.None? { minVersion := prev.value.minVersion; }
      var previous := Strip(Text(prev.value.notes));
      if previous != "" && !IsBareTitle(previous, version, lower) {
        if Text(notes) == "" || IsBareTitle(Text(notes), version, lower) { notes := Some(previous); }
      }
    }

    /** What main makes of an entry: inherited, switched on when asked for by name, and given the
        summary when it still says nothing. */
    method Rebuild(prev: Option<Record>, auto: bool, highlight: string, lower: Lower)
      modifies this
      ensures Value() == Rebuilt(old(Value()), prev, auto, highlight, lower)
    {
      Inherit(prev, lower);
      if auto { autoOk := Some(true); }
      if Text(notes) == "" || IsBareTitle(Text(notes), version, lower) {
        if highlight != "" { notes := Some(highlight); }
      }
    }
  }
}
