/**
 * A drag that hands the desktop empty stand-ins and puts the real things in their place once
 * they were dropped (createPlaceholders and fulfilDrop, desktop/src/dragout.ts). Names with one
 * collision key are one file to the folder.
 */
module DropFulfilment {
  import opened LocalNames
  import opened UniqueNames

  datatype Item = Item(basename: string, isFolder: bool)

  /** What is called by a name in the folder: a stand-in, the whole of an item, some of a folder
      item, or something that is not of this drag. */
  datatype Standing = StandIn | Whole(item: nat) | Begun(item: nat) | Other(id: nat)

  /** What comes of one item: Stop was pressed before it, the stand-in cannot be removed, or a
      folder's download got as far as making the folder, how many documents land, and whether that
      is all of it. */
  datatype Step = Step(stopped: bool, stuck: bool, begun: bool, documents: nat, whole: bool) {
    predicate Lands() {
      !stopped && !stuck && whole
    }

    function Landed(folder: bool): nat {
      if !folder then (if whole then 1 else 0) else if begun || whole then documents else 0
    }
  }

  /** One report to the window. */
  datatype Report = Report(done: nat, total: nat, finished: bool, failed: bool, documents: nat)

  function Bases(items: seq<Item>): seq<string> {
    seq(|items|, i requires 0 <= i < |items| => items[i].basename)
  }

  function ItemNames(items: seq<Item>, key: Key, platform: Platform): (names: seq<string>)
    requires NumbersApart(key)
    ensures |names| == |items|
  {
    Names(Bases(items), {}, key, platform)
  }

  /** Counts never go back, and the one report that ends the work is the last. */
  ghost predicate Reported(reports: seq<Report>, total: nat) {
    && (forall i :: 0 <= i < |reports| ==> reports[i].total == total && reports[i].done <= total)
    && (forall i, j :: 0 <= i < j < |reports| ==>
          reports[i].done <= reports[j].done && reports[i].documents <= reports[j].documents && !reports[i].finished)
  }

  ghost predicate Ongoing(reports: seq<Report>, done: nat, total: nat, documents: nat) {
    Reported(reports, total) && forall i :: 0 <= i < |reports| ==>
      !reports[i].finished && reports[i].done <= done && reports[i].documents <= documents
  }

  lemma OneMoreReport(reports: seq<Report>, r: Report, done: nat, total: nat, documents: nat)
    requires Ongoing(reports, done, total, documents) && done <= r.done <= total && r.total == total && documents <= r.documents
    ensures Reported(reports + [r], total)
    ensures !r.finished ==> Ongoing(reports + [r], r.done, total, r.documents)
  {
  }

  // ── what the folder holds ────────────────────────────────────────────

  type Folder = map<string, Standing>

  /** The files the names stand for, as the folder tells them apart. */
  function KeysOf(names: seq<string>, key: Key): (keys: seq<string>)
    ensures |keys| == |names|
  {
    seq(|names|, i requires 0 <= i < |names| => key(names[i]))
  }

  ghost predicate OfTheirOwn(keys: seq<string>) {
    forall i, j :: 0 <= i < j < |keys| ==> keys[i] != keys[j]
  }

  predicate Unchanged(files: Folder, was: Folder, k: string) {
    (k in files <==> k in was) && (k in files ==> files[k] == was[k])
  }

  /** The first `n` items are whole; nothing else was touched. */
  ghost predicate Fulfilled(files: Folder, was: Folder, keys: seq<string>, n: nat)
    requires n <= |keys|
  {
    && (forall j :: 0 <= j < n ==> keys[j] in files && files[keys[j]] == Whole(j))
    && (forall k :: k !in keys[..n] ==> Unchanged(files, was, k))
  }

  /** What an item that did not land leaves under its name: the stand-in it was, when Stop was
      pressed before it or the stand-in could not be removed; else a folder that was begun, or
      nothing. A document's stand-in never stays. */
  predicate LeftBehind(files: Folder, was: Folder, k: string, i: nat, folder: bool, step: Step) {
    if step.stopped || step.stuck then Unchanged(files, was, k)
    else if folder && step.begun then k in files && files[k] == Begun(i)
    else k !in files
  }

  /** The first `n` items are whole. The next one, if there is one, did not land, and all that is
      left of it is what LeftBehind says. The stand-ins not reached, and all that is not of this
      drag, are as they were. */
  ghost predicate Ended(files: Folder, was: Folder, keys: seq<string>, items: seq<Item>, n: nat, step: Step)
    requires n <= |keys| == |items|
  {
    && (forall j :: 0 <= j < n ==> keys[j] in files && files[keys[j]] == Whole(j))
    && (n < |keys| ==> !step.Lands() && LeftBehind(files, was, keys[n], n, items[n].isFolder, step))
    && (forall k :: k !in keys[..n] && (n < |keys| ==> k != keys[n]) ==> Unchanged(files, was, k))
  }

  /** The first `n` steps land what they should. */
  ghost predicate AllLand(io: nat -> Step, n: nat) {
    forall j: nat :: j < n ==> io(j).Lands()
  }

  lemma LandsAll(files: Folder, was: Folder, keys: seq<string>, items: seq<Item>, step: Step)
    requires |keys| == |items| && Fulfilled(files, was, keys, |keys|)
    ensures Ended(files, was, keys, items, |items|, step)
  {
  }

  lemma LandsOne(files: Folder, was: Folder, keys: seq<string>, i: nat)
    requires i < |keys| && OfTheirOwn(keys) && Fulfilled(files, was, keys, i)
    ensures Fulfilled(files[keys[i] := Whole(i)], was, keys, i + 1)
  {
    assert keys[..i + 1] == keys[..i] + [keys[i]];
  }

  lemma FailsOne(files: Folder, now: Folder, was: Folder, keys: seq<string>, items: seq<Item>, i: nat, step: Step)
    requires i < |keys| == |items| && OfTheirOwn(keys) && Fulfilled(files, was, keys, i)
    requires forall k :: k != keys[i] ==> Unchanged(now, files, k)
    requires !step.Lands() && LeftBehind(now, files, keys[i], i, items[i].isFolder, step)
    ensures Ended(now, was, keys, items, i, step)
  {
    forall j | 0 <= j < i ensures keys[j] in now && now[keys[j]] == Whole(j) {
      assert Unchanged(now, files, keys[j]);
    }
    assert keys[i] !in keys[..i];
    assert Unchanged(files, was, keys[i]);
    forall k | k !in keys[..i] && k != keys[i] ensures Unchanged(now, was, k) {
      assert Unchanged(now, files, k) && Unchanged(files, was, k);
    }
  }

  function KeySet(keys: seq<string>, n: nat): set<string>
    requires n <= |keys|
  {
    if n == 0 then {} else KeySet(keys, n - 1) + {keys[n - 1]}
  }

  lemma {:induction false} KeySetIs(keys: seq<string>, n: nat, k: string)
    requires n <= |keys|
    ensures k in KeySet(keys, n) <==> exists j :: 0 <= j < n && keys[j] == k
  {
    if n > 0 {
      KeySetIs(keys, n - 1, k);
      if keys[n - 1] == k { assert 0 <= n - 1 < n; }
    }
  }

  /** A stand-in for each of the first `n`, and nothing else. */
  ghost predicate StandInsOnly(files: Folder, keys: seq<string>, n: nat)
    requires n <= |keys|
  {
    && files.Keys == KeySet(keys, n)
    && (forall k :: k in files ==> files[k] == StandIn)
    && |files| == n
  }

  lemma OneMoreStandIn(files: Folder, keys: seq<string>, i: nat)
    requires i < |keys| && OfTheirOwn(keys) && StandInsOnly(files, keys, i)
    ensures StandInsOnly(files[keys[i] := StandIn], keys, i + 1)
  {
    KeySetIs(keys, i, keys[i]);
    assert keys[i] !in files.Keys;
    var more := files[keys[i] := StandIn];
    assert more.Keys == files.Keys + {keys[i]};
  }

  lemma KeysAreApart(items: seq<Item>, names: seq<string>, key: Key, platform: Platform)
    requires NumbersApart(key) && names == ItemNames(items, key, platform)
    ensures OfTheirOwn(KeysOf(names, key))
  {
    NamesAreApart(Bases(items), key, platform);
    var keys := KeysOf(names, key);
    forall i, j | 0 <= i < j < |keys| ensures keys[i] != keys[j] {
      assert key(names[i]) != key(names[j]);
    }
  }

  lemma OneMoreItem(reports: seq<Report>, done: nat, total: nat, documents: nat)
    requires Ongoing(reports, done, total, documents)
    ensures Ongoing(reports, done + 1, total, documents)
  {
  }

  class DropFolder {
    const key: Key
    const platform: Platform
    /** What the folder holds, by collision key. */
    var files: map<string, Standing>
    var reports: seq<Report>

    constructor (key: Key, platform: Platform, files: map<string, Standing>)
      ensures this.key == key && this.platform == platform && this.files == files && reports == []
    {
      this.key, this.platform, this.files, reports := key, platform, files, [];
    }

    /** One stand-in an item, side by side in a folder of their own: as many as there are items. */
    method CreatePlaceholders(items: seq<Item>) returns (names: seq<string>)
      requires NumbersApart(key) && files == map[]
      modifies this`files
      ensures names == ItemNames(items, key, platform)
      ensures StandInsOnly(files, KeysOf(names, key), |items|)
    {
      names := NamesInOneFolder(Bases(items), key, platform);
      KeysAreApart(items, names, key, platform);
      MakeStandIns(KeysOf(names, key));
    }

    method MakeStandIns(keys: seq<string>)
      requires OfTheirOwn(keys) && files == map[]
      modifies this`files
      ensures StandInsOnly(files, keys, |keys|)
    {
      for i := 0 to |keys|
        invariant StandInsOnly(files, keys, i)
      {
        OneMoreStandIn(files, keys, i);
        files := files[keys[i] := StandIn];
      }
    }

    method Say(done: nat, total: nat, finished: bool, failed: bool, documents: nat)
      modifies this`reports
      ensures reports == old(reports) + [Report(done, total, finished, failed, documents)]
    {
      reports := reports + [Report(done, total, finished, failed, documents)];
    }

    /**
     * The stand-ins in this folder become the items, one after another, until one fails or Stop
     * is pressed. What was written is whole and stays whole; the stand-ins not reached are left
     * alone, and so is everything that is not of this drag.
     */
    method FulfilDrop(items: seq<Item>, io: nat -> Step) returns (ok: bool, written: seq<string>)
      requires NumbersApart(key) && reports == []
      modifies this`files, this`reports
      ensures written <= ItemNames(items, key, platform) && (ok <==> |written| == |items|)
      ensures Ended(files, old(files), KeysOf(ItemNames(items, key, platform), key), items, |written|, io(|written|))
      ensures AllLand(io, |written|)
      ensures Reported(reports, |items|) && reports != []
      ensures var last := reports[|reports| - 1]; last.finished && last.done == |written| && (last.failed <==> !ok)
    {
      var names := NamesInOneFolder(Bases(items), key, platform);
      KeysAreApart(items, names, key, platform);
      ok, written := FulfilAll(items, names, io);
    }

    method FulfilAll(items: seq<Item>, names: seq<string>, io: nat -> Step) returns (ok: bool, written: seq<string>)
      requires |names| == |items| && OfTheirOwn(KeysOf(names, key)) && reports == []
      modifies this`files, this`reports
      ensures written <= names && (ok <==> |written| == |items|)
      ensures Ended(files, old(files), KeysOf(names, key), items, |written|, io(|written|))
      ensures AllLand(io, |written|)
      ensures Reported(reports, |items|) && reports != []
      ensures var last := reports[|reports| - 1]; last.finished && last.done == |written| && (last.failed <==> !ok)
    {
      written := [];
      var documents: nat := 0;
      ghost var keys := KeysOf(names, key);
      for i := 0 to |items|
        invariant written == names[..i] && AllLand(io, i)
        invariant Fulfilled(files, old(files), keys, i)
        invariant Ongoing(reports, i, |items|, documents)
      {
        var step := io(i);
        if step.stopped {
          FailsOne(files, files, old(files), keys, items, i, step);
          Finish(i, |items|, true, documents);
          return false, written;
        }
        var landed;
        landed, documents := FulfilNext(items, i, key(names[i]), step, documents, keys, old(files));
        if !landed {
          Finish(i, |items|, true, documents);
          return false, written;
        }
        written := written + [names[i]];
      }
      LandsAll(files, old(files), keys, items, io(|items|));
      Finish(|items|, |items|, false, documents);
      ok := true;
    }

    /** The next item, which is said first. */
    method FulfilNext(items: seq<Item>, i: nat, k: string, step: Step, before: nat, ghost keys: seq<string>, ghost was: Folder)
      returns (landed: bool, documents: nat)
      requires i < |items| == |keys| && keys[i] == k && OfTheirOwn(keys) && !step.stopped
      requires Fulfilled(files, was, keys, i) && Ongoing(reports, i, |items|, before)
      modifies this`files, this`reports
      ensures landed == step.Lands()
      ensures if landed then Fulfilled(files, was, keys, i + 1) else Ended(files, was, keys, items, i, step)
      ensures Ongoing(reports, if landed then i + 1 else i, |items|, documents)
    {
      OneMoreReport(reports, Report(i, |items|, false, false, before), i, |items|, before);
      Say(i, |items|, false, false, before);
      ghost var untouched := files;
      landed, documents := Fulfil(items[i], i, k, step, |items|, before);
      if landed {
        LandsOne(untouched, was, keys, i);
        OneMoreItem(reports, i, |items|, documents);
      } else {
        FailsOne(untouched, files, was, keys, items, i, step);
      }
    }

    /** The report that ends the work. */
    method Finish(done: nat, total: nat, failed: bool, documents: nat)
      requires done <= total && Ongoing(reports, done, total, documents)
      modifies this`reports
      ensures Reported(reports, total) && reports != []
      ensures var last := reports[|reports| - 1]; last.finished && last.done == done && last.failed == failed
    {
      OneMoreReport(reports, Report(done, total, true, failed, documents), done, total, documents);
      Say(done, total, true, failed, documents);
    }

    /** The stand-in goes first; then what comes down takes its place. */
    method Fulfil(item: Item, i: nat, k: string, step: Step, total: nat, before: nat) returns (landed: bool, documents: nat)
      requires i < total && Ongoing(reports, i, total, before) && !step.stopped
      modifies this`files, this`reports
      ensures Ongoing(reports, i, total, documents)
      ensures landed == step.Lands()
      ensures landed ==> files == old(files)[k := Whole(i)]
      ensures !landed ==> LeftBehind(files, old(files), k, i, item.isFolder, step) && forall j :: j != k ==> Unchanged(files, old(files), j)
    {
      if step.stuck { return false, before; }
      files := files - {k};
      documents := ReportDocuments(i, total, before, step.Landed(item.isFolder));
      landed := step.whole;
      if landed {
        files := files[k := Whole(i)];
        assert files == old(files)[k := Whole(i)];
      } else if item.isFolder && step.begun {
        files := files[k := Begun(i)];
      }
    }

    /** Each document that lands is said. */
    method ReportDocuments(done: nat, total: nat, before: nat, count: nat) returns (documents: nat)
      requires done <= total && Ongoing(reports, done, total, before)
      modifies this`reports
      ensures documents == before + count && Ongoing(reports, done, total, documents)
    {
      documents := before;
      while documents < before + count
        invariant before <= documents <= before + count
        invariant Ongoing(reports, done, total, documents)
      {
        documents := documents + 1;
        OneMoreReport(reports, Report(done, total, false, false, documents), done, total, documents - 1);
        Say(done, total, false, false, documents);
      }
    }
  }
}
