# filex: the desktop client's promises, proved

This project models the parts of filex where a mistake loses or mixes up somebody's work, and
proves what they promise. It is written for Dafny 4.11; `dafny verify dfyconfig.toml` checks all
of it.

| File | What it models |
|---|---|
| `DocumentReader.dfy` | a local document read a part at a time and held to one version of it |
| `DocumentUpload.dfy` | the streamed multipart upload and the staged upload that read through it |
| `FileSystem.dfy` | the file system as the client meets it: any other program between any two steps |
| `LocalDrift.dfy` | "has it changed?": the timestamp fast path and the hash behind it |
| `WriteBack.dfy` | the atomic write-back over the document, and where the edit goes when it fails |
| `BesideNames.dfy`, `BesideSave.dfy` | saves that come back in another format, over a whole session, and the names they and their recovery files go by |
| `LocalDocMonitor.dfy` | the watch over the document: timer, look, own writes, poll |
| `RequestStream.dfy` | the body of a streamed answer: queue, wake-up, backpressure, discard |
| `LocalName.dfy`, `UniqueName.dfy` | server names made safe and kept apart on this computer |
| `DragOut.dfy`, `DropFulfilment.dfy` | a remote tree rebuilt here; the stand-ins of a drag replaced |
| `ReportThrottle.dfy`, `DragFills.dfy` | throttled progress reports, and the explorer's Stop |
| `DesktopEntry.dfy`, `MimeApps.dfy` | the `.desktop` entry as a desktop reads it; `mimeapps.list` retargeted |
| `AssocReg.dfy` | the `.reg` document and what importing it does to a registry |
| `Globs.dfy` | the media types a desktop gives an extension, read from `globs2` files |
| `UpdateManifest.dfy`, `ManifestDecisions.dfy` | which releases are marked as changing the schema; decisions kept over regenerations |
| `Notifier.dfy`, `Bell.dfy` | which notifications are shown, whatever resets, account changes, arrivals and turns of the switch come between |
| `Content.dfy`, `Text.dfy` | bytes, digests and versions; numbers, splitting and joining of text |

## How it is modelled

**Code that steps through time** is a state with a pure function for every stretch between two
awaits (`ReadStep`, `AfterCheck`, `AfterPush`, ...). Runs are sequences of such steps in any order,
with anything the outside world may answer as a parameter. The theorems are about every run. Next
to them stands the class or method in the source's own form - fields, loops, early returns - whose
`ensures` ties each call to the step function.

**Other programs** (`FileSystem.dfy`). Every call on the disk may be preceded by any number of
arbitrary steps of other programs. The steps of both sides are recorded in a trace, so a claim can
say exactly what it needs: `Quiet` (nobody else changed this one file since), `Honest` (whatever
another program wrote at this one name carries the time of the write, cut to at most 3000 ms); both
come with a last step, so that nothing is asked of what happens later. Every call may fail, and the
calls that failed are on record (`faults`): a claim that something was cleaned up, or that every
place refused an edit, names the failed call. A content is
written in any number of writes, and a read during which somebody writes gives any bytes at all. A
file has an identity, which writes in place keep, so another program's file at a name is told from
the one filex created there.

**sha256** is the bytes it was taken of (`Digest`), that is, an injective function. **Time** is a
clock that never goes back. **Timers** fire no earlier than asked, and as late as they like.

## What the proofs found

- `hashLocalVersion` takes `at` after hashing. A write between the stat and `at` is then believed away
  - unless the version is racy or its timestamp was more than a whole window old at the stat:
  `FileSystem.TrustedWhateverIsWrittenDuring` is that condition, in both directions.
- A failed feeding of the running hash leaves it longer than `hashedTo`. The reader stays safe for a
  reason the code does not say: such a hash is longer than the document and can never be the
  expected one. So even a file that holds still then never verifies: `verify()` succeeds on a still
  file exactly when no feeding broke off half way (`DocumentReading.StillFileVerifies`), and refuses
  for good otherwise (`DocumentReading.FedTooMuchNeverVerifies`).
- An exclusive write that fails removes whatever stands at the name by then, another program's file
  too (`FileSystem.FailedWriteRemovesAnother`). It changes its own file only exactly when it succeeds
  or the last of the other programs to change the name before the removal left the created file there
  (`FileSystem.OnlyItsOwnUnlessItFails`).
- Two own writes that settle in the other order than they reached the file leave the older content
  as the baseline: the next look then reports filex's own write as an outside one, exactly when the
  contents differ (`DocMonitoring.OrderDecides`). One at a time they cannot.
- A notification that came while the switch was off is shown all the same when the switch goes on
  before the next look (`Bell.CameWhileOffIsShown`); a page made between loses it for good
  (`Bell.WhetherItIsShown`).
- `LocalChangedError` promises that nothing was written anywhere. The temporary file stays when it
  cannot be removed: `WritingBack.WriteBackAtomic` has nothing left at its name, or the removal on
  record as failed.
- A body discarded after its end was seen finishes as if it were whole, and short exactly when
  a discard found something queued (`RequestStreaming.DiscardedBodyFinishesShort`); and a discard leaves a
  paused source paused with an empty queue (`RequestStreaming.DiscardLeavesTheSourcePaused`).
- The device prefix comes after the cut, so a safe name can be one unit too long; a number is not part
  of the cut either, so a numbered copy can be too long (`UniqueNames.NumberedFits` says exactly when).
- `Exec` reads back exactly for the non-empty one-line paths. `TryExec` also loses the spaces a path
  begins with, because it is not quoted (`DesktopEntry.TryExecReadsBack`).
- Two tags with the same three numbers (`v1.02.0`, `v1.2.0`) let a schema change pass unmarked when
  the one that adds the file is not published: `carry_unpublished` looks for a greater key only.
  `UpdateManifest.NoChangePassesUnmarked` holds if and only if no such pair stands after another tag.
- A registry import with nothing to add deletes filex's own type. It leaves no kind offered by a type
  that is gone exactly when every kind that was offered is dropped (`AssocReg.NothingDangles`).

## Model

| member | source | states |
|---|---|---|
| DocumentReading.VerifiedMeansOneVersion | desktop/src/openwith.ts:867-939 | when verify() succeeds, every buffer any read() returned is the expected version's bytes at that range, for all answers of the file system, all skipped and repeated parts, and after any failed call |
| DocumentReading.NothingAfterVerify | desktop/src/openwith.ts:896-934 | once verified, no later call hands out a byte |
| DocumentReading.RunKeepsInv | desktop/src/openwith.ts:873-921 | after any calls: what the running hash, the kept part digests and the handed-out buffers have to do with each other, also after a feeding that threw |
| DocumentReading.VerifiedIsExpected | desktop/src/openwith.ts:924-934 | a verify() that succeeds means the hash was fed the whole expected version and not a byte more |
| DocumentReading.StillFileIsRead | desktop/src/openwith.ts:896-921 | a file that holds still is read without an error: the next part, a later one, or one asked for again; the part read can be asked for again from then on, and so can those before |
| DocumentReading.StillFileVerifies | desktop/src/openwith.ts:924-934 | on a file that holds still now, whatever failed before, verify() succeeds if and only if no feeding of the hash broke off half way; otherwise it refuses, and so does the next |
| DocumentReading.FedTooMuchNeverVerifies | desktop/src/openwith.ts:896-934 | after a feeding that broke off half way no verify() of any continuation succeeds |
| DocumentReading.DocumentReader.Read | desktop/src/openwith.ts:896-921 | the call, early throws included, is the read step the run theorems are about |
| DocumentReading.DocumentReader.Verify | desktop/src/openwith.ts:924-934 | the call is the verify step |
| DocumentUpload.UploadFileStreamed | desktop/src/openwith-io.ts:436-499 | a body whose closing boundary was written is head, the whole expected version in order, tail; any other ends after the parts read so far; the receiver of RFC 2046 section 5.1.1 sees the expected version as the file, or no file |
| DocumentUpload.FilePartOfClosed | desktop/src/openwith-io.ts:502-521 | the framing is unambiguous: a document that does not hold the delimiter is read back whole |
| DocumentUpload.UploadStaged | desktop/src/transfer.ts:154-274 | whatever offsets the server answers, a commit means every part put was the expected version's |
| FileSystem.TrustSurvives | desktop/src/openwith.ts:751 | a version the fast path may be asked of stays so through any stamped writes of that file |
| FileSystem.TrustedWhateverIsWrittenDuring | desktop/src/openwith.ts:783-787 | a version is to be trusted whatever is written between its stat and its `at`, if and only if it is racy or its timestamp was a whole window old at the stat |
| FileSystem.WriteDuringTheHashFoolsTheFastPath | desktop/src/openwith.ts:783-787 | the write that is never noticed, for every other version |
| FileSystem.Disk.Put | desktop/src/spool.ts:213-253 | an exclusive write creates a name nothing had and writes into that file only; success means the whole content stands there unless another program was at the name; after a failure nothing is left there, or the removal is on record as failed |
| FileSystem.OnlyItsOwnUnlessItFails | desktop/src/spool.ts:244-248 | an exclusive write changes no other file if and only if it succeeds or, at the removal, other programs had left the created file at the name |
| FileSystem.OnlyItsOwnWhenQuiet | desktop/src/spool.ts:213-253 | with nobody else at the name it changes its own file only |
| FileSystem.FailedWriteRemovesAnother | desktop/src/spool.ts:244-248 | created, replaced by another program, failed: the other program's file goes |
| LocalDrifting.HashLocalVersion | desktop/src/openwith.ts:776-791 | with nobody writing meanwhile, the version is the file's and may be trusted from then on; a version old enough at the stat may be trusted whoever wrote |
| LocalDrifting.LocalDrift | desktop/src/openwith.ts:813-834 | same, changed and gone are each right of the file that stands there, the fast path's answer included; it cannot tell exactly when a failed call is on record |
| LocalDrifting.RecordThenLook | desktop/src/openwith.ts:776-834 | record quietly - or a version old enough -, any stamped writes of the document by others, look: "same" means the content still has the recorded hash |
| WritingBack.WriteBackAtomic | desktop/src/openwith.ts:1063-1158 | the target changes in one step, to a whole file, at most, and between the look and that step filex does nothing else; what it replaced under `expect` was the expected content unless somebody wrote to it in between; a document gone from the start or at the look is not brought back and the edit is stashed; the document as filex knows it, left in peace, is written unless a call failed; a WriteBackError names where the bytes are, or nothing after every stash was refused; LocalChangedError touches only the temporary file; no temporary file stays unless the edit is kept in it or its removal failed |
| WritingBack.Stash | desktop/src/openwith.ts:1382-1403 | the bytes are where it says, or both places refused them |
| WritingBack.NamesApart | desktop/src/openwith.ts:971-978 | the document, its temporary file and its recovery files never share a name |
| BesideSaving.BesideSession.Save | desktop/src/openwith.ts:1674-1729 | over any run of saves and outside writes every change is an exclusive write of a free name of the session's own, a replacement of the session's own file while it holds what the session last wrote there, or a recovery or temporary file of the session's own names, which the contract lists; the person's document is not touched while it stands; a target left in peace is written unless a call failed; a failed save says where the edit is, or nothing after every place for it was refused |
| BesideSaving.BesideSession.Update | desktop/src/openwith.ts:1682-1692 | a save over the session's own file, held to the version it last wrote there; what it may keep aside; written when the file is left in peace and no call failed; failed, the edit is where it says, or every place refused it |
| BesideSaving.BesideSession.Create | desktop/src/openwith.ts:1709-1725 | a new file at the first free of 99 names, where nothing was; a failed attempt is accounted for, its last name on record as failed, and the target stays |
| BesideSaving.BesideSession.KeepAside | desktop/src/openwith.ts:1699-1706 | the edit is in the recovery file of the name, or both places refused it |
| BesideSaving.TheDocumentIsLeftAlone | desktop/src/openwith.ts:1674-1729 | as long as the person's document stands, no step of the session changes it |
| BesideSaving.OnlyItsOwnFiles | desktop/src/openwith.ts:1674-1729 | a name changed at some step, but for the asides, is one the session created before, at a step when nothing was there |
| BesideSaving.CreationsAreTheirOwn | desktop/src/spool.ts:244-248 | a creation touches no other program's file if and only if it succeeded or, at the removal, other programs had left the created file at the name |
| BesideSaving.ReplacesItsOwn | desktop/src/openwith.ts:1682-1692 | what a write-back of the target replaces is what the session last wrote there, unless somebody was at it while it was written or between the look and the rename, or gave it a wrong time before the look |
| BesideNames.AsidesAreNotTheDocument | desktop/src/openwith.ts:969-978 | no recovery, fallback or temporary file goes by the document's own name |
| BesideNames.AsidesAreNoTargets | desktop/src/openwith.ts:1619-1629 | nor by any name a save goes by |
| BesideSaving.TakeFreeName | desktop/src/openwith.ts:985-1002 | each name passed over had been taken; the one taken was free |
| BesideSaving.WrittenVersion | desktop/src/openwith.ts:1651-1654 | the version is of the bytes written, whatever stands there now |
| DocMonitoring.NoLookIsLost | desktop/src/openwith.ts:1298-1369 | in every reachable state an event no look has answered has a timer, a second round, or the end of a write still to come, or the monitor stopped |
| DocMonitoring.ReportsPassedTheCheck | desktop/src/openwith.ts:1320-1360 | in every run a reported version passed the check: against a baseline still current, no write in progress, other content; and the second stat met it |
| DocMonitoring.ReportsAreOutside | desktop/src/openwith.ts:1282-1360 | and when own writes settle in the order they reached the file, it is not what filex itself wrote and still stands on |
| DocMonitoring.OneAtATimeIsInOrder | desktop/src/openwith.ts:1282-1295 | own writes made one at a time settle in that order |
| DocMonitoring.OrderDecides | desktop/src/openwith.ts:1282-1352 | two overlapping own writes: the next look reports filex's own one if and only if they settled in the other order and differ |
| DocMonitoring.OwnWritesMayOverlap | desktop/src/openwith.ts:1282-1295 | such writes come about, from every baseline |
| DocMonitoring.WhatALookReports | desktop/src/openwith.ts:1320-1360 | a look at rest reports what stands in the file if and only if the baseline is other content and it was not reported before |
| DocMonitoring.NeverTwiceInARow | desktop/src/openwith.ts:1263-1360 | two consecutive reports of one content have an adopt, an own write or a markSeen between them |
| DocMonitoring.NothingBeginsAfterStop | desktop/src/openwith.ts:1256-1261 | after stop(), in any continuation, no timer is due and no look begins |
| DocMonitoring.OneReportAfterStop | desktop/src/openwith.ts:1256-1360 | and onChange is called once more at the most, by the look which stop() found in flight, and not at all when there was none |
| DocMonitoring.NextKeepsInv | desktop/src/openwith.ts:1193-1379 | every event, own writes settling in any order included, keeps: an event owed is remembered somewhere, a stopped monitor has no timer; and while they settled in order, what filex wrote last is the baseline or a write still to be adopted, and a look that read it is against it or will be thrown away |
| DocMonitoring.SettlingHasPassed | desktop/src/openwith.ts:1333-1350 | what waits for the second stat passed the check at some step before |
| DocMonitoring.LocalDocMonitor.DriftComes | desktop/src/openwith.ts:1320-1347 | look() from its first await to its second is the step of the runs |
| DocMonitoring.LocalDocMonitor.SettleComes | desktop/src/openwith.ts:1347-1360 | look() from its second await on |
| DocMonitoring.LocalDocMonitor.Check | desktop/src/openwith.ts:1298-1308 | check() up to its await is the step of the runs: stopped, writing, in flight, or a new look against the baseline |
| DocMonitoring.LocalDocMonitor.OwnWriteEnds | desktop/src/openwith.ts:1282-1295 | ownWrite() after its await: adopted when it succeeded, and what was heard meanwhile is scheduled by the last one |
| RequestStreaming.YieldsWhatArrived | desktop/src/openwith-io.ts:170-218 | not discarded, the chunks yielded and the chunks queued are the chunks received, in order, each once |
| RequestStreaming.FinishesWhenWhole | desktop/src/openwith-io.ts:203-218 | the body ends normally only with the end seen, no failure and an empty queue; not discarded, with everything yielded |
| RequestStreaming.WaitsOnlyForNews | desktop/src/openwith-io.ts:147-152 | the reader waits only when there is nothing for it, and any event wakes it: no wake-up is lost |
| RequestStreaming.PausedOnlyAboveLowWater | desktop/src/openwith-io.ts:170-209 | queued is the queue's total; paused means at or above the low mark (unless discarded), not paused means below the high mark |
| RequestStreaming.DiscardedBodyFinishes | desktop/src/openwith-io.ts:203-232 | whatever happens between a discard and the reader's turn, the body ends there without an error if and only if the queue is empty, the end had been seen before the discard, and nothing failed before it or since |
| RequestStreaming.DiscardedBodyFinishesShort | desktop/src/openwith-io.ts:203-232 | and then short of what arrived if and only if a discard found something queued |
| RequestStreaming.EveryChunkCounts | desktop/src/openwith-io.ts:140-233 | in every run the chunks yielded, queued and thrown away by discards are as many as arrived |
| RequestStreaming.DiscardedBodyMayFinishShort | desktop/src/openwith-io.ts:203-232 | the run that does: a chunk, the end, a discard |
| RequestStreaming.DiscardLeavesTheSourcePaused | desktop/src/openwith-io.ts:223-232 | a corollary of the step: why a discarded body is excepted above |
| RequestStreaming.NextKeepsInv | desktop/src/openwith-io.ts:140-233 | every event and every turn keeps: the queue is the newest chunks and its total is counted, what was yielded came before them in order, a waiting reader has nothing to be told, and the source is paused by the water marks |
| RequestStreaming.BodyStream.Turn | desktop/src/openwith-io.ts:204-217 | the generator from one suspension to the next |
| LocalNames.SafeIsSafe | desktop/src/local-name.ts:73-92 | a safe name is not empty, has no forbidden, control or bidi character and no trailing dot or space, is no device name, and fits - or is one too long, by the device prefix |
| LocalNames.KeptAsItIs | desktop/src/local-name.ts:73-92 | a name is left alone if and only if it is safe and fits |
| LocalNames.SafeTwice | desktop/src/local-name.ts:73-92 | a safe name that fits is a fixed point |
| LocalNames.FitFits | desktop/src/local-name.ts:80-86 | cutting the stem makes the name fit with its extension whole |
| LocalNames.SafeLocalName | desktop/src/local-name.ts:73-92 | the loops compute the name these are about |
| UniqueNames.UniqueLocalName | desktop/src/local-name.ts:107-115 | the loop ends within one try more than there are names taken, at a free name, and holds it |
| UniqueNames.TriesAreBounded | desktop/src/local-name.ts:112 | pigeonhole: n - 1 numbered names that are all taken are n - 1 taken keys |
| UniqueNames.FoldsNumberApart | desktop/src/local-name.ts:96-98 | every key that folds characters one by one and leaves digits alone tells numbered names apart |
| UniqueNames.CandidateIsSafe | desktop/src/local-name.ts:107-115 | numbering a safe name leaves it safe |
| UniqueNames.NumberedFits | desktop/src/dragout.ts:521-527 | exactly when a numbered name and its temporary suffix still fit |
| UniqueNames.NamesAreApart | desktop/src/dragout.ts:533-536 | whatever the listing, no two items of a folder get names with one collision key |
| UniqueNames.NamesAreSafe | desktop/src/dragout.ts:533-536 | each of those names is safe |
| UniqueNames.NamesInOneFolder | desktop/src/dragout.ts:533-536 | the loop that threads the names taken |
| DragOut.DownloadedTreeLandsApart | desktop/src/dragout.ts:321-353 | for every remote tree distinct entries land in places distinct under the collision key, below the destination, by safe segments only |
| DragOut.SafeNamesStay | desktop/src/local-name.ts:73-92 | a safe name is no dot name and holds no separator |
| DragOut.EveryEntryLands | desktop/src/dragout.ts:341-352 | the copies' sources are exactly the tree's listing, in order, whatever the copies are called |
| DragOut.TreeWalk.DownloadTreeTo | desktop/src/dragout.ts:321-353 | the recursive walk makes that tree, or - stopped anywhere - its first part |
| DragOut.TreeWalk.PlanDir | desktop/src/dragout.ts:356-387 | the plan is the same tree's documents and folders, or it gives up at the limit |
| DropFulfilment.DropFolder.CreatePlaceholders | desktop/src/dragout.ts:439-455 | one stand-in an item, none shared |
| DropFulfilment.DropFolder.FulfilDrop | desktop/src/dragout.ts:466-510 | items land in order until the first that does not; what was written is whole and stays whole; a document that did not land leaves nothing under its name, a folder the part that was begun, and the stand-in stays only when Stop came before it or it could not be removed; stand-ins not reached and files under no item's name stay (whatever stands under an item's own name is removed when its turn comes); one final report, last, with the right count |
| ReportThrottling.AtMostOneAnInterval | desktop/src/dragfill.ts:50-97 | for any pushes and timers: sent in push order, non-final ones an interval apart, held exactly while a timer is pending, the newest push sent or held |
| ReportThrottling.LastIsAlwaysSent | desktop/src/dragfill.ts:70-79 | a corollary of the step: the last report goes out at once, whatever is held |
| ReportThrottling.NothingAfterTheEnd | desktop/src/dragfill.ts:60-97 | after the last report or a close nothing is sent |
| ReportThrottling.ReportThrottle.Push | desktop/src/dragfill.ts:70-88 | push() is the step of the runs |
| DragFilling.ShownIsTheLiveDrops | desktop/src/dragfill.ts:148-192 | `shown` is exactly the drops that have reported and neither finished nor ended, each once, by when the window last heard from them |
| DragFilling.StopStopsTheLastHeard | desktop/src/dragfill.ts:194-202 | Stop aborts the live drop heard last, says its last words at once and touches no other |
| DragFilling.NothingMoreIsSaidOfIt | desktop/src/dragfill.ts:161-202 | of a drop finished, stopped or ended nothing is said ever again |
| DragFilling.StopsAbortEachOnce | desktop/src/dragfill.ts:194-202 | n stops abort the n shown drops heard last, each exactly once, latest first |
| DragFilling.NextKeepsInv | desktop/src/dragfill.ts:148-203 | every report, timer, end and Stop keeps: the shown drops are the live ones in the order last heard, and no throttle holds a report that would end its drop |
| DragFilling.DragFills.Report | desktop/src/dragfill.ts:179-183 | report() through the drop's throttle is the step of the runs |
| DragFilling.DragFills.Stop | desktop/src/dragfill.ts:194-202 | stop() likewise |
| DesktopEntry.ExecReadsBack | desktop/src/channel.ts:326-350 | read from the whole entry by sections 3, 4 and 7 of the Desktop Entry Specification, Exec is the program's path and `%U` if and only if the path is not empty and is one line |
| DesktopEntry.TryExecReadsBack | desktop/src/channel.ts:326-350 | TryExec is the path if and only if it is one line and does not begin with a space |
| DesktopEntry.CommandLineIsRead | desktop/src/channel.ts:328-329 | quoting and doubled percents, undone by the command line's reader |
| DesktopEntry.UnescapeUndoes | desktop/src/channel.ts:330 | the string escape, undone |
| DesktopEntry.ReadsOneLine | desktop/src/channel.ts:330-336 | whatever the path, no value read from the entry holds a line end |
| DesktopEntry.LinesOf | desktop/src/channel.ts:331-349 | the entry as lines, a line end in the path included |
| MimeApps.OnlyTheMentionsChange | desktop/src/channel.ts:416-441 | exactly the lines of the three sections that name the old entry change: the same items with the new name, none twice, and for every set of installed entries the same first choice; None exactly when nothing names it |
| MimeApps.TwiceChangesNothing | desktop/src/channel.ts:416-441 | nothing names the old entry afterwards; a second run changes nothing |
| MimeApps.Retarget | desktop/src/channel.ts:416-441 | the walk over the lines computes that text |
| AssocReg.KindsAfterImport | desktop/src/os-assoc.ts:136-169 | for every registry: after the import a kind is offered and listed exactly when it was added, or was before and is not dropped |
| AssocReg.ExactlyTheAddedAreLeft | desktop/src/os-assoc.ts:119-169 | when filex's kinds lie within the two lists, exactly the added ones are left, in both places |
| AssocReg.NothingDangles | desktop/src/os-assoc.ts:126-167 | no offer is left without its type if and only if a kind was added or every offered one is dropped |
| AssocReg.OthersStay | desktop/src/os-assoc.ts:117-169 | no other value outside filex's own type is touched |
| AssocReg.TypeAfterImport | desktop/src/os-assoc.ts:150-158 | the type's name, icon and open verb, the program and the document each in quotes |
| AssocReg.ImportTwice | desktop/src/os-assoc.ts:117-169 | importing any document a second time changes nothing |
| AssocReg.DocumentIsRead | desktop/src/os-assoc.ts:136-169 | the text, read back line by line, is the changes it was written for |
| AssocReg.WindowsAssocReg | desktop/src/os-assoc.ts:136-169 | the loops write that document, of the well-formed one-part kinds only, or refuse the program's name |
| AssocReg.WindowsKinds | desktop/src/os-assoc.ts:83-100 | exactly the well-formed one-part kinds, ascending, each once |
| AssocReg.SortedIsCanonical | desktop/src/os-assoc.ts:83-85 | the document depends on which kinds were given, not on their order or repetition |
| Globs.HighestWeightWins | desktop/src/os-assoc.ts:240-261 | an extension is known exactly when a glob is of it; its hit has the highest weight and exactly the types given with that weight, each once |
| Globs.FilesTogether | desktop/src/os-assoc.ts:240-268 | two files read one by one and merged give every extension what the two read as one give it |
| Globs.MergeGlobs | desktop/src/os-assoc.ts:257-268 | the loops merge extension by extension, whatever order each file's extensions come in |
| Globs.ParseGlobs2 | desktop/src/os-assoc.ts:240-255 | the loop over the lines gathers exactly the plain, not case-sensitive globs of foreign types |
| UpdateManifest.NoChangePassesUnmarked | scripts/gen-update-manifest.py:82-122 | for all trees and all published subsets no schema change passes unmarked between two published versions, if and only if no two tags after another have the same numbers |
| UpdateManifest.MarkedExactlyWhenItChanges | scripts/gen-update-manifest.py:82-122 | of two neighbouring published versions the later is marked if and only if the schema changes between them |
| UpdateManifest.TheInstallIsTold | scripts/gen-update-manifest.py:82-122 | the promise for one pair of versions, with versions marked by hand too |
| UpdateManifest.TwinsLetAChangePass | scripts/gen-update-manifest.py:105-122 | tags with the same numbers: the change that passes |
| UpdateManifest.MigrationReleases | scripts/gen-update-manifest.py:82-102 | the walk marks exactly the tags that add a name to the non-empty names before them |
| UpdateManifest.CarryUnpublished | scripts/gen-update-manifest.py:105-122 | the walk moves each unpublished mark to the next published version |
| ManifestDecisions.OffUntilAskedFor | scripts/gen-update-manifest.py:162-189 | over any number of regenerations automatic upgrades of a release are off exactly when they were switched off and it was not asked for by name since |
| ManifestDecisions.MarksStay | scripts/gen-update-manifest.py:162-189 | a release is marked exactly when the first manifest or some run said so |
| ManifestDecisions.SecurityStays | scripts/gen-update-manifest.py:162-189 | a security release stays one, and no other becomes one |
| ManifestDecisions.MinVersionStays | scripts/gen-update-manifest.py:162-189 | a least version stays until a run names another |
| ManifestDecisions.NotesStay | scripts/gen-update-manifest.py:162-189 | notes that say something are never replaced by ones that do not, and stay as they were while only headings come |
| ManifestDecisions.Entry.Inherit | scripts/gen-update-manifest.py:162-189 | the dict changed in place is the entry the run theorems are about |
| Notifications.OnlyTheNewsIsShown | desktop/src/notifications.ts:243-301 | in every run a row is shown exactly when the switch is on as its page arrives, that page is not the first since the baseline was forgotten, and the row is newer than everything on the pages since, all of one account |
| Notifications.ShownIdsIncrease | desktop/src/notifications.ts:243-301 | between two forgettings of the baseline the ids shown strictly increase |
| Bell.ShownByTheFirstPageSince | desktop/src/notifications.ts:243-301 | with the server's newest unread rows on its pages, a row is shown from a page if and only if the switch is on as it arrives, a page came before it in its era, and none of those was made since the row arrived |
| Bell.WhetherItIsShown | desktop/src/notifications.ts:270-279 | a row - one that came while the switch was off, say - is shown at all in an era if and only if the first page made since shows it: it is on it, that page is not the era's first, and the switch is on |
| Bell.CameWhileOffIsShown | desktop/src/notifications.ts:270-279 | a row that came while the switch was off is shown if and only if no look came before the switch went on again |
| Bell.WatchingComesAbout | desktop/src/notifications.ts:243-269 | such a world comes about |
| Bell.NextKeepsInv | desktop/src/notifications.ts:229-301 | every arrival, reading, turn of the switch, answer and delivery keeps: rows rise, pages are of earlier and earlier states of their server |
| Notifications.ForgottenInFlight | desktop/src/notifications.ts:229-301 | a corollary of the steps: a reset during a fetch has its page show nothing, nor the next |
| Notifications.NewRows | desktop/src/notifications.ts:89-91 | exactly the rows after the baseline, ascending |
| Notifications.NextKeepsInv | desktop/src/notifications.ts:229-301 | every poll, failure, reset and stop keeps: the baseline is the newest id since it was forgotten, its pages are of the account being watched, and each page showed exactly its news |
| Notifications.DesktopNotifier.PollFetched | desktop/src/notifications.ts:255-279 | the poll from its fetch on is the step of the runs |

## Left out

- The Go server, the web interface and `packages/core`: not part of this model.
- Electron, HTTP, PowerShell, `gio`, the registry tools and worker threads: what they answer is a parameter.
- Real time and fairness: a timer that is due may wait for ever, so nothing is said to happen eventually beyond "it is still pending".
- FileSystem.Disk: file modes (`chmod`), `fsync`, links and directories are not modelled, and a rename is one step; whether a rename survives a power cut is the file system's matter.
- WritingBack.WriteBackAtomic: leaves the window between the look and the rename open, as the code does - a document deleted or changed in it is replaced all the same; does not claim that a recovery name is never overwritten, because recovery names are not created exclusively; a file that already stood at the random temporary name is removed by the clean-up, which the clauses allow.
- WritingBack.Stash: making the fallback folder is part of its second attempt, not a step of its own.
- FileSystem.Disk.Put: a spooled save's copy is checked against its hash as it is written; that check failing is one of the ways a write fails.
- BesideSaving.BesideSession.Save: the window between the look at the target and the rename is left open, as it is in the code; so is what a failed exclusive write may remove (`CreationsAreTheirOwn`). A format has no dot, as the source says of it, and lower-casing it is left to the caller; stamps have none either.
- DocMonitoring.ReportsAreOutside: holds of own writes that settle in the order they reached the file, because the code does not do it otherwise (`OrderDecides`). A look in flight may still report after stop(), as in the code (`OneReportAfterStop`).
- DocMonitoring.NoLookIsLost: a look whose read failed answers its event; the poll looks again.
- DocumentReading.DocumentReader.Read: one call at a time on one reader, as its callers make them.
- DocumentUpload.UploadFileStreamed: the idle timer and the abort of the request are part of "the writing stops here".
- RequestStreaming.BodyStream.Turn: one reader per body; the timer before the first answer and the abort of the request are left out.
- UniqueNames.UniqueLocalName: NFC and the full case tables are not modelled; the key is any function that tells numbered names apart, which `FoldsNumberApart` proves of every per-character fold.
- LocalNames.SafeLocalName: names are Unicode scalar values, so lone surrogates are not modelled; letters outside ASCII never make a device name.
- DragOut.TreeWalk.PlanDir: sizes, the 4 GB limit and the cache that follows the plan are left out, and so are temporary `.filexpart` names.
- DropFulfilment.DropFolder.FulfilDrop: does not protect a file that is no stand-in but goes by an item's own name, because the code removes it; the temporary name a document lands through is left out, and what comes of each download is given.
- DragFilling.DragFills.Begin: drops are numbered from 0, not from 1.
- DesktopEntry.ExecReadsBack: the reader refuses field codes other than a `%U` that stands alone; the Specification's rule that a program's name holds no equals sign is not read as a refusal. The types are taken to be one-line.
- AssocReg.KindsAfterImport: key and value names are compared as written, while the registry ignores case; the program's path and the type's name are taken to be one-line, and the bytes of the file (UTF-16) are not modelled.
- AssocReg.WindowsKinds: lower-casing is a parameter.
- UpdateManifest.NoChangePassesUnmarked: the tags' trees and the published set are given; reading them from git and GitHub, digests and assets are left out, and published versions are tags.
- ManifestDecisions.NotesStay: `str.lower` is a parameter, and a release is taken to be listed in every run.
- Bell.WhetherItIsShown: the server's side is what the poll asks for, the newest ten unread rows in the order they arrived; pages that are not are covered by `Notifications.OnlyTheNewsIsShown`.
- Notifications.OnlyTheNewsIsShown: rows are ids; their text, the click, the unread badge and what a run of refusals sets off are left out.
- Globs.ParseGlobs2: lower-casing, the reading of a weight and the pattern of a media type are parameters.
- Globs.FilesTogether: a first file whose text ends in a return without a line feed is left out: joined to another it would lose that return.
- The app-choice rules, the sign-in, keychain, power and update-guard tables: mostly filtering and precedence, which would add easy members only.
