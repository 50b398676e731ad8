# Verified model of the UniFi UNAS integration

This project models the parts of the Home Assistant integration for UniFi NAS devices that hold real
state or real algorithms, and proves what they keep, for all inputs and over all runs.

| file | what it models |
|---|---|
| `Prelude.dfy`, `Json.dfy`, `Text.dfy`, `SnapshotValues.dfy` | options, sequences without repetition, JSON values, ASCII text and the value helpers |
| `TargetKeys.dfy`, `InventoryScheduler.dfy`, `InventoryRuns.dfy`, `InventoryFairness.dfy`, `InventoryCadence.dfy`, `RefreshRequests.dfy` | the resumable snapshot-inventory scheduler: one poll as a function on the coordinator's state and as a class, what holds over every run, who is served when, the ten minutes between passes, and which refresh requests are kept |
| `PreviewHeap.dfy`, `InventorySummary.dfy`, `SummaryRanking.dfy` | the streaming inventory summary with its bounded binary heap, and what it shows |
| `Connection.dfy`, `OptionalBudget.dfy` | the connection state machine and the time budget of the optional refreshers |
| `Schedule.dfy`, `ScheduleTime.dfy`, `SettingsRead.dfy`, `SettingsItems.dfy`, `SettingsShapes.dfy`, `SettingsWrite.dfy`, `SettingsChanges.dfy`, `SettingsCodec.dfy`, `DocumentChanges.dfy` | reading and writing snapshot settings, what a change puts into the written document, and how reading and writing undo each other |
| `WriteProtocol.dfy`, `SerialWrites.dfy`, `WriteSteps.dfy`, `SerialOrder.dfy`, `ListedReads.dfy`, `LandingOrder.dfy`, `LateWrites.dfy` | the requests of one settings write, any number of concurrent writes interleaved at every await, their serial order, the targets they read, and what requests that take effect late make of it |
| `ManyChanges.dfy`, `ConcurrentSettings.dfy` | many settings changes of one target, alone and in concurrent calls |
| `MissingTargets.dfy` | the missing-target counter that several listeners drive |
| `UniqueLists.dfy`, `DriveMerge.dfy`, `DriveIdentity.dfy`, `DriveReconciliation.dfy`, `MergedIdentity.dfy`, `DriveOrder.dfy`, `DriveFilters.dfy` | drive records: recursive merge, identity, what a merged record still matches, the choice of a single pool's drives among the global disks, and the disks it never depends on |
| `PoolLookup.dfy`, `StorageView.dfy` | pool keys, pool lookup, and the cached view of pools and drives |

Code that changes state step by step is a class or a method with a loop; each is proved equal to a
function on values, and the lemmas are about that function. Concurrency is a state machine whose
steps are the stretches between two awaits; a timeout is a cancelled read. An endpoint's answers, the
clock and the moment at which another task asks for a refresh are parameters, so every statement holds
for all of them.

Seven statements that one might expect of the code are false of it. The lemmas named here give a
concrete case and the condition under which the code does meet the statement; where that condition is
only sufficient, it says so:

* One target can starve its peers for good. A read can raise an error that no handler names, for
  instance an OverflowError from a timestamp at the edge of the calendar or from an infinite total
  (snapshot_inventory.py:249, 301 and 318). The key then stays at the head of the queue, whatever the
  documentation says of interrupted targets (`StarvedPeer`, `Starvation`). Polls that do not break off
  at their first entry serve a target within as many of them as its place (`BoundedFairness`), and a
  device that keeps answering alike serves it exactly when nothing ahead of it raises such an error
  (`FairExactly`).
* The published status need not agree with the connection state: when the poll that brings the device
  back raises in its optional refresh, the device is online and its status still says offline
  (`OnlineButMarked`). `MarkAgrees` gives the exact condition.
* An update that the device carries out after its call gave up can undo a later, acknowledged one
  (`LateWriteUndoes`, `LateLimitLosesSchedule`). In every run a document is what a list of calls makes
  of it, done one after another. While no late request follows a later change of its target, that list
  is in lock order and leaves out only calls that ended without knowing their fate and were written over
  (`EveryRun`, `PutReplaces`); a late request loses an acknowledged call exactly when it is a PUT and
  such a call came later, and leaves lock order exactly when it is a DELETE behind a later call
  (`LateLosesExactly`). While none follows a later read, the documents are all effective updates in lock
  order (`SerialEquivalence`), and the first that does keeps them so exactly when it commutes with the
  later updates, whichever its verb (`LateExactly`).
* Writing any change to a target whose schedule is switched off drops its stored day list
  (`DisabledWeeklyIsNoFixpoint`, `RewriteFixpoint`), and so such writes do not commute
  (`ChangesCommute`).
* Drive identity is symmetric but not transitive (`OrderDecides`), and so the order of the global disks
  can decide whether a single pool gets an answer at all (`OrderDecidesAnswer`). Where identity is
  transitive among the records that the disks stand for, it cannot (`OrderDoesNotDecide`). The
  converse is not claimed: an intransitive chain goes unnoticed when, for instance, the declared count
  rules out an answer in every order. What never depends on the order is stated by the `SinglePool`
  lemmas.
* Merging a known drive into a global disk can make the record conflict with that disk
  (`MergeCanLoseIdentity`). Where no identity field is an object in both records, `MergedMatchesExactly`
  gives the exact condition: something of each record is left in some group, and in every strong group
  to which the other contributes. What can get lost is a value without letters and digits, such as that
  of an empty list, so a match survives whenever the known drive has no such value
  (`NoBlankStillMatches`), or shares none that the disk loses (`MergedStillMatches`).
* A pool's own key finds the first pool with that key, which need not be the pool itself
  (`SecondPoolIsHidden`, `OwnKeyFindsFirst`).

One branch would lose a request, though no answer of the device takes it: an unexpected error of the
pass itself drops the queue of the batch, and with it a refresh request that an earlier, interrupted
poll had taken over (`AbortLosesRequest`). The abort keeps the guarantee exactly under `AbortIsSafe`
(`AbortedPollKeepsRequests`); every other poll keeps it.

## Model

| member | source | states |
|---|---|---|
| `TargetKeys.TargetFor` | custom_components/unifi_unas/coordinator.py:425-431 | a key has a target exactly when the settings list advertises it, and of several with that key the last one is kept |
| `TargetKeys.SortedKeys` | custom_components/unifi_unas/coordinator.py:345 | the batch order lists every advertised key once, ascending in code-point order |
| `InventoryScheduler.Coordinator.RefreshSettings` | custom_components/unifi_unas/coordinator.py:263-296 | an unreadable settings list only marks the settings unavailable; an accepted one is a whole poll of the scheduler |
| `InventoryScheduler.Coordinator.RefreshIfDue` | custom_components/unifi_unas/coordinator.py:317-369 | one due or idle poll in place equals the poll function on the whole field state, with the visited entries and issued reads |
| `InventoryScheduler.Coordinator.GetInventory` | custom_components/unifi_unas/coordinator.py:413-497 | the loop with early exit equals the recursive walk over a snapshot of the queue |
| `InventoryScheduler.Coordinator.VisitKey` | custom_components/unifi_unas/coordinator.py:433-438 | a queue entry without a target is dropped, every other one is visited |
| `InventoryScheduler.Coordinator.VisitAdvertised` | custom_components/unifi_unas/coordinator.py:439-490 | a visit publishes a read or an error, skips a sticky or unsupported target, rotates a cancelled one to the back, and leaves everything as it was when the read raises an error that no handler names |
| `InventoryRuns.VisitStep` | custom_components/unifi_unas/coordinator.py:433-490 | a visit of a valid state keeps it valid, resolves exactly its own entry, leaves all others, and sends a read exactly when the target is neither skipped nor unsupported |
| `InventoryRuns.WalkShape` | custom_components/unifi_unas/coordinator.py:433-490 | a pass takes up a prefix of the queue; a cancelled entry goes behind all that it did not reach, an entry that broke the pass stays ahead of it |
| `InventoryRuns.WalkEnds` | custom_components/unifi_unas/coordinator.py:433-497 | a pass ends at the first entry whose read is cancelled or raises an error that no handler names, at the place of an abort, or at the end of the queue, and in the way that this says |
| `InventoryRuns.WalkEntries` | custom_components/unifi_unas/coordinator.py:433-497 | a pass resolves exactly what it visits, and sends reads for exactly the visited targets that are neither skipped nor unsupported |
| `InventoryRuns.PreparedQueue` | custom_components/unifi_unas/coordinator.py:319-333 | merging targets keeps the order of surviving queue entries and puts newcomers behind them, or asks for a refresh when no batch is open |
| `InventoryRuns.PreparedEntries` | custom_components/unifi_unas/coordinator.py:395-411 | exactly the entries of targets no longer advertised are dropped |
| `InventoryRuns.OpenedState` | custom_components/unifi_unas/coordinator.py:338-352 | the opened batch keeps the queue in front, holds every target after a request or a full interval, takes the request over and changes no entry |
| `InventoryRuns.ConcludedState` | custom_components/unifi_unas/coordinator.py:353-369 | however a pass ends, its conclusion changes no published entry and keeps the invariant |
| `InventoryRuns.PublishedByAnswer` | custom_components/unifi_unas/coordinator.py:439-490 | what a poll publishes for a target it takes up, answer by answer: an earlier reason to skip stands, a type known not to support inventories is refused without a read, and each kind of error has its reason, of which a refused login and a missing endpoint stop later reads |
| `InventoryFairness.QueueContents` | custom_components/unifi_unas/coordinator.py:317-352 | the queue of a poll is duplicate-free, starts with the survivors, and holds every newcomer, and every target after a request or a full interval |
| `InventoryFairness.TakenUp` | custom_components/unifi_unas/coordinator.py:433-490 | a due poll takes up exactly the queue entries with no stopping read and no abort ahead of them |
| `InventoryRuns.PollEffects` | custom_components/unifi_unas/coordinator.py:317-369 | a poll resolves the entries it visits, keeps those of other advertised targets unchanged, and drops the rest |
| `InventoryRuns.BatchConservation` | custom_components/unifi_unas/coordinator.py:317-369 | after every due poll that is not aborted, completed, cancelled or broken off, each advertised target is queued or published |
| `InventoryRuns.RunValid` | custom_components/unifi_unas/coordinator.py:298-497 | the scheduler's invariant holds along every run of polls, requests, unreadable settings, clearings and lists that a service call stores |
| `InventoryRuns.ReachableStates` | custom_components/unifi_unas/coordinator.py:298-497 | in every reachable state inventory and errors exclude each other, reads are skipped exactly for targets whose published error reads as sticky and for that reason, and the queue is duplicate-free, of known targets and covers all unpublished ones; the known targets are the advertised ones unless a service call stored a list since the last poll |
| `InventoryRuns.StickyErrorsHold` | custom_components/unifi_unas/coordinator.py:440-448 | once a target has a skip reason no read is issued for it while it stays advertised, and its error stays that reason |
| `InventoryFairness.StuckExactly` | custom_components/unifi_unas/coordinator.py:449-490 | a poll breaks off at its first entry exactly when the read of that entry raises an error that no handler names |
| `InventoryFairness.PollAdvances` | custom_components/unifi_unas/coordinator.py:433-490 | a poll takes a queued target up, moves it at least one place to the front, or broke off at its first entry |
| `InventoryFairness.BoundedFairness` | custom_components/unifi_unas/coordinator.py:319-352 | a target at place p of the queue is taken up within p+1 polls that do not break off at their first entry, whichever reads stall and however targets come and go |
| `InventoryFairness.Starvation` | custom_components/unifi_unas/coordinator.py:449-490 | for a run of any length: while every read of a target raises an error that no handler names, no target behind it on the queue is taken up |
| `InventoryFairness.FairExactly` | custom_components/unifi_unas/coordinator.py:433-490 | when the device keeps answering alike, a queued target is taken up within as many polls as its place exactly when nothing ahead of it raises such an error |
| `InventoryFairness.StarvedPeer` | custom_components/unifi_unas/coordinator.py:449-490 | from the start, two targets and any number of polls: the first breaks every pass and the second is never taken up |
| `InventoryFairness.RevisitsAreServed` | custom_components/unifi_unas/coordinator.py:338-352 | after a request, and once a batch is older than a full interval even if a peer stalls, every target of the next list is taken up within as many polls that do not break off at once as that list has targets |
| `InventoryCadence.PollTimes` | custom_components/unifi_unas/coordinator.py:353-369 | a completed pass is dated by its end, an aborted one by the start of its poll, an open one not at all; an open batch is dated by the poll that opened it or last filled it up |
| `InventoryCadence.IdlePolls` | custom_components/unifi_unas/coordinator.py:371-382 | in every reachable state a poll is idle and reads nothing exactly when no request and no batch is open, the targets are the known ones, and the last pass of the run ended less than ten minutes ago |
| `InventoryCadence.Cadence` | custom_components/unifi_unas/coordinator.py:353-382 | after a pass that completed, or was aborted, and left no request open, with the same targets and nothing in between that asks for a pass, a later poll is idle exactly when less than ten minutes have passed since its end, or since the start of the aborted one |
| `InventoryCadence.RefillsExactly` | custom_components/unifi_unas/coordinator.py:334-352 | an open batch is filled up with every target after a request or ten minutes after it was opened or last filled up, and otherwise gains newcomers only |
| `InventoryCadence.ListKept` | custom_components/unifi_unas/coordinator.py:263-296 | along every run the list in force is the last accepted or stored one, available as of the last read |
| `RefreshRequests.VisitKeepsRequests` | custom_components/unifi_unas/coordinator.py:433-490 | no request is lost at any await inside a pass |
| `RefreshRequests.PollServes` | custom_components/unifi_unas/coordinator.py:317-369 | after a poll the flag is up exactly when a request came in on the way or an abort restored it, and the served targets are exactly those settled since the last request |
| `RefreshRequests.PollKeepsRequests` | custom_components/unifi_unas/coordinator.py:338-369 | a poll that is not aborted loses no refresh request, requests during its reads included, even if an error that no handler names breaks it off |
| `RefreshRequests.RunKeepsRequests` | custom_components/unifi_unas/coordinator.py:313-369 | over every run whose aborts are safe the flag is set or each target of the last poll is queued or was published after the latest request |
| `RefreshRequests.ServedAfterRequest` | custom_components/unifi_unas/coordinator.py:313-315 | what counts as served after a request was settled by a poll after that request |
| `RefreshRequests.AbortsExactly` | custom_components/unifi_unas/coordinator.py:353-365 | a poll is aborted exactly when it is due and no read ends its pass before the place of the error |
| `RefreshRequests.AbortedPollKeepsRequests` | custom_components/unifi_unas/coordinator.py:355-365 | an abort at place n keeps the guarantee exactly when the flag was up or goes up as the targets changed, a read before place n saw a request, or every target was served or stands before place n |
| `RefreshRequests.AbortLosesRequest` | custom_components/unifi_unas/coordinator.py:355-365 | a concrete run of a request, a cancelled read and an abort loses the request |
| `Connection.StorageCoordinator.Poll` | custom_components/unifi_unas/coordinator.py:137-155 | one refresh in place equals the step of the connection state machine, a raising optional refresh included |
| `Connection.OfflineStatusOnly` | custom_components/unifi_unas/coordinator.py:499-510 | marking replaces nothing but the system status, and marking twice is marking once |
| `Connection.ConnectionState` | custom_components/unifi_unas/coordinator.py:192-233 | over every run the device is offline exactly after two failures since the last storage read, or one before the first publication, and the published payload is the last one published, marked exactly when the device was offline at some point since |
| `Connection.MarkAgrees` | custom_components/unifi_unas/coordinator.py:137-155 | the mark agrees with the connection state exactly when no optional refresh raised, since the last publication, on the poll that brought the device back |
| `Connection.OnlineButMarked` | custom_components/unifi_unas/coordinator.py:140-155 | two failures and then a storage read whose optional refresh raises leave the device online with an offline status |
| `Connection.RaisingPolls` | custom_components/unifi_unas/coordinator.py:144-155 | a poll raises exactly on refused credentials, an unexpected answer, a raising optional refresh, or a connection failure before the first publication |
| `OptionalBudget.FairBudgets` | custom_components/unifi_unas/coordinator.py:170-180 | for any number of refreshers the total stays within the timeout, each is granted at least an equal share, and budgets never shrink |
| `OptionalBudget.ModestRefreshersFinish` | custom_components/unifi_unas/coordinator.py:170-180 | a refresher that fits an equal share is never stopped, whatever the others do |
| `OptionalBudget.FairUntilRaise` | custom_components/unifi_unas/coordinator.py:170-180 | if a refresher raises, those up to it stay within the timeout and were granted at least an equal share among all |
| `OptionalBudget.RunRefreshers` | custom_components/unifi_unas/coordinator.py:170-190 | the deadline loop grants those budgets up to and including the first refresher that raises within its own, or to all, and reports a timeout exactly when some refresher needed more |
| `PreviewHeap.Heap.Push` | custom_components/unifi_unas/snapshot_inventory.py:97-98 | pushing keeps heap order and adds exactly the item |
| `PreviewHeap.Heap.Replace` | custom_components/unifi_unas/snapshot_inventory.py:99-100 | replacing keeps heap order and exchanges exactly the root for the item |
| `PreviewHeap.RootIsLeast` | custom_components/unifi_unas/snapshot_inventory.py:99 | no item of the heap is below its root |
| `PreviewHeap.NewestFirstDescending` | custom_components/unifi_unas/snapshot_inventory.py:114-117 | sorting by the tuple in reverse ranks newest first with ties in payload order |
| `PreviewHeap.NewestFirstKeepsItems` | custom_components/unifi_unas/snapshot_inventory.py:114-117 | the ranking is a permutation |
| `PreviewHeap.RankingIsUnique` | custom_components/unifi_unas/snapshot_inventory.py:114-117 | a ranking is determined by the items it holds, whatever order the heap kept them in |
| `PreviewHeap.TopStep` | custom_components/unifi_unas/snapshot_inventory.py:96-100 | replacing the root exactly when the new item beats it keeps the best k items |
| `InventorySummary.Retain` | custom_components/unifi_unas/snapshot_inventory.py:96-100 | after each offered item the heap holds the ten best dated snapshots seen so far |
| `InventorySummary.Scan` | custom_components/unifi_unas/snapshot_inventory.py:75-102 | one pass over the payload leaves the heap with the ten best and the running values of all snapshots |
| `InventorySummary.RunTracks` | custom_components/unifi_unas/snapshot_inventory.py:79-102 | the running values are the counts, the first and last snapshot, the first maximum and first minimum, and the first ten undated ones |
| `InventorySummary.RankedHeap` | custom_components/unifi_unas/snapshot_inventory.py:114-117 | ranking the heap gives the first ten of the ranking of all dated snapshots |
| `InventorySummary.PreviewParts` | custom_components/unifi_unas/snapshot_inventory.py:114-127 | filling up with retained undated snapshots gives the first ten of the simple form |
| `InventorySummary.Extract` | custom_components/unifi_unas/snapshot_inventory.py:62-168 | the streaming summary equals sort, append and take ten; latest and oldest are the first maximum and first minimum, or the first and last item when none is dated; counts and truncation flags are right |
| `InventorySummary.LatestHeadsPreview` | custom_components/unifi_unas/snapshot_inventory.py:88-127 | the first preview entry is the snapshot published as the latest |
| `SummaryRanking.PreviewIsRanked` | custom_components/unifi_unas/snapshot_inventory.py:88-127 | the preview shows the ten snapshots, or all, that come first in this order: dated before undated, newer before older, ties and undated ones as in the payload; each entry without its parsed time |
| `SummaryRanking.LockedCounted` | custom_components/unifi_unas/snapshot_inventory.py:79-83 | the locked count is the number of snapshots whose lock is stated as true |
| `InventorySummary.PreviewLength` | custom_components/unifi_unas/snapshot_inventory.py:114-127 | the preview has ten entries, or all snapshots if there are fewer |
| `Schedule.CollectTexts` | custom_components/unifi_unas/snapshot_schedule.py:142-156 | the appending loop collects the texts of the distinct in-range days, and the strict one stops exactly at a bad part |
| `Schedule.ExistingDays` | custom_components/unifi_unas/snapshot_schedule.py:91-112 | the lenient normaliser in loop form is the specified one |
| `Schedule.ScheduleDays` | custom_components/unifi_unas/snapshot_schedule.py:132-156 | the strict normaliser in loop form is the specified one |
| `Schedule.NormalForm` | custom_components/unifi_unas/snapshot_schedule.py:91-156 | whatever a normaliser accepts is printed from the distinct in-range days in first-occurrence order |
| `Schedule.StrictAgreesWithLenient` | custom_components/unifi_unas/snapshot_schedule.py:91-156 | on every text the strict normaliser accepts the lenient one gives the same result |
| `Schedule.NormalisersAreIdempotent` | custom_components/unifi_unas/snapshot_schedule.py:91-156 | both normalisers return each other's output unchanged |
| `Schedule.PrintedDaysReadBack` | custom_components/unifi_unas/snapshot_schedule.py:91-156 | reading the printed form of any distinct in-range list gives that list |
| `ScheduleTime.ReadTime` | custom_components/unifi_unas/snapshot_schedule.py:199-217 | one or two hour digits, a colon and one or two minute digits read as their values when in range |
| `ScheduleTime.TimeRoundTrips` | custom_components/unifi_unas/snapshot_schedule.py:159-217 | reading either printed form of a time gives the time |
| `ScheduleTime.DialTimeRoundTrips` | custom_components/unifi_unas/snapshot_schedule.py:199-217 | reading the 12-hour form of a time gives the time, midnight and noon included |
| `ScheduleTime.ClockMeans` | custom_components/unifi_unas/snapshot_schedule.py:207-217 | without a suffix any hour of the day is accepted, with one only 1 to 12, of which 12 is the first; every other number is rejected |
| `ScheduleTime.LongNumbersAreRejected` | custom_components/unifi_unas/snapshot_schedule.py:10-14 | an hour or a minute of more than two digits is no time |
| `SettingsRead.Extract` | custom_components/unifi_unas/snapshot_payload.py:108-190 | the extraction loops keep exactly the readable items, in order |
| `SettingsRead.FullLength` | custom_components/unifi_unas/snapshot_payload.py:108-190 | a list keeps its length exactly when every item is readable, and then item by item |
| `SettingsRead.Validated` | custom_components/unifi_unas/snapshot_payload.py:19-63 | a payload is accepted exactly when it has a known shape and every item is readable; the result is then the image of its items in order, personal before shared |
| `SettingsItems.PayloadReads` | custom_components/unifi_unas/snapshot_payload.py:19-249 | a payload whose sections list the items of given settings is accepted and reads as exactly these settings, field by field and in order |
| `SettingsItems.ListedItemReads` | custom_components/unifi_unas/snapshot_payload.py:108-300 | in a plain list the kind that an item names, in any of its usual words, decides how it is read |
| `SettingsItems.SwitchByLimit` | custom_components/unifi_unas/snapshot_payload.py:208-218 | an item that states no switch is on exactly when it gives a positive limit |
| `SettingsShapes.FrequencyMeans` | custom_components/unifi_unas/snapshot_schedule.py:29-70 | how often a schedule runs, however it is told: never when it is off, as it names itself, else by the days it lists, days of the month first, else daily when it is on or its interval is an hour |
| `SettingsShapes.TimeMeans` | custom_components/unifi_unas/snapshot_schedule.py:159-191 | when it runs: by a time text if one is given, else by an hour and a minute in range, the minute zero by default |
| `SettingsShapes.KindByContent` | custom_components/unifi_unas/snapshot_payload.py:252-270 | an item that names no kind is shared if it carries a shared drive, else personal if it carries a user, else unread |
| `SettingsShapes.PersonalMeans` | custom_components/unifi_unas/snapshot_payload.py:108-150 | a personal drive is known by its user or else its own id, and is the current user's exactly when one of these is the id of the user who is logged in |
| `SettingsShapes.KnownShapes` | custom_components/unifi_unas/snapshot_payload.py:19-37 | a payload has a known shape exactly when it is a list, or an object with one of the two sections, each a list |
| `SnapshotValues.SearchesFindFirst` | custom_components/unifi_unas/snapshot_values.py:17-60 | each search for a value returns what the first usable one under its keys gives |
| `SettingsShapes.TruthValues` | custom_components/unifi_unas/snapshot_values.py:56-69 | the values that count as true and as false, and no text besides these |
| `SettingsCodec.ChosenDaysNormal` | custom_components/unifi_unas/snapshot_write.py:156-168 | every written day list is in the normal form of both normalisers |
| `SettingsCodec.WriteBodyWritten` | custom_components/unifi_unas/snapshot_write.py:69-177 | every written document has a limit in range, equal run times on the clock, and one day list in normal form or none |
| `SettingsCodec.ReadBackSchedule` | custom_components/unifi_unas/snapshot_payload.py:193-249 | a stored schedule is read back with its flag, its time, its days and the frequency its days imply |
| `SettingsCodec.RewriteIsCanonical` | custom_components/unifi_unas/snapshot_write.py:69-177 | reading a written document and writing it back gives its canonical form |
| `SettingsCodec.RewriteFixpoint` | custom_components/unifi_unas/snapshot_write.py:119-177 | write, store, read, write is a fixpoint exactly when the first write enabled the schedule or asked for a frequency without days |
| `SettingsCodec.ExplicitFlagFixpoint` | custom_components/unifi_unas/snapshot_write.py:119-177 | it is a fixpoint for every item that states its enable flag and every update that leaves the flag unset |
| `SettingsCodec.DisabledWeeklyIsNoFixpoint` | custom_components/unifi_unas/snapshot_write.py:154-168 | switching a weekly schedule off and writing again loses the day list |
| `SettingsChanges.WriteMeans` | custom_components/unifi_unas/snapshot_write.py:69-177 | for any setting: the written document holds the switch, limit, time, frequency and days that the change asks for, in place of those that were read, which stay where nothing is asked; and nothing is written exactly when the days asked for are bad |
| `DocumentChanges.ApplyIsUpdated` | custom_components/unifi_unas/snapshot_write.py:69-177 | reading a written document, changing it and writing it again is a closed function of the document and the change |
| `DocumentChanges.ChangeHolds` | custom_components/unifi_unas/snapshot_write.py:119-177 | the new document holds what is asked for: the limit, a readable time, a frequency, which switches the schedule on or off, and the requested days, distinct and in order, if it names days of that kind |
| `DocumentChanges.LimitChange` | custom_components/unifi_unas/snapshot_write.py:91-116 | a limit update replaces the switch and the limit, between 1 and 256, and canonicalises the schedule |
| `DocumentChanges.ScheduleChange` | custom_components/unifi_unas/snapshot_write.py:119-177 | a schedule update replaces the schedule alone, as a function of the old one, by one that holds what it asks for |
| `DocumentChanges.ChangesCommute` | custom_components/unifi_unas/snapshot_write.py:69-177 | on a stable document a limit and a schedule update commute exactly when the schedule update is rejected, leaves the schedule on, or ends with no days |
| `DocumentChanges.BothOrders` | custom_components/unifi_unas/snapshot_write.py:69-177 | both orders end in the document that holds what both ask for |
| `WriteProtocol.Client.SetCapability` | custom_components/unifi_unas/api_snapshot.py:555-570 | one type flag is set, and the aggregate is true exactly when some type supports writing, false exactly when neither of the two does |
| `WriteProtocol.Client.UpdateOnce` | custom_components/unifi_unas/api_snapshot.py:461-536 | one pass sends the specified requests, ends as specified and moves the flags as its end says |
| `WriteProtocol.Client.Send` | custom_components/unifi_unas/api_snapshot.py:504-536 | the nested loops over methods and paths send the attempts up to the first response that is not absent |
| `WriteProtocol.Client.Update` | custom_components/unifi_unas/api_snapshot.py:271-280 | a second pass happens only after a refused session and a working login, and at most once |
| `WriteProtocol.PassShape` | custom_components/unifi_unas/api_snapshot.py:504-536 | the requests are a prefix of the DELETE and PUT attempts, every response but the last is 404 or 405, and the last decides: 200 to 299 acknowledges, 401 or 403 asks for a login, 404 or 405 after all attempts means that there is no endpoint, and anything else is ambiguous |
| `WriteProtocol.SilentPasses` | custom_components/unifi_unas/api_snapshot.py:484-502 | a pass sends nothing exactly when the type is known not to support writing, the change names invalid days or the target has no path |
| `WriteProtocol.PathsOf` | custom_components/unifi_unas/snapshot_paths.py:23-60 | a personal target is written under its user id or else its id, a shared one under its drive name first, if that differs, and then its id; other targets have no path |
| `WriteProtocol.DeletesOnlyToTurnOff` | custom_components/unifi_unas/api_snapshot.py:498-502 | the attempts are a PUT on every path, after a DELETE on every path exactly when nothing but turning the setting off is asked |
| `WriteProtocol.FlagChanges` | custom_components/unifi_unas/api_snapshot.py:511-536 | over a whole pass the type flag turns false exactly after every attempt was answered 404 or 405, true exactly after a response in the 200s, and stays after any other; other types' flags never change |
| `WriteProtocol.OnlyTheLastCounts` | custom_components/unifi_unas/api_snapshot.py:271-280 | of all requests of a call every one but the last of each pass was answered 404 or 405, and a second pass follows a 401 or 403 |
| `SerialWrites.NextKeeps` | custom_components/unifi_unas/api_snapshot.py:258-280 | every step of any interleaving keeps one lock holder, whose turn is the last, and one turn for every call past waiting, which agrees with how the call ended |
| `WriteSteps.ResponseMeans` | custom_components/unifi_unas/api_snapshot.py:504-536 | what the response to the request in flight does in any interleaving: in the 200s it was carried out and the call is over, with 404 or 405 it was not and the next attempt follows, with 401 or 403 a login follows the first pass, and otherwise the call ends without knowing |
| `WriteSteps.CancelMeans` | custom_components/unifi_unas/api_snapshot.py:258-280 | a call cancelled while its request is in flight ends without knowing whether it was carried out |
| `WriteSteps.ReadMeans` | custom_components/unifi_unas/api_snapshot.py:261-273 | a failed read ends the call, one that finds the target gone too, and otherwise the first pass begins on the document as it is |
| `WriteSteps.LoginMeans` | custom_components/unifi_unas/api_snapshot.py:274-280 | a failed login ends the call, and a working one begins a second and last pass on what was read before |
| `SerialOrder.NextSerial` | custom_components/unifi_unas/api_snapshot.py:258-280 | every step keeps the documents equal to the turns in lock order, each of which read what the turns before it had made, unless a late request takes effect after a later tenure has read its target |
| `SerialOrder.SerialEquivalence` | custom_components/unifi_unas/api_snapshot.py:258-280 | for any number of concurrent calls and any interleaving every acknowledged write is among the turns that took effect, each ambiguous or cancelled one is or is not, and unless a late request takes effect after a later tenure has read its target the documents are those updates done one after another in lock order |
| `LandingOrder.NextMakes` | custom_components/unifi_unas/api_snapshot.py:258-280 | every step, late requests included, keeps each document equal to the turns counted for it done one after another, and each turn's read equal to what the turns counted before it had made |
| `LandingOrder.EveryRun` | custom_components/unifi_unas/api_snapshot.py:258-280 | in every run each document is made by different effective turns of its key, done one after another; while no late request follows a later change of its target they stand in lock order and hold every effective turn but those of ambiguous or cancelled calls that a later write replaced |
| `LandingOrder.PutReplaces` | custom_components/unifi_unas/api_snapshot.py:520-525 | a PUT leaves what its own turn had read, with its change, whatever took effect in between |
| `LandingOrder.LateLosesExactly` | custom_components/unifi_unas/api_snapshot.py:520-525 | a late request, PUT or DELETE, loses an acknowledged turn exactly when it is a PUT and a later turn was acknowledged, and breaks the lock order exactly when it is a DELETE behind a later turn |
| `LateWrites.LateExactly` | custom_components/unifi_unas/api_snapshot.py:520-525 | a request of either verb that takes effect after its call ended keeps the documents equal to the turns in lock order exactly when it commutes with the later effective updates |
| `LateWrites.LatePutExactly` | custom_components/unifi_unas/api_snapshot.py:520-525 | for a PUT: exactly when the later effective updates leave its document as it is |
| `LateWrites.LateWriteUndoes` | custom_components/unifi_unas/api_snapshot.py:520-525 | a concrete run: a call times out, a second one is acknowledged, and the first request then undoes it |
| `SerialOrder.SilentCalls` | custom_components/unifi_unas/api_snapshot.py:261-270 | a call that found its target gone, failed to read, was refused, met absent endpoints or has not finished wrote nothing |
| `ListedReads.EveryReadListed` | custom_components/unifi_unas/api_snapshot.py:261-270 | in every run each turn that has read did so when the settings list in force named its key, and read the document that the device then had |
| `ListedReads.GoneEnds` | custom_components/unifi_unas/api_snapshot.py:261-270 | a read that succeeds on a list without the key ends the call at once, frees the lock and changes nothing |
| `ListedReads.GoneWritesNothing` | custom_components/unifi_unas/api_snapshot.py:261-270 | and for the rest of the run that call has read, changed and left behind nothing |
| `ListedReads.ListedProceeds` | custom_components/unifi_unas/api_snapshot.py:261-270 | after a read that succeeds a call ends as gone exactly when the list, or the device, lacks its target |
| `SerialWrites.MachineRunsPass` | custom_components/unifi_unas/api_snapshot.py:504-536 | fed one pass's answers the interleaved machine ends as the client's loops do and leaves the same flags |
| `ConcurrentSettings.BothUpdatesSurvive` | custom_components/unifi_unas/api_snapshot.py:258-280 | in every run in which no late request follows a later read, if the turns that changed a target are an update of the limit and one of the schedule, in either order, its document holds what both ask for |
| `ManyChanges.EachKindSurvives` | custom_components/unifi_unas/snapshot_write.py:69-177 | after any number of updates, each of the limit or of the schedule and none switching a schedule off, switch and limit are what the limit updates make of them, and the schedule is what the schedule updates make of it, as if those of the other kind had not been made |
| `ManyChanges.LastLimitHolds` | custom_components/unifi_unas/snapshot_write.py:91-116 | the switch and the limit that the last limit update asks for are in the document, whatever schedule updates follow |
| `ManyChanges.LastScheduleHolds` | custom_components/unifi_unas/snapshot_write.py:119-177 | the time, frequency and days that the last schedule update asks for are in the document if its days are accepted, whatever limit updates follow |
| `ConcurrentSettings.AllUpdatesSurvive` | custom_components/unifi_unas/api_snapshot.py:258-280 | in every run, late requests included, the same holds of the turns counted for a target; while no late request follows a later change they hold every acknowledged call in lock order |
| `ConcurrentSettings.LateLimitLosesSchedule` | custom_components/unifi_unas/api_snapshot.py:520-525 | a limit update that takes effect late loses an acknowledged schedule update |
| `MissingTargets.MissingTracker.Update` | custom_components/unifi_unas/snapshot_entities.py:141-207 | one listener call moves count and issue of every key as specified, and an unavailable read changes nothing |
| `MissingTargets.CallSettles` | custom_components/unifi_unas/snapshot_entities.py:113-205 | a listener call counts the list in force for every live target if no call has counted it, and otherwise changes no count; entities it creates start at none |
| `MissingTargets.MissingCounts` | custom_components/unifi_unas/snapshot_entities.py:106-207 | along every run of accepted lists, lists stored by a service call, failed reads and any number of listener calls, counts and issues agree with the counted lists |
| `MissingTargets.LiveTargetCounts` | custom_components/unifi_unas/snapshot_repairs.py:108-158 | from a clean start a live target's count is the number of consecutive lists lacking it among those counted since its entities appeared, and its repair issue exists exactly when that is at least three |
| `MissingTargets.EveryListCounts` | custom_components/unifi_unas/snapshot_entities.py:158-192 | if every list is counted before the next one comes, that is the number of consecutive lists lacking it |
| `UniqueLists.AppendUnique` | custom_components/unifi_unas/storage_drives.py:463-467 | the search loop appends a drive exactly when no drive of the list matches it |
| `UniqueLists.AppendAllUnique` | custom_components/unifi_unas/storage_drives.py:463-467 | appending uniquely keeps a list free of matches, invents nothing, and leaves every drive present or matched |
| `UniqueLists.AppendAllTakesAll` | custom_components/unifi_unas/storage_drives.py:413-416 | a list free of matches is taken in completely exactly when none of it matches what is there |
| `UniqueLists.OrderDoesNotCount` | custom_components/unifi_unas/storage_drives.py:463-467 | where identity is transitive any two orders of the same drives keep equally many, drives without identity included |
| `DriveMerge.MergeEntries` | custom_components/unifi_unas/storage_drives.py:483-496 | the filling loop equals the merge function, in whatever order the keys come |
| `DriveMerge.Merge` | custom_components/unifi_unas/storage_drives.py:483-496 | the merged record has exactly the keys of both |
| `DriveMerge.MergeKeepsGlobal` | custom_components/unifi_unas/storage_drives.py:483-501 | no useful scalar or list of the global record is lost, at any depth |
| `DriveMerge.MergeFillsVacant` | custom_components/unifi_unas/storage_drives.py:483-501 | every useful local value fills a vacant place, at any depth |
| `DriveMerge.MergeInventsNothing` | custom_components/unifi_unas/storage_drives.py:483-501 | whatever is not an object comes from one of the two records |
| `DriveMerge.MergeSelf` | custom_components/unifi_unas/storage_drives.py:483-501 | merging a record with itself changes nothing |
| `DriveMerge.MergeTwice` | custom_components/unifi_unas/storage_drives.py:483-501 | merging the same local record again changes nothing |
| `DriveIdentity.MatchesIsSymmetric` | custom_components/unifi_unas/storage_drives.py:504-543 | drive identity is symmetric |
| `DriveIdentity.MatchesExactly` | custom_components/unifi_unas/storage_drives.py:504-543 | two drives match exactly when they share a value of some kind and neither id, uuid, guid nor serial is known of both and different |
| `DriveIdentity.SpareExactly` | custom_components/unifi_unas/storage_drives.py:546-559 | a disk is taken for a spare exactly when one of nine flags is true or one of thirteen status texts contains one of ten words |
| `DriveIdentity.IdentityFields` | custom_components/unifi_unas/storage_drives.py:154-162 | the fields that identify a drive, kind by kind |
| `DriveIdentity.ReferenceFields` | custom_components/unifi_unas/storage_drives.py:84-153 | the fields that name a pool, a volume or a raid group, on a pool, a drive and a pool nested in a drive |
| `DriveReconciliation.FindKnown` | custom_components/unifi_unas/storage_drives.py:470-480 | the search returns the first known drive that matches |
| `DriveReconciliation.CollectMembers` | custom_components/unifi_unas/storage_drives.py:381-418 | the loop over the global disks returns the specified members and candidates |
| `DriveReconciliation.VerdictMeaning` | custom_components/unifi_unas/storage_drives.py:391-409 | every disk: it is skipped exactly when it says that it is a spare, a stable reference names another pool, or only the name can be compared and differs; a member exactly when it passes and a known drive matches or a reference agrees; a candidate exactly when nothing it says of its pool can be compared |
| `DriveReconciliation.SinglePoolIsSound` | custom_components/unifi_unas/storage_drives.py:356-378 | the result is empty or has exactly the declared number of drives, no two of them match, and each stems from a global disk that neither says that it is a spare nor names another pool |
| `DriveFilters.SparesNeverCount` | custom_components/unifi_unas/storage_drives.py:391-392 | a disk that says that it is a spare, by a flag or a status text, never changes the answer, wherever it stands among the global disks |
| `DriveFilters.HotSpareNeverCounts` | custom_components/unifi_unas/storage_drives.py:546-559 | a concrete one: a disk that says `hotSpare` and nothing else |
| `DriveFilters.ForeignDisksNeverCount` | custom_components/unifi_unas/storage_drives.py:393-394 | nor does a disk with a stable reference to another pool |
| `DriveFilters.OnlyRecordsCount` | custom_components/unifi_unas/storage_drives.py:368-372 | nor does anything on the global list that is no record |
| `DriveReconciliation.SinglePoolAnswers` | custom_components/unifi_unas/storage_drives.py:356-418 | a pool that is alone, declares its drives and has the global list gets a result exactly when the sure members are as many as declared, or the candidates fill the gap exactly and none of them matches a member |
| `DriveReconciliation.CountDeclared` | custom_components/unifi_unas/storage_drives.py:338-343 | a stated drive count is the declared one, as a number or as its text |
| `DriveReconciliation.SinglePoolCovers` | custom_components/unifi_unas/storage_drives.py:391-418 | no disk that is surely a member is missing from a result, other than as a duplicate |
| `DriveReconciliation.CompletionNeverShrinks` | custom_components/unifi_unas/storage_drives.py:346-353 | completion never returns fewer drives than the local list, and replaces it only by a list of the declared length |
| `MergedIdentity.MergedMatchesExactly` | custom_components/unifi_unas/storage_drives.py:399-401 | where no identity field is an object in both records, the merged record matches the disk and the known drive exactly when in some group, and in every strong group to which the other record contributes, it keeps a value of each |
| `MergedIdentity.MergedStillMatches` | custom_components/unifi_unas/storage_drives.py:399-401 | a record merged of two that match still matches both, if the disk keeps every blank value that both have |
| `MergedIdentity.NoBlankStillMatches` | custom_components/unifi_unas/storage_drives.py:399-401 | in particular if the known drive has no blank identity value |
| `MergedIdentity.MergeCanLoseIdentity` | custom_components/unifi_unas/storage_drives.py:483-501 | a disk with an empty serial list and a known drive give a merged record that conflicts with its disk |
| `DriveReconciliation.OrderDecides` | custom_components/unifi_unas/storage_drives.py:463-467 | three disks show that identity is not transitive and that their order decides how many are kept |
| `DriveOrder.OrderDecidesAnswer` | custom_components/unifi_unas/storage_drives.py:356-418 | the same three global disks give a single pool its two declared drives in one order and nothing in another |
| `DriveOrder.OrderDoesNotDecide` | custom_components/unifi_unas/storage_drives.py:356-418 | where identity is transitive among the records that the disks stand for, every order of the same global disks gives an answer or none alike, and of equal length |
| `PoolLookup.FromKey` | custom_components/unifi_unas/storage_pools.py:344-383 | the lookup in loop form is the specified one: own key, then numbered key, then token |
| `PoolLookup.OwnKeyFindsFirst` | custom_components/unifi_unas/storage_pools.py:321-355 | a pool's own key finds the first pool with that key, and the pool itself exactly when no earlier pool shares it |
| `PoolLookup.SecondPoolIsHidden` | custom_components/unifi_unas/storage_pools.py:321-355 | pools named "a b" and "a-b" share a key, and the second pool's own key finds the first |
| `PoolLookup.IndexedKeyStillFinds` | custom_components/unifi_unas/storage_pools.py:353-361 | the numbered key of a place finds the pool there exactly when no other pool owns that key before it |
| `PoolLookup.RetiredKeyFindsFirst` | custom_components/unifi_unas/storage_pools.py:363-383 | a key that no pool owns and that numbers no place finds the first pool with a text under one of eleven fields, or a name, of the same letters and digits, and nothing if there is none |
| `PoolLookup.OldKeyStillFinds` | custom_components/unifi_unas/storage_pools.py:363-383 | such a text of a pool still finds that pool, unless an earlier one answers to it |
| `PoolLookup.KeylessPoolIsNumbered` | custom_components/unifi_unas/storage_pools.py:321-342 | a pool without any of the thirteen fields is keyed by its place counted from one, and found by that key unless an earlier pool owns it |
| `PoolLookup.NameMeans` | custom_components/unifi_unas/storage_pools.py:386-411 | a pool shows its first name text, else its first id text that is not 24 or more hexadecimal digits, else its place |
| `PoolLookup.SlugIsStable` | custom_components/unifi_unas/storage_common.py:51-54 | a slug is its own slug, and the case of letters makes no difference |
| `StorageView.View.constructor` | custom_components/unifi_unas/storage_view.py:14-17 | a new view reads the pools of its payload and no drives yet |
| `StorageView.View.Drives` | custom_components/unifi_unas/storage_view.py:23-28 | drives of a pool of the view equal a fresh reading, are read at most once, and no other kept list changes |
| `StorageView.Coordinator.StorageView` | custom_components/unifi_unas/storage_view.py:31-38 | when every change in place was followed by a listener update, the view agrees with a fresh reading of the current payload; it is kept while the payload object stays |
| `StorageView.Coordinator.UpdateListeners` | custom_components/unifi_unas/coordinator.py:116-119 | a listener update drops the view and with it every doubt about changes in place |
| `StorageView.Coordinator.Replace` | custom_components/unifi_unas/storage_view.py:31-38 | replacing the payload object keeps that guarantee without a listener update |
| `StorageView.Coordinator.DrivesOf` | custom_components/unifi_unas/storage_view.py:23-38 | the memoised drives of a pool equal a fresh reading of the current payload's pool |

## Left out

- HTTP transport, login, cookies and JSON parsing; a response is a status, a refused session or no answer.
- Logging, log throttling, error texts, redaction, repair wording, translations, entity classes, config flow, discovery and Wake-on-LAN.
- Fan mode and backup refreshers: only their share of the time budget is modelled.
- Throughput, capacity, percentage, temperature and status helpers: they would only add easy members.
- Snapshot timestamps are integers already parsed; ids, names, descriptions, paging fields and the choice of the first list in a payload wrapper are not modelled.
- Python's `int()` and `float()` beyond ASCII decimal integers, and letters beyond ASCII in `lower`, `strip` and `isalnum`; the text of a list or object value is a fixed placeholder.
- InventoryScheduler.Coordinator.GetInventory: does not model a direct call without an open batch, which the coordinator never makes.
- InventoryScheduler.Coordinator.VisitAdvertised: a refresh request of another task can come in at an await only.
- InventoryFairness.BoundedFairness: assumes that no pass of the run is aborted, because an aborted pass drops the queue.
- OptionalBudget.FairBudgets: counts time in real numbers and takes a refresher to stop exactly at its budget.
- SettingsCodec.RewriteIsCanonical: assumes that the device returns a written `maxSnapshots` as `maxCount` and the schedule fields unchanged.
- SerialOrder.SerialEquivalence: what a DELETE makes of a document is a parameter; a settings read is one atomic step; two listed items with one key are not told apart; answers are taken to be truthful about acceptance and absence.
- MissingTargets.LiveTargetCounts: settings lists carry a fresh version each, where the program compares object identities, which a list that no call counted can hand on; entities that are removed while the integration runs, and clearing all repairs, are not modelled.
- The merge of duplicate global disks (storage_pools.py:190-205) lets an empty later value overwrite a useful one, so nothing is claimed of it.
- DriveReconciliation.CompletionNeverShrinks: holds for any local list; the five collectors that produce one are not modelled.
- MergedIdentity.MergedStillMatches: fields that are objects in both records, which the merge fills from inside, are excluded, for what identity reads of them is the text of objects, which is not modelled.
- LateWrites.LateExactly: speaks of the first late request that follows a later read of its target; what the documents are after more of them is `LandingOrder.EveryRun`.
- ConcurrentSettings.AllUpdatesSurvive: takes every counted turn to be a PUT, for what a DELETE makes of a document is a parameter.
- DriveOrder.OrderDoesNotDecide: one way only; orders can agree by the declared count alone.
- StorageView.Coordinator.StorageView: how pools and drives are read from a payload are parameters; nested objects that a view shares with its payload are values, which only matters while the guarantee is suspended.
- `snapshot_target_missing_counts`, the summary of missing targets for diagnostics.
