# Admission, staging and scratch protocols of the postdoc worker, verified

This project models the hand-written concurrency and arithmetic of the postdoc
worker in Dafny 4.11 and proves what it relies on. `dafny verify dfyconfig.toml`
checks everything.

Shared-counter protocols are transition systems. A state holds the shared
counters, the waiter set and one program counter per task; one event is one
atomic operation with the local work around it, so the gap between an atomic
update and the notification that follows it is a state of its own. `Exec` runs a
sequence of events from the initial state, and the theorems quantify over every
number of tasks and every such sequence. Next to each protocol stands the code
one task sees: the same objects as classes with the same fields, updated in
place.

| Files | Modelled |
|---|---|
| `InputBudgetProtocol`, `InputDelivery`, `InputDownload` | the byte budget of in-memory inputs, what the downloads under it hand on, and the download loop |
| `SpoolProtocol`, `SpoolHistory`, `Spool` | the disk-spool budget whose reservations grow while a body streams |
| `MemoryGateProtocol`, `MemoryGateHistory`, `MemoryGate` | the memory admission gate and its weak compare-and-swap loop |
| `StagingLedger`, `StagingProtocol` | producer, bursts, downloads, channel and slots of the prefetch pipeline |
| `BurstService`, `EmptyExit`, `ClosedReceiver`, `WindDown` | that pipeline serving a burst, when it is to exit once empty, once its receiver has closed, and how it ends |
| `ReorderWindow` | size-aware dispatch with ageing and the sighted tier |
| `ScratchProtocol`, `ScratchOwner`, `Scratch` | ownership of scratch directories under crashes and concurrent sweeps |
| `Watchdog` | the stall watchdog over runs of ticks |
| `LocalIndex` | the local sample index over a changing filesystem |
| `CivilDate` | timestamps: days to civil date, printing, reading back |
| `EvenSpread`, `Handout` | the benchmark server's orders and its claim cursor |
| `RateWindow` | the ring of one-minute buckets behind the throughput figure |
| `Cidr` | allow-listed networks, peer normalization, digest comparison |
| `VerdictFold` | folding engine outcomes into a verdict |
| `Prelude` | optional values, machine words, sums over tasks |

## What the proofs found

These statements are false of the code as one might wish them. Each comes with
the exact condition under which it holds.

- A staging task calls `notify_one` before it completes (src/worker.rs:3763-3769).
  A producer that runs in between finds nothing to reap and sleeps again, so a
  closed receiver can go unnoticed (`ClosedReceiver.ClosedReceiverMayGoUnnoticed`);
  the comment at src/worker.rs:3765-3766 promises otherwise. It also goes unnoticed
  when every download was delivered before the close and the depth stays full: the
  burst then counts as accepted. A sleeping producer can come to notice, short of a
  stop, exactly when a download is not out, a slot holds a job, there is room for
  another claim, or a burst has been refused and somebody still has a notification
  to send (`ClosedReceiver.NoticedIffNoticeable`). This concerns `prefetch_loop` as its
  callers and tests may use it: `run` keeps its own handle on the receiver until
  after it has aborted the prefetcher (src/worker.rs:2633-2675), so a running
  worker never closes the receiver first.
- A crash between deleting a marker and removing its directory leaves a directory
  no sweep will ever take; an abandoned directory can be reclaimed exactly when its
  marker is still there or a live sweeper is already on it
  (`ScratchProtocol.ReclaimableIffMarked`, `ScratchProtocol.SweepCanForget`). The
  log text at src/temp_space.rs:100 ("next startup will retry") overstates this.
- A file of the requested name that cannot be read, or whose metadata cannot, makes
  `resolve` fail although the plain lookup would have answered, and `locate` then fails the job; the comment
  at src/worker.rs:315-317 calls the index never a prerequisite
  (`LocalIndex.UnreadableNamesakeHidesTheSample`). `LocalIndex.LocalFileIndex.Resolve`
  says exactly when it fails.
- The watchdog sees a frozen worker exactly when the analyses beyond the first 64
  of the census were on record before the freeze (`Watchdog.FrozenAborts`).
- The spool counter saturates at 2^64-1, a budget the configuration saturates to
  (src/worker.rs:1205-1207). Its accounting is exact on every run just when the
  budget is smaller or fewer than 2^30 payloads are spooled at once
  (`SpoolProtocol.ExactBelowTheTop`), so it is exact on any real host.
- The throughput ring is exact after every record just when no late record meets a
  minute of the window that has events (`RateWindow.ExactIffHarmless`).
- Report timestamps are RFC 3339 just until the year 10000
  (`CivilDate.StampRoundTrip`).
- An IPv6 network admits no normalized peer exactly when it lies inside the
  IPv4-mapped range (`Cidr.MappedNetworkAdmitsNobody`).
- The benchmark server hands out each job once, for all claims up to a given
  total, exactly when that total is below 2^64 (`Handout.EachJobOnce`).

A filter in the configuration turns out to be needed: overtaking of an overdue job
is bounded exactly when the ageing bound is not zero
(`ReorderWindow.BoundedExactlyWithAgeing`), and src/worker.rs:1198-1200 never lets
a zero through, so the bound holds in every configured worker.

## Assumptions

Clocks, live memory readings, free disk, response lengths and chunks, the order
in which the kernel lists a directory, and every scheduling decision are inputs of
events and methods, so all values are covered. SHA-256 is a digest carried by each
file: the proofs use equality of digests only. Beyond that:

- The memory gate's ceiling is below 2^64-1 and estimates are positive, as
  src/admission.rs:207-215 and 315-319 make them; ids do not wrap.
- A buffer's capacity is exactly what was asked for; the moment in which a
  growing `Vec` keeps its old and its new allocation is not visible.
- Leaving `download_input` on an error is one step (src/worker.rs:4973-4984 drop
  the reservation and the bytes one after the other).
- Scratch directory names are never reused.
- For the index, a path that keeps its size and modification time keeps its
  content.
- Clocks are monotone.
- A payload is within the per-job cap before it reserves spool space
  (src/worker.rs:3881-3891), and so is the reroute's reservation
  (src/worker.rs:3929), whose memory threshold is at most half the cap
  (src/worker.rs:2406-2408, 2570-2579).
- One watchdog tick reads each phase once.

## Model

| member | source | states |
|---|---|---|
| InputBudgetProtocol.RunInv | src/worker.rs:1664-1708 | every interleaving keeps: counter equals live charges and is within the limit; a parked, un-notified request does not fit or a release is on its way to `notify_waiters` (no lost wake-up) |
| InputBudgetProtocol.NoWakeupIsLost | src/worker.rs:1664-1701 | in every reachable state a request parked un-notified does not fit, or a releaser between `fetch_sub` and `notify_waiters` will notify it |
| InputBudgetProtocol.ChargeFollowsBytes | src/worker.rs:1689-1731 | in every reachable state the counter is the sum of live reservations, within the limit, and covers every allocated buffer, task by task and in total, through re-reserve, growth, shrink, hashing thread and last clone |
| InputBudgetProtocol.NoHoldAndWait | src/worker.rs:4907-4933 | whoever waits in `reserve` holds nothing; a waiter nobody is about to notify is kept out by a live reservation of a task that is not waiting |
| InputBudgetProtocol.ParkedRequestCanBeGranted | src/worker.rs:1664-1686 | from every reachable state some continuation grants any parked request |
| InputBudgetProtocol.PowerAtLeast | src/worker.rs:4960-4964 | geometric growth ends at a doubling of its start that reaches what is needed and stays below twice that |
| InputDelivery.DeliveredIsBody | src/worker.rs:4973-4992 | in every reachable state a payload handed on is exactly the body received, its digest was compared and matched, and its owners are those the run made |
| InputDelivery.HashDecides | src/worker.rs:4984-4992 | a matching body still awaited is handed on whole; a mismatching or abandoned one is thrown away and its budget given back; no other payload is touched |
| InputDelivery.CancelledIsDropped | src/worker.rs:4976-4983 | a download cancelled while hashed keeps its charge until the hash is done, then goes |
| InputDelivery.WokenIffNotified | src/worker.rs:1667-1684 | a parked request moves on if and only if `notify_waiters` was called since it registered |
| InputDelivery.AsksAgainOnlyForMore | src/worker.rs:4914-4929 | a download asks at most twice, the second time only because its response needed more, and for that |
| InputDelivery.AnyBodyCanBeDelivered | src/worker.rs:4900-4993 | from every reachable state an idle task can download and hand on any body the budget can hold, also when its size was understated |
| InputDelivery.OwnersKeepPayload | src/worker.rs:1717-1731 | a payload stays whole while an owner is left and goes with the last |
| InputDelivery.EverythingCanEnd | src/worker.rs:1696-1708 | every reachable state can come to rest with nothing charged and nobody waiting |
| InputDownload.InputBudget.TryReserve | src/worker.rs:1672-1683 | succeeds just when the bytes fit, and counts exactly them |
| InputDownload.InputReservation.Shrink | src/worker.rs:1696-1702 | keeps the smaller of the two sizes and returns exactly the difference |
| InputDownload.ReceiveBody | src/worker.rs:4933-4972 | returns the whole body just when length and body fit the reservation; capacity never exceeds the reservation nor twice the body or the announced length; afterwards the charge is the payload's size |
| SpoolProtocol.BytesStayCharged | src/worker.rs:1785-1844 | in every reachable state: counter is the sum of reservations, no file outgrows its own, and the budget is exceeded only by a reservation that is alone (for every budget, or fewer than 2^30 payloads at the saturated one) |
| SpoolProtocol.RefusalNeedsCompany | src/worker.rs:1896-1909 | the budget refuses a payload only while another one is charged |
| SpoolProtocol.ExactBelowTheTop | src/worker.rs:1899-1902 | saturating accounting is exact on all runs if and only if the budget is below 2^64-1 or fewer than 2^30 payloads can be spooled at once |
| SpoolHistory.StagedIsBody | src/worker.rs:5035-5065 | a staged payload is the whole body received, all of it on disk |
| SpoolHistory.AnyBodyCanBeSpooled | src/worker.rs:5035-5065 | from every reachable state an idle task can spool any body within the cap that its reservation or the budget can hold |
| SpoolHistory.StepsAhead | src/worker.rs:1822-1824 | a growing reservation reaches for 64 MiB past what was written, or the per-job cap |
| SpoolHistory.EverythingCanEnd | src/worker.rs:1840-1844 | every reachable state can come to rest with every file gone and nothing charged |
| Spool.SpoolState.TryReserve | src/worker.rs:1881-1910 | succeeds just when the headroom stays free and the bytes fit the budget or the spool is idle, in plain arithmetic; changes nothing otherwise |
| Spool.SpoolReservation.Cover | src/worker.rs:1818-1833 | covers the bytes or changes nothing; never refuses what the budget can hold; steps 64 MiB ahead when that fits, else covers exactly; leaves the others' share alone |
| Spool.SpoolReservation.Release | src/worker.rs:1840-1844 | gives back exactly this reservation |
| Spool.DownloadToSpool | src/worker.rs:5035-5065 | the file is a prefix of the body, within its reservation throughout; success just when the body fits cap and budget (absent disk pressure) |
| Spool.BodyIsPrefix | src/worker.rs:5037-5053 | what is written after any number of chunks is a prefix of the body |
| MemoryGateProtocol.ReservedIsLive | src/admission.rs:515-615 | in every reachable state `reserved` is what live jobs reserved, equals in-flight plus unlisted minus lingering, and exceeds the ceiling only for a job that is alone |
| MemoryGateProtocol.RefusalNeedsCompany | src/admission.rs:529-558 | a step that refuses a job happens while another job is charged |
| MemoryGateProtocol.NoWakeupIsLost | src/admission.rs:429-436 | with no release on its way, an un-notified waiter waits beside a live reservation, and one refused for reservations still does not fit |
| MemoryGateProtocol.IdleGateAdmits | src/admission.rs:530-535 | with nothing reserved any parked job is admitted when it asks again, whatever its estimate and the live readings |
| MemoryGateProtocol.ParkedJobCanBeAdmitted | src/admission.rs:429-504 | from every reachable state some continuation admits any parked job |
| MemoryGateProtocol.RunInv | src/admission.rs:429-504 | every interleaving, with waiting jobs dropped at any time, keeps accounting, unique ids, list contents, and no lost wake-up: an un-notified waiter is refused by live reservations or a release is under way |
| MemoryGateProtocol.WithoutOne | src/admission.rs:610-613 | `retain` removes the one entry of an id and its estimate, and nothing else |
| MemoryGateHistory.LookDecides | src/admission.rs:529-558 | a look parks a job exactly when another is charged and it would exceed the ceiling by reservations or live use, or not leave the host its floor, in that order |
| MemoryGateHistory.AdmissionLeavesRoom | src/admission.rs:535-570 | a job admitted beside another leaves the ceiling and the floor what the readings it took last need |
| MemoryGateHistory.WokenIffNotified | src/admission.rs:433-502 | without the timer a waiting job moves on if and only if it was notified since it registered; ids are handed out one by one |
| MemoryGateHistory.AnyJobCanBeAdmitted | src/admission.rs:409-446 | from every reachable state any job of any estimate can be admitted and listed, whatever the readings |
| MemoryGateHistory.EverythingCanEnd | src/admission.rs:601-615 | every reachable state can come to rest: all jobs gone, nothing reserved, both lists empty |
| MemoryGate.DynamicEstimate | src/admission.rs:200-216 | always between the flat and the archive bound; flat for anything but an archive of known size, which adds its multiplied size up to the cap |
| MemoryGate.EstimateGrows | src/admission.rs:209-212 | a larger archive or multiplier is never estimated at less |
| MemoryGate.MemoryAdmission.TryReserve | src/admission.rs:515-570 | the counter at the last look decides, in plain arithmetic: reservations, then live use, then the host floor; all earlier looks passed; an admission adds to exactly the value checked; ceiling zero admits all |
| MemoryGate.MemoryAdmission.Register | src/admission.rs:573-599 | appends the job under a fresh id |
| MemoryGate.MemoryAdmission.Release | src/admission.rs:601-615 | subtracts the estimate and filters the id out |
| MemoryGate.AdmitThenDrop | src/admission.rs:691-695 | admitting and dropping a guard restores counter and list |
| MemoryGate.WithoutLast | src/admission.rs:610-613 | releasing the job listed last restores the list |
| StagingLedger.MoveConserves | src/worker.rs:3812-3832 | no move of a job between downloads, channel, window and slots loses, invents or duplicates one, and only claim, loss and dispatch change the depth |
| StagingLedger.NoDepthNothingStaged | src/worker.rs:3723-3728 | zero depth means nothing is downloading, queued, windowed or undelivered |
| StagingProtocol.ExactlyOnce | src/worker.rs:3629-3834 | in every reachable state each claimed job is in exactly one place; `outstanding` is what is staged (plus what a stop or closed receiver dropped) and within the target depth; downloads stay within the gate |
| StagingProtocol.NeverSleepsOnRoom | src/worker.rs:3656-3673 | a producer parked on free room has a wake-up already enabled |
| StagingProtocol.ReturnLeavesNothingStaged | src/worker.rs:3718-3728 | a producer that returns unprompted was told to exit when empty and leaves nothing staged anywhere |
| BurstService.ClaimTakesWhatFits | src/worker.rs:3658-3762 | a claim asks for the room left, at most one job a slot, and takes that many of the jobs handed out, from the front, each to be downloaded once |
| BurstService.AnyBurstCanBeServed | src/worker.rs:3624-3628 | from every reachable state at work, any burst within target depth and slots can be claimed whole and dispatched to its last job |
| BurstService.SleepsUnlessNotified | src/worker.rs:3664-3672 | in every reachable state the producer sleeps exactly when it awaited a notification, none was in store and none came since; any number sent to a producer awake counts as one |
| EmptyExit.ReturnsIffToldTo | src/worker.rs:3718-3729 | from every reachable state, left alone, the producer can come to return if and only if it was told to exit when empty and has room to ask: all that is staged can be finished first |
| WindDown.StopEndsEverything | src/worker.rs:3644-3672 | from every reachable state a stop can end the producer, every burst, download and slot, although the server answers nothing, no download gets any further and no staged job is taken up |
| WindDown.ReturnEndsEverything | src/worker.rs:3718-3728 | once the producer has returned by itself, the bursts and slots can end without a stop, and by then every job ever claimed was dispatched or lost |
| StagingProtocol.LeaveMeansDone | src/worker.rs:2834-2838 | a slot is told that no work is coming only when every claimed job reached a slot, was lost or was dropped |
| ClosedReceiver.NoticedIffNoticeable | src/worker.rs:3642-3673 | in every reachable state with a closed receiver and a sleeping producer, some run without a stop ends with the producer returned if and only if a download is not out, a slot holds a job, there is room, or a burst has been refused and somebody has a notification to send |
| ClosedReceiver.WokenIffRousable | src/worker.rs:3763-3769 | in those states some run without a stop wakes the producer if and only if a staging task has not sent its last notification or a slot has depth to give back or announce |
| ClosedReceiver.RefusalIsReaped | src/worker.rs:3645-3655 | a refused burst that will still notify a sleeper can always be run until the producer reaps it and returns |
| ClosedReceiver.BurstRouses | src/worker.rs:3812-3833 | a staging task that has not sent its last notification can always be run until it sends one: the permits are never stuck |
| ClosedReceiver.ClosedReceiverMayGoUnnoticed | src/worker.rs:3763-3769 | there is a run after which the receiver is closed, every staging task has completed, and no event short of a stop ever wakes the producer |
| StagingProtocol.RunInv | src/worker.rs:2535-2538 | every interleaving of claims, downloads, dispatches, panics, stop and close keeps the pipeline invariant |
| ReorderWindow.Choose | src/worker.rs:1537-1564 | something is chosen just when the window is not empty |
| ReorderWindow.ChoicePriorities | src/worker.rs:1515-1564 | sighted before anything, then whoever has waited `max_wait` out by the clock, oldest first; otherwise the extreme size, unknown counting as zero |
| ReorderWindow.ChoiceTies | src/worker.rs:1541-1561 | among equals the first oldest or smallest goes, and the last largest |
| ReorderWindow.SwapRemoveKeepsOthers | src/worker.rs:1544-1565 | `swap_remove` takes out the chosen entry only |
| ReorderWindow.JobSource.Sweep | src/worker.rs:1495-1497 | the channel moves into the window, in order, each job with its own clock reading |
| ReorderWindow.JobSource.PickFromReorder | src/worker.rs:1517-1566 | hands out the chosen entry and removes it |
| ReorderWindow.JobSource.Recv | src/worker.rs:1489-1508 | nothing invented, lost or handed out twice; `None` only when closed and empty; handout order is kept under FIFO |
| ReorderWindow.NoLateOvertaking | src/worker.rs:1546-1565 | until an overdue job is picked, each ordinary pick uses up one job staged no later; later arrivals never pass it |
| ReorderWindow.BoundedExactlyWithAgeing | src/worker.rs:1547-1552 | the picks ahead of an overdue job are bounded by the older ones in the window, for all histories, if and only if the ageing bound is positive, as the configuration makes it |
| ScratchProtocol.LiveScratchIsUntouched | src/temp_space.rs:29-40 | in every reachable state, no event but the owner's own changes a directory in use |
| ScratchProtocol.RemovalIsExclusive | src/temp_space.rs:141-150 | at most one sweeper removes a directory, never one in use |
| ScratchProtocol.AbandonedIsFree | src/temp_space.rs:95-104 | in every reachable state the lock of a directory whose owner is gone is free or held by a live sweeper already removing that directory |
| ScratchProtocol.SweepReclaims | src/temp_space.rs:107-161 | one undisturbed sweep by any live process removes every marked directory nobody holds and leaves all others exactly as they were |
| ScratchProtocol.ReclaimableIffMarked | src/temp_space.rs:127-130 | any abandoned directory can still be reclaimed if and only if its marker is there or a live sweeper is on it |
| ScratchProtocol.SweepCanForget | src/temp_space.rs:149-158 | there is a run that leaves a published directory of a dead owner unreclaimable |
| ScratchOwner.HoldsWhatWasKept | src/temp_space.rs:29-40 | in every reachable state a directory in use holds exactly what its owner put there, and while live it and its marker are in place |
| ScratchOwner.OwnerCanOpen | src/temp_space.rs:29-40 | any live process can set up a directory of its own, locked, marked and empty, changing nothing else |
| ScratchOwner.OwnerCanClose | src/temp_space.rs:95-104 | an owner can always close its directory alone: nothing of it is left, the lock is free, nothing else changed |
| Scratch.TempSpace.CleanupStale | src/temp_space.rs:107-161 | an entry is gone exactly when it is a prefixed, real, own, marked, unlocked, deletable directory; all others are untouched, and the count is right |
| Watchdog.SummaryTicker.CheckStall | src/worker.rs:3272-3329 | progress time, counters and verdict after one check, for any census |
| Watchdog.SummaryTicker.LogCensus | src/worker.rs:3415-3431 | records the phases of the first 64 entries and no others |
| Watchdog.SummaryTicker.Wake | src/worker.rs:3040-3096 | one wake is the tick function, verdict included |
| Watchdog.AbortMeansFrozen | src/worker.rs:161-174 | before an abort, over a stretch at least as long as both thresholds, every summary saw a slot busy, and from any summary to any later one no counter changed, no analysis started and none changed its stage |
| Watchdog.StagesAreHistory | src/worker.rs:3279-3283 | a phase on record was shown by an earlier summary and its analysis stayed in flight |
| Watchdog.FrozenAborts | src/worker.rs:3272-3329 | a frozen run aborts at every summary past the threshold if and only if the entries beyond the 64th were on record; always with at most 64 |
| Watchdog.FrozenVerdicts | src/worker.rs:161-174 | by the clock alone, what every summary of a frozen run concludes: nothing, a warning from `warn_after` on, the end from the longer threshold on; with an unrecorded entry past the 64th not even a warning |
| LocalIndex.ResolveOnDisk | src/worker.rs:337-367 | a path found is under the root and holds the digest; nothing is found just when the contained path, if any, does not hold it visibly and readably in the requested size |
| LocalIndex.IndexNames | src/worker.rs:420-443 | every file is listed under its own name and nowhere else |
| LocalIndex.LocalFileIndex.FileMatches | src/worker.rs:654-695 | through stale entries and write-once slots the answer is right for the present disk; it fails just when the metadata cannot be read, or the content cannot and no valid hash is on record |
| LocalIndex.LocalFileIndex.FileIdForPath | src/worker.rs:635-652 | finds the indexed file at exactly this path, if any |
| LocalIndex.LocalFileIndex.Candidates | src/worker.rs:576-613 | exactly the direct file and the files of that name and size |
| LocalIndex.LocalFileIndex.Resolve | src/worker.rs:546-633 | a returned path holds the digest; nothing the disk or an indexed file could answer is reported missing; it fails if and only if the file on record is unanswerable, or does not hold the digest and an unanswerable candidate precedes every matching one |
| LocalIndex.LocalFileIndex.ResolveAll | src/worker.rs:546-633 | over any succession of requests and disks every answer is right for the disk of its moment |
| LocalIndex.UnreadableNamesakeHidesTheSample | src/worker.rs:308-317 | a fresh index fails where the plain lookup answers |
| CivilDate.YearOfEraIsRight | examples/report.rs:122 | the correction terms pick the year of the era that holds the day, for every day of it |
| CivilDate.CivilStep | examples/report.rs:118-128 | consecutive day numbers give valid, consecutive dates of the Gregorian calendar |
| CivilDate.CivilIsTheCalendar | examples/report.rs:118-128 | the date of day n is n calendar days after 1970-01-01 |
| CivilDate.DaysToCivil | examples/report.rs:118-128 | counting days up to the computed date gives the input back |
| CivilDate.CivilReaches | examples/report.rs:118-128 | every valid date from 1970 on is the date of its day count |
| CivilDate.StampRoundTrip | examples/report.rs:112-130 | the stamp has RFC 3339's width if and only if the year is below 10000, and then has its digits and separators in place and reads back as the input |
| CivilDate.ReadIsStamp | examples/report.rs:129 | a text that reads as a second is the stamp of that second: no other text does |
| EvenSpread.SortSorted | scripts/bench-hopper.rs:659 | the sort orders by key and permutes |
| EvenSpread.SortIsStable | scripts/bench-hopper.rs:659 | entries already in key order keep their order |
| EvenSpread.KeyAll | scripts/bench-hopper.rs:645-658 | each job gets the key of its position within its class |
| EvenSpread.OrderMixed | scripts/bench-hopper.rs:638-663 | reorders the slice in place into the mixed order |
| EvenSpread.MixedIsPermutation | scripts/bench-hopper.rs:638-663 | no job is lost or repeated |
| EvenSpread.MixedKeepsClassOrder | scripts/bench-hopper.rs:638-663 | each size class keeps its original order |
| EvenSpread.EvenlySpread | scripts/bench-hopper.rs:638-663 | in every prefix each class is at most 3 below and 1.5 above its proportional share |
| EvenSpread.OneMore | scripts/bench-hopper.rs:655 | with at most 2^32 jobs in a class its floored keys are distinct, so a limit raised by one admits at most one more |
| EvenSpread.SameClass | scripts/bench-hopper.rs:551-562 | two sizes share a class exactly when neither 1 MiB nor 32 MiB lies between them |
| Handout.StateNeverZero | scripts/bench-hopper.rs:197-204 | the generator never reaches the zero state, from any seed, in any number of steps |
| Handout.KnownStart | scripts/bench-hopper.rs:197-204 | the first step and the first number from the smallest seed |
| Handout.Shuffle | scripts/bench-hopper.rs:624-637 | shuffles the slice in place into the shuffled order |
| Handout.ShuffleIsPermutation | scripts/bench-hopper.rs:624-637 | no element is lost or repeated |
| Handout.SeedNamesAPermutation | scripts/bench-hopper.rs:625-626 | a seed and a length name one permutation of positions, whatever the elements |
| Handout.EachJobOnce | scripts/bench-hopper.rs:377-386 | all claims up to a given total hand out the jobs once each and in order if and only if the total is below 2^64 (one more for a single job; any total for none) |
| Handout.DrainedIffPast | scripts/bench-hopper.rs:382-385 | nothing is left exactly when the cursor has passed the jobs |
| Handout.WrapServesAgain | scripts/bench-hopper.rs:381 | claims that go once around the counter reset the server: what follows is served as if from the start |
| RateWindow.Window.Record | src/worker.rs:2153-2159 | the buckets stay the replay of the recorded history |
| RateWindow.Window.PerSec | src/worker.rs:2161-2169 | the rate is the bucket sum over 900 seconds, and for records on time the count of recent events |
| RateWindow.RingCountsRecent | src/worker.rs:2138-2169 | for records less than 15 minutes behind the newest and queries at or after it, the ring counts the last 15 minutes of history (modulo 2^32) |
| RateWindow.LateRecordLoses | src/worker.rs:2155-2157 | a later record wipes out exactly the events of the minute that shares its bucket |
| RateWindow.ExactIffHarmless | src/worker.rs:2153-2169 | the ring is exact after every record if and only if each record is on time or meets an empty minute |
| Cidr.ParseBounds | src/server/acl.rs:53-75 | of the texts `addr/n`, exactly those with a readable address and a prefix no longer than it parse, to that network; prefix 0 matches the whole family and nothing else |
| Cidr.ParseErrors | src/server/acl.rs:53-75 | which error a text `addr/n` gives, if any |
| Cidr.PrefixNeedsDigits | src/server/acl.rs:64-66 | a prefix that is empty or holds anything but digits after an optional plus never parses |
| Cidr.NeedsSlash | src/server/acl.rs:55-57 | a text without a slash never parses |
| Cidr.ContainsIffLeadingBits | src/server/acl.rs:77-95 | containment is agreement of family and leading bits, for 32 and 128 bits |
| Cidr.ContainsIffInterval | src/server/acl.rs:77-95 | a network is the aligned interval of 2^host addresses around its own |
| Cidr.NestedOrDisjoint | src/server/acl.rs:77-95 | of two networks of a family the narrower lies inside the other or they share nothing; its address decides |
| Cidr.WithinIff | src/server/acl.rs:77-95 | one network lies in another if and only if its prefix is no shorter and its address lies there |
| Cidr.MaskValue | src/server/acl.rs:83-90 | the shifted all-ones word is the mask of the leading bits |
| Cidr.NormalizedPeers | src/server/acl.rs:108-118 | an IPv4 network admits its own addresses and their IPv4-mapped forms, nothing else |
| Cidr.MappedNetworkAdmitsNobody | src/server/acl.rs:108-118 | an IPv6 network admits no normalized peer if and only if it lies inside the IPv4-mapped range |
| Cidr.NormalizedAgainstV6 | src/server/acl.rs:108-118 | compared with an IPv6 network, normalizing loses exactly the mapped members |
| Cidr.Matches | src/server/acl.rs:226-233 | the accumulating comparison says yes if and only if the digests are equal |
| VerdictFold.WorseOfIsMaximum | src/combine.rs:39-56 | the worse of two outcomes is the greater in the order, never a third one |
| VerdictFold.FoldIsGreatest | src/combine.rs:39-56 | any grouping of a fold returns one of its inputs, the greatest |
| VerdictFold.FoldIgnoresOrder | src/combine.rs:39-56 | folds over the same outcomes agree, whatever order, grouping or repetition |
| VerdictFold.FoldIsWorst | src/combine.rs:39-56 | a fold is hostile if and only if some outcome is, benign if and only if all are, and carries the tightest budget measured in its band |
| VerdictFold.VerdictIsGreatest | src/combine.rs:59-68 | the verdict is the greatest outcome that exists |
| VerdictFold.VerdictIsWorst | src/combine.rs:59-68 | the same of the verdict: one hostile engine makes it hostile |
| VerdictFold.DecidedByPlaces | src/combine.rs:77-92 | the credited judges are those at exactly the places that reported the band, in order |

## Left out

- Global deadlock freedom: `run_job`'s direct-download fallback waits for input budget while holding a tail permit, and queued payloads hold budget while they wait for tails. Progress claims stay within the download path.
- Starvation freedom of large requests: waking everyone lets a smaller request win by design (src/worker.rs:1667-1668).
- Cidr.ParseBounds: does not model the syntax of addresses, which is the standard library's; any reader of them will do.
- Cidr.Matches: does not model timing; only the answer of the full-length loop.
- EvenSpread.EvenlySpread: does not cover size classes of more than 2^32 jobs, whose floored keys collide.
- LocalIndex.LocalFileIndex.Resolve: does not model a request whose digest is not 64 hex characters, which always fails, a disk that changes during one call, nor two calls racing for one hash slot; the winner's value is the same content by assumption.
- Scratch.TempSpace.CleanupStale: does not model disturbance from other processes, nor how a lock or an undeletable file comes about: both are given with each entry. Locks and crashes are the subject of `ScratchProtocol`.
- Watchdog.SummaryTicker.Wake: does not model the wedge reports, breadcrumbs, idle trim and log lines of a wake, nor the instants kept for logging.
- StagingProtocol.ExactlyOnce: does not model what a download fetches or why it fails; a failed download still lands as a job to dispatch, as in the code, and a panicking one is lost.
- The memory gate's cache reclaim during a pause and its diagnostics.
- The order of the walk that builds the index, its threads and progress lines; the index takes any list of distinct paths.
- The FIFO, biggest-first and smallest-first orders of the benchmark server: plain sorts by size and path.
- Token validation beyond the digest comparison, and the authorization header.
- HTTP, TLS, URLs, compression, serialization, tracing, process and cgroup probes, the engines, report assembly, server handlers.
- src/suspend.rs, src/allocator.rs, src/inflight.rs, src/main.rs and src/memory.rs: thin wrappers over kernel or allocator calls and one short minimum.
