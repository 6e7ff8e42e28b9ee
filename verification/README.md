# AnyKeep: verified models of the media stack, the editor history and the folder UI

This project models the parts of AnyKeep in which a wrong branch is hard to see, and proves
what they promise.

- **The media chunk scheduler** (`Scheduler*.dfy`). Callers ask for chunks of immutable media;
  the scheduler fetches each chunk once, however many callers wait for it, keeps lane and global
  limits, bounds starvation, backs off congested lanes and paces itself with a token bucket.
  Callbacks may call back into it at any point. The model is a state machine whose state holds
  the calls suspended inside a callback, so that every re-entrant interleaving is a run; the
  class `MediaChunkScheduler` is proved to perform exactly its steps. The theorems hold for
  every run.
- **Encrypted media at rest** (`Envelope.dfy`, `ManagedBlob*.dfy`, `MediaStore.dfy`,
  `MediaMove.dfy`, `MediaSources.dfy`, `PartialCache.dfy`). The framed container of
  encrypted chunks and its random-access reader, the two media sources with their one-chunk
  caches, moving content out of encrypted storage with every state a crash can leave, and the
  cache of incomplete media with its byte count.
- **Encrypted media on the wire** (`Wire*.dfy`). Chunk geometry in 64-bit arithmetic, records
  with their contexts and nonces, and the seekable stream of the wire object with its
  incremental hash.
- **The HTTP range server** (`MediaRange.dfy`, `RangeHeaders.dfy`, `RangePump.dfy`,
  `RangeReplies.dfy`). Range parsing against RFC 9110, the response as a client reads it, and the
  pump that sends a body with one asynchronous read at a time.
- **The undo history** (`History*.dfy`). Snapshots, scalar deltas that merge in place, nested
  transactions and the undo limit, with a timeline of documents as the invariant.
- **The folder list** (`FolderNotes.dfy`), **routing rules** (`NoteRules.dfy`,
  `RuleOutcomes.dfy`), **folder assignment** (`Assignment*.dfy`) and **plugin versions**
  (`SemVer*.dfy`).

`Basics.dfy` and `Encoding.dfy` hold what several modules need: decimal notation, big-endian
numbers, length-prefixed framing, hexadecimal.

Where a class of the program updates its fields, the model has a class whose methods are proved
against functions on the state; the theorems are lemmas about those functions. Sequences and maps
stand for Qt's containers. AES-GCM is a pair of functions of which only this is assumed
(`Envelope.Lawful`): decryption inverts encryption under the same nonce, ciphertext is as long
as plaintext, and a tag has 16 bytes (`Envelope.LawfulCiphersExist`: such functions exist). Hash
functions are arbitrary functions; where a result needs that no other content shares a content id,
the lemma says so (`MediaStore.CollisionFree`).

`dafny verify dfyconfig.toml` checks the whole project.

## Where a promise does not hold

Some promises fail in corner cases. In each case the model keeps the code's behaviour, and the
lemmas named show the failing inputs and when the promise holds.

- `abandonStopped()` looks its job up again after the callbacks have run, by key and object
  identity but not by sequence, although the header documents the call as one for transfers that
  can no longer complete. The attempt whose slot it gives back was in flight when the call was made
  if and only if the job was active then and was not restarted since
  (`SchedulerLimits.AbandonReleasesItsAttempt`). Both conditions can fail: the job may have been
  waiting and be admitted from inside a callback
  (`SchedulerLimits.AbandonMayReleaseLaterAttempt`), or be restarted
  (`SchedulerLimits.AbandonMayReleaseAnotherAttempt`); a running transfer then loses its slot.
- The token bucket is checked when the pump starts. Once a provider's fetch or abort has returned,
  the loop goes on without looking at the credit: it admits a job, in debt or not, if and only if a
  slot is free and a job is eligible (`SchedulerLimits.DebtDoesNotStopPump`). That is what a new
  pump would do unless the credit is negative (`SchedulerLimits.ResumedLoopIsPacedUnlessInDebt`).
  Every admission out of debt keeps the bound (`SchedulerLimits.CreditMeansAllowance`,
  `SchedulerLimits.AdmissionKeepsAllowanceUnlessInDebt`), and one in debt need not
  (`SchedulerLimits.AdmissionMayExceedAllowance`).
- Undo or redo inside a transaction leaves commands that do not chain; nothing in the code forbids
  the calls (`NoteHistory.UndoInTransactionBreaksChain`, `NoteHistory.UndoKeepsTimeline`,
  `NoteHistory.RedoInTransactionBreaksChain`, `NoteHistory.RedoKeepsTimeline`).
- Requests that denote bytes of the content by RFC 9110 and are answered with 416
  (`MediaRange.ServedIsDenoted`): every list of ranges (`MediaRange.ListsAreRefused`), among them
  `bytes=0-0,-1`, an example of section 14.1.2 (`MediaRange.FirstAndLastAreRefused`); a range unit
  that is not in lower case, although section 14.1 has unit names compared without case
  (`MediaRange.UpperCaseUnitIsRefused`); and a last position or suffix length of 2^63 or more
  (`MediaRange.OverflowingLastIsRefused`). A server may ignore a Range header altogether, but these
  answers are errors. Every other range that denotes bytes is served, exactly.
- The header of the store says that a move makes the content available "for every reference to
  it". A reference that has its own locator keeps following that:
  `MediaMove.OwnLocatorDecidesAfterMove` says exactly when it reads the content, and
  `MediaMove.StaleLocatorHidesMovedContent` is an instance in which it does not. A reference whose
  size or checksum is not the content's finds it before the move but not after it
  (`MediaMove.MoveIsCrashSafe`).
- A sealed record of the partial cache whose identity is so long that the context exceeds the
  overhead limit can be written but not read back (`PartialCache.SealedRecordReadsBack`); an identity
  of 40000 characters is an instance (`PartialCache.LongIdentityIsNotReadBack`).

## Model

| member | source | states |
|---|---|---|
| `SchedulerTheorems.ExactlyOnce` | libanykeep/mediachunkscheduler.cpp:59-457 | Over every run: no ticket is completed twice, a completed ticket is no longer registered, and after shutdown, once the last callback has returned, every ticket ever issued was completed |
| `SchedulerTheorems.TicketBalance` | libanykeep/mediachunkscheduler.cpp:59-178 | An issued ticket is at any time in exactly one place: registered, owed by a suspended call, or delivered |
| `SchedulerTheorems.SlotsAreExact` | libanykeep/mediachunkscheduler.cpp:92-178 | Over every run: `active_` is the number of active jobs, `laneActive_` the exact count of each lane without zero entries, and inactive jobs have a waiter |
| `SchedulerTheorems.AdmissionRespectsLimits` | libanykeep/mediachunkscheduler.cpp:337-380 | An admission leaves the global budget (with external transfers) and the limit of the lane respected |
| `SchedulerTheorems.NothingAdmitted` | libanykeep/mediachunkscheduler.cpp:337-367 | A round of the loop admits nothing only if the budget is used up or no job is eligible |
| `SchedulerTheorems.AdmittedOnce` | libanykeep/mediachunkscheduler.cpp:378-405 | No attempt is fetched twice in any run |
| `SchedulerTheorems.LateCompletionIsHarmless` | libanykeep/mediachunkscheduler.cpp:408-412 | Once an attempt is over it stays over in every later state, and a completion with its number changes nothing |
| `SchedulerTheorems.OutcomesAreRightful` | libanykeep/mediachunkscheduler.cpp:408-436 | Data delivered comes from an admitted attempt; a waiter that joined an attempt while it was being aborted never receives that attempt's failure |
| `SchedulerTheorems.AbortedAttemptIsRetried` | libanykeep/mediachunkscheduler.cpp:416-426 | An aborted attempt that fails while consumers joined leaves its job waiting again, with all its waiters and the largest sequence |
| `SchedulerTheorems.TokenBucketAtPumpEntry` | libanykeep/mediachunkscheduler.cpp:227-336 | The first admission of a pump happens only if the bytes reported since the limit was set are at most one second's burst plus the rate times the elapsed time |
| `SchedulerTheorems.TokenBucketOverRuns` | libanykeep/mediachunkscheduler.cpp:227-336 | Over every run each admission carries the check made at the entry of its pump, and that check met the bound |
| `SchedulerFairness.BoundedStarvation` | libanykeep/mediachunkscheduler.cpp:337-380 | An attempt that is eligible at every admission, with k earlier waiting jobs, is passed over fewer than 5(k+1) times |
| `SchedulerFairness.OvertakingCosts` | libanykeep/mediachunkscheduler.cpp:370-380 | Passing over an eligible job uses up a bypass or an earlier job |
| `SchedulerFairness.StepEvolves` | libanykeep/mediachunkscheduler.cpp:59-457 | Every step keeps attempts: new and restarted jobs get numbers larger than all before |
| `SchedulerFairness.PumpLoopCases` | libanykeep/mediachunkscheduler.cpp:337-405 | What a round of the loop can do: nothing, or admit exactly one eligible job, the preferred or after four bypasses the oldest |
| `SchedulerWakeup.NoLostWakeup` | libanykeep/mediachunkscheduler.cpp:300-369 | Over every run: whenever something could be admitted, now or later, a posted pump, a due timer or a suspended pump is going to look |
| `SchedulerWakeup.DebtLasts` | libanykeep/mediachunkscheduler.cpp:325-336 | The computed delay is no longer than needed: the credit is negative until it is over |
| `SchedulerWakeup.DebtPaid` | libanykeep/mediachunkscheduler.cpp:325-336 | Unless it was clamped, the computed delay is enough: without further reports the credit is then no longer negative |
| `SchedulerWakeup.CreditComposes` | libanykeep/mediachunkscheduler.cpp:243-252 | Replenishing in two steps gives the credit of one step |
| `SchedulerWakeup.StepAwake` | libanykeep/mediachunkscheduler.cpp:300-369 | Every step keeps the promise that a due wake-up exists |
| `SchedulerLimits.AbandonReleasesItsAttempt` | libanykeep/mediachunkscheduler.cpp:125-147 | Over every run: the attempt whose slot abandonStopped gives back was in flight when the call was made if and only if the job was active then and was not restarted while callbacks ran; one slot is given back and the attempt is over |
| `SchedulerLimits.AbandonMayReleaseAnotherAttempt` | libanykeep/mediachunkscheduler.cpp:125-147 | A reachable state in which the job was restarted, so that the slot of a running transfer is given back |
| `SchedulerLimits.AbandonMayReleaseLaterAttempt` | libanykeep/mediachunkscheduler.cpp:125-147 | A run in which nothing is in flight at the call and the job is never restarted, and the slot of a transfer started afterwards is given back |
| `SchedulerLimits.CreditMeansAllowance` | libanykeep/mediachunkscheduler.cpp:243-268 | In every state, at every time: a credit that is not negative means that the bytes reported since the limit was set are within one second's burst plus the rate times the elapsed time |
| `SchedulerLimits.DebtDoesNotStopPump` | libanykeep/mediachunkscheduler.cpp:337-405 | When a fetch or an abort has returned, the loop admits a job, in debt or not, if and only if it does not first abort an unwanted fetch, a slot is free and a job is eligible; the budget is not touched |
| `SchedulerLimits.AdmissionMayExceedAllowance` | libanykeep/mediachunkscheduler.cpp:320-337 | A reachable admission in debt and above the token bucket bound, read at that moment |
| `SchedulerLimits.ResumedLoopIsPacedUnlessInDebt` | libanykeep/mediachunkscheduler.cpp:320-405 | What the loop admits when it goes on is what a new pump would admit in its place, with the same jobs, slots and bypasses, unless the credit is negative, a slot is free and a job is eligible; then a new pump would admit nothing. Out of debt the timer is the same too and the bound is kept |
| `SchedulerLimits.AdmissionKeepsAllowanceUnlessInDebt` | libanykeep/mediachunkscheduler.cpp:320-405 | Whatever the step: an admission out of debt keeps the bound, and an admission in debt is made by a loop that went on after a callback |
| `SchedulerLimits.QuietFetchKeepsAllowance` | libanykeep/mediachunkscheduler.cpp:320-337 | In particular, if nothing was reported and the limit was not changed since the entry of the pump, the bound holds when it goes on |
| `SchedulerState.MakeKeyInjective` | libanykeep/mediachunkscheduler.cpp:37-43 | Distinct (source, index) pairs have distinct keys |
| `SchedulerSteps.StepKeeps` | libanykeep/mediachunkscheduler.cpp:59-457 | Every call, completion, timer and return from a callback keeps the scheduler's invariant |
| `SchedulerSteps.RunKeeps` | libanykeep/mediachunkscheduler.cpp:59-457 | The invariant holds in every state of every run |
| `SchedulerTheorems.CancelledIsAnswered` | libanykeep/mediachunkscheduler.cpp:92-123 | A cancelled ticket is forgotten at once, its consumer is called exactly once, now or when abort() returns, and no other ticket is affected |
| `SchedulerAttempts.ObjectOverRun` | libanykeep/mediachunkscheduler.cpp:59-457 | Over every run: a registered job object whose number had been given out by an earlier time was registered then too, with the same attempt unless a restart has replaced it by one numbered later |
| `SchedulerAttempts.StepObject` | libanykeep/mediachunkscheduler.cpp:59-457 | After any step, what is registered under a key is the same object with the same attempt, the same object restarted, or a new object |
| `SchedulerObjects.UnwantedFetchIsAborted` | libanykeep/mediachunkscheduler.cpp:394-400 | Over every run: a fetch that returns an abort handle when nobody wants its job any more has the handle called at once, whether the job is still registered or was settled or abandoned during the call |
| `SchedulerObjects.WantedFetchGoesOn` | libanykeep/mediachunkscheduler.cpp:394-405 | In every other case the handle is kept for a registered job, and the loop goes on |
| `SchedulerObjects.FetchedObjectIsKnown` | libanykeep/mediachunkscheduler.cpp:378-405 | Over every run: while its fetch is being called, a job is registered under its key or was put aside; it is never lost |
| `SchedulerProvenance.DataIsWhatWasRequested` | libanykeep/mediachunkscheduler.cpp:45-436 | Over every run: data handed to a ticket is what a provider reported for an attempt that was admitted for the chunk named in the request that issued the ticket |
| `SchedulerCalls.AnsweredForAReason` | libanykeep/mediachunkscheduler.cpp:59-457 | Over every run, for every ticket and outcome: the consumer was called with that outcome, or is owed it by a call that has not returned, if and only if some step decided it: cancelling the ticket (cancelled), retiring the owner of its job (transport stopped), shutting down (scheduler stopped), or the completion of the current attempt of its job that is not to be retried (its bytes and error) |
| `SchedulerCalls.DeliveredForAReason` | libanykeep/mediachunkscheduler.cpp:59-457 | So when no call is suspended, the completions called are exactly those some step decided |
| `SchedulerCalls.StepServes` | libanykeep/mediachunkscheduler.cpp:59-457 | Every step: answers are given exactly if the step decides them, and a ticket is registered, for one and the same chunk, from the request that issues it to the step that decides it |
| `SchedulerCalls.RequestedExactly` | libanykeep/mediachunkscheduler.cpp:59-91 | A request is granted if and only if the scheduler runs, everything is given and nobody has the chunk in another lane; it then gets the next ticket and is the last consumer of the chunk's job, which is made as the call says or stays as it is; a refused request changes nothing |
| `SchedulerCalls.CancelAnswers` | libanykeep/mediachunkscheduler.cpp:92-123 | Of all consumers exactly that of the ticket is answered, with "cancelled", now or when abort() returns |
| `SchedulerCalls.RetiredExactly` | libanykeep/mediachunkscheduler.cpp:149-178 | Exactly the jobs of the owner go and all others stay as they were; exactly the tickets that waited for one of them leave and are answered with "transport stopped" (each once, by `SchedulerTheorems.TicketBalance`) |
| `SchedulerCalls.FinishedExactly` | libanykeep/mediachunkscheduler.cpp:408-436 | A completion of the current attempt that is not to be retried removes its job and answers exactly its consumers, with the bytes and the error; any other answers nobody and leaves all other jobs as they were |
| `SchedulerCalls.StoppedExactly` | libanykeep/mediachunkscheduler.cpp:438-457 | Shutting down empties everything but the settings, and answers exactly the registered tickets with "scheduler stopped" |
| `SchedulerCalls.ReprioritizedExactly` | libanykeep/mediachunkscheduler.cpp:180-193 | One waiter gets the new priority; no other waiter, job or ticket changes |
| `SchedulerCalls.PriorityIsLastAskedFor` | libanykeep/mediachunkscheduler.cpp:59-91 | Over every run: the priority of a consumer is the one last asked for, by its request or by a call of reprioritize since |
| `SchedulerCalls.TopPriorityIsLargest` | libanykeep/mediachunkscheduler.cpp:349-357 | The priority of a job is the largest of those of its waiters |
| `SchedulerCalls.AdmitsByPriority` | libanykeep/mediachunkscheduler.cpp:338-380 | The loop admits the eligible job for which somebody of the highest priority waits, of several the earliest; after four admissions past the earliest eligible job it admits the earliest |
| `SchedulerCalls.EligibleMeans` | libanykeep/mediachunkscheduler.cpp:344-350 | A job can be admitted if and only if somebody waits for it, its attempt has not begun, its lane runs fewer transfers than its limit, one by default, and is not backed off beyond now |
| `SchedulerCalls.JobIsAsRequested` | libanykeep/mediachunkscheduler.cpp:59-91 | Over every run: a job is in the lane, of the kind and of the owner named by the request that made it, whoever joined since |
| `SchedulerTiming.WakeupIsEarliest` | libanykeep/mediachunkscheduler.cpp:311-318 | A wake-up is due at exactly the times at which one was due before or the clamped delay is over: never later than before |
| `SchedulerTiming.StepKeepsTime` | libanykeep/mediachunkscheduler.cpp:300-457 | Firing, another bandwidth limit and shutdown leave no timer; every other step, a report among them, leaves it or moves it to an earlier time. Only reports and shutdown change how lanes are backed off |
| `SchedulerTiming.BackOffIsBounded` | libanykeep/mediachunkscheduler.cpp:272-286 | Over every run the level of a congested lane is from 1 to 6 and it is backed off for at most eight seconds from now |
| `SchedulerTiming.LevelGoesDown` | libanykeep/mediachunkscheduler.cpp:281-285 | n successes take the level of a lane down by n, and forget the lane when they have used it up |
| `SchedulerTiming.CongestionDoubles` | libanykeep/mediachunkscheduler.cpp:254-289 | n congested reports in a row back the lane off for half a second doubled n - 1 times, at most eight seconds, and leave other lanes alone |
| `SchedulerTiming.StepSettings` | libanykeep/mediachunkscheduler.cpp:195-289 | Every step: the limits are what they were last set to, at least one slot and no negative bandwidth; the external transfers are those observed and not released, none after shutdown; the bytes counted are those reported since the bandwidth became another |
| `SchedulerTiming.SlotsAreAsAskedFor` | libanykeep/mediachunkscheduler.cpp:213-217 | Over every run: the slots are those last asked for, at least one, and three to begin with |
| `SchedulerTiming.PacingSetsCredit` | libanykeep/mediachunkscheduler.cpp:227-268 | Bandwidth that becomes limited starts with one second's worth of credit; another limit leaves what has come in so far, but no more than its own second's worth; a report that counts takes its bytes off |
| `SchedulerSteps.ReplenishSound` | libanykeep/mediachunkscheduler.cpp:243-252 | However much time passes, the credit stays within one second's worth and within what the reports leave of the allowance |
| `SchedulerWakeup.ScheduledIsAwake` | libanykeep/mediachunkscheduler.cpp:300-309 | After schedule() a pump is due, so nothing admissible is forgotten |
| `SchedulerSteps.AdmitKeeps` | libanykeep/mediachunkscheduler.cpp:378-405 | Admitting an eligible job keeps the invariant: one slot and one place in its lane are taken, and its attempt is logged once |
| `SchedulerSteps.RestartKeeps` | libanykeep/mediachunkscheduler.cpp:416-426 | Restarting an attempt frees its slot and keeps every waiter registered |
| `SchedulerSteps.SettleKeeps` | libanykeep/mediachunkscheduler.cpp:427-435 | Settling a job takes its tickets out once and owes each of them one completion |
| `SchedulerSteps.AllTicketsBag` | libanykeep/mediachunkscheduler.cpp:438-457 | Shutting down collects every registered ticket exactly once |
| `Scheduler.MediaChunkScheduler.constructor` | libanykeep/mediachunkscheduler.cpp:15-20 | Starts in the initial state |
| `Scheduler.MediaChunkScheduler.Request` | libanykeep/mediachunkscheduler.cpp:45-90 | Adds a waiter, creates or joins the job, or refuses, exactly as the specified step (invariant kept, new state equal to the specified step) |
| `Scheduler.MediaChunkScheduler.Cancel` | libanykeep/mediachunkscheduler.cpp:92-123 | Removes the waiter; suspends inside abort() or before the completion is called (invariant kept, new state equal to the specified step) |
| `Scheduler.MediaChunkScheduler.AbandonStopped` | libanykeep/mediachunkscheduler.cpp:125-147 | Cancels and remembers the job and attempt to look at again (invariant kept, new state equal to the specified step) |
| `Scheduler.MediaChunkScheduler.RetireStoppedOwner` | libanykeep/mediachunkscheduler.cpp:149-178 | Removes all jobs of an owner in one go, then owes their completions (invariant kept, new state equal to the specified step) |
| `Scheduler.MediaChunkScheduler.Reprioritize` | libanykeep/mediachunkscheduler.cpp:180-193 | Changes the priority of one waiter only (invariant kept, new state equal to the specified step) |
| `Scheduler.MediaChunkScheduler.ObserveExternalTransfer` | libanykeep/mediachunkscheduler.cpp:195-205 | Counts a transfer once, never after shutdown (invariant kept, new state equal to the specified step) |
| `Scheduler.MediaChunkScheduler.ReleaseExternalTransfer` | libanykeep/mediachunkscheduler.cpp:207-211 | Forgets a transfer and schedules a pump (invariant kept, new state equal to the specified step) |
| `Scheduler.MediaChunkScheduler.SetMaxActive` | libanykeep/mediachunkscheduler.cpp:213-217 | At least one slot (invariant kept, new state equal to the specified step) |
| `Scheduler.MediaChunkScheduler.SetLaneMaxActive` | libanykeep/mediachunkscheduler.cpp:219-225 | At least one slot for a named lane (invariant kept, new state equal to the specified step) |
| `Scheduler.MediaChunkScheduler.SetBandwidthLimit` | libanykeep/mediachunkscheduler.cpp:227-241 | Replenishes, then sets or clips the credit (invariant kept, new state equal to the specified step) |
| `Scheduler.MediaChunkScheduler.ReportTransferResult` | libanykeep/mediachunkscheduler.cpp:254-288 | Charges the credit and moves the congestion level of the lane (invariant kept, new state equal to the specified step) |
| `Scheduler.MediaChunkScheduler.PendingCount` | libanykeep/mediachunkscheduler.cpp:290-298 | Positive exactly if some job waits |
| `Scheduler.MediaChunkScheduler.Scan` | libanykeep/mediachunkscheduler.cpp:338-362 | The scan finds the eligible job of highest priority and least sequence, the oldest one, and the first end of a back-off, in any iteration order |
| `Scheduler.MediaChunkScheduler.PumpRound` | libanykeep/mediachunkscheduler.cpp:337-405 | One round: the chosen job is admitted, or none (new state equal to the specified step) |
| `Scheduler.MediaChunkScheduler.Pump` | libanykeep/mediachunkscheduler.cpp:320-406 | Entry of the pump: stopped, in debt, or admitting (invariant kept, new state equal to the specified step) |
| `Scheduler.MediaChunkScheduler.Finish` | libanykeep/mediachunkscheduler.cpp:408-436 | A completion settles, restarts or is ignored (invariant kept, new state equal to the specified step) |
| `Scheduler.MediaChunkScheduler.Shutdown` | libanykeep/mediachunkscheduler.cpp:438-457 | Everything is cleared before the completions are called (invariant kept, new state equal to the specified step) |
| `Scheduler.MediaChunkScheduler.Resume` | libanykeep/mediachunkscheduler.cpp:92-457 | Whatever a callback did, the suspended call goes on as specified (invariant kept, new state equal to the specified step) |
| `Scheduler.MediaChunkScheduler.ContinuePump` | libanykeep/mediachunkscheduler.cpp:396-405 | Keeps the abort handle, aborts if all waiters left, and goes on admitting (new state equal to the specified step) |
| `Scheduler.MediaChunkScheduler.TimerFired` | libanykeep/mediachunkscheduler.cpp:19 | The timer only schedules a pump (invariant kept, new state equal to the specified step) |
| `HistoryState.ToIntOfNumberText` | libanykeep/notedocumenthistory.cpp:316-352 | The text of a display width reads back as the number |
| `HistoryState.SetScalarTwice` | libanykeep/notedocumenthistory.cpp:316-352 | Of two scalar edits of one field the later one counts |
| `HistoryState.SetScalarSame` | libanykeep/notedocumenthistory.cpp:316-352 | Writing a field's own text changes nothing |
| `HistoryFields.EditReadsBack` | libanykeep/notedocumenthistory.cpp:316-352 | After a scalar edit its field reads as written, a display width as the number written, and every other field of every block as before; an address that names no field is not written |
| `HistoryFields.EditWritesField` | libanykeep/notedocumenthistory.cpp:316-352 | The edit of a field changes that field of the block and no other |
| `HistoryFields.TextReadsAsNumber` | libanykeep/notedocumenthistory.cpp:338-340 | A text that denotes no 32-bit number reads as zero, any other as its number |
| `HistoryFields.NumberTextIsUsual` | libanykeep/notedocumenthistory.cpp:338-340 | A number is written without leading zeros, with a minus sign if it is negative |
| `HistoryMerging.TwoEdits` | libanykeep/notedocumenthistory.cpp:152-258 | Two scalar edits, one right after the other, are one undo step if and only if they are in one field, at most 1000 ms apart, both insert or both delete, and the selection was collapsed before each; undo then leads where undoing the first would have led, and otherwise to the document and the view between them; redo leads back |
| `HistoryMerging.EditAfterBreakStandsAlone` | libanykeep/notedocumenthistory.cpp:196-273 | After stopping the merging, a change of the view that breaks it, a document change, the end of a transaction that changed something, undo, redo or loading, a scalar edit is an undo step of its own: undo leads to the document before it |
| `HistoryMerging.MergesNeverCancel` | libanykeep/notedocumenthistory.cpp:152-165 | Commands that merge never cancel each other: the text only grows or only shrinks, so the obsolete branch is never taken |
| `HistoryMerging.StepRecorded` | libanykeep/notedocumenthistory.cpp:181-364 | Every step keeps the commands truthful: each names the text of its field before and after, and a mergeable one the direction in which the text grows |
| `HistoryMerging.RunRecorded` | libanykeep/notedocumenthistory.cpp:181-364 | The commands are truthful over every run |
| `HistoryMerging.StepShows` | libanykeep/notedocumenthistory.cpp:196-364 | Every step: which document the editor shows, in which view, and how deep it is in transactions |
| `HistoryMerging.PastIsKept` | libanykeep/notedocumenthistory.cpp:181-246 | After a change of the document undo leads through the same past as before it, up to 256 steps back, and there is nothing to redo |
| `NoteHistory.MergedConnects` | libanykeep/notedocumenthistory.cpp:152-165 | Merging two scalar commands gives one that leads from the first before-document to the second after-document |
| `NoteHistory.PushChains` | libanykeep/notedocumenthistory.cpp:275-290 | A push keeps the stack a chain of documents, through truncation, merging, obsolete merges and the undo limit |
| `NoteHistory.StepConsistent` | libanykeep/notedocumenthistory.cpp:181-364 | Every operation keeps the timeline: each before-document is its predecessor's after-document and the cursor stands at the current document |
| `NoteHistory.RunConsistent` | libanykeep/notedocumenthistory.cpp:181-364 | The timeline is kept over every run |
| `NoteHistory.UndoManyReaches` | libanykeep/notedocumenthistory.cpp:354-358 | n undos lead n documents back on the timeline |
| `NoteHistory.RedoManyReaches` | libanykeep/notedocumenthistory.cpp:360-364 | n redos lead n documents forward |
| `NoteHistory.UndoRedoRoundTrip` | libanykeep/notedocumenthistory.cpp:354-364 | After any run, n undos and then n redos restore document, stack and cursor exactly |
| `NoteHistory.EditUndoRedo` | libanykeep/notedocumenthistory.cpp:236-246 | An edit is undone and redone with the views it was made in |
| `NoteHistory.TransactionIsOneCommand` | libanykeep/notedocumenthistory.cpp:206-234 | A transaction, whatever is edited, observed or nested inside it, becomes one command from the document at its start to the one at its end, or none if nothing changed |
| `NoteHistory.InsideKeepsTransaction` | libanykeep/notedocumenthistory.cpp:206-258 | Over every run inside a transaction the stack, the start of the transaction and the undo limit stay |
| `NoteHistory.ObservationsInTransactionAreIgnored` | libanykeep/notedocumenthistory.cpp:236-258 | Nothing observed inside a transaction reaches the stack |
| `NoteHistory.UndoKeepsTimeline` | libanykeep/notedocumenthistory.cpp:354-358 | Undo keeps the timeline if and only if no transaction is open, there is nothing to undo, or the command undone changed nothing |
| `NoteHistory.RedoKeepsTimeline` | libanykeep/notedocumenthistory.cpp:360-364 | Redo keeps the timeline if and only if no transaction is open, there is nothing to redo, or the command redone changes nothing |
| `NoteHistory.RedoInTransactionBreaksChain` | libanykeep/notedocumenthistory.cpp:360-364 | Called inside a transaction, redo leaves a stack that no sequence of documents explains |
| `NoteHistory.UndoInTransactionBreaksChain` | libanykeep/notedocumenthistory.cpp:354-358 | Called inside a transaction, undo leaves a stack that no sequence of documents explains |
| `NoteHistory.NoteDocumentHistory.constructor` | libanykeep/notedocumenthistory.cpp:181-189 | Starts with an empty timeline (timeline kept, new state equal to the specified step) |
| `NoteHistory.NoteDocumentHistory.Load` | libanykeep/notedocumenthistory.cpp:196-204 | Clears the stack (timeline kept, new state equal to the specified step) |
| `NoteHistory.NoteDocumentHistory.BeginTransaction` | libanykeep/notedocumenthistory.cpp:206-217 | Only the outermost one records the start (timeline kept, new state equal to the specified step) |
| `NoteHistory.NoteDocumentHistory.EndTransaction` | libanykeep/notedocumenthistory.cpp:219-234 | Only the outermost one pushes (timeline kept, new state equal to the specified step) |
| `NoteHistory.NoteDocumentHistory.ObserveChange` | libanykeep/notedocumenthistory.cpp:236-246 | A changed document becomes a snapshot command (timeline kept, new state equal to the specified step) |
| `NoteHistory.NoteDocumentHistory.ObserveScalar` | libanykeep/notedocumenthistory.cpp:248-258 | A scalar edit becomes a delta command that may merge (timeline kept, new state equal to the specified step) |
| `NoteHistory.NoteDocumentHistory.UpdateViewState` | libanykeep/notedocumenthistory.cpp:260-267 | Only the view changes (timeline kept, new state equal to the specified step) |
| `NoteHistory.NoteDocumentHistory.BreakMerge` | libanykeep/notedocumenthistory.cpp:269-273 | Later edits do not merge with earlier ones (timeline kept, new state equal to the specified step) |
| `NoteHistory.NoteDocumentHistory.Undo` | libanykeep/notedocumenthistory.cpp:354-358 | One step back, if there is one (timeline kept, new state equal to the specified step) |
| `NoteHistory.NoteDocumentHistory.Redo` | libanykeep/notedocumenthistory.cpp:360-364 | One step forward, if there is one (timeline kept, new state equal to the specified step) |
| `Envelope.AssociatedDataInjective` | libanykeep/secureenvelope.cpp:164-172 | Distinct contexts have distinct encodings |
| `Envelope.SealOpen` | libanykeep/secureenvelope.cpp:241-294 | Opening inverts sealing in the same context, fails in any other, and the sealed length depends only on the lengths of plaintext and context |
| `ManagedBlob.ChunkSizes` | libanykeep/localmediastore.cpp:65-72 | All chunks but the last are full, and together they end at the size |
| `ManagedBlob.ContextLengths` | libanykeep/localmediastore.cpp:74-90 | Chunks of equal size have contexts of equal length, and a smaller chunk has no longer one |
| `ManagedBlob.ChunkContextsDiffer` | libanykeep/localmediastore.cpp:74-90 | Two chunks, of blobs of whatever size, share a context only if blob, index and plaintext size agree |
| `ManagedBlob.SwappedRecordIsRefused` | libanykeep/localmediastore.cpp:460-490 | A record sealed for one chunk of one blob does not open as another chunk or for another blob, of whatever size |
| `ManagedBlob.RecordAt` | libanykeep/localmediastore.cpp:457-469 | With records of equal size, the fixed stride lands on the start of a record |
| `ManagedBlob.SeekFindsRecord` | libanykeep/localmediastore.cpp:463-476 | Seeking to record i of a written container finds that envelope |
| `ManagedBlob.NoOverflow` | libanykeep/localmediastore.cpp:465-468 | The overflow guard never refuses an offset that fits 63 bits |
| `ManagedBlob.TailIsAccepted` | libanykeep/localmediastore.cpp:421-450 | The length check accepts every written container |
| `ManagedBlob.HeaderReadBack` | libanykeep/localmediastore.cpp:371-455 | The header of a written container reads back, with the offset of its records |
| `ManagedBlob.ChunkReadBack` | libanykeep/localmediastore.cpp:460-490 | Every chunk of a written container reads back |
| `ManagedBlob.CollectReadBack` | libanykeep/localmediastore.cpp:1046-1064 | The bytes collected chunk by chunk are the slice of the content |
| `ManagedBlob.RangeReadBack` | libanykeep/localmediastore.cpp:1002-1065 | Every range of a written container reads as plain[offset..min(offset+maxSize, size)]; bad bounds are refused |
| `ManagedBlob.RangeIsAuthentic` | libanykeep/localmediastore.cpp:1002-1065 | Whatever the file holds, a returned range has the length asked for and consists of bytes that opened for their own chunk of this blob |
| `ManagedBlob.ReadManagedRange` | libanykeep/localmediastore.cpp:1002-1065 | The loop that reads a range computes the range function |
| `ManagedBlobWriter.SealedRecord` | libanykeep/localmediastore.cpp:337-349 | A sealed chunk opens as its part of the content and has the length its context determines |
| `ManagedBlobWriter.FramingIsStable` | libanykeep/localmediastore.cpp:351-354 | No record is longer than the first, and every record of a full chunk is as long: the two framing errors cannot occur |
| `ManagedBlobWriter.RecordIgnoresEnvelopeSize` | libanykeep/localmediastore.cpp:303-319 | The first record stays valid when the header learns its length |
| `ManagedBlobWriter.HeaderIsSmall` | libanykeep/localmediastore.cpp:321-326 | The header envelope always fits its limit |
| `ManagedBlobWriter.TurnSeals` | libanykeep/localmediastore.cpp:337-349 | Reading and sealing a chunk fails only if the device is too short or encryption fails |
| `ManagedBlobWriter.WrittenContainer` | libanykeep/localmediastore.cpp:285-368 | Records that fit the frame make up a container of the content |
| `ManagedBlobWriter.WriteManagedChunkedBlob` | libanykeep/localmediastore.cpp:285-368 | Writing succeeds exactly on a device that holds what was announced, and then the output is a container of it |
| `ManagedBlobWriter.EmptyContentHasContainer` | libanykeep/localmediastore.cpp:285-368 | With a working cipher the empty content has a container |
| `ManagedBlobWriter.ImportReadsBack` | libanykeep/localmediastore.cpp:285-368 | Any range of what was written is that slice of the device |
| `MediaStore.ReadExternal` | libanykeep/localmediastore.cpp:1074-1115 | The chunk loop accepts a file exactly if every chunk and the whole have the recorded hashes, and then returns its content |
| `MediaStore.FingerprintDevice` | libanykeep/localmediastore.cpp:201-260 | The incremental fingerprint is that of the whole content and of each of its chunks |
| `MediaStore.SourceIsFoundIff` | libanykeep/localmediastore.cpp:928-988 | A file is found for a reference if and only if the reference is valid, the locator it is found by (its own if there is one, otherwise that of its content) is a valid source of its size that does not contradict its identity or checksum, and the file is there with the recorded size and time; it is then that source, with the identity of the content if it was found by that |
| `MediaStore.SourceHasLocator` | libanykeep/localmediastore.cpp:928-964 | Without such a locator none is found |
| `MediaStore.ValidSourceMeans` | libanykeep/localmediastore.cpp:155-199 | A decoded source is accepted if and only if it names a file and has either no fingerprint or a whole one: identity, checksum and one hash for each chunk of 1 MiB, all of 32 bytes |
| `MediaStore.LoadedSourcesAreValid` | libanykeep/localmediastore.cpp:966-988 | A source that is found has the fixed chunk size and the revision of its file |
| `MediaMove.MoveIsCrashSafe` | libanykeep/localmediastore.cpp:869-926 | At every state a move goes through: while the encrypted copy exists every reference reads the content; afterwards a reference without a locator of its own does if and only if it is valid and of that size and checksum |
| `MediaMove.MoveSucceeds` | libanykeep/localmediastore.cpp:869-926 | A move succeeds if and only if nothing goes wrong and the file on disk is the content with the reference's checksum |
| `MediaMove.MoveLeavesOthers` | libanykeep/localmediastore.cpp:869-926 | References to other content read the same in every state, unless they live in the file written to |
| `MediaMove.OwnLocatorDecidesAfterMove` | libanykeep/localmediastore.cpp:928-1115 | After a move a reference with a locator of its own reads the content if and only if, on the disk as it was before with the saved file added, that locator decodes to a valid source of the reference's size, identity and checksum whose unmodified file holds the content and matches its recorded hashes; if it names another file than the one saved, the disk before decides alone |
| `MediaMove.StaleLocatorHidesMovedContent` | libanykeep/localmediastore.cpp:928-943 | A reference whose own locator names a missing file reads its content before the move and not after it |
| `MediaMove.MovedContentIsFound` | libanykeep/localmediastore.cpp:966-1115 | When the moved file and its locator are in place, the content is found under exactly the checked conditions |
| `MediaMove.CopyOutIsContent` | libanykeep/localmediastore.cpp:882-894 | The copying loop writes the content from its offset on |
| `MediaMove.StoredData` | libanykeep/localmediastore.cpp:1117-1127 | A stored blob reads as its content |
| `MediaMove.DataDependsOn` | libanykeep/localmediastore.cpp:928-1115 | What the data of a reference depends on |
| `MediaMove.LocalMediaStore.CopyToFile` | libanykeep/localmediastore.cpp:882-894 | The loop with its end test computes the copy |
| `MediaMove.LocalMediaStore.MoveToFile` | libanykeep/localmediastore.cpp:869-926 | The disk goes through exactly the states of the specified move |
| `MediaMove.LocalMediaStore.RelocateTo` | libanykeep/localmediastore.cpp:898-925 | Verify, locate, and only then remove |
| `MediaSources.LocalManagedMediaSource.Open` | libanykeep/mediasource.cpp:23-51 | Opening succeeds exactly if the reference is valid and a blob is there whose header is accepted and says the reference's size; a blob that stores the content has its size |
| `MediaSources.LocalManagedMediaSource.Read` | libanykeep/mediasource.cpp:81-123 | Whatever the store holds by then, a read fails or puts as many bytes as there are at the front of the buffer, each authentic for its place in the blob, and touches nothing else; as long as the store held the content they are its slice, and a read in bounds fails only while the blob is gone |
| `MediaSources.LocalManagedMediaSource.EnsureChunk` | libanykeep/mediasource.cpp:126-156 | Whatever the store holds, only an authentic chunk of the right size replaces the cached one; it can be loaded while the store holds the content |
| `MediaSources.ExternalFileMediaSource.Open` | libanykeep/mediasource.cpp:175-200 | Opening finds the source through its locator |
| `MediaSources.ExternalFileMediaSource.Read` | libanykeep/mediasource.cpp:212-241 | Whatever the file has become, a read fails or puts as many bytes as there are at the front of the buffer, each from a chunk that was found under the linked size and time stamp and had its recorded hash, and touches nothing else; as long as what was found is the linked file, or its hashes tell, they are the slice of the linked content; an untouched file never fails |
| `MediaSources.ExternalFileMediaSource.EnsureChunk` | libanykeep/mediasource.cpp:244-291 | Whatever is found, a chunk is cached only with the linked revision and, with a fingerprint, the recorded hash; a chunk of an untouched file always is |
| `MediaSources.CopyInto` | libanykeep/mediasource.cpp:115 | Copies into the buffer and leaves the rest of it alone |
| `Wire.CountIsExact` | libanykeep/mediachunkwire.cpp:40-47 | The chunk count is exact, and one for empty plaintext |
| `Wire.SizesAreExact` | libanykeep/mediachunkwire.cpp:63-80 | No 64-bit intermediate of a chunk size wraps: sizes are what exact arithmetic gives |
| `Wire.WireSizeIsExact` | libanykeep/mediachunkwire.cpp:92-100 | The wire size is defined if and only if plaintext and overhead together fit 64 bits, and then is their sum |
| `Wire.OnlyChunksAreDefined` | libanykeep/mediachunkwire.cpp:34-92 | Only chunks of valid parameters have sizes and an offset; the offset is exact and defined exactly if it fits 64 bits |
| `Wire.RecordsTile` | libanykeep/mediachunkwire.cpp:82-100 | The records tile the object: first at 0, each where its predecessor ends, last ends at the wire size; every offset is defined |
| `Wire.RecordEnds` | libanykeep/mediachunkwire.cpp:82-100 | Every record ends within the object |
| `Wire.IndexIsTheCoveringRecord` | libanykeep/mediachunkwire.cpp:102-113 | The index found for an offset is the one record that covers it; the out-of-range answer after the division never occurs |
| `Wire.SizesSumUp` | libanykeep/mediachunkwire.cpp:74-100 | The record sizes sum up to the wire size |
| `WireRecords.AppendU64` | libanykeep/mediachunkwire.cpp:26-30 | The shifting loop appends the big-endian bytes |
| `WireRecords.NoncesDiffer` | libanykeep/mediachunkwire.cpp:115-121 | A nonce has 12 bytes and no two chunks share one |
| `WireRecords.ContextsDiffer` | libanykeep/mediachunkwire.cpp:123-136 | A context has exactly 64 bytes and tells content, geometry and index apart |
| `WireRecords.DecryptInvertsEncrypt` | libanykeep/mediachunkwire.cpp:138-195 | A record has the computed size and decrypts to its chunk |
| `WireRecords.EncryptSucceeds` | libanykeep/mediachunkwire.cpp:138-166 | Encrypting a chunk of the right size fails only if the cipher does |
| `WireRecords.OtherChunksAreRefused` | libanykeep/mediachunkwire.cpp:168-195 | Bytes that decrypt but were made for another content, geometry or index are refused |
| `WireRecords.ConcatenationIsAddressed` | libanykeep/mediachunkwire.cpp:82-113 | The concatenation of the records has the computed size, and each byte of it is where the geometry finds it |
| `WireRecords.AddressedBytesAreTheSlice` | libanykeep/mediachunkwire.cpp:102-113 | Bytes found through the geometry are the slice of the concatenation |
| `WireRecords.AddressedBytesAreAll` | libanykeep/mediachunkwire.cpp:102-113 | If every position has its byte then every record was encrypted and the bytes are the whole object |
| `WireStream.SourceReadIsChunk` | libanykeep/mediachunkwirestream.cpp:42-52 | What a local source answers for a chunk's range is that chunk |
| `WireStream.PartOfRecord` | libanykeep/mediachunkwirestream.cpp:196-221 | The cached record, cut at the position, continues the object |
| `WireStream.PartIsSlice` | libanykeep/mediachunkwirestream.cpp:183-228 | A successful read at p is wire[p..min(p+n, wireSize)] |
| `WireStream.MediaChunkWireStream.Open` | libanykeep/mediachunkwirestream.cpp:121-150 | Opens exactly if the size fits and the source matches |
| `WireStream.MediaChunkWireStream.Close` | libanykeep/mediachunkwirestream.cpp:152-161 | No hash survives closing |
| `WireStream.MediaChunkWireStream.Seek` | libanykeep/mediachunkwirestream.cpp:170-177 | Moving the position invalidates the hash; staying does not |
| `WireStream.MediaChunkWireStream.Read` | libanykeep/mediachunkwirestream.cpp:183-228 | Returns the clipped part of the object at the position, or -1 without moving; extends the hash by exactly what was read |
| `WireStream.MediaChunkWireStream.ReadData` | libanykeep/mediachunkwirestream.cpp:183-228 | The loop over cursor, written and remaining |
| `WireStream.MediaChunkWireStream.EnsureWireChunk` | libanykeep/mediachunkwirestream.cpp:21-67 | The cache holds the record of its index; its empty marker is never an index |
| `WireStream.MediaChunkWireStream.ObserveRead` | libanykeep/mediachunkwirestream.cpp:85-94 | The hash covers the object from its start to the position |
| `WireStream.MediaChunkWireStream.CompletedHashIsOfTheObject` | libanykeep/mediachunkwirestream.cpp:85-94 | A completed hash is the hash of the concatenation of all records |
| `PartialCache.PartSizes` | libanykeep/mediapartialchunkcache.cpp:43-52 | Chunk sizes in exact arithmetic; the 64-bit offset never wraps |
| `PartialCache.ExpectedIsPartSize` | libanykeep/mediapartialchunkcache.cpp:43-52 | A positive expected size is given for exactly the chunks of a sealed cache |
| `PartialCache.BytesAfterInsert` | libanykeep/mediapartialchunkcache.cpp:65-75 | Tracking a new chunk adds its size |
| `PartialCache.BytesAfterRemove` | libanykeep/mediapartialchunkcache.cpp:65-75 | Losing a chunk takes its size away |
| `PartialCache.CountIsComplete` | libanykeep/mediapartialchunkcache.cpp:65-75 | The verified bytes are at most the total, and equal it if and only if every chunk is verified |
| `PartialCache.RecoveredIsAuthentic` | libanykeep/mediapartialchunkcache.cpp:108-126 | What a read returns opened for this index of this content and geometry, or is accepted by the provider's verifier |
| `PartialCache.RecordContextsDiffer` | libanykeep/mediapartialchunkcache.cpp:18-23 | Records of different index, identity or geometry have different contexts |
| `PartialCache.ForeignRecordIsNotRecovered` | libanykeep/mediapartialchunkcache.cpp:108-126 | A record sealed for another index, identity or geometry is not recovered |
| `PartialCache.SealedRecordReadsBack` | libanykeep/mediapartialchunkcache.cpp:135-177 | A sealed record reads back if and only if its context leaves the envelope within the size limit |
| `PartialCache.OpaqueRecordReadsBack` | libanykeep/mediapartialchunkcache.cpp:84-177 | In the provider's format what was written is read back if and only if it is asked for in its size and the verifier accepts it |
| `PartialCache.WriteLeavesOthers` | libanykeep/mediapartialchunkcache.cpp:60-63 | Whatever is written for a chunk, every other chunk is read as before |
| `PartialCache.ValidRequests` | libanykeep/mediapartialchunkcache.cpp:33-58 | Of a sealed cache exactly the chunks may be asked for, each in its size; in the provider's format anything up to 16 MiB and 4 KiB, if the cache has a directory and no key |
| `PartialCache.LongIdentityIsNotReadBack` | libanykeep/mediapartialchunkcache.cpp:108-177 | With an identity of 40000 characters a byte is accepted and stored, and not read back |
| `PartialCache.NamesAreIndices` | libanykeep/mediapartialchunkcache.cpp:187-192 | A file name stands for a chunk exactly if it is its canonical decimal number |
| `PartialCache.ReadForRestore` | libanykeep/mediapartialchunkcache.cpp:193-195 | Restoring reads a chunk validly and drops it exactly if it is not recoverable |
| `PartialCache.MediaPartialChunkCache.Track` | libanykeep/mediapartialchunkcache.cpp:65-75 | The count stays the sum over the verified chunks |
| `PartialCache.MediaPartialChunkCache.Read` | libanykeep/mediapartialchunkcache.cpp:84-133 | Returns the recovered bytes or nothing; a record that does not authenticate is removed and no longer counted |
| `PartialCache.MediaPartialChunkCache.Write` | libanykeep/mediapartialchunkcache.cpp:135-177 | Stores the sealed or verified record, or changes nothing |
| `PartialCache.MediaPartialChunkCache.RestoreVerifiedBytes` | libanykeep/mediapartialchunkcache.cpp:179-198 | Afterwards exactly the recoverable chunks count as verified; only unrecoverable chunk files are removed |
| `FolderNotes.KeyIsIdentity` | libanykeep/foldernotesmodel.cpp:507-521 | A row key is never empty and identifies exactly the folder, the note, the unsorted or the drafts row |
| `FolderNotes.SameRow` | libanykeep/foldernotesmodel.cpp:523-533 | Rows compare equal exactly if all fields agree |
| `FolderNotes.AfterMove` | libanykeep/foldernotesmodel.cpp:491 | A move keeps keys unique and the same |
| `FolderNotes.NotAmongPlaced` | libanykeep/foldernotesmodel.cpp:483-492 | The wanted row is never among those already placed, so a move never goes down |
| `FolderNotes.SameLength` | libanykeep/foldernotesmodel.cpp:480-497 | After the second pass the list is as long as the next one |
| `FolderNotes.ReplaysMore` | libanykeep/foldernotesmodel.cpp:475-503 | A notification that is allowed extends what a view shows |
| `FolderNotes.FolderNotesModel.KeysAreUnique` | libanykeep/foldernotesmodel.cpp:449-459 | True exactly if no two rows share a key |
| `FolderNotes.FolderNotesModel.ReplaceRows` | libanykeep/foldernotesmodel.cpp:447-505 | The rows become the next rows; a view replaying the notifications shows them too, every range is one Qt allows; no row that stays is removed, only new rows are inserted, rows only move up; without unique keys there is one reset |
| `FolderNotes.FolderNotesModel.RemoveGone` | libanykeep/foldernotesmodel.cpp:472-478 | Exactly the rows without a successor go |
| `FolderNotes.FolderNotesModel.Arrange` | libanykeep/foldernotesmodel.cpp:480-495 | The remaining and the new rows come into order |
| `FolderNotes.FolderNotesModel.Update` | libanykeep/foldernotesmodel.cpp:497-503 | Changed rows are rewritten and announced |
| `NoteRules.ConditionIsSound` | libanykeep/noterule.cpp:59-92 | A condition asks for the text exactly if it is about an unloaded text |
| `NoteRules.ConditionsAreSound` | libanykeep/noterule.cpp:94-116 | Conditions decided without the text are decided the same way by every text, and any text decides them |
| `NoteRules.EvaluateConditions` | libanykeep/noterule.cpp:94-116 | The loop computes the three-valued conjunction or disjunction |
| `NoteRules.Validate` | libanykeep/noterule.cpp:127-186 | A rule is accepted if and only if it is well-formed, with at most one action of each kind |
| `NoteRules.ValidateRules` | libanykeep/noterule.cpp:188-196 | Accepted rules are well-formed and have distinct ids, and only those are accepted |
| `NoteRules.RuleOrder` | libanykeep/noterule.cpp:118-123 | The order decides between any two rules of different ids, one way only |
| `NoteRules.RuleTransitive` | libanykeep/noterule.cpp:118-123 | The order is transitive |
| `NoteRules.SortingIsUnique` | libanykeep/noterule.cpp:217-218 | Rules of distinct ids have one sorting |
| `NoteRules.Evaluate` | libanykeep/noterule.cpp:214-255 | The loop computes the evaluation of the sorted rules |
| `NoteRules.DeferralIsSound` | libanykeep/noterule.cpp:214-255 | Without a request for the text every text gives the same result; with one, every text continues exactly what was produced so far, so the matched rules are a prefix |
| `NoteRules.LaterRulesAreIgnored` | libanykeep/noterule.cpp:214-255 | Rules after the one that stopped, asked for the text or failed have no effect |
| `NoteRules.MatchesAccumulate` | libanykeep/noterule.cpp:234-235 | Rules matched stay matched |
| `NoteRules.OrderOfStorageIsIrrelevant` | libanykeep/noterule.cpp:214-255 | The result does not depend on the stored order of rules with distinct ids |
| `RuleOutcomes.EvaluationMeans` | libanykeep/noterule.cpp:214-255 | The folder and the storage, trimmed, are those of the last matching rule with such an action, or none; encryption is required if and only if a matching rule asks for it; the ids are those of the matching rules in their order; stopped, requiresText and the error are set if and only if a rule that is reached matches and stops, asks for the text or is invalid. A rule matches if it is enabled, valid, its conditions hold and no earlier rule ends the evaluation |
| `RuleOutcomes.EvaluationFills` | libanykeep/noterule.cpp:214-255 | From any intermediate result on: an action fills the place of its kind and no other, the last one counts, and without one the place keeps what it had |
| `RuleOutcomes.LastExists` | libanykeep/noterule.cpp:214-255 | If a matching rule has an action of a kind, there is a last one |
| `RuleOutcomes.RuleMatchesIff` | libanykeep/noterule.cpp:62-120 | With the text a rule matches if and only if all of its conditions hold, or one of them, as it says, or it has none; without the text it is undecided if and only if it asks about the text and its other conditions leave it open |
| `RuleOutcomes.ConditionHolds` | libanykeep/noterule.cpp:62-95 | A condition holds if the title matches, a tag is the one named, the text contains the value or the storage is the one named, or, negated, if not |
| `RuleOutcomes.TagMarkIsOptional` | libanykeep/noterule.cpp:22-28 | A tag condition means the same with and without the mark |
| `RuleOutcomes.ValidIffNoDefect` | libanykeep/noterule.cpp:124-187 | A rule is valid if and only if it has none of the defects the code looks for |
| `RuleOutcomes.EvaluatedInOrder` | libanykeep/noterule.cpp:118-217 | Rules are evaluated by their sort order, and those of one order by their ids |
| `MediaRange.ParseRange` | libanykeep/mediarangeservice.cpp:88-128 | No Range line: the whole content; one: its answer; several: refused |
| `MediaRange.ServedIsDenoted` | libanykeep/mediarangeservice.cpp:96-127 | By the grammar of sections 14.1.1 and 14.1.2 of RFC 9110, with range sets and a unit compared without case: a range is served if and only if the header denotes bytes of the content, is not a list, writes the unit in lower case, and the number behind the dash fits 63 bits; it is then that range, inside the content |
| `MediaRange.OnlySimpleFormsMatch` | libanykeep/mediarangeservice.cpp:103-108 | What the expression of the code matches is no list and has its unit in lower case |
| `MediaRange.ListsAreRefused` | libanykeep/mediarangeservice.cpp:103-108 | A set of several ranges is refused, whatever it denotes |
| `MediaRange.FirstAndLastAreRefused` | libanykeep/mediarangeservice.cpp:103-108 | The first and the last byte, an example of section 14.1.2, denotes bytes and is refused |
| `MediaRange.UpperCaseUnitIsRefused` | libanykeep/mediarangeservice.cpp:103-108 | A unit in upper case denotes bytes and is refused |
| `MediaRange.OverflowingLastIsRefused` | libanykeep/mediarangeservice.cpp:118-123 | A range the RFC would serve is refused because its last position does not fit |
| `MediaRange.ResponseIsShort` | libanykeep/mediarangeservice.cpp:129-136 | The response in front of the body is at most 300 bytes |
| `RangeHeaders.FieldLineIsRead` | libanykeep/mediarangeservice.cpp:88-103 | A header line of a name, a colon and a value with white space around it is a Range line if and only if its name is "range", compared without case, and its value is then read without the white space |
| `RangeHeaders.NoRangeLine` | libanykeep/mediarangeservice.cpp:88-95 | Without a Range line there is no value |
| `RangeHeaders.OneRangeLine` | libanykeep/mediarangeservice.cpp:88-103 | With one Range line there is its value |
| `RangeHeaders.SeveralRangeLines` | libanykeep/mediarangeservice.cpp:95-98 | With several there are several |
| `RangeHeaders.CharactersAre` | libanykeep/mediarangeservice.cpp:92-98 | White space is six characters, and exactly the 26 capital letters have another lower case |
| `RangeHeaders.ResponseLines` | libanykeep/mediarangeservice.cpp:129-136 | The response is a status line that says whether there is a range, the fields and an empty line, each ended by CRLF; the fields give the length of what follows and, for a range, its first and last position and the size of the content |
| `RangePump.StepKeeps` | libanykeep/mediarangeservice.cpp:165-209 | Every event keeps: body a prefix of the range, reads in order, little unsent, not stalled |
| `RangePump.RunKeeps` | libanykeep/mediarangeservice.cpp:165-209 | Over every run: at most 192 KiB unsent, the body a prefix of content[start..end], and all of it when the connection closed as complete |
| `RangePump.ServedRunKeeps` | libanykeep/mediarangeservice.cpp:88-209 | The same for the connection that answers a request: a body that is complete has the length its Content-Length line announced |
| `RangePump.StartKeeps` | libanykeep/mediarangeservice.cpp:141-209 | The first pump establishes the invariant, even if its read completes at once |
| `RangePump.OneReadAtATime` | libanykeep/mediarangeservice.cpp:165-180 | A read is asked for only when every earlier one has completed |
| `RangePump.CancelOnlyInFlight` | libanykeep/mediarangeservice.cpp:157-162 | A cancel handle is used only for the read in flight, at most once |
| `RangeReplies.RepliesAreSent` | libanykeep/mediarangeservice.cpp:183-202 | Every event: a reply that reaches a live connection is sent if it did not fail, is not empty and not longer than asked for: exactly its bytes are appended, after the response if that is not out yet, the position moves behind them, the connection goes on and a timer is set. Any other reply ends the connection as failed, with the error if the response is not out yet; without a reply nothing is sent |
| `RangeReplies.FailureHasAReason` | libanykeep/mediarangeservice.cpp:165-205 | Over every run: a connection has ended as failed if and only if a reply that reached it had failed, was empty or was longer than asked for |
| `RangeReplies.EndingsAreDue` | libanykeep/mediarangeservice.cpp:157-206 | Every event: a live connection ends for a bad reply, when the pump looks and all is sent or the provider is gone, or when it is closed from outside, and for nothing else; how it ended never changes |
| `RangeReplies.ReadsAreAskedFor` | libanykeep/mediarangeservice.cpp:165-183 | Every event: whenever the pump looks and there is more to send, exactly the next read is asked for: at the position, as long as possible up to 64 KiB, with priority if it is the first; it looks if no read is pending and at most 128 KiB are unsent |
| `RangeReplies.ReadsAreCancelled` | libanykeep/mediarangeservice.cpp:156-162 | Every event: a read in flight is cancelled exactly when its connection is closed from outside |
| `RangeReplies.StartReads` | libanykeep/mediarangeservice.cpp:165-209 | The first read is asked for when the connection starts, and its reply is treated like any other |
| `RangePump.CompletedKeeps` | libanykeep/mediarangeservice.cpp:184-203 | Handling a completion keeps the invariant and ends the pending read of a live connection |
| `RangePump.RangeConnection.constructor` | libanykeep/mediarangeservice.cpp:141-209 | A connection starts by pumping |
| `RangePump.RangeConnection.PumpOnce` | libanykeep/mediarangeservice.cpp:165-207 | One call of the pump |
| `RangePump.RangeConnection.OnCompletion` | libanykeep/mediarangeservice.cpp:184-203 | The completion of a read |
| `RangePump.RangeConnection.OnBytesWritten` | libanykeep/mediarangeservice.cpp:208 | Sent bytes make the pump look again |
| `RangePump.RangeConnection.OnTimer` | libanykeep/mediarangeservice.cpp:202 | So does the timer set after a read |
| `RangePump.RangeConnection.OnDisconnected` | libanykeep/mediarangeservice.cpp:157-162 | A disconnect cancels the read in flight |
| `RangePump.RangeConnection.OnOwnerDestroyed` | libanykeep/mediarangeservice.cpp:156 | The provider going away aborts the connection |
| `AssignmentState.ProtocolHolds` | libanykeep/folderoperationscontroller.cpp:53-478 | Over every run, however often completions fire: an operation is announced exactly once when it is over and not before, the pending count is the number of operations in flight, and a native change starts at most once and only with the overlay stored |
| `AssignmentState.StepKeeps` | libanykeep/folderoperationscontroller.cpp:53-478 | Every segment between two signals keeps the protocol's invariant |
| `AssignmentState.AnnouncedTruthfully` | libanykeep/folderoperationscontroller.cpp:53-478 | A step announces at most one operation, with its own storage, note and folder, and success if and only if its change job succeeded or the storage has no native folders (for a preparation alone: its tree job succeeded or there is no catalog) |
| `AssignmentState.SuccessIsJustified` | libanykeep/folderoperationscontroller.cpp:53-478 | Over every run: success was announced only for an operation with a step that justified it: its change job succeeded or the storage has no native folders (for a preparation alone: its tree job succeeded or there is no catalog) |
| `AssignmentState.BeginKeeps` | libanykeep/folderoperationscontroller.cpp:170-176 | An operation that begins is counted as in flight |
| `AssignmentState.AnnounceKeeps` | libanykeep/folderoperationscontroller.cpp:464-478 | An announcement is the operation's only one, and the operation stays counted until the listeners have returned |
| `AssignmentState.StartChangeKeeps` | libanykeep/folderoperationscontroller.cpp:338-343 | The native change is the operation's only one, and the overlay has been stored |
| `AssignmentState.EndKeeps` | libanykeep/folderoperationscontroller.cpp:178-184 | The operation that ends is counted, so the clamp at zero never acts |
| `AssignmentState.StepsProgress` | libanykeep/folderoperationscontroller.cpp:256-478 | A repeated completion changes nothing; every other step of an operation brings it closer to its end |
| `AssignmentState.SomethingIsNext` | libanykeep/folderoperationscontroller.cpp:256-478 | An operation that is not over waits for a job or has a step to take |
| `AssignmentState.RefusedCallsAreSilent` | libanykeep/folderoperationscontroller.cpp:53-104 | Exactly the accepted calls become operations; the others change only the error |
| `AssignmentOutcomes.StepLeadsOn` | libanykeep/folderoperationscontroller.cpp:256-476 | Every step of an operation that is not a repeated report: if its result is good the operation goes to its next phase, or ends with success; otherwise failure is announced, with the reason. A load is good only if the storage is there, it succeeded and gave the same note, and the overlay could be stored; a native change is started exactly when the operation gets to changing |
| `AssignmentOutcomes.AcceptedCallsLeadOn` | libanykeep/folderoperationscontroller.cpp:53-104 | An accepted call is complete at once without native folders, goes on to the native part with them, and loads its note first if it is not known; the overlay is stored if the note is known |
| `AssignmentOutcomes.RefusedCallsSayWhy` | libanykeep/folderoperationscontroller.cpp:53-104 | A refused call only says why |
| `AssignmentOutcomes.PrepareLeadsOn` | libanykeep/folderoperationscontroller.cpp:124-142 | A preparation is complete at once without a catalog, and begins with one; a refused one only says why |
| `AssignmentOutcomes.NoteIsFoundFirst` | libanykeep/folderoperationscontroller.cpp:53-315 | Over every run: an operation gets to its native part only if its note was known at the call or the first report of its load succeeded with the same note and the overlay stored |
| `AssignmentOutcomes.ChangeNeedsNoteAndTree` | libanykeep/folderoperationscontroller.cpp:53-462 | Over every run: a native change is started only after its note was found and then its storage turned out to have no catalog or the first report of its tree said that it is in place |
| `AssignmentState.ErrorKeeps` | libanykeep/folderoperationscontroller.cpp:160-168 | Errors do not touch operations |
| `Assignment.FolderOperationsController.AssignNoteFolder` | libanykeep/folderoperationscontroller.cpp:53-104 | Answers true exactly if an operation was recorded (new state equal to the specified step) |
| `Assignment.FolderOperationsController.PrepareNativeFolderTree` | libanykeep/folderoperationscontroller.cpp:124-141 | A preparation is begun, answered at once or refused (new state equal to the specified step) |
| `Assignment.FolderOperationsController.StartAssignmentLoad` | libanykeep/folderoperationscontroller.cpp:256-276 | Waits for the note, or fails (new state equal to the specified step) |
| `Assignment.FolderOperationsController.OnLoadFinished` | libanykeep/folderoperationscontroller.cpp:277-314 | Handled once: stores the overlay before going on (new state equal to the specified step) |
| `Assignment.FolderOperationsController.StartNativeAssignment` | libanykeep/folderoperationscontroller.cpp:317-401 | Through the tree if the storage has a catalog (new state equal to the specified step) |
| `Assignment.FolderOperationsController.OnTreePrepared` | libanykeep/folderoperationscontroller.cpp:402-461 | Handled once: goes on to the change (new state equal to the specified step) |
| `Assignment.FolderOperationsController.OnChangeFinished` | libanykeep/folderoperationscontroller.cpp:446-456 | Handled once: announces the result (new state equal to the specified step) |
| `Assignment.FolderOperationsController.OnListenersReturn` | libanykeep/folderoperationscontroller.cpp:178-184 | The count goes down by one (new state equal to the specified step) |
| `SemVer.SemanticVersion` | cmake/generate_plugin_metadata.py:40-68 | Returns the stripped text, or the current version, if and only if it is an accepted version |
| `SemVer.CompareSemanticVersions` | cmake/generate_plugin_metadata.py:71-99 | The two loops with early returns compute the comparison |
| `SemVer.CompareIsPrecedence` | cmake/generate_plugin_metadata.py:71-99 | On accepted versions the comparison is the precedence of item 11 of Semantic Versioning 2.0.0 |
| `SemVer.NumeralsCompareNumerically` | cmake/generate_plugin_metadata.py:79-83 | Comparing numerals by length and then as text compares the numbers |
| `SemVer.IdentifiersCompare` | cmake/generate_plugin_metadata.py:87-97 | Identifiers compare as items 11.4.1 to 11.4.3 say |
| `SemVer.EqualUpToBuild` | cmake/generate_plugin_metadata.py:71-99 | Two accepted versions compare equal if and only if they agree up to build metadata |
| `SemVer.Antisymmetric` | cmake/generate_plugin_metadata.py:71-99 | Swapping the arguments negates the result |
| `SemVer.Transitive` | cmake/generate_plugin_metadata.py:71-99 | The comparison is transitive |
| `SemVer.JoinOfSplit` | cmake/generate_plugin_metadata.py:72-75 | Taking a version apart loses nothing |
| `SemVerGrammar.AcceptedIsGrammar` | cmake/generate_plugin_metadata.py:40-68 | A text is accepted if and only if items 2, 9 and 10 of Semantic Versioning 2.0.0 generate it: three numeric identifiers joined by dots, and, where there are any, pre-release identifiers after a hyphen and build identifiers after a plus; core and pre-release are then read as written |

## Left out

- Tickets, sequence numbers and attempt numbers of the scheduler do not wrap at 64 bits.
- The scheduler's clock is read once for each stretch of code between two callbacks; hash iteration order is an out-parameter that may be any order.
- Destruction of the scheduler from inside one of its callbacks, and the queued hop of reports from other threads.
- Shared job objects are values in the map of jobs with an identity number, which is what a restarted job keeps.
- Floating-point rounding of the bandwidth credit: the credit is a real number.
- Cryptography, key derivation, the keychain, MIME detection and the hash functions themselves.
- The legacy formats: blobs that are not chunked, and locators of format 1; a file without the chunk magic is an error here.
- Errors of the output device while a container is written, and the difference between a null and an empty QString or QByteArray.
- Strings with characters outside the basic multilingual plane, whose sizes Qt counts as two.
- The byte format of locators: a locator either opens to a source or does not.
- MediaMove.MoveIsCrashSafe: the destination is assumed not to be one of the store's own files, and the saved file not to be modified after it was fingerprinted.
- MediaSources.ExternalFileMediaSource.Read: a file without a fingerprint that was replaced by another of the same size and time stamp is read as if it were the linked one; the code cannot tell, and the bytes are then promised to be of that size and time stamp only.
- QIODevice's own read-ahead buffer: `WireStream.MediaChunkWireStream.Read` is an unbuffered read.
- Sockets, QSaveFile and timers are steps that happen or atomic writes that succeed or fail; HTTP request lines, the eight-connection limit and the 30-second timeout are not modelled.
- A reader is taken to complete a read at most once, and what it returns to be the content at that place, as the range service requires of it.
- Building the rows of the folder list, and everything about notes, drafts and the folder catalog behind it.
- QRegularExpression, trimming and case-insensitive comparison of rule conditions are arbitrary functions; `inputFingerprint` and the application markers of a snapshot are not modelled.
- Rules with equal ids and sort orders, whose order `std::sort` leaves open.
- AssignmentState.ProtocolHolds: a loaded note is taken to belong to the storage it was loaded from; the storage id announced is the one asked for.
- Merging the provider's folder catalog with the global one before a tree is prepared: the snapshot succeeds or fails.
- AssignmentState.Announce: listeners of `errorStringChanged` are taken not to call back into the controller between the error and the announcement.
- Whether jobs ever finish: the results say what happens once they do.
- Editing the text of a block also clears its explicit-empty flag in the block model, which is not part of a scalar command; such an edit is covered as a change of the document.
- The undo history's restore handlers are taken to be installed and to write what they are given.
- The record serializers of drafts, catalogs, rules and remote caches, the CBOR fragment codec, the dialog queue and plugin ordering: field-by-field properties.
- Windows, D-Bus, QML, highlighting, playback and session restore.
