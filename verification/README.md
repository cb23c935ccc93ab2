# Verification model of the AP entry watcher and its companions

This project models the part of the trading system that decides when an armed setup may be
entered, who owns an order while it waits, and how that ownership ends. Everything is stated in
exact reals and whole seconds.

The entry watcher is modelled in four layers.

* **Per-signal machine.** `SignalMachine` says what one poll does to one watched signal;
  `WatchedSignals` is the class with the source's fields, and its `Check` is proved equal to that
  function. `StreakSoundness`, `Erasure`, `Arbitration`, `LateGate` and `LateClassifier` prove what
  whole runs of polls keep; `StopSides`, `Zones` and `BreachRecord` say over the raw quotes, one side
  at a time, what a poll decides and what is recorded of it.
* **Registry.** `Registry` defines admission, the rearm sweep, the end-of-day close, replacement
  and removal; `Arming` says over the watchers' fields who is armed, who has to go and which ids are
  free again; `EntryWatchers` is the class whose loops compute them; `OpenProtection` is the
  market-open barrier.
* **Trigger protocol.** `TriggerAuthority` is the interleaved compare-and-set protocol that records
  a crossing, with the materialization claims that fill it in and the direction-reversal rearms that
  erase it; `DeferredClaims` decides what a callback's claim is worth for a deferred order, and
  `ClaimTable` is that decision as a table over the row and the clock.
* **Completion and ownership.** `Completion` is the verifier, dispatcher and quarantine;
  `CleanupRetries` says what each claim must find and when a quarantined watcher can leave;
  `Histories` puts arms, sweeps, convergence to terminal rows, callbacks, dispatches, retries,
  revivals and row changes in any order and proves what the registry keeps; `Ownership` proves over
  the same histories what every departure rests on: cleanup, convergence or accepted trigger callback;
  `Blocking` proves which ids block a second arm.

Around it stand `RunLock` (the morning-job database lock), `Ledger` (the lifecycle ledger and the
restore path), `Rescue` with `RescueTable` (the rescue batch), `EdgeStats` with `EdgeLabels` (nightly
statistics), `Preflight` with `PreflightTable` (the check before submission) and `Identity` with
`Texts` (canonical ids and provenance). `Joins` is the theory of texts joined by a separator that the
combo buckets need. Each module that reads the order row models the fields its own decisions depend on.

The decisions are also said without their own predicates, over raw fields, prices and times: that is
what `StopSides`, `Zones`, `Arming`, `ClaimTable`, `CleanupRetries`, `PreflightTable`, `RescueTable` and
`EdgeLabels` are for. Where such a lemma only spells one step out, it has no row below.

Code that updates fields in place is a class or a method with a loop, proved against a function;
the laws are lemmas about that function over all inputs, runs or histories.

## Where the code and its intent differ

Each point names the lines and the lemma that decides it.

* The pre-open guard of `check` is described as keeping the stop of overnight setups dormant before
  the open. It needs the crossing to be unconfirmed while the stop needs it confirmed, so it never
  decides anything (ap_entry_watcher.py:1429-1444; `Arbitration.OrdinaryVerdict`).
* Unusable polls are meant to have no influence. With a clock that never steps back they have none
  (`Erasure.UnusablePollsAreErasable`); for any clock a single one is harmless exactly when there is
  no streak or the streak is still fresh (ap_entry_watcher.py:989-1039;
  `Erasure.UnusablePollIsHarmlessIff`).
* The tie window between opposite sides is described as three points. It is three percent of the
  incumbent's score, at least 0.03, and inside it a higher timeframe rank lets a weaker newcomer
  displace a stronger incumbent (ap_entry_watcher.py:605 and 3864-3876; `Registry.BeatsIff`,
  `Registry.DisplacedScores`).
* A refused arm request can already have displaced incumbents (ap_entry_watcher.py:3876-4036).
  `Registry.RefusalChangesNothingIff` says exactly when it has not; `Registry.WonFlipMayArmNobody`
  is the failing family: a won flip whose lifecycle is not restored.
* The invalidation callback of a deferred order may put the watcher back to PENDING
  (ap_execution_core.py:11287-11290). That keeps one live watcher per ticker only because no arm runs
  between the check and the callback: `Histories.LateRevivalIsSafeIff` is the exact condition,
  `Histories.ArmBeforeRevivalBreaksTicker` the interleaving that breaks it.
* A recorded trigger authority is guarded by compare-and-set as if it were final. A direction-reversal
  rearm erases it from a waiting row (ap/order_state_machine.py:3676-3765, called at
  ap_execution_core.py:6036-6053), so it lasts exactly until such a rearm takes effect
  (`TriggerAuthority.AuthorityPersistsIff`), and two crossings can reach the callback across one
  (`TriggerAuthority.RearmAllowsASecondCrossing`), never otherwise
  (`TriggerAuthority.OneCrossingReachesTheCallback`).
* A direction reversal is meant to start the live watcher over so that it can trigger again. The
  reset forgets its crossing and its attempts (ap_execution_core.py:894-910), but not the flag and
  the text it last published (ap_entry_watcher.py:6286-6305): until somebody writes that very text
  again it wins nothing, whatever it confirms (`TriggerAuthority.RearmLocksOut`,
  `TriggerAuthority.LockedOutStays`, `TriggerAuthority.PassesOnItsOldTextIff`), and then it is called
  on the old crossing (`TriggerAuthority.ResetWatcherReturnsOnItsOldText`).
* A retry of the run lock after a lost answer reports the caller's own lock as held
  (ap_handoff_run_lock.py:125-183, retried by ap/db.py:95-124). For any row, any tries and
  whatever other callers do between them, "held" hides the caller's own lock exactly when one try
  won unheard and nobody acquired the row after it (`RunLock.HeldHidesOwnLockIff`).
* Replaying the ledger reproduces the current states except when a reason borrows the marker of the
  error rows or a caller supplies its own origin (ap_lifecycle.py:351-380 and 477-488;
  `Ledger.MoveIsFaithfulIff`, `Ledger.RefusalIsFaithfulIff`).
* The historical ticker-only seed of open protection protects only until a trigger outside the seed
  is admitted (ap_entry_watcher.py:6172-6175; `OpenProtection.SeedProtectsUntil`). The watcher itself
  writes the set only where it resets it and where it has just admitted a key
  (ap_entry_watcher.py:1731, 5437 and 6194), so only outside code can seed it:
  `OpenProtection.OneRegistrationPerKey` covers every session of the watcher.
* The rescue batch looks orders up under the trimmed client id it was given
  (ap_armed_deferred_rescue.py:202-259), while the order machine inserts its own lower-cased one
  (ap/order_state_machine.py:419 and 826). At most one order and one repair per key is a law of all
  genuine histories exactly when the two ids are equal (`Rescue.NeverTwiceIff`), for one account
  exactly when its id has no capital letter (`Rescue.OneAccountIsSafeIff`); otherwise one failed
  result write gives a second order (`Rescue.MismatchRepairsTwice`).
* Combo buckets merge different setups exactly when a separator inside a field could pass to a
  neighbouring field and leave something behind (ap_edge_intelligence.py:279-289;
  `EdgeStats.CombosMergeIff`).
* The drawdown is computed newest trade first, which does not matter
  (ap_edge_intelligence.py:309-321; `EdgeStats.DrawdownIgnoresDirection`).
* Raising the bid can never fail the preflight, lowering the ask can: exactly when the new mid has
  faded too far from the decision price (ap_entry_confirmation.py:657-691;
  `Preflight.LowerAskPassesIff`, with defaults in `Preflight.LowerAskMayFail`).

## Model

| member | source | states |
|---|---|---|
| WatchedSignals.WatchedSignal.Check | ap_entry_watcher.py:951-1697 | one poll, field by field, is the side-neutral step function: expiry, held evidence, drift, late gate, breach count, stop, missing stop truth, in that order |
| WatchedSignals.WatchedSignal.ApplyGate | ap_entry_watcher.py:1091-1345 | the late gate's state change and whether the poll goes on to the breach path |
| WatchedSignals.WatchedSignal.Observe | ap_entry_watcher.py:1347-1406 | one valid breach observation: stale anchors restart the streak, the required count confirms it |
| WatchedSignals.WatchedSignal.ResetContinuity | ap_entry_watcher.py:937-945 | the streak fields are cleared and nothing else |
| SignalMachine.DriftIsRelative | ap_entry_watcher.py:1057-1087 | the division-free drift test is the source's relative drift, for every trigger sign |
| StreakSoundness.ConfirmationIsSound | ap_entry_watcher.py:1347-1406 | for any quotes and any clock: a crossing, the first or a later one, is confirmed only at a poll that completes the required breaches in a row with gaps of 0 to 45 s and no valid non-breach between; it is dated by the first of them, at most 45·(N−1) s earlier |
| StreakSoundness.CrossingStaysIff | ap_execution_core.py:894-912 | over any run of polls and callbacks the crossing time stays what it is exactly when no callback in the run starts the watcher over |
| StreakSoundness.TriggeredMeansConfirmed | ap_entry_watcher.py:1378-1400 | over all runs a triggered watcher has a dated crossing |
| Erasure.UnusablePollsAreErasable | ap_entry_watcher.py:989-1039 | with a clock that never steps back, deleting all polls without entry evidence leaves the first confirmation and its decision unchanged |
| Erasure.UnusablePollIsHarmlessIff | ap_entry_watcher.py:989-1039 | for any clock: inserting an unusable poll changes no later first confirmation, whatever quiet polls follow, exactly when the trigger is not positive, there is no streak, or the streak is still fresh |
| Erasure.BackwardClockBreaksErasure | ap_entry_watcher.py:1007-1033 | a run in which a backward clock step loses a confirmation |
| Erasure.ConfirmsExactlyAtFirstStreak | ap_entry_watcher.py:1347-1406 | for any clock: confirmed exactly when some N observations form a streak, at the earliest such streak, dated by its start |
| Erasure.FirstInformativeStreakDecides | ap_entry_watcher.py:989-1406 | over arbitrary polls with an ordered clock, the first streak among the informative ones decides |
| Erasure.TailLenExact | ap_entry_watcher.py:1350-1368 | the length the watcher counts is the longest suffix that is a streak |
| Arbitration.OrdinaryVerdict | ap_entry_watcher.py:1346-1697 | the complete decision table of an ungated poll; a confirmed crossing with a broken stop always loses, on the confirming poll and before the open as well |
| Arbitration.ExpiryVerdict | ap_entry_watcher.py:980-1088 | a pending signal expires exactly at its limit or on a late drift, and such a poll confirms nothing |
| Arbitration.TriggerNeedsEvidence | ap_entry_watcher.py:1041-1055 | TRIGGERED implies uncrossed valid entry-side breach evidence and, with a stop set, a valid stop side that holds |
| Arbitration.BrokenStopEndsTheSignal | ap_entry_watcher.py:1429-1445 | over a run: after confirmation the first unexpired undrifted poll with a broken stop invalidates, and nothing after it triggers unless the invalidation callback revives the watcher |
| StopSides.CallVerdict | ap_entry_watcher.py:1346-1546 | the whole verdict of an ordinary poll on a CALL over the raw bid and ask: enters on the ask, stopped on the bid at or below 99.9% of the stop |
| StopSides.PutVerdict | ap_entry_watcher.py:1547-1697 | the same for a PUT: enters on the bid, stopped on the ask at or above 100.1% of the stop |
| StopSides.ConfirmedIsStoppedIff | ap_entry_watcher.py:1439-1445 | once confirmed, an ordinary poll invalidates exactly on an uncrossed positive stop side at or beyond its buffered stop |
| StopSides.WorseNeverRescues | ap_entry_watcher.py:1429-1445 | a CALL bid moved down or a PUT ask moved up never rescues a signal that would have been invalidated |
| StopSides.DriftsIff | ap_entry_watcher.py:1057-1087 | the drift test over the raw quotes |
| StopSides.CountAfterSight | ap_entry_watcher.py:1347-1406 | the count, its anchor and the collision flag after an ordinary poll with entry quote and stop side |
| StopSides.CountAfterNoSight | ap_entry_watcher.py:989-1039 | and after one without |
| BreachRecord.ConfirmationRecordsItsPolls | ap_entry_watcher.py:1369-1400 | at every confirmation the crossing time and recorded quotes are those of one poll, with which the streak began; trigger price and time are the confirming poll's |
| LateGate.GatedTriggerIsEarned | ap_entry_watcher.py:1091-1345 | whatever the classifier answers, a gated run that triggers opened its gate by N zone polls, N reset polls without a valid non-reset poll between, or a first truthful pre-trigger poll, and made N breach observations from then on |
| LateGate.GateOpensIff | ap_entry_watcher.py:1091-1345 | over any run of a freshly gated watcher the gate stands open exactly when some poll so far completed N zone polls, N reset polls with no valid non-reset poll among them, or a first truthful pre-trigger poll |
| LateClassifier.GateVerdictsAreEvidence | ap/pending_trigger_classifier.py:319-500 | zone verdicts prove a breach by that poll's entry quote, reset and pre-trigger verdicts prove the opposite |
| LateClassifier.TraceVerdictsAreEvidence | ap_entry_watcher.py:1133-1190 | the same for every poll of a run that asks the classifier with its own crossing evidence |
| LateClassifier.NeverBothWays | ap/pending_trigger_classifier.py:503-522 | no poll counts both as continuation and as reset |
| LateClassifier.DormantStopBehindTheGate | ap/pending_trigger_classifier.py:391-437 | without a confirmed crossing the gate invalidates only for a reached target or a decisive move |
| Zones.CallClass | ap/pending_trigger_classifier.py:319-500 | the class and reset answer of a CALL over the raw quotes, by how far the ask is past the trigger |
| Zones.PutClass | ap/pending_trigger_classifier.py:319-500 | the same for a PUT, by the bid |
| EntryWatchers.EntryWatcher.AddSignal | ap_entry_watcher.py:3634-4050 | the admission loops compute the arbitration function on pending list and dedup set |
| EntryWatchers.EntryWatcher.CheckRearmSignals | ap_entry_watcher.py:3245-3456 | the sweep loop applies expiry, reclaim and attempt limit to each waiting watcher |
| EntryWatchers.EntryWatcher.CloseSameDay | ap_entry_watcher.py:5446-5474 | same-day live watchers leave, ids stay blocked |
| EntryWatchers.EntryWatcher.DispatchCompletion | ap_entry_watcher.py:6920-7009 | verified removal with release, quarantine, or retention, and the whole new registry |
| EntryWatchers.EntryWatcher.EnterQuarantine | ap_entry_watcher.py:7312-7393 | quarantine flags, first deadline, attempt count and next retry, everyone else unchanged |
| EntryWatchers.EntryWatcher.RetryOne | ap_entry_watcher.py:7395-7533 | one step of the quarantine sweep: not due, past deadline, verified release, or another attempt |
| Registry.AdmitKeeps | ap_entry_watcher.py:3634-4050 | admission keeps ids distinct and blocked, rearm implies PENDING, and one live watcher per ticker |
| Registry.AdmissionDecides | ap_entry_watcher.py:3634-4050 | a request is armed exactly when its id is unknown, the lifecycle is restored and it is unbeaten; a known id changes nothing |
| Registry.ArmedStandsAlone | ap_entry_watcher.py:4044-4050 | the armed request is listed, blocks its id and has its ticker to itself |
| Registry.BeatsIff | ap_entry_watcher.py:3860-3885 | the opposite-side contest is won by a higher score or, inside a window of three percent of the incumbent's score and at least 0.03, by a higher timeframe rank |
| Registry.DisplacedScores | ap_entry_watcher.py:3690-4040 | admission removes only live watchers of the ticker: same-side ones that score less, opposite ones up to s + 0.03·max(1, b) |
| Arming.WhoStandsInTheWay | ap_entry_watcher.py:3656-3735 | over the watchers' fields: own side, opposites that give way and opposites that block |
| Arming.BestIsFirst | ap_entry_watcher.py:3863-3866 | the compared opposite is the first of those nobody outscores |
| Arming.ArmedIff | ap_entry_watcher.py:3634-4050 | armed exactly when the id is unknown, the lifecycle restored, the opposites passed and the own side outscored |
| Arming.FlippedIff | ap_entry_watcher.py:3860-3890 | the opposites are passed exactly when none blocks, or the newcomer scores more than the first best or ranks higher inside the window |
| Arming.AdmissionDisplaces | ap_entry_watcher.py:3690-4040 | the list after an admission: exactly who does not have to go, and the newcomer if armed |
| Arming.AdmissionFreesTheDisplaced | ap_entry_watcher.py:3760-3990 | the blocked ids after an admission: without those of the displaced, with the newcomer's if armed, and otherwise as before |
| Arming.DisplacedMayReturn | ap_entry_watcher.py:3760-3990 | a displaced id can be armed again under the conditions of any unknown id |
| Registry.RefusalChangesNothingIff | ap_entry_watcher.py:3634-4050 | a refused request leaves the registry as it was exactly when its id was known, or nothing was prunable and it was stopped by the first obstacle it met |
| Registry.WonFlipMayArmNobody | ap_entry_watcher.py:3876-4036 | a won flip whose lifecycle is not restored arms nobody and leaves the ticker without a live watcher |
| Registry.SweepKeeps | ap_entry_watcher.py:3326-3386 | the rearm sweep keeps the invariant and never makes a dead watcher live |
| Registry.SweepsDecideOnce | ap_entry_watcher.py:3326-3386 | over any number of sweeps a waiting watcher waits unchanged to the first sweep that finds it timed out or reclaimed, wakes there on a reclaim in time with an attempt left, ends there otherwise, and no later sweep touches it |
| Registry.ReclaimedIff | ap_entry_watcher.py:3340-3372 | a reclaim over the raw prices: a CALL at or above its stop plus the tolerance, a PUT at or below its stop less the tolerance |
| Registry.CloseDayKeeps | ap_entry_watcher.py:5446-5488 | so does the close |
| Histories.RegistryInvariant | ap_entry_watcher.py:3634-4050 | over every history of all events, convergence to terminal rows, restarts by a direction reversal and revivals by the invalidation callback included, the registry invariant holds, and one live watcher per ticker unless a recovered trigger bypassed arbitration |
| Histories.LateRevivalIsSafeIff | ap_execution_core.py:11262-11300 | taken apart from its check, a revival keeps one watcher per ticker exactly when nobody live took the ticker |
| Histories.ArmBeforeRevivalBreaksTicker | ap_execution_core.py:11262-11300 | an admission between the check and the revival leaves two live watchers on one ticker |
| Ownership.NoOwnerlessRow | ap_entry_watcher.py:6545-7310 | over every history with truthful but possibly stale reads: who left by cleanup did so on a value its row really had that matched order, client and mode, was closed, unowned and stored the claimed reason, and the row is closed for good; who left by convergence had a row terminal for its exact identity, closed for good; a deferred order that left by an accepted callback was terminal for its exact identity, the broker's, or leased, and unless leased is past its trigger for good |
| Blocking.BlockedIdsAre | ap_entry_watcher.py:5446-5488 | over every history an id is blocked exactly if a listed watcher has it or a day close took its watcher off the list; all other departures release it |
| Histories.QuarantineHolds | ap_entry_watcher.py:7395-7533 | a quarantined watcher is never active and stays until a due, timely, verified TERMINALIZED retry |
| Histories.QuarantineStep | ap_entry_watcher.py:910-921 | the same for each single event |
| Histories.RetryBound | ap_entry_watcher.py:6686-6887 | per arm the callback fails at most three times between two direction reversals that start the watcher over, and the watcher leaves completed at most once |
| Completion.ExhaustionRemovesOnlyProven | ap_entry_watcher.py:6736-6887 | the third failure removes exactly on an acknowledged write and a matching row; else quarantine |
| Completion.DispatchKeepsOwner | ap_entry_watcher.py:6980-7009 | an ended watcher that is not removed keeps id and order, is as the callback left it or that in quarantine, and can trigger again only if the callback revived it |
| Completion.RetentionIsProven | ap_entry_watcher.py:7196-7310 | staying without quarantine needs a retry or rearm recorded in a PENDING_TRIGGER row of the same order, for a registered watcher |
| Completion.TransitionsSkipNoGate | ap/order_state_machine.py:367-382 | the transition table in two rules: forward without skipping submission, fill, exit request or exit submission; closed from everywhere but the fill and the ends |
| CleanupRetries.VerifiedIs | ap_entry_watcher.py:7011-7310 | what each claim must find in the row, field by field |
| CleanupRetries.QuarantineReleases | ap_entry_watcher.py:7336-7342 | liveness: with a proven end a quarantined watcher is released exactly from one retry delay after it entered to its deadline |
| CleanupRetries.FailedAttemptIsRepeated | ap_entry_watcher.py:7500-7515 | the same after a failed attempt |
| CleanupRetries.FirstProvenLookReleases | ap_entry_watcher.py:7395-7533 | over a run: however many attempts failed, the first timely look with a proven end releases |
| CleanupRetries.NothingReleasesAfterTheDeadline | ap_entry_watcher.py:7416-7440 | past the deadline no look releases, whatever it finds |
| TriggerAuthority.AuthorityProtocol | ap_entry_watcher.py:6199-6426 | for any number of watchers, claims and rearms, any interleaving and lost answers: between two rearms the row gains one value at most and every success is on it; at most one write more than rearms; every callback follows a success on the same value in that dispatch; started implies persisted |
| TriggerAuthority.OneCrossingReachesTheCallback | ap_entry_watcher.py:6602-6624 | callbacks on different crossings lie across a rearm: the authority was erased between the two successes that earned them |
| TriggerAuthority.CallbackIsOwn | ap_entry_watcher.py:6286-6305 | a callback runs on its watcher's own crossing, unless a rearm has reset that watcher before |
| TriggerAuthority.EveryEntryMetItsRow | ap/order_state_machine.py:2337-2430 | over every run: each write and success met a row that was PENDING_TRIGGER, unsent, without intent, not ready, of that signal, identity and generation; each claim and rearm a waiting unsent row |
| TriggerAuthority.AttemptSucceedsIff | ap_entry_watcher.py:6199-6320 | exactly which watcher and row an answered attempt needs |
| TriggerAuthority.AuthorityPersistsIff | ap/order_state_machine.py:3676-3765 | a recorded crossing and provenance stay what they are throughout a run exactly when no rearm takes effect in it |
| TriggerAuthority.RearmAllowsASecondCrossing | ap_execution_core.py:6036-6090 | for any two watchers ready to record: claim and rearm between them give two writes and two callbacks on two crossings |
| TriggerAuthority.RearmLocksOut | ap_execution_core.py:894-912 | a watcher reset from within its callback loses its crossing, keeps its published flag and text, and is locked out |
| TriggerAuthority.LockedOutStays | ap_entry_watcher.py:6286-6342 | over every continuation a locked-out watcher wins nothing and is never called until somebody writes its old text again |
| TriggerAuthority.PassesOnItsOldTextIff | ap/order_state_machine.py:2380-2424 | a watcher with a published text passes exactly on a row that holds that text and provenance |
| TriggerAuthority.ResetWatcherReturnsOnItsOldText | ap/order_state_machine.py:3382-3410 | a claim that brings the old text back lets a reset watcher into the callback on it, although its own crossing is new |
| TriggerAuthority.HalfAuthorityIsFenced | ap/order_state_machine.py:2363-2380 | until a rearm clears it, a row with only a crossing time or only a provenance never gains the other half, and nobody reaches the callback on it |
| TriggerAuthority.LostAnswerRecovers | ap_entry_watcher.py:6326-6390 | a silently committed write is read back, re-asserted and used, with one write in all |
| DeferredClaims.ProbeProvesExactTerminal | ap_entry_watcher.py:1803-1967 | the probe authorises exactly rows with the whole identity unanimous, a closed status, no broker trace and one agreed reason |
| DeferredClaims.VerdictRemoves | ap_entry_watcher.py:2026-2255 | which truths, claims and rows let a deferred watcher go |
| DeferredClaims.ClaimsAreNeverProof | ap_entry_watcher.py:6624-6695 | removed exactly when both reads prove the row terminal, or the row is the broker's or leased and the claim says so |
| ClaimTable.FateOfKnown | ap_entry_watcher.py:2026-2255 | the whole fate of a deferred order of known identity, over both probes, the row's fields and the clock |
| ClaimTable.TransferRunsOut | ap_entry_watcher.py:2184-2219 | a transfer claim removes the watcher exactly before the instant its lease ends |
| ClaimTable.FateOfUnknown | ap_entry_watcher.py:2088-2110 | the same without a known identity |
| ClaimTable.OpenRowIff | ap_entry_watcher.py:1803-1920 | exactly which rows are open to a claim |
| ClaimTable.ReconciledIff | ap_entry_watcher.py:1895-1925 | exactly which rows are held for reconciliation with the broker |
| ClaimTable.KnownIff | ap_entry_watcher.py:1746-1800 | exactly when an identity is known |
| ClaimTable.ConvergenceIs | ap_entry_watcher.py:1986-2024 | convergence: out on the exact proof, on as usual on an open row, else held |
| DeferredClaims.WaitingRowKeepsItsWatcher | ap_entry_watcher.py:1986-2255 | an unleased PENDING_TRIGGER row keeps its watcher against every claim |
| DeferredClaims.ProbeOverrulesClaims | ap_entry_watcher.py:2073-2087 | where the probe proves or withholds, the claim has no influence |
| DeferredClaims.SubjectSpeaksForItsSources | ap_entry_watcher.py:1746-1800 | a known deferred identity says of each field what every source in signal and metadata says; only the canonical id may be derived |
| OpenProtection.OpenGuard.Apply | ap_entry_watcher.py:6149-6197 | the loop's output and its four fields |
| OpenProtection.OpenGuard.OpenDay | ap_entry_watcher.py:5430-5439 | another date starts over, the same date changes nothing |
| OpenProtection.OnlyTheHolderPasses | ap_entry_watcher.py:6149-6197 | for every gate: order and length are kept; an item changes exactly when the ticker set alone still holds it back or another registration holds its key |
| OpenProtection.OneRegistrationPerKey | ap_entry_watcher.py:6160-6197 | over all polls and batches of a session: one registration per key, count equals keys equals owners |
| OpenProtection.OneOwnerPerSession | ap_entry_watcher.py:5430-5439 | in any two protected polls between two changes of date, only one registration gets through on a key |
| OpenProtection.SeedProtectsUntil | ap_entry_watcher.py:6172-6175 | from a gate without keys, the first request for a seeded ticker's key passes exactly when an earlier trigger of the batch had a ticker outside the seed |
| RunLock.LockRow.Acquire | ap_handoff_run_lock.py:125-183 | one acquire transaction: insert, or reclaim of a failed or stale row |
| RunLock.LockRow.TryAcquire | ap_handoff_run_lock.py:92-214 | mode check, retries with other callers' transactions between them, lost answers and fail-open |
| RunLock.LockRow.MarkCompleted | ap_handoff_run_lock.py:217-243 | only a running row under the caller's token becomes completed |
| RunLock.LockRow.MarkFailed | ap_handoff_run_lock.py:246-276 | only a running row under the caller's token becomes failed |
| RunLock.AcquiredMeansHeld | ap_handoff_run_lock.py:125-183 | a persisted acquisition leaves the row running under the caller's token |
| RunLock.HeldHidesOwnLockIff | ap_handoff_run_lock.py:125-183 | for a token of its own that does not hold the row yet, any tries and any transactions of others between them: "held" speaks of the caller's own lock exactly when one try won unheard and nobody acquired the row after it |
| RunLock.LostAnswerReportsHeld | ap_handoff_run_lock.py:155-186 | the shortest such run |
| RunLock.Exclusion | ap_handoff_run_lock.py:125-183 | between two successful acquisitions the earlier owner failed it or more than 600 s passed |
| RunLock.ShortRunsNeverOverlap | ap_handoff_run_lock.py:56-59 | runs that finish within 600 s never overlap |
| RunLock.DisplacedOwnerIsFenced | ap_handoff_run_lock.py:217-276 | a displaced owner's complete or fail changes nothing |
| RunLock.AcquireSucceedsIff | ap_handoff_run_lock.py:125-183 | over all histories: an acquisition succeeds exactly when nobody has won before, the last winner first finished by failing, or it has not finished and is stale |
| RunLock.OneCompletion | ap_handoff_run_lock.py:217-243 | at most one completion, and no acquisition after it |
| Ledger.SignalLedger.Transition | ap_lifecycle.py:330-394 | both rows of an illegal attempt, the strict exception, the table update |
| Ledger.SignalLedger.Reject | ap_lifecycle.py:400-490 | the rejection record and the move to REJECTED |
| Ledger.SignalLedger.Restore | ap_entry_watcher.py:3472-3530 | the full path answers true exactly from unseen, ADOPTED or WATCHING, ends in WATCHING and logs no illegal entry |
| Ledger.MoveIsFaithfulIff | ap_lifecycle.py:351-380 | from a faithful ledger, replay stays faithful exactly under a condition checkable beforehand |
| Ledger.ReplayReproduces | ap_lifecycle.py:330-394 | replaying the log reproduces the table for all plain calls |
| Ledger.RefusalIsFaithfulIff | ap_lifecycle.py:400-490 | the exact condition for rejections |
| Ledger.BorrowedMarkerBreaksReplay | ap_lifecycle.py:477-488 | a witness with the marker as rejection code |
| Ledger.TerminalStepIff | ap_lifecycle.py:351-380 | a terminal state is left exactly by a supplied origin that the table allows |
| Ledger.TerminalIsAbsorbing | ap_lifecycle.py:148-218 | over all calls that leave the origin unset, terminal states stay |
| Ledger.RemovedOnlyFromAnEnd | ap_lifecycle.py:203-212 | REMOVED is entered only from INVALIDATED, REJECTED, CANCELLED, EXPIRED or ERROR |
| Ledger.OneCorrelationPerSignal | ap_lifecycle.py:558-561 | all rows and rejections of a signal share one correlation id |
| Ledger.EnteredFrom | ap_lifecycle.py:148-212 | the transition table read by destination |
| Ledger.TerminalIff | ap_lifecycle.py:208-218 | the terminal states are exactly those nothing leaves |
| Ledger.RowsOfCall | ap_lifecycle.py:351-490 | the rows and the state each move or rejection adds, legal, illegal or strict |
| Rescue.RescueJob.RepairRow | ap_armed_deferred_rescue.py:284-443 | what one row's handling does to orders and queue, and its outcome; orders are looked up under the batch's client and created under the order machine's |
| Rescue.RescueJob.Run | ap_armed_deferred_rescue.py:466-541 | the batch loop's store and summary, with early refusals and the raising query |
| Rescue.BatchIsSafe | ap_armed_deferred_rescue.py:202-259 | nothing outside the order machine's client and the mode gains an order, dry runs change nothing, and a batch that looks for what it creates gives no key a second ENTRY order |
| Rescue.EveryRowIsCounted | ap_armed_deferred_rescue.py:519-541 | scanned is repaired plus already repaired plus skipped plus failed |
| Rescue.RepairedMeansDone | ap_armed_deferred_rescue.py:284-443 | exactly which rows are repaired; a repaired signal is eligible later only if batch and order machine use different ids; all other outcomes but failure change nothing |
| Rescue.RescueIsSafe | ap_armed_deferred_rescue.py:343-443 | over any number of runs that look for what they create: one order and one repair per signal, client and mode at most |
| Rescue.NeverTwiceIff | ap_armed_deferred_rescue.py:202-259 | no genuine history of runs gives any key a second order exactly when the batch's and the order machine's client ids are equal |
| Rescue.OneAccountIsSafeIff | ap/order_state_machine.py:413-419 | for one account, whose id the order machine folds to lower case: exactly when the id has no capital letter |
| Rescue.MismatchRepairsTwice | ap_armed_deferred_rescue.py:202-259 | for any two different ids: two runs and one failed result write give two orders and two repairs |
| RescueTable.LoadedIff | ap_armed_deferred_rescue.py:202-237 | exactly which rows a batch loads |
| RescueTable.OutcomeIs | ap_armed_deferred_rescue.py:284-400 | exactly what becomes of a row |
| RescueTable.EffectIs | ap_armed_deferred_rescue.py:343-443 | what a row leaves in orders and queue, whatever was answered |
| RescueTable.ReportIs | ap_armed_deferred_rescue.py:519-541 | what a batch reports |
| EdgeStats.Group | ap_edge_intelligence.py:266-289 | the grouping loop yields the keys in first-seen order and each key's trades in order |
| EdgeStats.BucketsConserve | ap_edge_intelligence.py:264-298 | every bucket type partitions the trades: counts and money are conserved |
| EdgeStats.KeysHaveTrades | ap_edge_intelligence.py:266-273 | a key per trade, a trade per key |
| EdgeStats.CombosMergeIff | ap_edge_intelligence.py:279-289 | a different setup shares the combo key of a trade exactly when a separator inside one of its fields could pass to a neighbouring field and leave something behind |
| EdgeStats.SeparatorMergesCombos | ap_edge_intelligence.py:279-289 | two different setups with one key |
| Joins.HasRivalIff | ap_edge_intelligence.py:279-289 | other non-empty parts join to the same text exactly when some separator inside a part could move to a neighbour |
| EdgeStats.MaxDrawdown | ap_edge_intelligence.py:376-390 | the one-pass loop finds the maximum over i ≤ j of curve(i) − curve(j) |
| EdgeStats.DrawdownIgnoresDirection | ap_edge_intelligence.py:309-321 | reading the trades newest first gives the same drawdown |
| EdgeStats.ExpectancyIsMean | ap_edge_intelligence.py:335-348 | the rate-and-average formula is total P&L over n |
| EdgeStats.LabelsMeanWhatTheySay | ap_edge_intelligence.py:392-421 | promote implies 25 trades, positive total and wins above 1.3 times losses, whatever the rounding; kill and watch likewise |
| EdgeLabels.ExactLabelIs | ap_edge_intelligence.py:392-421 | every label exactly over the number of trades and wins, the money won and the money given back, without rounding |
| EdgeLabels.RoundedLabelIs | ap_edge_intelligence.py:392-421 | with any rounding: exactly when a bucket is promoted, killed or only watched |
| EdgeLabels.SharesBucketIff | ap_edge_intelligence.py:264-277 | which trades share a bucket of each dimension |
| Preflight.RequiredIff | ap_entry_confirmation.py:144-211 | the cascade: live is exempt only by an explicit false default; otherwise required exactly when some source says so |
| Preflight.DailyCheckIsExistential | ap_entry_confirmation.py:347-483 | in enforce mode the daily check is its existential statement over the candles |
| PreflightTable.DailyCallIff | ap_entry_confirmation.py:404-483 | the daily check for a CALL on all inputs: off or observing never blocks, missing candles, trigger or price do, else some first high at the trigger with a higher one or a late rising close after it |
| PreflightTable.DailyPutIff | ap_entry_confirmation.py:404-483 | the same for a PUT |
| PreflightTable.YoungEnoughIff | ap_entry_confirmation.py:528-557 | the allowed age as separate bounds |
| Preflight.PassesIffClean | ap_entry_confirmation.py:617-773 | the verdict as one quotient-free condition: fresh uncrossed quote inside the spread, bounded fade and reversal, complete evidence when live |
| Preflight.BetterEvidenceStillPasses | ap_entry_confirmation.py:617-773 | raising the bid up to the ask, younger quotes, and a further move at positive prices never turn a pass into a fail |
| Preflight.LowerAskPassesIff | ap_entry_confirmation.py:657-691 | from a passing required check, an ask lowered at most to the bid still passes exactly when the new mid keeps enough of the decision price, and otherwise fails as an option fade |
| Preflight.LowerAskMayFail | ap_entry_confirmation.py:657-691 | with the default limits both outcomes occur |
| Identity.CanonicalGroupsCopies | ap_canonical_signal.py:52-98 | without an override canonicalisation is idempotent and merges exactly copies of one base |
| Identity.StripsExactlyTheTail | ap_canonical_signal.py:52-55 | wrapping a base with a hex tail and stripping it is the identity |
| Identity.BaseAndSuffixIff | ap_canonical_signal.py:40-55 | a reevaluation base and its suffix, character by character |
| Identity.ResolvesIff | ap_entry_watcher.py:208-240 | sources agree on a value exactly when some source speaks and all that do say it |
| Identity.CompleteBuildSpeaksForItsSources | ap_entry_watcher.py:191-282 | a complete provenance says of each field what every speaking source says, with the stripped signal id and the caller's order as fall-backs |
| Identity.CompleteIff | ap_entry_watcher.py:191-282 | exactly when a built provenance is complete, and what it says then |
| Identity.MatchesIff | ap_entry_watcher.py:285-316 | exactly which stored records match |
| Identity.BuiltProvenanceMatchesItsSignal | ap_entry_watcher.py:191-316 | round trip: a built provenance matches its own signal exactly when it is complete |
| Identity.MatchingIsUnique | ap_entry_watcher.py:285-316 | two records matching one signal agree after trimming and folding |
| Identity.ContradictionNeverMatches | ap_entry_watcher.py:208-240 | contradictory sources never match anything |
| Identity.ForeignOrderNeverMatches | ap_entry_watcher.py:242-256 | nor does an order other than the caller's |

## Left out

- Quote transport, tokens, SQL text, dashboards, file logs, audit payloads and diagnostic fields (`last_trigger_evidence_reason`, `last_quote_*`): they do not influence the modelled state.
- Float rounding and NaN: prices and statistics are exact reals; bucket rounding is any monotone function that fixes the compared constants. The logarithm of the edge score, median and deviation are not modelled.
- Time: seconds are integers; the two clocks of `check`, the minutes watched and the pre-market test are inputs of each poll.
- Late seeds other than the three known late states would fall through the gate in the source; the model has only those three.
- Arm-time work in `watch()` (plan text, option premium, environment parsing) and the overnight structural validator; overnight revalidation appears in histories only through its outcomes.
- The package watcher's overrides of the base watcher: the base seams are modelled. Open protection keeps its key abstract, so an overriding key is covered there.
- Watcher fields are changed by three callbacks only, and all three are part of the runs: the trigger callback that keeps a watcher, the direction-reversal reset, and the revival of a benign invalidation.
- Registry.RefusalChangesNothingIff: speaks of the registry; the broker-side cancels of displaced incumbents, which a recovery rearm skips, are not modelled.
- Ownership.NoOwnerlessRow: a deferred order that left because another process held its lease is only known to have been leased then; what happens when that lease runs out is the lease holder's affair.
- Rescue.RescueIsSafe: needs the batch to look for the orders it creates; `Rescue.NeverTwiceIff` says exactly when that is so.
- TriggerAuthority.AuthorityPersistsIff: like the whole protocol, it lets watchers, materialization claims and rearms write the two authority keys; a restart recovery that closes a row may copy the values it read before onto it, where no fence lets anyone use them. Recovered trigger-ready signals skip `check` and enter with their stored authority.
- One poll with its callbacks is atomic with respect to admission: a triggered watcher that a callback puts back to PENDING is never seen in between.
- Aliasing: the registry holds watchers as values; the class of a single signal is proved separately from the registry.
- The end-of-day close neither verifies nor releases ids, as in the source; it is part of the registry invariant, and its departures carry no promise in the ownership theorem.
- Removal of a proved terminal watcher releases its id once, as one step; the source repeats the release outside its lock.
- Ids are taken as trimmed and non-empty in the registry; `Texts` trims and folds ASCII only, and the end-of-line rule of the id pattern is the whole text.
- DeferredClaims: the retry time that accompanies a claim and the polling pause it causes; one triggered watcher at a time, since the batch only concatenates them.
- Trigger callbacks of orders that are not deferred are trusted by the source, so their departures carry no promise in the ownership theorem.
- RunLock theorems cover committed transactions; a fail-open result carries no promise, as the source says.
- Ledger owners, tickers, metadata and timestamps; the lifecycle of deferred materialization.
- Rescue: arming the watcher after an order was created has no effect on the order count; rows are handled by one run at a time.
- Preflight: several source reasons that differ only in wording share one; paper quote-lag warning and result metadata.
- Health registry, kill switch, bootstrap, quote authority, feedback loop, hybrid gate, options selection, chart memory, reports and load tests: small latches, filters or reporting.
