# Crash-recoverable assignment and its neighbours: a verified model

This project models the parts of the repository that have to be right when processes crash, race or retry, and proves
what they promise. Verify with `dafny verify dfyconfig.toml`.

**The assignment protocol** (`internal/assignment`). A coordinator claims a bead in the tracker, reserves files, and then
sends a prompt to a pane, writing a durable barrier before each external call.

- `AssignmentTypes`, `AssignmentPolicy`, `AssignmentTransitions`: the ledger row, the pure decisions about it, and what
  every guarded operation does to one row.
- `Admission`: which attempts `Execute` lets start and what they then carry, said in terms of the row, the request and
  what the ports grant, and proved of the checks the code makes.
- `AtomicMachine`: `Execute` one durable write or one port call at a time. `AtomicProtocol`: any number of processes
  taking such steps under the cleanup, bead and target locks, stopping anywhere, together with guarded transitions,
  clears, terminal reconciliation and completion consumers; a history records what the outside world saw.
- `AtomicInvariant`, `AtomicSafety`: the inductive invariant, kept by every step. `AtomicDelivery`, `AtomicLeases`,
  `AtomicCompletion`, `AtomicOutcomes`: what follows for every run. `AtomicRuns`: reachable states in which plausible promises fail.
- `AssignmentStores` (file `AssignmentStore.dfy`): a process's store over the two ledger files, with the merge before
  every save; each operation is proved to change exactly its own bead's durable row, or nothing, whatever other
  processes have written meanwhile. This is what lets the protocol take each operation as one step.
- `AtomicCourse`: the course one call takes through the machine, and all it needs, from the free pane to the receipt, to
  end with the prompt sent: an if-and-only-if over every keyed row. `AtomicExecute`, `ReceiptChecks`: `Execute` as the
  code runs it against that store, while other processes save other beads between its steps, proved to take exactly the
  machine's steps; a failed save leaves it just before or just after the step it was saving.

**The ledger's storage** (`Merge`, `Publication`, `ClearedCounts`, `PathLock`): the three-way merge of concurrent
writers, the backup-then-primary publication, the count of completed clears, and the refcounted in-process path lock.

**Smaller cores**: `Allocation` (greedy bead-to-agent matching), `Release` (exact lease release), `Approval` (approvals
decided by compare-and-set), `Wildcard` (the reservation glob), `Audit` and `TailReader` (hash chain and backward
reader), `Registry` (pane identities), `ChunkedSearch` (substring search across read boundaries).

## What turned out not to hold

For each of these there is a lemma with an input or a run that fails, and one with the exact condition under which the
code does keep the promise.

- *Once sent, every retry of that key replays the stored receipt.* Not when the work is finished, being cleared, or its
  pane is blocked: `AtomicRuns.FinishedRetryRefused` leads any attempt to such a state, and `AtomicDelivery.RetryReplays`
  says for every retry, recovering by checksum or not, exactly when it replays.
- *A completion event leaves its row only by acknowledgement.* Not when a working assignment is replaced while its
  terminal outcome is pending: the new row starts without the event (`AtomicCompletion.ReplacementDropsEvent`, and as a
  run of the whole system `AtomicRuns.CompletionEventLost`). `AtomicCompletion.EventLeaves` is the exact condition for
  every step.
- *Every handle the reservation port returns is in the row.* Not between the port's answer and the write that records it
  (`AtomicRuns.UnrecordedLease`); it is whenever the row's reservation is neither `reserving` nor `unknown`
  (`AtomicLeases.SettledRowStoresLeases`).
- *No live lease is forgotten.* Not one granted to an attempt whose reservation was not required: `Execute` calls the
  reservation port whenever it has one, but a cleaner releases nothing for such a row, so after a crash before the answer
  is recorded and a clear nobody remembers the lease (`AtomicRuns.UnrequiredLeaseForgotten`). Of required reservations
  none is ever forgotten (`AtomicLeases.NoLeaseForgotten`).
- *Merging the same change again is harmless.* Not when the change replaced a row or moved it to another generation:
  `Merge.SecondMerge` is the exact condition, and `AssignmentStores.ReplayedReplacement` runs into it with a save that
  failed after its backup rename and is made again.
- *A read-only load agrees with the strict one.* It takes no lock and reads two files; it fails exactly when the backup
  it reads is two or more generations ahead of the primary it read (`Publication.ReadOnlyLoad`,
  `Publication.ReadOnlyLoadCanFail`).
- *A log of successful calls verifies.* Not after a line over 10 MB that is not the first: the tail reader skips it on
  reopening, and the writer takes up an earlier entry (`Audit.LongEntryIsForgotten`). Nor after a call that could not
  encode its entry, which still uses up a sequence number (`Audit.FailedCallBreaksNext`). `Audit.WhatSpoilsTheChain` and
  `Audit.AcceptedUnlessSpoiled` are exact for every run without crashes; `Audit.CrashOutcome` is exact for a crash. The
  verifier's scanner also refuses a line of exactly 10 MB, which the reader accepts (`Audit.VerifyIntegrity`).

## Reading the model

- Strings are the values the code works with after trimming. SHA-256 is an injective constructor. Time is an integer on
  one monotone clock. Allocation scores and thresholds are thousandths, as rounded; their components are reals.
- A row's `generation` is not stored by the code: it names the row from the intent that created it until it is replaced
  or removed. Where the code compares creation times of keyless rows, it stands for them.
- The occupancy scan stops at the first row that blocks, and map order is random, so with both kinds of blocker present
  either error may be reported; both end the run the same way and the model reports one.
- In `AtomicProtocol` a completion consumer's newer answer (a claim or a renewal) replaces what it was told before, so a
  renewal that shortens a lease shortens it for its holder too.
- Two things are assumed of the reservation service: a definite answer to a reconciliation, or the listing a cleaner
  reconciles with, names all leases of the generation that are still held; and a listing does not omit a lease that is
  held. What a release then proves gone is computed from its receipt, or from the last listing as `Release.ReleaseExact`
  leaves it.
- A JSON codec is any under which an entry is one line that decodes to itself, and neither part of an entry's line nor an
  entry glued to part or all of another decodes to anything (`Audit.Faithful`).

## Model

| member | source | states |
|---|---|---|
| AtomicDelivery.AtMostOnceDelivery | internal/assignment/atomic.go:672-977 | in every reachable state a generation's prompt reached its pane at most once, and between two Dispatch calls of one generation the first was recorded as not having actuated |
| AtomicDelivery.SendIsFinal | internal/assignment/atomic.go:2092-2160 | a row sent, or sending by a process that is gone, keeps its dispatch record for the rest of its generation, and Dispatch is never called for it again |
| AtomicDelivery.RetryReplays | internal/assignment/atomic.go:764-824 | a same-key retry of a sent or sending row changes nothing and calls nothing; it returns the stored receipt if and only if the row was sent, no other bead blocks its pane, it is live and not being cleared, and the retry describes the stored attempt by its own intent or by the stored checksum it recovers it with |
| AtomicDelivery.KeyedRowsHaveActor | internal/assignment/atomic.go:731-738 | every reachable row has a key and a claim actor, so a same-key retry acts as that actor and the replay test applies |
| AtomicDelivery.WithoutActorReplayFails | internal/assignment/atomic.go:792 | any sent, terminal row without an actor would let a retry of its own attempt through every check up to a second dispatch |
| AtomicDelivery.BarriersPrecedeDispatch | internal/assignment/atomic.go:926-954 | whenever Dispatch is called the durable row is sending, stores the prompt the run keeps for it, names this bead and actor as claimed and in progress, and holds the required lease: exact granted set, distinct positive IDs, unexpired when validated; what is sent is addressed as the row says |
| AtomicDelivery.OnlyBarrierCallsDispatch | internal/assignment/atomic.go:941-953 | no other step of any process calls Dispatch |
| AtomicDelivery.SettledSendIsFinal | internal/assignment/atomic.go:2092-2112 | the same finality as an invariant over every continuation of a run |
| AtomicOutcomes.AttemptsStartExactlyWhen | internal/assignment/atomic.go:714-908 | in every reachable state the first step of an attempt writes and calls nothing; the attempt goes on if and only if no other bead ties up its pane and it may start (`Admission.MayStart`), and then carries exactly the delivered and the durable prompt, the title, the intent and the actor stated; otherwise it is over, refused or replayed |
| AtomicOutcomes.UnauthorizedAttemptStops | internal/assignment/atomic.go:903-909 | an attempt the authorizer refuses ends at that step as failed or replayed, with ledger and history unchanged |
| AtomicOutcomes.StepKeepsDecision | internal/assignment/atomic.go:894-977 | no later step changes a run's request, prompts, actor or ports; a run is replayed only in its first step and sent only on a receipt it was just answered |
| AtomicOutcomes.SentIsRecorded | internal/assignment/atomic.go:969-977 | when a run ends as sent, its row is assigned and stores that very receipt and the run's durable prompt, and transport answered the receipt to the last dispatch call of the generation |
| AtomicOutcomes.SentRowsAreTrue | internal/assignment/atomic.go:2132-2164 | every reachable sent row stores the answer to the last dispatch call of its generation, a call addressed as its intent says, and the prompt its intent was recorded for |
| AtomicOutcomes.ReplayIsTransportsAnswer | internal/assignment/atomic.go:806-817 | a replay reports what transport answered to the last dispatch call of the row's generation |
| AtomicOutcomes.LaterReplaysAgree | internal/assignment/atomic.go:806-817 | after a run reported a receipt, every later replay for that generation reports the same, whatever happens in between |
| AtomicOutcomes.ClaimFailuresAreTold | internal/assignment/atomic.go:1219-1300 | how a claim that was not obtained is reported and recorded: lost, barred, or open |
| AtomicOutcomes.ReservationFailuresAreTold | internal/assignment/atomic.go:1347-1424 | how a reservation that was not obtained is reported and recorded: to be released while any handle is left, none, or unknown |
| Admission.GoesExactlyWhen | internal/assignment/atomic.go:724-908 | for every keyed row or none, the checks let an attempt go on if and only if the ports grant it and it is a first attempt, resumes its own live unsent row, reopens a bead whose last attempt is over, or takes over a working one; and what it then carries |
| Admission.OtherAttemptRefused | internal/assignment/atomic.go:724-859 | over another attempt's row: which refusal is given, in order |
| Admission.SameAttemptRefused | internal/assignment/atomic.go:787-824 | over the attempt's own row: which refusal is given, in order, and when it is replayed |
| Admission.OnlyUnauthorized | internal/assignment/atomic.go:903-909 | an attempt that lacks only the authorizer's word is told just that |
| Admission.OnlyNoReserver | internal/assignment/atomic.go:894-902 | an attempt that lacks only a reservation port goes on exactly with an unexpired stored lease |
| Admission.ValidRequests | internal/assignment/atomic.go:1467-1493 | exactly which requests are accepted and how they are normalized |
| Admission.EffectiveStates | internal/assignment/atomic.go:1679-1790 | what rows without recorded states stand for, and when a reservation is unresolved or must be asked about |
| AtomicLeases.PaneExclusion | internal/assignment/atomic.go:1495-1529 | no two beads are both claiming, claimed, assigned or working on one physical pane |
| AtomicLeases.NoLeaseForgotten | internal/assignment/atomic.go:1302-1425 | a handle handed out for a required reservation, unexpired, and proved gone by no release receipt, listing or definite answer about it, belongs to a row still in the ledger that stores it or still says its outcome is open |
| AtomicLeases.SettledRowStoresLeases | internal/assignment/atomic.go:2053-2089 | a row whose reservation is neither under way nor unknown stores every such handle of its generation |
| AtomicLeases.ReplacedRowCarriesNoLease | internal/assignment/atomic.go:1875-1888 | a row is overwritten or removed only without handles, with a known reservation outcome, and with every handle a required reservation ever handed to it proved gone or expired |
| AtomicCompletion.OutboxAlwaysValid | internal/assignment/store.go:772-819 | the outbox check of every strict load holds in every reachable state |
| AtomicCompletion.EventsTellApart | internal/assignment/store.go:2209-2218 | an event ID tells one attempt of a bead from another, and completion from failure |
| AtomicCompletion.SingleConsumer | internal/assignment/store.go:1724-1842 | two consumers whose leases on an event both run are one consumer, and the durable row agrees |
| AtomicCompletion.EventLeaves | internal/assignment/store.go:1844-1908 | exactly when an event leaves its row: the live lease owner acknowledges it, or a replacement overtakes a pending terminal outcome |
| AtomicCompletion.ReplacementDropsEvent | internal/assignment/atomic.go:1858-1873 | any working row can lose its event that way |
| AtomicCompletion.ClearProtocol | internal/assignment/store.go:1350-1395 | each step moves every clear record only along none, releasing, released, then removed, terminal or replaced, and a terminal end needs both releases recorded for that same outcome |
| AtomicRuns.UnrecordedLease | internal/assignment/atomic.go:1402-1425 | for any required reservation and any lease granted to it, a reachable state in which the lease is held and its row does not name it |
| AtomicRuns.UnrequiredLeaseForgotten | internal/coordinator/assign.go:563-590 | for any attempt that required no reservation and any lease granted to it anyway, a reachable state without rows or processes in which the lease is still held |
| AtomicRuns.FinishedRetryRefused | internal/assignment/atomic.go:801-804 | for any attempt, a reachable state in which it was sent and an exact retry on an unblocked pane is refused |
| AtomicRuns.CompletionEventLost | internal/assignment/atomic.go:1858-1873 | for any attempt and any takeover of its bead, a reachable step in which the completion event leaves its row unacknowledged |
| AtomicSafety.NextKeepsInv | internal/assignment/atomic.go:675-977 | the invariant behind all of these is kept by every step of every process |
| AtomicSafety.BeadStepFrames | internal/assignment/store_lock.go:26-50 | a process on another bead does not notice a step, given the bead and target locks |
| AtomicInvariant.ExecStepKeeps | internal/assignment/atomic.go:675-977 | every step of one Execute run keeps the invariant of its row and its own, records no dispatch over an open attempt, and starts a generation only over lapsed leases |
| AtomicInvariant.DecideKeepsIdentity | internal/assignment/atomic.go:724-908 | the read-only half settles on a non-empty actor, keeps what the locks were taken for, and resumes only live, unsent rows under their own actor |
| AtomicInvariant.RecordIntentKeeps | internal/assignment/atomic.go:1846-1947 | recording an intent resumes the same row or starts a clean one over a row without live leases |
| AtomicInvariant.SettleReserveInspectionKeeps | internal/assignment/atomic.go:1347-1393 | whatever reconciliation answers, no outstanding handle is dropped from the row |
| AtomicInvariant.SettleReserveKeeps | internal/assignment/atomic.go:1404-1424 | whatever the reservation call returns, its handles are stored or the outcome stays open |
| AtomicInvariant.ValidReceiptReleasesAll | internal/assignment/atomic.go:1100-1141 | of a row that was sent, a release receipt that passes the check leaves nothing live outstanding, because it names every path and ID and the row names every lease |
| AtomicInvariant.SettleDispatchKeeps | internal/assignment/atomic.go:944-977 | a settled dispatch leaves the attempt closed only when it was recorded as harmless |
| AtomicSafety.OpKeepsRow | internal/assignment/store.go:1225-1330 | every guarded single-save operation keeps the row's invariant and revives nothing |
| AtomicSafety.SurveyCovers | internal/assignment/atomic.go:1696-1718 | a cleaner that asks the service exactly when the stored handles do not prove the complete set knows every lease that is live |
| AtomicSafety.ReleasedLeavesNothing | internal/assign/reservation.go:510-573 | a successful exact release of what a cleaner knows leaves nothing live outstanding |
| AtomicExecute.AtomicCoordinator.Execute | internal/assignment/atomic.go:675-977 | one call, with other processes saving other beads between its steps, ends exactly where the machine does, with the same durable ledger and outcome, unless one of its own saves fails; then this bead is just before or just after the step it was saving. An invalid request changes nothing; an attempt that must stop (pane taken, not authorized, or not allowed to start) is not sent, calls nothing and leaves its row; over a keyed row or none the prompt is sent if and only if the attempt gets all it needs; a reported receipt is what transport answered and is durable with the durable prompt |
| AtomicExecute.AtomicCoordinator.Admit | internal/assignment/atomic.go:724-908 | the checks in code order reach the decision the machine takes; an attempt the authorizer refuses never goes on; over a keyed row or none an attempt goes on exactly when it may start, with exactly what it should carry |
| AtomicExecute.AtomicCoordinator.AdmitOverPrior | internal/assignment/atomic.go:787-859 | replays, conflicts and terminal rows are decided as specified |
| AtomicExecute.AtomicCoordinator.EnsureClaim | internal/assignment/atomic.go:1219-1300 | the claim phase takes the machine's steps and goes on only with a recorded claim |
| AtomicExecute.AtomicCoordinator.Start | internal/assignment/atomic.go:714-908 | the occupancy scan and the read-only half are the machine's first step; the row stays as it is, and an attempt that must stop does |
| AtomicExecute.AtomicCoordinator.EnsureReservation | internal/assignment/atomic.go:1302-1425 | the reservation phase takes the machine's steps and goes on only ready to dispatch |
| AtomicExecute.AtomicCoordinator.ReleaseWorkingReplacement | internal/assignment/atomic.go:1013-1063 | the release before a replacement takes the machine's steps |
| AtomicExecute.AtomicCoordinator.SendPrompt | internal/assignment/atomic.go:941-977 | the dispatch phase takes the machine's steps to an outcome; a reported receipt is the one transport answered, durable with the prompt |
| AtomicExecute.StepIsProtocolStep | internal/assignment/atomic.go:675-977 | a step of Execute is a step of the shared protocol, and what others do between steps leaves its run, its row and the history alone |
| AtomicCourse.SendsExactlyWhen | internal/assignment/atomic.go:675-977 | wherever a call ends, it has sent if and only if its pane was free, it might start, what it takes over was released, the claim and the lease were obtained from row, reconciliation or call, and transport gave a receipt |
| AtomicCourse.CallEnds | internal/assignment/atomic.go:675-977 | every call over a keyed row or none comes to such an end |
| AtomicCourse.ClaimPhase | internal/assignment/atomic.go:1219-1300 | the claim phase goes on exactly when the row records a proved claim, reconciliation finds one, or a call is granted one |
| AtomicCourse.LeasePhase | internal/assignment/atomic.go:1302-1425 | the reservation phase is ready to send exactly when a stored lease is good and unexpired, reconciliation finds a good one, or a call is granted one |
| AtomicCourse.ReleasePhase | internal/assignment/atomic.go:1013-1063 | a takeover reaches its intent exactly when the row was released before, or the tracker still names its actor and the releaser reports all the row names |
| AtomicCourse.SendPhase | internal/assignment/atomic.go:941-977 | the dispatch phase ends as sent exactly on a receipt that is not blank |
| AssignmentStores.AssignmentStore.LoadStrict | internal/assignment/store.go:356-379 | never fails, promotes a newer backup without losing it, and leaves the store equal to the newest durable snapshot, or as it was if there is none |
| AssignmentStores.AssignmentStore.SaveLocked | internal/assignment/store.go:445-578 | publishes exactly the merge of this process's changes onto the newest snapshot as the next generation; a failure leaves the old or the new snapshot; a conflict resets the store |
| AssignmentStores.AssignmentStore.SaveRow | internal/assignment/store.go:445-578 | a one-bead change alters the durable ledger at that bead only, whatever others have written |
| AssignmentStores.AssignmentStore.StartRow | internal/assignment/atomic.go:1918-1943 | the first row of a generation becomes durable, or is taken out of memory again |
| AssignmentStores.MergeClearedGenerations | internal/assignment/store.go:596-604 | per bead the larger count, so a stale saver never takes a clear back |
| AssignmentStores.AssignmentStore.RecordAtomicIntent | internal/assignment/atomic.go:1846-1947 | recorded exactly when it may be (over no row, the attempt's own, a released working one it takes over, or one that is over), with every field of the row it writes; otherwise the refusal is the specified one, or the save failed before or after |
| AssignmentStores.AssignmentStore.RecordAtomicClaimStarted | internal/assignment/atomic.go:1951-1971 | the owner's row becomes claiming with one more attempt, unless it is claimed; and nothing else changes |
| AssignmentStores.AssignmentStore.RecordAtomicClaim | internal/assignment/atomic.go:1975-2002 | the receipt becomes durable exactly for the owning key, actor and intent |
| AssignmentStores.AssignmentStore.RecordAtomicClaimUncertain | internal/assignment/atomic.go:2007-2032 | conflict and ineligibility fail the row, anything else leaves it unknown |
| AssignmentStores.AssignmentStore.RecordAtomicReservationStarted | internal/assignment/atomic.go:2036-2049 | the reservation barrier becomes durable with the old lease kept and one more attempt |
| AssignmentStores.AssignmentStore.RecordAtomicReservation | internal/assignment/atomic.go:2053-2089 | the lease and its settled state become durable together; an error that leaves handles is kept as a reservation to be released |
| AssignmentStores.AssignmentStore.RecordAtomicDispatchStarted | internal/assignment/atomic.go:2092-2111 | the send barrier becomes durable with one more attempt, and exactly a row already sending is refused |
| AssignmentStores.AssignmentStore.RecordAtomicDispatchFailed | internal/assignment/atomic.go:2114-2128 | a harmless failure makes the row retryable and changes nothing else |
| AssignmentStores.AssignmentStore.RecordAtomicDispatchSent | internal/assignment/atomic.go:2132-2164 | the owner's row becomes assigned with this prompt and this receipt, exactly when the receipt is not blank |
| AssignmentStores.AssignmentStore.TransitionIfCurrent | internal/assignment/store.go:2119-2193 | exactly a listed lifecycle move of the observed attempt, told by key or creation time, outside a clear becomes durable, with the reason of a failure |
| AssignmentStores.AssignmentStore.BeginClear | internal/assignment/store.go:1350-1395 | the clear barrier, set exactly for an expected status while neither a dispatch outcome nor an event is pending |
| AssignmentStores.AssignmentStore.RecordClearLeasesReleased | internal/assignment/store.go:1530-1565 | the release checkpoint drops every handle with it, exactly once a clear has begun |
| AssignmentStores.AssignmentStore.BeginTerminalReconciliation | internal/assignment/store.go:1225-1330 | the terminal barrier and its event, named after bead, attempt and outcome, become durable together, once, exactly for the observed attempt |
| AssignmentStores.AssignmentStore.RecordTerminalClaimReleased | internal/assignment/store.go:1482-1526 | the claim checkpoint, exactly after the leases' one and for a pending outcome |
| AssignmentStores.AssignmentStore.CompleteTerminalReconciliation | internal/assignment/store.go:1605-1682 | the row becomes terminal exactly with both checkpoints and the same pending outcome |
| AssignmentStores.AssignmentStore.CompleteClear | internal/assignment/store.go:1569-1600 | removes the row and raises this bead's durable clear count by exactly one, no other bead's at all, despite stale savers |
| AssignmentStores.AssignmentStore.ClaimPendingCompletionEvent | internal/assignment/store.go:1724-1786 | the consumer lease of the asked duration becomes durable exactly over no live lease of another consumer |
| AssignmentStores.AssignmentStore.RenewPendingCompletionEventLease | internal/assignment/store.go:1789-1842 | exactly the live owner of that event extends its lease, to the asked duration from now |
| AssignmentStores.AssignmentStore.AcknowledgeCompletionEvent | internal/assignment/store.go:1855-1908 | exactly the live owner of that event clears it |
| AssignmentStores.ReplayedReplacement | internal/assignment/store.go:455-469 | a replacement whose save published and reported failure conflicts with itself when saved again, and the store then drops its own copy |
| AssignmentPolicy.StableClaimActor | internal/assignment/atomic.go:653-670 | the actor is never blank and is the base name, ending in the first twelve characters of its key |
| AssignmentPolicy.StableActors | internal/assignment/atomic.go:653-670 | making an actor stable again changes nothing, and keys that differ in their first twelve characters never share an actor |
| ReceiptChecks.ValidateRequiredLease | internal/assignment/atomic.go:1553-1608 | accepts a receipt exactly when it grants the requested paths, or those the service chose where that is left to it, all and no others, each once, under at least one distinct positive ID, for longer than until now |
| ReceiptChecks.NormalizedUnique | internal/assignment/atomic.go:1626-1644 | keeps the first of every acceptable element, and says whether none was blank or repeated |
| ReceiptChecks.SameElements | internal/assignment/atomic.go:1646-1662 | equal length and empty difference decide set equality of lists without repeats |
| ReceiptChecks.ActiveAssignmentForTarget | internal/assignment/atomic.go:1495-1518 | reports a blocker exactly when another bead's row is live, sending or being cleared and names this pane or no physical one |
| ReceiptChecks.PaneIDs | internal/assignment/atomic.go:1531-1547 | pane IDs are canonical: exactly a percent sign and the decimal form of an unsigned 64-bit number |
| ReceiptChecks.ValidateReleaseReceipt | internal/assignment/atomic.go:1100-1141 | accepts a release receipt exactly when it names every path the row was granted, asked for or given and every ID it stores, and nothing else or twice |
| Merge.MergeDeltas | internal/assignment/store.go:878-915 | succeeds exactly when no bead conflicts, and is then the exact merge; otherwise reports a real conflict |
| Merge.MergeDeltaLaws | internal/assignment/store.go:932-972 | an untouched row keeps its durable value, an unraced change lands exactly, and a row merges idempotently |
| Merge.MergedStatus | internal/assignment/store.go:1008-1045 | a caller's status stands over an unmoved durable one, and over a moved one only if it was changed, the durable one is not terminal, and it is terminal or later among claiming, claimed, assigned, working; a failure's reason goes with the status that stands |
| Merge.LaterWriterWins | internal/assignment/store.go:932-972 | field by field the later writer wins where it changed anything, and the earlier writer's changes stay elsewhere |
| Merge.DisjointWritersCommute | internal/assignment/store.go:932-972 | two writers changing different non-lifecycle fields of one row commute and both survive |
| Merge.CellLaws | internal/assignment/store.go:878-930 | the same laws for a created, changed, replaced or removed bead, and exactly when a second merge conflicts |
| Merge.ConflictsExactlyWhen | internal/assignment/store.go:878-930 | a save conflicts exactly when both sides changed the bead and one made or removed the row differently, the caller replaced it, or it is another attempt now |
| Merge.SingleRowSave | internal/assignment/store.go:878-915 | a caller that changed one bead saves exactly that change over whatever others wrote |
| Merge.DisjointBeadsCommute | internal/assignment/store.go:878-915 | writers on different beads never conflict and both survive |
| Merge.SecondMerge | internal/assignment/store.go:878-930 | exactly when saving the same change twice succeeds, and that it then changes nothing |
| Publication.FilesAgree | internal/assignment/store.go:445-578 | in every reachable state the files are equal or the backup is one generation ahead, generation 1 without a primary |
| Publication.StrictLoadRecovers | internal/assignment/store.go:356-379 | a strict load never fails, returns the highest published generation, and loses no reported save |
| Publication.SelectsExactly | internal/assignment/store.go:642-704 | for any two files: exactly which pairs a strict load accepts, which snapshot it takes and when it promotes the backup |
| Publication.SavesFormOneHistory | internal/assignment/store.go:445-578 | every save builds on the newest snapshot and extends one history by one generation |
| Publication.ReadOnlyLoad | internal/assignment/store.go:339-350 | exactly when the unlocked load succeeds, and that it then agrees with a strict load at its second read |
| Publication.QuietReadOnlyLoad | internal/assignment/store.go:339-350 | with nothing published in between it agrees with the strict load |
| Publication.ReadOnlyLoadCanFail | internal/assignment/store.go:642-704 | a run in which it fails |
| ClearedCounts.ClearsAreCounted | internal/assignment/store.go:596-604 | in every state reachable from an empty ledger, with savers however stale, a bead's durable clear count is the number of its completed clears; it never decreases and grows by one with each |
| ClearedCounts.NextKeepsInv | internal/assignment/store.go:1569-1600 | each step raises exactly the count of the bead whose clear it publishes, by one, and no other |
| PathLock.MutualExclusion | internal/assignment/store_lock.go:58-102 | at most one caller owns a path's token in every interleaving, across deletion and recreation of the entry |
| PathLock.TokenAndReferences | internal/assignment/store_lock.go:12-20 | channel and owners together always hold one token, the count is the number of callers, and the table entry outlives them all |
| PathLock.GiveBackNeverBlocks | internal/assignment/store_lock.go:93-101 | returning the token never blocks, so a cancelled winner always leaves it behind |
| PathLock.CancelledNeverHolds | internal/assignment/store_lock.go:83-97 | a caller cancelled before it holds the path never comes to hold it, even if it wins the token |
| PathLock.FreeLockCanBeTaken | internal/assignment/store_lock.go:83-87 | a waiter can always take a token nobody owns |
| PathLock.NextKeepsInv | internal/assignment/store_lock.go:58-102 | the invariant behind these is kept by every step |
| PathLock.PathLocks.EnterPath | internal/assignment/store_lock.go:65-73 | the critical section that finds or creates an entry is the machine's step |
| PathLock.PathLocks.ReleaseRef | internal/assignment/store_lock.go:74-81 | the critical section that drops a reference is the machine's step |
| PathLock.PathLocks.AwaitPath | internal/assignment/store_lock.go:83-97 | the select and the second look at the context are the machine's steps; a caller whose context is done leaves with token and reference returned |
| PathLock.PathLocks.GiveUp | internal/assignment/store_lock.go:93-101 | so is returning token and reference, by a holder or a cancelled winner |
| Allocation.MakePlan | internal/assign/allocation.go:237-373 | the recommendations are an ordered matching, within the cap, of pairs whose agent is listed, idle, below 0.95 of its context and below its own and its session's limit, not under critical pressure without headroom, and whose score reaches the threshold; every such pair left out is behind a chosen one with its bead or agent, or the cap was reached ahead of it; the plan is worth at least half of any such matching, of up to twice the cap if that was reached; alternatives are the best of other agents up to the limit; every ready bead is recommended or unassigned; and the decision says why nothing is recommended |
| Allocation.GreedyIsHalfOptimal | internal/assign/allocation.go:327-361 | the factor-two bound for the greedy walk from any point of it |
| Allocation.GreedyIsStable | internal/assign/allocation.go:327-361 | a free candidate that was passed over is behind a chosen one that has its bead or agent, or the room ran out ahead of it |
| Allocation.Select | internal/assign/allocation.go:327-361 | the loop chooses what the greedy definition does, with real alternatives for each choice |
| Allocation.Alternatives | internal/assign/allocation.go:682-695 | the best other agents' candidates, and all of them below the limit |
| Allocation.SortOrdered | internal/assign/allocation.go:667-680 | the sort orders by score, priority, bead and agent and is a permutation |
| Allocation.ScoreAll | internal/assign/allocation.go:295-316 | exactly the pairs whose agent may work and whose score reaches the threshold become candidates |
| Allocation.ScoreIsWeightedSum | internal/assign/allocation.go:593-603 | the total is the stated weighted sum, and its clamp never bites |
| Allocation.BetterBeadScoresNoLess | internal/assign/allocation.go:460-507 | a more urgent priority, more unblocked beads or being on the critical path never lowers a score |
| Allocation.CostlierPairScoresNoMore | internal/assign/allocation.go:525-591 | a costlier bead or a busier recent history never raises one |
| Release.ReleaseExact | internal/assign/reservation.go:510-573 | without a clear barrier, a holder, a project and good IDs nothing is asked of the server; each release, three at most, names exactly the IDs of the live leases of this row (its project, its holder, its bead) that were asked for and that an undoubted listing just showed; success if and only if one of the four listings settles it, and then the reported paths are those released |
| Release.ReleaseBound | internal/assign/reservation.go:534-572 | the loop ends well only on a listing that shows nothing asked for, after at most three releases of what the listing before each showed |
| Release.ConfirmedMeansGone | internal/assign/reservation.go:593-648 | such a listing shows no lease at all with an ID asked for, and none of this bead on a path asked for |
| Release.SelectExact | internal/assign/reservation.go:593-648 | selects exactly the bound, requested live leases, and refuses exactly the listings in which that is open to doubt |
| Release.SelectByPath | internal/assign/reservation.go:629-646 | one lease per path and one path per lease, or an error |
| Release.NormalizeIDs | internal/assign/reservation.go:650-662 | refuses exactly the lists with a non-positive or repeated ID |
| Approval.FirstDecisionIsFinal | internal/approval/engine.go:240-363 | over every interleaving a decided record keeps its decision, decider, time and reason; an approval may only be spent |
| Approval.SpentAtMostOnce | internal/approval/engine.go:370-410 | an approval is spent at most once and never by a consumer whose check saw it expired |
| Approval.ApprovalWasAllowed | internal/approval/engine.go:254-266 | an approved or spent record was approved in time by its recorded approver, not the requester under the two-person rule, and on the decider's list if it has one |
| Approval.OneDecisionEach | internal/approval/engine.go:565-589 | every decided record has exactly one landed decision, an undecided one none |
| Approval.NextKeepsInv | internal/approval/engine.go:240-410 | the invariant behind these is kept by every read, check and guarded write |
| Approval.WritesDoExactlyThis | internal/approval/engine.go:240-410 | exactly what each write makes of its record, whatever raced with it: allowed approvals and denials of a pending record land, as does spending one that was and still is approved, and overdue records expire |
| Approval.Engine.Approve | internal/approval/engine.go:240-304 | refuses in order what is not pending, overdue, not authorized or self-approved, and lands an allowed approval exactly if the record is still pending; the checks and the guarded write are the machine's |
| Approval.Engine.Deny | internal/approval/engine.go:307-363 | likewise for a denial |
| Approval.Engine.Consume | internal/approval/engine.go:370-410 | likewise for spending |
| Approval.Engine.ListPending | internal/approval/engine.go:434-452 | lists exactly the pending, unexpired records and expires exactly the overdue ones |
| Wildcard.MatchesWildcard | internal/agentmail/tools.go:1307-1328 | for a pattern with a star, accepts a path exactly when it is in the pattern's glob |
| Wildcard.GlobIsJoined | internal/agentmail/tools.go:1308 | the parts between the stars, joined by arbitrary strings, are exactly the glob |
| Wildcard.ChecksAreJoined | internal/agentmail/tools.go:1309-1327 | prefix, suffix and in-order occurrence together amount to joining |
| Wildcard.LeftmostIsSafe | internal/agentmail/tools.go:1321-1325 | taking the leftmost occurrence never loses a match |
| Audit.VerifyIntegrity | internal/audit/logger.go:599-662 | accepts the lines of a log exactly when every line that is not blank is under the scanner's limit and one entry, and the entries form a valid chain |
| Audit.SuccessfulLogsAreAccepted | internal/audit/logger.go:500-552 | any run of calls that encode, flushes, closes, crashes that tear no line, and reopenings leaves an accepted log, if no line reaches the limit |
| Audit.SameFinalChecksum | internal/audit/logger.go:616-659 | two accepted logs with one final checksum are identical |
| Audit.TamperingIsRejected | internal/audit/logger.go:616-659 | a change that keeps the final checksum is rejected |
| Audit.WhatSpoilsTheChain | internal/audit/logger.go:374-399 | without crashes, the chain is valid if and only if no entry was written after a call of its session that could not encode, nor after reopening over a last line that the tail reader skips |
| Audit.AcceptedUnlessSpoiled | internal/audit/logger.go:599-662 | and the log is accepted if and only if, besides, no line reaches the scanner's limit |
| Audit.LongEntryIsForgotten | internal/audit/logger.go:442-446 | reopened over a second entry of more than the limit, a writer all of whose calls succeed breaks its chain with the third |
| Audit.CrashOutcome | internal/audit/logger.go:539-552 | a log in order is still accepted after a crash if and only if no line was torn, and with its next entry if and only if whole lines only were left and the entry is short enough |
| Audit.OpenedOnTrack | internal/audit/logger.go:374-399 | reopening a valid log puts the writer in step, unless the last line is over the reader's limit and not the first |
| Audit.FailedCallBreaksNext | internal/audit/logger.go:512-523 | one failed call makes the next entry unverifiable |
| Audit.AuditLogger.LogEntry | internal/audit/logger.go:500-552 | an open log gains exactly one line, the encoding of this payload with the next number, its predecessor's checksum and its own, flushed when the buffer is full; a failed encoding uses up a number only; a closed log stays |
| Audit.LogHoldsTheCalls | internal/audit/logger.go:500-552 | without crashes, the payloads a reader finds in the text of the log are those of the calls that encoded theirs, all of them and in order |
| Audit.SyncedLinesSurvive | internal/audit/logger.go:554-597 | lines that were synced stay in the log over every run, through any crashes |
| Audit.Reopen | internal/audit/logger.go:375-399 | closing and opening the file again is the machine's step, through the tail reader |
| TailReader.ReadLastEntry | internal/audit/logger.go:401-483 | returns, for every file and wherever its blocks fall, the entry a forward scan finds on the last acceptable line |
| TailReader.ScanBlock | internal/audit/logger.go:414-465 | one block, scanned from its end, finds that entry or leaves only unread text that can hold it |
| TailReader.LastAcceptableIsLast | internal/audit/logger.go:401-483 | what the forward scan finds is on an acceptable line with none after it |
| TailReader.ReopenFindsLast | internal/audit/logger.go:374-398 | a log of whole entries reopens on its last one if and only if that fits the limit or is the only one |
| TailReader.LinesOfFile | internal/audit/logger.go:613-616 | a file of whole lines, and a rest without a newline, splits back into just those |
| Registry.NamesAreNeverShared | internal/agentmail/session.go:748-773 | over every run of resolving and adding, a name has at most one pane and one title, and no join takes it from another pane that is alive or unobservable |
| Registry.ResolveIsSafe | internal/agentmail/session.go:722-773 | a reuse never names an agent another live pane holds, and without a liveness oracle never one any other pane holds |
| Registry.ResolvesExactlyTo | internal/agentmail/session.go:722-773 | a bound pane gets its own name back; otherwise the title's name is reused exactly unless another pane holds it and is not known to be gone |
| Registry.AddedLaws | internal/agentmail/session.go:651-677 | adding a binding keeps names exclusive, binds this pane and title, and touches no other name's pane, title or process |
| Registry.SessionAgentRegistry.AddAgent | internal/agentmail/session.go:651-677 | the loops compute exactly that binding |
| Registry.SessionAgentRegistry.ResolveForPane | internal/agentmail/session.go:748-773 | answers as the resolution order allows, whichever holder iteration meets |
| Registry.SessionAgentRegistry.PaneIDForAgent | internal/agentmail/session.go:705-715 | finds a holder exactly when there is one |
| Registry.SessionAgentRegistry.OccupiedTitles | internal/agentmail/session.go:779-797 | exactly the titles whose name some pane holds alive |
| ChunkedSearch.FileContains | internal/agentsession/discover.go:1233-1268 | however reads split the file, a hit is real and, unless cancelled, every hit is found, across borders too |
| ChunkedSearch.CarryIsEnough | internal/agentsession/discover.go:1257-1261 | the last bytes of what was read, one fewer than the needle, are all a later match can need |

## Left out

- Unguarded store calls (`Assign`, `UpdateStatus`, `MarkFailed`, `Update`, `Reassign`, `Remove`, `Clear`) and
  `BeginClearForce`: they bypass the generation checks, locks or outcome barriers the guarantees rest on.
- StableClaimActor: for a blank key the suffix is the whole actor, where the code takes twelve digits of its digest;
  `Execute` refuses blank keys before it gets there.
- What a store object remembers after a save failed, the first row of a generation apart: every entry point reloads
  before it acts, and a failed save is a stop just before or just after the write.
- `RecordClearReleaseFailed`, attempt timestamps, durations, pane indexes and stored error texts: diagnostics no decision
  reads. A stored reservation error is kept as a flag.
- The legacy failure-reason field, ledgers below the schema version with generations, and the lenient load.
- The receipt's expiry when a reservation service grants several leases at once: the receipt carries one.
- File I/O, temporary files, JSON, `flock`, environment failpoints: renames are atomic, file locks exclusive, encoding
  lossless. A write error of the log file, after which the buffered writer refuses everything, is not modelled.
- Ports: the tracker, the reservation service, the transport, the release service and the SQL store are answers and
  guarded writes; prompt preflight and eligibility are accepted or refused.
- Context cancellation inside `Execute`, which only ends a run early, as a stop does.
- The paths a cleaner of the command line adds to a release beyond those granted are arbitrary, and its shortcut for rows
  that required no reservation is taken for every cleaner.
- `ReconcileForBead` and `collectGrantedReservations`: how the reservation adapter builds a receipt; the protocol is
  proved for every receipt.
- Allocation's audit rows, reason codes, summary counts and warnings, the values of the capability matrix and the
  canonical spelling of agent types: types are taken as canonical, pressure levels as trimmed and in lower case.
- `matchesReservationPattern` beyond the wildcard matcher: its other branches call library prefix, suffix and path
  matching.
- The sorted order of listings (`OccupiedTitles`, `ReleaseExactForBead`, reservation IDs): kept as sets or as they come.
- Webhooks, event buses, notifications, redaction content and waiting: they carry no state the guarantees read.
