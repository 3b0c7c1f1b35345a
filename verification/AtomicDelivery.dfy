/**
 Delivery guarantees of the assignment protocol over every run of any number of
 processes: at most one delivery per generation, a recorded send is final, exact
 retries replay, and nothing is dispatched before its barriers are durable.
 */
module AtomicDelivery {
  import opened Wrappers
  import opened AssignmentTypes
  import opened AssignmentPolicy
  import opened AssignmentTransitions
  import opened AtomicMachine
  import opened AtomicProtocol
  import opened AtomicInvariant
  import opened AtomicSafety
  import opened Admission

  // ---------- At most one delivery per generation ----------

  function Deliveries(log: seq<Event>, g: nat): nat {
    if log == [] then 0
    else
      var e := log[|log| - 1];
      Deliveries(log[..|log| - 1], g) + if e.DispatchCalled? && e.generation == g && e.delivered then 1 else 0
  }

  lemma {:induction false} DeliveriesArePast(log: seq<Event>, g: nat)
    ensures Deliveries(log, g) == PastOf(log, g).delivered
  {
    if log != [] {
      DeliveriesArePast(log[..|log| - 1], g);
    }
  }

  // An attempt stays unaccounted for until its harmlessness is recorded.
  lemma {:induction false} AttemptStaysOpen(log: seq<Event>, g: nat, i: nat)
    requires i < |log| && log[i].DispatchCalled? && log[i].generation == g
    requires forall k :: i < k < |log| ==> log[k] != NoActuationRecorded(g)
    ensures PastOf(log, g).attempted
  {
    var before := log[..|log| - 1];
    if i < |before| {
      AttemptStaysOpen(before, g, i);
    }
  }

  /** One row generation reaches its pane at most once, and calls Dispatch again only after the
      earlier attempt was durably recorded as not having touched the pane. */
  lemma AtMostOnceDelivery(s: State, g: nat, i: nat, j: nat)
    requires Reachable(s)
    ensures Deliveries(s.log, g) <= 1
    ensures i < j < |s.log| && s.log[i].DispatchCalled? && s.log[j].DispatchCalled?
            && s.log[i].generation == g && s.log[j].generation == g ==>
              exists k :: i < k < j && s.log[k] == NoActuationRecorded(g)
  {
    hide RowsInv, GenerationsDistinct, PanesExclusive, RetiredLapsed, LocksExclusive, ProcessesInv, GrantsInv;
    ReachableInv(s);
    DeliveriesArePast(s.log, g);
    assert DeliveredOnce(PastOf(s.log, g));
    if i < j < |s.log| && s.log[i].DispatchCalled? && s.log[j].DispatchCalled?
       && s.log[i].generation == g && s.log[j].generation == g
       && forall k :: i < k < j ==> s.log[k] != NoActuationRecorded(g) {
      AttemptStaysOpen(s.log[..j], g, i);
      assert false;
    }
  }

  // ---------- A recorded send is final ----------

  // No process is between recording the send and settling it for this bead.
  predicate NobodySending(s: State, b: string) {
    forall p :: p in s.processes && s.processes[p].Executing? && s.processes[p].run.req.beadID == b ==>
      !SendRecorded(s.processes[p].run.pc)
  }

  predicate SameDispatch(before: Assignment, after: Option<Assignment>) {
    after.Some? && after.value.generation == before.generation ==> after.value.dispatch == before.dispatch
  }

  predicate TouchesDispatch(e: Event, g: nat) {
    (e.DispatchCalled? || e.NoActuationRecorded?) && e.generation == g
  }

  lemma StepLeavesSend(run: Run, blocked: bool, row: Assignment, ans: Answers, delivered: bool, past: Past, now: Time, n: nat)
    requires LocalPre(run, Some(row), past, now) && row.generation < n
    requires !Pending(row) && !SendRecorded(run.pc)
    ensures var local := ExecStep(run, blocked, Some(row), ans, now, delivered, n);
            && SameDispatch(row, local.row)
            && (local.event.Some? ==> local.event.value.ReleaseConfirmed?)
            && !SendRecorded(local.run.pc)
  {
    hide RowInv, Decide, StepOnRow, MatchesIntent, ValidReleaseReceipt;
  }

  // Generation `g` belongs to no bead but `b`, its send is recorded, and nobody alive can undo it.
  predicate SendSettled(s: State, b: string, g: nat, dispatch: Dispatch) {
    && g < s.nextGeneration && !dispatch.state.DispatchPending?
    && (forall c :: c in s.ledger && s.ledger[c].generation == g ==>
          c == b && s.ledger[c].dispatch == dispatch && NobodySending(s, b))
  }

  predicate NoDispatchEvent(events: seq<Event>, g: nat) {
    forall i :: 0 <= i < |events| ==> !TouchesDispatch(events[i], g)
  }

  // What a step of a run does to a settled generation: nothing, if it is the run's own; and it starts no such one.
  lemma ExecSparesSettled(s: State, p: nat, ans: Answers, delivered: bool, b: string, g: nat, dispatch: Dispatch)
    requires Inv(s) && Enabled(s, Exec(p, ans, delivered)) && SendSettled(s, b, g, dispatch)
    ensures var run := s.processes[p].run; var row := Lookup(s.ledger, run.req.beadID);
            var local := ExecLocal(s, run, ans, delivered);
            && local.run.req.beadID == run.req.beadID && (row.Some? ==> local.row.Some?)
            && (local.event.Some? ==> !TouchesDispatch(local.event.value, g))
            && (local.row.Some? && local.row.value.generation == g ==>
                  row.Some? && row.value.generation == g && local.row.value.dispatch == row.value.dispatch
                      && !SendRecorded(local.run.pc))
  {
    hide RowInv, RunInv, ExecStep, LogInv, RetiredLapsed, PanesExclusive, GenerationsDistinct, GrantsInv, OutboxKept,
      LocksExclusive, ReleaseStands, SurveyStands, PaneFree;
    var run := s.processes[p].run;
    var row := Lookup(s.ledger, run.req.beadID);
    ExecLocalPost(s, p, ans, delivered);
    if row.Some? && row.value.generation == g {
      assert ProcessInv(s.ledger, s.log, s.now, s.processes[p]);
      StepLeavesSend(run, Blocked(s, run), row.value, ans, delivered, PastFor(s.log, row), s.now, s.nextGeneration);
    }
  }

  lemma ExecKeepsSettled(s: State, p: nat, ans: Answers, delivered: bool, b: string, g: nat, dispatch: Dispatch)
    requires Inv(s) && Enabled(s, Exec(p, ans, delivered)) && SendSettled(s, b, g, dispatch)
    ensures SendSettled(Next(s, Exec(p, ans, delivered)), b, g, dispatch)
    ensures var local := ExecLocal(s, s.processes[p].run, ans, delivered);
            local.event.Some? ==> !TouchesDispatch(local.event.value, g)
  {
    hide Inv, ExecLocal, SendRecorded;
    ExecSparesSettled(s, p, ans, delivered, b, g, dispatch);
  }

  lemma OpKeepsDispatch(row: Assignment, op: Op, now: Time)
    requires ApplyOp(row, op, now).Ok?
    ensures ApplyOp(row, op, now).value.dispatch == row.dispatch
    ensures ApplyOp(row, op, now).value.generation == row.generation
  {
  }

  lemma NextKeepsSettled(s: State, act: Action, b: string, g: nat, dispatch: Dispatch)
    requires Inv(s) && Enabled(s, act) && SendSettled(s, b, g, dispatch)
    ensures SendSettled(Next(s, act), b, g, dispatch)
    ensures s.log <= Next(s, act).log && NoDispatchEvent(Next(s, act).log[|s.log|..], g)
  {
    hide Inv, ExecLocal, ApplyOp, RequestError, NormalizeRequest;
    if act.Exec? {
      ExecKeepsSettled(s, act.p, act.ans, act.delivered, b, g, dispatch);
    } else if act.Guarded? && ApplyOp(s.ledger[act.beadID], act.op, s.now).Ok? {
      OpKeepsDispatch(s.ledger[act.beadID], act.op, s.now);
    }
  }

  /** Once a generation is recorded as sent, or as sending by a process that is gone, its dispatch
      record never changes and Dispatch is never called for it again. */
  lemma {:induction false} SettledSendIsFinal(s: State, acts: seq<Action>, b: string, g: nat, dispatch: Dispatch)
    requires Inv(s) && Legal(s, acts) && SendSettled(s, b, g, dispatch)
    ensures SendSettled(After(s, acts), b, g, dispatch)
    ensures s.log <= After(s, acts).log && NoDispatchEvent(After(s, acts).log[|s.log|..], g)
    decreases |acts|
  {
    hide Inv, Enabled, Next, SendSettled;
    if acts != [] {
      NextKeepsInv(s, acts[0]);
      NextKeepsSettled(s, acts[0], b, g, dispatch);
      SettledSendIsFinal(Next(s, acts[0]), acts[1..], b, g, dispatch);
    }
  }

  // A row recorded as sent cannot have a process still sending it.
  lemma SentIsSettled(s: State, b: string)
    requires Inv(s) && b in s.ledger
    requires s.ledger[b].dispatch.state.DispatchSent?
          || (s.ledger[b].dispatch.state.DispatchSending? && NobodySending(s, b))
    ensures SendSettled(s, b, s.ledger[b].generation, s.ledger[b].dispatch)
  {
    hide LogInv, RetiredLapsed, PanesExclusive, GrantsInv, LocksExclusive, RowInv;
    forall p | p in s.processes && s.processes[p].Executing? && s.processes[p].run.req.beadID == b
      ensures !SendRecorded(s.processes[p].run.pc)
    {
      assert ProcessInv(s.ledger, s.log, s.now, s.processes[p]);
    }
  }

  /** From any reachable state on: a row recorded as sent, or as sending by a process that died, keeps its
      dispatch record for as long as its generation lasts, and Dispatch is never called for it again. */
  lemma SendIsFinal(s: State, acts: seq<Action>, b: string)
    requires Reachable(s) && Legal(s, acts) && b in s.ledger
    requires s.ledger[b].dispatch.state.DispatchSent?
          || (s.ledger[b].dispatch.state.DispatchSending? && NobodySending(s, b))
    ensures b in After(s, acts).ledger ==> SameDispatch(s.ledger[b], Some(After(s, acts).ledger[b]))
    ensures s.log <= After(s, acts).log && NoDispatchEvent(After(s, acts).log[|s.log|..], s.ledger[b].generation)
  {
    hide Inv, Enabled, Next, Reachable;
    ReachableInv(s);
    SentIsSettled(s, b);
    SettledSendIsFinal(s, acts, b, s.ledger[b].generation, s.ledger[b].dispatch);
  }

  // ---------- Replay ----------

  /** Every durable row names a key and a claim actor, so a retry under that key always acts as that
      actor and the replay test of Execute cannot be missed. */
  lemma KeyedRowsHaveActor(s: State, b: string, req: AtomicRequest)
    requires Reachable(s) && b in s.ledger
    ensures s.ledger[b].intent.idempotencyKey != "" && s.ledger[b].claim.actor != ""
    ensures var d := ChooseActor(Some(s.ledger[b]), req);
            s.ledger[b].intent.idempotencyKey == req.idempotencyKey && d.Go? ==> d.actor == s.ledger[b].claim.actor
  {
    hide LogInv, RetiredLapsed, PanesExclusive, GrantsInv, LocksExclusive, ProcessesInv, LeasesTracked, Reachable;
    ReachableInv(s);
    assert RowInv(s.ledger[b], PastOf(s.log, s.ledger[b].generation), s.now);
  }

  /** The test does need that invariant: a sent row without an actor, once terminal, would pass every check of a retry of
      its own attempt up to a second dispatch. */
  lemma WithoutActorReplayFails(row: Assignment, req: AtomicRequest, ports: Ports, ans: Answers, now: Time, n: nat)
    requires row.dispatch.state.DispatchSent? && row.claim.actor == "" && IsTerminal(row.status)
    requires row.clear.state.ClearStateNone?
    requires row.intent.idempotencyKey == req.idempotencyKey && MatchesIntent(row, req)
    requires req.recoveredIntentSHA256 == NoDigest && !ports.preflight
    requires CheckGates(Some(row), Go(req, req.prompt, StableClaimActor(req.actor, req.idempotencyKey), false), ports, ans,
                        now).Go?
    ensures var d := Decide(Some(row), req, ports, ans, now);
            && d.Go? && !d.replacementStart
            && IntentRecorded(Some(row), Persisted(d), d.actor, n).Ok?
            && DispatchStarted(IntentRecorded(Some(row), Persisted(d), d.actor, n).value).Ok?
  {
    hide MatchesIntent, MatchesRawIntent, StableClaimActor;
    var d := Go(req, req.prompt, StableClaimActor(req.actor, req.idempotencyKey), false);
    assert ChooseActor(Some(row), req) == d;
    assert CheckPrior(Some(row), d, ports, ans) == d;
    assert Persisted(d) == req;
  }

  predicate Replayable(row: Assignment, req: AtomicRequest) {
    row.clear.state.ClearStateNone? && IsLive(row.status) && SameIntent(row, req)
  }

  lemma SentRowDecision(row: Assignment, req: AtomicRequest, ports: Ports, ans: Answers, now: Time)
    requires row.intent.idempotencyKey == req.idempotencyKey && row.claim.actor != "" && !Pending(row)
    requires row.claim.state.ClaimClaimed? && (row.dispatch.state.DispatchSent? ==> row.dispatch.receiptID != "")
    requires req.intentSHA256 != NoDigest
    ensures var d := Decide(Some(row), req, ports, ans, now);
            && !d.Go?
            && (d.Replay? <==> row.dispatch.state.DispatchSent? && Replayable(row, req))
            && (d.Replay? ==> d.receiptID == row.dispatch.receiptID)
  {
    hide RunPreflight, CheckGates, MatchesRawIntent, SameIntent;
    SameIntentByChecks(row, req);
    assert ChooseActor(Some(row), req) == Go(req, req.prompt, row.claim.actor, false);
  }

  lemma SentRowClaim(s: State, b: string)
    requires Inv(s) && b in s.ledger && !Pending(s.ledger[b])
    ensures var row := s.ledger[b];
            && row.claim.actor != "" && row.claim.state.ClaimClaimed?
            && (row.dispatch.state.DispatchSent? ==> row.dispatch.receiptID != "")
  {
    hide LogInv, RetiredLapsed, PanesExclusive, GrantsInv, LocksExclusive, ProcessesInv, LeasesTracked, DeliveredOnce,
      ValidOutbox, IsPhysicalPane;
    assert RowInv(s.ledger[b], PastOf(s.log, s.ledger[b].generation), s.now);
  }

  lemma RequestCarriesIntent(s: State, p: nat)
    requires Inv(s) && p in s.processes && s.processes[p].Executing?
    ensures s.processes[p].run.req.intentSHA256 != NoDigest
  {
    hide LedgerInv, GrantsInv, LocksExclusive, RunInv, IsPhysicalPane;
    assert ProcessInv(s.ledger, s.log, s.now, s.processes[p]);
  }

  /** A retry of a generation that was sent, or that may have been, has no effect at all. It replays the stored receipt if
      and only if the row was sent, its pane is not blocked by another bead, the row is live and not being cleared, and
      the retry describes the stored attempt, by its intent or by the checksum it recovers it with. */
  lemma RetryReplays(s: State, p: nat, ans: Answers, delivered: bool)
    requires Reachable(s) && Enabled(s, Exec(p, ans, delivered)) && s.processes[p].run.pc.Load?
    requires var run := s.processes[p].run;
             && run.req.beadID in s.ledger && !Pending(s.ledger[run.req.beadID])
             && s.ledger[run.req.beadID].intent.idempotencyKey == run.req.idempotencyKey
    ensures var run := s.processes[p].run; var row := s.ledger[run.req.beadID]; var t := Next(s, Exec(p, ans, delivered));
            && t.ledger == s.ledger && t.log == s.log
            && t.processes[p].run.pc.Finished? && !t.processes[p].run.pc.outcome.Sent?
            && (t.processes[p].run.pc.outcome.Replayed? <==>
                  row.dispatch.state.DispatchSent? && !Blocked(s, run) && Replayable(row, run.req))
            && (t.processes[p].run.pc.outcome.Replayed? ==>
                  t.processes[p].run.pc.outcome == Replayed(row.dispatch.receiptID))
  {
    hide Inv, RowInv, Reachable, OccupancyBlocked, Decide, Replayable, SameIntent, StepOnRow, RecordIntentStep,
      BeginReleaseStep, CallReleaseStep, SettleReleaseStep;
    ReachableInv(s);
    var run := s.processes[p].run;
    var row := s.ledger[run.req.beadID];
    SentRowClaim(s, run.req.beadID);
    RequestCarriesIntent(s, p);
    SentRowDecision(row, run.req, run.ports, ans, s.now);
    assert s.log + [] == s.log;
  }

  // ---------- Barriers ----------

  // The durable claim receipt names this bead and this run's actor as in progress.
  predicate ClaimBarrier(run: Run, row: Assignment) {
    && row.claim.state.ClaimClaimed?
    && row.intent.beadID == run.req.beadID
    && row.claim.actor == run.actor && run.actor != ""
    && row.claim.status == TrackerInProgress
    && row.claim.claimedAt.Some?
  }

  // The durable lease matches the request and was unexpired when it was last checked.
  predicate LeaseBarrier(run: Run, row: Assignment, checkedAt: Time) {
    var lease := row.reservation.lease;
    && row.reservation.state.ReservationReserved?
    && lease.agentName == run.req.agentName && lease.target == run.req.occupancyKey
    && lease.granted != []
    && Elements(lease.granted) == Elements(ExpectedPaths(run.req, lease))
    && lease.reservationIDs != [] && (forall id :: id in lease.reservationIDs ==> id > 0) && NoDuplicates(lease.reservationIDs)
    && lease.expiresAt.Some? && lease.expiresAt.value > checkedAt
  }

  lemma ProvedLeaseIsBarrier(run: Run, row: Assignment, checkedAt: Time)
    requires run.req.requireReservation && ReservationProved(run, row, checkedAt)
    ensures LeaseBarrier(run, row, checkedAt)
  {
    assert ExpectedPaths(run.req, row.reservation.lease)[0] in Elements(ExpectedPaths(run.req, row.reservation.lease));
  }

  lemma StoredPromptIsKept(run: Run, row: Assignment, past: Past, now: Time)
    requires RowInv(row, past, now) && row.dispatch.state.DispatchSending? && Describes(PersistedRequest(run), row.intent)
    ensures row.dispatch.pendingPrompt == run.durablePrompt
  {
    hide RowShape, LeasesTracked, DeliveredOnce;
  }

  /** Whenever Dispatch is called, the row already says so durably, with its claim and, if one is required,
      its lease; and the log carries the call under the row's own generation. What is sent is addressed as the row says;
      its prompt is the run's, and the row stores the prompt the run keeps for it. */
  lemma BarriersPrecedeDispatch(s: State, p: nat, ans: Answers, delivered: bool)
    requires Reachable(s) && Enabled(s, Exec(p, ans, delivered)) && s.processes[p].run.pc.CallDispatch?
    ensures var run := s.processes[p].run;
            && run.req.beadID in s.ledger
            && var row := s.ledger[run.req.beadID];
               && row.intent.idempotencyKey == run.req.idempotencyKey
               && row.dispatch.state.DispatchSending? && row.dispatch.pendingPrompt == run.durablePrompt
               && ClaimBarrier(run, row)
               && run.pc.validatedAt <= s.now
               && (run.req.requireReservation ==> LeaseBarrier(run, row, run.pc.validatedAt))
    ensures var run := s.processes[p].run; var row := s.ledger[run.req.beadID];
            var message := Message(row.intent.beadID, row.intent.beadTitle, row.intent.dispatchTarget, row.intent.agentType,
                                   row.intent.agentName, run.req.prompt, row.intent.idempotencyKey);
            Next(s, Exec(p, ans, delivered)).log
            == s.log + [DispatchCalled(row.generation, delivered, message, ans.dispatch)]
  {
    hide LogInv, RetiredLapsed, PanesExclusive, GrantsInv, LocksExclusive, RowInv, Reachable, OccupancyBlocked,
      ValidLease, LeaseBarrier, ExecStep;
    ReachableInv(s);
    var run := s.processes[p].run;
    assert ProcessInv(s.ledger, s.log, s.now, s.processes[p]);
    CallDispatchLogs(run, Blocked(s, run), s.ledger[run.req.beadID], ans, delivered, s.now, s.nextGeneration);
    StoredPromptIsKept(run, s.ledger[run.req.beadID], PastOf(s.log, s.ledger[run.req.beadID].generation), s.now);
    if run.req.requireReservation {
      ProvedLeaseIsBarrier(run, s.ledger[run.req.beadID], run.pc.validatedAt);
    }
  }

  lemma CallDispatchLogs(run: Run, blocked: bool, row: Assignment, ans: Answers, delivered: bool, now: Time, n: nat)
    requires run.pc.CallDispatch? && row.intent.idempotencyKey == run.req.idempotencyKey
    ensures ExecStep(run, blocked, Some(row), ans, now, delivered, n).event
            == Some(DispatchCalled(run.generation, delivered, MessageFor(run.req), ans.dispatch))
  {
  }

  lemma OnlyCallDispatchLogsIt(run: Run, blocked: bool, row: Option<Assignment>, ans: Answers, delivered: bool, now: Time,
      n: nat)
    ensures var e := ExecStep(run, blocked, row, ans, now, delivered, n).event;
            e.Some? && e.value.DispatchCalled? ==> run.pc.CallDispatch?
  {
    hide Decide, IntentRecorded, MatchesIntent, ValidLease, EffectiveClaimState, EffectiveReservationState,
      SettleReservation;
  }

  /** Dispatch is called from nowhere else. */
  lemma OnlyBarrierCallsDispatch(s: State, act: Action)
    requires Enabled(s, act)
    ensures s.log <= Next(s, act).log
    ensures forall i :: |s.log| <= i < |Next(s, act).log| && Next(s, act).log[i].DispatchCalled? ==>
              act.Exec? && s.processes[act.p].run.pc.CallDispatch?
  {
    hide ExecStep, ApplyOp, OccupancyBlocked, RequestError, NormalizeRequest;
    if act.Exec? {
      var run := s.processes[act.p].run;
      OnlyCallDispatchLogsIt(run, Blocked(s, run), Lookup(s.ledger, run.req.beadID), act.ans, act.delivered, s.now,
          s.nextGeneration);
    }
  }
}
