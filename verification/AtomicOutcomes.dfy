/**
 What a call of Execute starts and what it reports, over every run: exactly which
 attempts get past their first step, and that a reported receipt is the one transport
 answered, now and in every later replay.
 */
module AtomicOutcomes {
  import opened Wrappers
  import opened AssignmentTypes
  import opened AssignmentPolicy
  import opened AssignmentTransitions
  import opened AtomicMachine
  import opened AtomicProtocol
  import opened AtomicInvariant
  import opened AtomicSafety
  import opened AtomicDelivery
  import opened Admission

  // ---------- Which attempts start ----------

  // Another bead's row ties up this pane: it is live, may still be sending, or is being cleared.
  predicate PaneTaken(ledger: Ledger, beadID: string, pane: string) {
    exists b :: b in ledger && b != beadID && ledger[b].intent.occupancyKey == pane && TiedUp(ledger[b])
  }

  predicate TiedUp(row: Assignment) {
    || row.status in {StatusClaiming, StatusClaimed, StatusAssigned, StatusWorking}
    || row.dispatch.state.DispatchSending?
    || row.clear.state in {ClearStateReservationReleasing, ClearStateLeasesReleased}
  }

  lemma BlockedByPane(s: State, b: string, pane: string)
    requires Inv(s)
    ensures OccupancyBlocked(s.ledger, b, pane) <==> PaneTaken(s.ledger, b, pane)
  {
    hide LogInv, RetiredLapsed, PanesExclusive, GrantsInv, LocksExclusive, ProcessesInv, LeasesTracked, DeliveredOnce,
      ValidOutbox, DispatchTrue, DigitsValue;
    forall c | c in s.ledger
      ensures Blocks(s.ledger[c], pane) <==> TiedUp(s.ledger[c]) && s.ledger[c].intent.occupancyKey == pane
    {
      assert RowInv(s.ledger[c], PastOf(s.log, s.ledger[c].generation), s.now);
    }
  }

  lemma KeyedAttempt(s: State, p: nat)
    requires Inv(s) && p in s.processes && s.processes[p].Executing?
    ensures WellKeyed(Lookup(s.ledger, s.processes[p].run.req.beadID), s.processes[p].run.req)
  {
    hide LogInv, RetiredLapsed, PanesExclusive, GrantsInv, LocksExclusive, LeasesTracked, DeliveredOnce, ValidOutbox,
      DispatchTrue, RunInv, IsPhysicalPane;
    var b := s.processes[p].run.req.beadID;
    assert ProcessInv(s.ledger, s.log, s.now, s.processes[p]);
    if b in s.ledger {
      assert RowInv(s.ledger[b], PastOf(s.log, s.ledger[b].generation), s.now);
    }
  }

  /** The first step of an attempt writes nothing and calls no mutating port. The attempt goes on if and only if no other
      bead ties up its pane and it may start; then it carries exactly the prompts, title, intent and actor below.
      Otherwise it is over, refused or replayed. */
  lemma AttemptsStartExactlyWhen(s: State, p: nat, ans: Answers, delivered: bool)
    requires Reachable(s) && Enabled(s, Exec(p, ans, delivered)) && s.processes[p].run.pc.Load?
    ensures var run := s.processes[p].run; var t := Next(s, Exec(p, ans, delivered)); var after := t.processes[p].run;
            var row := Lookup(s.ledger, run.req.beadID);
            && t.ledger == s.ledger && t.log == s.log
            && (if !PaneTaken(s.ledger, run.req.beadID, run.req.occupancyKey) && MayStart(row, run.req, run.ports, ans, s.now)
                then
                  && after.pc == (if row.Some? && TakesOver(row.value, run.req) then BeginRelease else RecordIntent)
                  && after.req == run.req.(prompt := Delivered(row, run.req, run.ports, ans),
                                           beadTitle := DurableTitle(row, run.req, run.ports, ans),
                                           intentSHA256 := IntentOf(row, run.req))
                  && after.durablePrompt == Durable(row, run.req, run.ports, ans)
                  && after.actor == ActorFor(row, run.req) && after.ports == run.ports
                else after.pc.Finished? && !after.pc.outcome.Sent?)
  {
    hide Inv, Reachable, OccupancyBlocked, PaneTaken, Decide, MayStart, TakesOver, Delivered, Durable, DurableTitle,
      StepOnRow, RecordIntentStep, BeginReleaseStep, CallReleaseStep, SettleReleaseStep;
    ReachableInv(s);
    var run := s.processes[p].run;
    BlockedByPane(s, run.req.beadID, run.req.occupancyKey);
    KeyedAttempt(s, p);
    GoesExactlyWhen(Lookup(s.ledger, run.req.beadID), run.req, run.ports, ans, s.now);
    assert s.log + [] == s.log;
  }

  /** So an attempt the authorizer does not let through is over before anything is written or called: it is refused, or
      it was sent earlier and replays. */
  lemma UnauthorizedAttemptStops(s: State, p: nat, ans: Answers, delivered: bool)
    requires Reachable(s) && Enabled(s, Exec(p, ans, delivered)) && s.processes[p].run.pc.Load?
    requires s.processes[p].run.ports.eligibility && !ans.eligible
    ensures var t := Next(s, Exec(p, ans, delivered)); var after := t.processes[p].run.pc;
            && t.ledger == s.ledger && t.log == s.log
            && after.Finished? && (after.outcome.Failed? || after.outcome.Replayed?)
  {
    hide Reachable, ExecStep, PaneTaken, OccupancyBlocked;
    AttemptsStartExactlyWhen(s, p, ans, delivered);
  }

  // A step that ends no run as sent or replayed and changes nothing but where the run stands.
  predicate Steady(run: Run, local: Local) {
    && local.run == run.(pc := local.run.pc, generation := local.run.generation)
    && (local.run.pc.Finished? ==> local.run.pc.outcome.Failed?)
  }

  lemma ReleaseIsSteady(run: Run, row: Assignment, ans: Answers)
    ensures Steady(run, BeginReleaseStep(run, row, ans)) && Steady(run, CallReleaseStep(run, row, ans))
    ensures run.pc.SettleRelease? ==> Steady(run, SettleReleaseStep(run, row, run.pc.released))
  {
    hide ReplacementCandidate, ReplacementReady, ValidReleaseReceipt, BeginClear, LeasesReleased;
  }

  lemma ClaimIsSteady(run: Run, row: Assignment, ans: Answers)
    ensures Steady(run, CheckClaimStep(run, row))
    ensures run.pc.SettleClaimInspection? ==> Steady(run, SettleClaimInspectionStep(run, row, run.pc.claimFound))
    ensures run.pc.SettleClaim? ==> Steady(run, SettleClaimStep(run, row, run.pc.claimAnswer))
  {
    hide EffectiveClaimState, ValidClaimReceipt, MatchesIntent, ClaimUncertain;
  }

  lemma ReservationIsSteady(run: Run, row: Assignment, ans: Answers, now: Time)
    ensures Steady(run, CheckReservationStep(run, row, now))
    ensures Steady(run, InspectReservationStep(run, Some(row), ans))
    ensures Steady(run, StartReservationStep(run, row, now)) && Steady(run, CallReserveStep(run, Some(row), ans))
    ensures run.pc.CheckExpiry? ==> Steady(run, CheckExpiryStep(run, row, run.pc.validatedAt, now))
    ensures run.pc.SettleReserveInspection? ==> Steady(run, SettleReserveInspectionStep(run, row, run.pc.leaseFound, now))
    ensures run.pc.SettleReserve? ==> Steady(run, SettleReserveStep(run, row, run.pc.reserveAnswer, now))
  {
    hide EffectiveReservationState, ValidLease, ReservationRecorded, ReservationExpired, LeaseHasHandles;
  }

  lemma DispatchIsSteady(run: Run, row: Assignment, ans: Answers, delivered: bool)
    ensures run.pc.StartDispatch? ==> Steady(run, StartDispatchStep(run, row, run.pc.validatedAt))
    ensures Steady(run, CallDispatchStep(run, row, ans, delivered))
    ensures run.pc.SettleDispatch? && !run.pc.dispatchAnswer.DispatchReceived? ==>
              Steady(run, SettleDispatchStep(run, row, run.pc.dispatchAnswer))
  {
    hide DispatchStarted;
  }

  lemma StepOnRowIsSteady(run: Run, row: Assignment, ans: Answers, now: Time, delivered: bool)
    requires !(run.pc.SettleDispatch? && run.pc.dispatchAnswer.DispatchReceived?) && !run.pc.Finished?
    ensures Steady(run, StepOnRow(run, row, ans, now, delivered))
  {
    hide CheckClaimStep, SettleClaimInspectionStep, SettleClaimStep, ClaimStarted, CheckReservationStep,
      CheckExpiryStep, InspectReservationStep, SettleReserveInspectionStep, StartReservationStep, CallReserveStep,
      SettleReserveStep, StartDispatchStep, CallDispatchStep, SettleDispatchStep;
    ClaimIsSteady(run, row, ans);
    ReservationIsSteady(run, row, ans, now);
    DispatchIsSteady(run, row, ans, delivered);
  }

  /** What the first step settled is never settled again: no later step of the run changes its request, prompts, actor or
      ports. A run ends as replayed only in its first step, and as sent only on the receipt it has just been answered. */
  lemma StepKeepsDecision(run: Run, blocked: bool, row: Option<Assignment>, ans: Answers, now: Time, delivered: bool, n: nat)
    requires !run.pc.Finished?
    ensures var after := ExecStep(run, blocked, row, ans, now, delivered, n).run;
            && (!run.pc.Load? ==> after == run.(pc := after.pc, generation := after.generation))
            && (after.pc.Finished? && after.pc.outcome.Replayed? ==> run.pc.Load?)
            && (after.pc.Finished? && after.pc.outcome.Sent? ==>
                  run.pc == SettleDispatch(DispatchReceived(after.pc.outcome.receiptID)))
  {
    hide Decide, IntentRecorded, BeginReleaseStep, CallReleaseStep, SettleReleaseStep, CheckClaimStep, ClaimStarted,
      SettleClaimInspectionStep, SettleClaimStep, CheckReservationStep, CheckExpiryStep, InspectReservationStep,
          SettleReserveInspectionStep, StartReservationStep, CallReserveStep, SettleReserveStep, StartDispatchStep,
              CallDispatchStep, DispatchDelivered;
    if row.Some? {
      ReleaseIsSteady(run, row.value, ans);
      if !(run.pc.SettleDispatch? && run.pc.dispatchAnswer.DispatchReceived?) {
        StepOnRowIsSteady(run, row.value, ans, now, delivered);
      }
    }
  }

  // ---------- Failures ----------

  // The step ends the run with this error, and leaves the row so.
  predicate EndsWith(local: Local, error: Error, row: Assignment) {
    local.run.pc == Finished(Failed(error)) && local.row == Some(row)
  }

  /** How a claim that was not obtained is told and recorded: a lost or unproved one leaves its outcome open, unless the
      tracker says that the bead is another's or not to be had. */
  lemma ClaimFailuresAreTold(run: Run, row: Assignment, ans: Answers, now: Time, delivered: bool, n: nat)
    requires row.intent.idempotencyKey == run.req.idempotencyKey
    ensures var local := ExecStep(run, false, Some(row), ans, now, delivered, n);
            var open := row.(claim := row.claim.(state := ClaimUnknown));
            var lost := row.(status := StatusFailed, claim := row.claim.(state := ClaimFailed));
            var barred := row.(status := StatusFailed, claim := row.claim.(state := ClaimIneligible));
            && (run.pc.SettleClaim? && run.pc.claimAnswer.ClaimRefused? ==>
                  var error := run.pc.claimAnswer.error;
                  EndsWith(local, error, if error == ErrClaimConflict then lost
                                         else if error == ErrClaimIneligible then barred else open))
            && (run.pc.SettleClaim? && run.pc.claimAnswer.ClaimReceived?
                && !ValidClaimReceipt(run.pc.claimAnswer.receipt, run.req.beadID, run.actor) ==>
                  EndsWith(local, ErrClaimOutcomeUnknown, open))
            && (run.pc.SettleClaimInspection? ==>
                  match run.pc.claimFound
                  case ClaimInspectedConflict => EndsWith(local, ErrClaimConflict, lost)
                  case ClaimInspectionFailed => EndsWith(local, ErrClaimOutcomeUnknown, open)
                  case ClaimInspectedUnknown => EndsWith(local, ErrClaimOutcomeUnknown, open)
                  case ClaimInspectedAbsent => local.run.pc == StartClaim && local.row == Some(row)
                  case ClaimInspectedOwned(receipt) =>
                    !ValidClaimReceipt(receipt, run.req.beadID, run.actor) ==> EndsWith(local, ErrClaimOutcomeUnknown, open))
  {
    hide MatchesIntent, ValidClaimReceipt, LoadStep, RecordIntentStep, BeginReleaseStep, CallReleaseStep,
      SettleReleaseStep;
  }

  /** How a reservation that was not obtained is told and recorded: with any handle left, or one demanded back, as one still
      to be released; as none, if none was taken for sure; else as unknown. */
  lemma ReservationFailuresAreTold(run: Run, row: Assignment, ans: Answers, now: Time, delivered: bool, n: nat)
    requires row.intent.idempotencyKey == run.req.idempotencyKey
    ensures var local := ExecStep(run, false, Some(row), ans, now, delivered, n);
            && (run.pc.SettleReserve? && run.pc.reserveAnswer.ReserveGranted?
                && !ValidLease(run.req, run.pc.reserveAnswer.lease, now) ==>
                  var lease := run.pc.reserveAnswer.lease;
                  if lease.reservationIDs != [] || lease.granted != [] then
                    EndsWith(local, ErrReservationReleaseRequired, WithReservation(row, ReservationReserved, lease))
                  else EndsWith(local, ErrOther, WithReservation(row, ReservationFailed, lease)))
            && (run.pc.SettleReserve? && run.pc.reserveAnswer.ReserveFailed? ==>
                  var lease, fault := run.pc.reserveAnswer.lease, run.pc.reserveAnswer.fault;
                  if lease.reservationIDs != [] || lease.granted != [] || fault == FaultReleaseRequired then
                    EndsWith(local, ErrReservationReleaseRequired, WithReservation(row, ReservationReserved, lease))
                  else if fault == FaultGuaranteedNone then
                    EndsWith(local, ErrOther, WithReservation(row, ReservationFailed, lease))
                  else EndsWith(local, ErrReservationOutcomeUnknown, WithReservation(row, ReservationUnknown, lease)))
            && (run.pc.SettleReserveInspection? && run.pc.leaseFound.ReserveInspectionFailed? ==>
                  EndsWith(local, ErrReservationOutcomeUnknown,
                           WithReservation(row, ReservationUnknown, row.reservation.lease)))
            && (run.pc.SettleReserveInspection? && run.pc.leaseFound.ReserveInspectedUnknown? ==>
                  var found := run.pc.leaseFound.lease;
                  EndsWith(local, ErrReservationOutcomeUnknown,
                           WithReservation(row, ReservationUnknown,
                                           if found.reservationIDs != [] || found.granted != [] then found
                                           else row.reservation.lease)))
  {
    hide ValidLease, LoadStep, RecordIntentStep, BeginReleaseStep, CallReleaseStep, SettleReleaseStep,
      CheckReservationStep;
  }

  // The row with a reservation that ended in an error.
  function WithReservation(row: Assignment, state: ReservationState, lease: LeaseReceipt): Assignment {
    row.(reservation := Reservation(state, row.reservation.attempts, false, lease, true))
  }

  // ---------- Receipts ----------

  // The i-th event is the last dispatch call of the generation.
  predicate LastCall(log: seq<Event>, g: nat, i: nat) {
    && i < |log| && log[i].DispatchCalled? && log[i].generation == g
    && forall k :: i < k < |log| && log[k].generation == g ==> !log[k].DispatchCalled?
  }

  lemma {:induction false} LastCallIsPast(log: seq<Event>, g: nat) returns (i: nat)
    requires PastOf(log, g).last.Some?
    ensures LastCall(log, g, i) && PastOf(log, g).last.value == Call(log[i].message, log[i].answer)
  {
    var before, e := log[..|log| - 1], log[|log| - 1];
    if e.generation == g && e.DispatchCalled? {
      i := |log| - 1;
    } else {
      i := LastCallIsPast(before, g);
    }
  }

  /** A row recorded as sent holds the receipt transport gave to the last dispatch call of its generation, a call made for
      its own intent, and the prompt that was recorded for it. */
  lemma SentRowsAreTrue(s: State, b: string) returns (i: nat)
    requires Reachable(s) && b in s.ledger && s.ledger[b].dispatch.state.DispatchSent?
    ensures var row := s.ledger[b];
            && LastCall(s.log, row.generation, i)
            && s.log[i].answer == DispatchReceived(row.dispatch.receiptID) && row.dispatch.receiptID != ""
            && s.log[i].message == Message(row.intent.beadID, row.intent.beadTitle, row.intent.dispatchTarget,
                                           row.intent.agentType, row.intent.agentName, s.log[i].message.prompt,
                                           row.intent.idempotencyKey)
            && row.intent.promptSHA256 == PromptSHA256(row.dispatch.promptSent) && row.dispatch.pendingPrompt == ""
  {
    hide LogInv, RetiredLapsed, PanesExclusive, GrantsInv, LocksExclusive, ProcessesInv, LeasesTracked, DeliveredOnce,
      Reachable, ValidOutbox, IsPhysicalPane;
    ReachableInv(s);
    assert RowInv(s.ledger[b], PastOf(s.log, s.ledger[b].generation), s.now);
    i := LastCallIsPast(s.log, s.ledger[b].generation);
  }

  lemma SendingStep(run: Run, blocked: bool, row: Option<Assignment>, ans: Answers, delivered: bool, past: Past,
                    now: Time, n: nat, r: string)
    requires LocalPre(run, row, past, now) && run.pc == SettleDispatch(DispatchReceived(r))
    ensures row.Some? && row.value.generation == run.generation && row.value.intent.idempotencyKey == run.req.idempotencyKey
    ensures past.last == Some(Call(MessageFor(run.req), DispatchReceived(r)))
    ensures var local := ExecStep(run, blocked, row, ans, now, delivered, n);
            local.run.pc == Finished(Sent(r)) ==>
              local == Local(run.(pc := Finished(Sent(r))),
                             Some(row.value.(status := StatusAssigned,
                                             dispatch := Dispatch(DispatchSent, row.value.dispatch.attempts, "",
                                                                  run.durablePrompt, r))),
                             None)
  {
    hide RowInv, LoadStep, RecordIntentStep, BeginReleaseStep, CallReleaseStep, SettleReleaseStep, ReservationFacts,
      ClaimProved, Describes;
  }

  // This step ends its run with this outcome.
  predicate Reports(s: State, act: Action, outcome: Outcome) {
    act.Exec? && Enabled(s, act) && Next(s, act).processes[act.p].run.pc == Finished(outcome)
  }

  lemma SendingStepOf(s: State, act: Action, r: string) returns (i: nat)
    requires Inv(s) && Reports(s, act, Sent(r))
    ensures var run := s.processes[act.p].run;
            && run.req.beadID in s.ledger && run.pc == SettleDispatch(DispatchReceived(r))
            && Next(s, act).log == s.log && Next(s, act).processes[act.p].run == run.(pc := Finished(Sent(r)))
            && var row := s.ledger[run.req.beadID];
               && row.generation == run.generation && row.intent.idempotencyKey == run.req.idempotencyKey
               && Next(s, act).ledger[run.req.beadID]
                  == row.(status := StatusAssigned,
                          dispatch := Dispatch(DispatchSent, row.dispatch.attempts, "", run.durablePrompt, r))
               && LastCall(s.log, run.generation, i)
               && s.log[i].answer == DispatchReceived(r) && s.log[i].message == MessageFor(run.req)
  {
    hide LogInv, RetiredLapsed, PanesExclusive, GrantsInv, LocksExclusive, RowInv, ExecStep, OccupancyBlocked, PaneFree,
      ReservationFacts, ClaimProved, Describes, LastCall;
    var run := s.processes[act.p].run;
    var row := Lookup(s.ledger, run.req.beadID);
    assert ProcessInv(s.ledger, s.log, s.now, s.processes[act.p]);
    assert row.Some? ==> RowInv(row.value, PastFor(s.log, row), s.now);
    StepKeepsDecision(run, Blocked(s, run), row, act.ans, s.now, act.delivered, s.nextGeneration);
    SendingStep(run, Blocked(s, run), row, act.ans, act.delivered, PastFor(s.log, row), s.now, s.nextGeneration, r);
    i := LastCallIsPast(s.log, row.value.generation);
    assert s.log + [] == s.log;
  }

  /** Whenever a run ends as sent, its row is assigned and stores just the receipt it reports, with the prompt the run kept
      for the ledger; and that receipt is what transport answered to the last call for this generation. */
  lemma SentIsRecorded(s: State, act: Action, r: string) returns (i: nat)
    requires Reachable(s) && Reports(s, act, Sent(r))
    ensures var t, run := Next(s, act), s.processes[act.p].run;
            && run.req.beadID in t.ledger
            && var row := t.ledger[run.req.beadID];
               && row.intent.idempotencyKey == run.req.idempotencyKey && row.generation == run.generation
               && row.status.StatusAssigned? && row.dispatch.state.DispatchSent?
               && row.dispatch.receiptID == r
               && row.dispatch.promptSent == run.durablePrompt && row.dispatch.pendingPrompt == ""
               && LastCall(t.log, row.generation, i)
               && t.log[i].answer == DispatchReceived(r) && t.log[i].message.prompt == run.req.prompt
  {
    hide Inv, Reachable, ExecStep, OccupancyBlocked, LastCall;
    ReachableInv(s);
    i := SendingStepOf(s, act, r);
  }

  lemma ReplayingStep(s: State, act: Action, x: string)
    requires Inv(s) && Reports(s, act, Replayed(x)) && s.processes[act.p].run.pc.Load?
    ensures var run := s.processes[act.p].run;
            && run.req.beadID in s.ledger
            && var row := s.ledger[run.req.beadID];
               row.intent.idempotencyKey == run.req.idempotencyKey && row.dispatch.state.DispatchSent?
                   && row.dispatch.receiptID == x
  {
    hide Inv, OccupancyBlocked, Decide, MayStart, CarriesOn, StepOnRow, RecordIntentStep, BeginReleaseStep,
      CallReleaseStep, SettleReleaseStep;
    var run := s.processes[act.p].run;
    KeyedAttempt(s, act.p);
    GoesExactlyWhen(Lookup(s.ledger, run.req.beadID), run.req, run.ports, act.ans, s.now);
  }

  /** Nothing replays but the first step of a run, and it reports what transport answered to the last dispatch call of the
      row's generation. */
  lemma ReplayIsTransportsAnswer(s: State, act: Action, x: string) returns (i: nat)
    requires Reachable(s) && Reports(s, act, Replayed(x))
    ensures var run := s.processes[act.p].run;
            && run.pc.Load? && run.req.beadID in s.ledger
            && s.ledger[run.req.beadID].intent.idempotencyKey == run.req.idempotencyKey
            && LastCall(s.log, s.ledger[run.req.beadID].generation, i) && s.log[i].answer == DispatchReceived(x)
  {
    hide Inv, Reachable, LastCall, ExecStep, OccupancyBlocked;
    ReachableInv(s);
    var run := s.processes[act.p].run;
    StepKeepsDecision(run, Blocked(s, run), Lookup(s.ledger, run.req.beadID), act.ans, s.now, act.delivered, s.nextGeneration);
    ReplayingStep(s, act, x);
    i := SentRowsAreTrue(s, run.req.beadID);
  }

  /** Once a run has reported a receipt, every later replay for that row's generation reports the same one, whatever
      happens in between. */
  lemma LaterReplaysAgree(s: State, act: Action, r: string, acts: seq<Action>, later: Action, x: string)
    requires Reachable(s) && Reports(s, act, Sent(r)) && Legal(Next(s, act), acts)
    requires var u, b := After(Next(s, act), acts), s.processes[act.p].run.req.beadID;
             && Reports(u, later, Replayed(x)) && u.processes[later.p].run.pc.Load?
             && u.processes[later.p].run.req.beadID == b && b in u.ledger
             && u.ledger[b].generation == s.processes[act.p].run.generation
    ensures x == r
  {
    hide Inv, ExecStep, OccupancyBlocked, Reachable, SendSettled, LastCall;
    var t, b := Next(s, act), s.processes[act.p].run.req.beadID;
    ReachableInv(s);
    var _ := SendingStepOf(s, act, r);
    NextKeepsInv(s, act);
    SentIsSettled(t, b);
    SettledSendIsFinal(t, acts, b, t.ledger[b].generation, t.ledger[b].dispatch);
    RunsKeepInv(t, acts);
    ReplayingStep(After(t, acts), later, x);
    SettledDispatch(After(t, acts), b, t.ledger[b].generation, t.ledger[b].dispatch);
  }

  lemma SettledDispatch(s: State, b: string, g: nat, dispatch: Dispatch)
    requires SendSettled(s, b, g, dispatch) && b in s.ledger && s.ledger[b].generation == g
    ensures s.ledger[b].dispatch == dispatch
  {
  }
}
