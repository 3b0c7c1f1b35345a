/**
 Completion events and the clear protocol over every run: the outbox is always
 valid, one consumer holds an event at a time, when an event can leave its row,
 and the only moves a clear may make.
 */
module AtomicCompletion {
  import opened Wrappers
  import opened AssignmentTypes
  import opened AssignmentPolicy
  import opened AssignmentTransitions
  import opened AtomicMachine
  import opened AtomicProtocol
  import opened AtomicInvariant
  import opened AtomicSafety
  import opened AtomicLeases

  // ---------- Outbox ----------

  /** The check every strict load makes on every row can never fail on a ledger written by guarded operations. */
  lemma OutboxAlwaysValid(s: State, b: string)
    requires Reachable(s) && b in s.ledger
    ensures ValidOutbox(s.ledger[b])
  {
    hide Reachable, Inv, ValidOutbox, LeasesTracked, DeliveredOnce;
    ReachableInv(s);
    RowOf(s, b);
  }

  function OutcomeName(status: AssignmentStatus): string {
    if status.StatusCompleted? then "/completed" else "/failed"
  }

  lemma EventParts(row: Assignment, status: AssignmentStatus)
    requires row.intent.idempotencyKey != "" && (status.StatusCompleted? || status.StatusFailed?)
    ensures CompletionEventID(row, status) == row.intent.beadID + "/" + row.intent.idempotencyKey + OutcomeName(status)
  {
    hide Decimal;
  }

  // The outcome can be read off the end.
  lemma PartsApart(one: string, two: string, first: AssignmentStatus, second: AssignmentStatus)
    requires one + OutcomeName(first) == two + OutcomeName(second)
    ensures one == two && OutcomeName(first) == OutcomeName(second)
  {
    var x, y := OutcomeName(first), OutcomeName(second);
    var i, j := one + x, two + y;
    assert i[|i| - 7] == x[|x| - 7] && j[|j| - 7] == y[|y| - 7];
    assert x == y;
    assert i[..|i| - |x|] == one && j[..|j| - |y|] == two;
  }

  /** The event ID tells one attempt of a bead from another, and its completion from its failure. */
  lemma EventsTellApart(one: Assignment, two: Assignment, first: AssignmentStatus, second: AssignmentStatus)
    requires one.intent.beadID == two.intent.beadID
    requires one.intent.idempotencyKey != "" && two.intent.idempotencyKey != ""
    requires first.StatusCompleted? || first.StatusFailed?
    requires second.StatusCompleted? || second.StatusFailed?
    requires CompletionEventID(one, first) == CompletionEventID(two, second)
    ensures one.intent.idempotencyKey == two.intent.idempotencyKey && first == second
  {
    hide CompletionEventID;
    var bead := one.intent.beadID + "/";
    var a, b := one.intent.idempotencyKey, two.intent.idempotencyKey;
    EventParts(one, first);
    EventParts(two, second);
    PartsApart(bead + a, bead + b, first, second);
    assert (bead + a)[|bead|..] == a && (bead + b)[|bead|..] == b;
  }

  /** Two consumers whose leases on one event are both still running are the same consumer, and the durable row
      agrees with what it was told. */
  lemma SingleConsumer(s: State, one: Grant, two: Grant)
    requires Reachable(s) && one in s.grants && two in s.grants
    requires one.beadID == two.beadID && one.eventID == two.eventID
    requires one.expiresAt > s.now && two.expiresAt > s.now
    ensures one.token == two.token
    ensures one.beadID in s.ledger && OwnsLiveLease(s.ledger[one.beadID], one.eventID, one.token, s.now)
  {
    hide Reachable, LedgerInv, LocksExclusive, ProcessesInv;
    ReachableInv(s);
    assert GrantStands(s.ledger, s.now, one) && GrantStands(s.ledger, s.now, two);
  }

  predicate HasEvent(ledger: Ledger, b: string, eventID: string) {
    b in ledger && ledger[b].outbox.eventID == eventID
  }

  // The consumer that holds the live lease on exactly this event acknowledges it.
  predicate Acknowledges(s: State, act: Action, b: string, eventID: string) {
    && act.Guarded? && act.beadID == b && act.op.OpAcknowledge? && act.op.eventID == eventID && act.op.token != ""
    && b in s.ledger && OwnsLiveLease(s.ledger[b], eventID, act.op.token, s.now)
  }

  // A replacement generation is recorded over a working row whose terminal outcome is already pending.
  predicate OvertakesTerminal(s: State, act: Action, b: string) {
    && act.Exec? && act.p in s.processes && s.processes[act.p].Executing?
    && var run := s.processes[act.p].run;
       && run.req.beadID == b && run.pc.RecordIntent? && run.req.replaceWorkingAssignment
       && b in s.ledger && s.ledger[b].intent.idempotencyKey != run.req.idempotencyKey
       && s.ledger[b].clear.pendingTerminalStatus.Some?
       && ReplacementReady(s.ledger[b], PersistedRequest(run)) && run.actor == s.ledger[b].claim.actor
  }

  lemma IntentOverEvent(row: Assignment, past: Past, now: Time, req: AtomicRequest, actor: string, n: nat)
    requires RowInv(row, past, now) && row.outbox.eventID != "" && row.intent.idempotencyKey != req.idempotencyKey
    ensures IntentRecorded(Some(row), req, actor, n).Ok? <==>
              && req.replaceWorkingAssignment && row.clear.pendingTerminalStatus.Some?
              && ReplacementReady(row, req) && actor == row.claim.actor
    ensures IntentRecorded(Some(row), req, actor, n).Ok? ==>
              IntentRecorded(Some(row), req, actor, n).value.outbox == NO_EVENT
              && IntentRecorded(Some(row), req, actor, n).value.generation == n
  {
  }

  lemma ExecEvent(s: State, act: Action, b: string, eventID: string)
    requires Inv(s) && act.Exec? && Enabled(s, act) && eventID != "" && HasEvent(s.ledger, b, eventID)
    ensures !HasEvent(Next(s, act).ledger, b, eventID) <==> OvertakesTerminal(s, act, b)
  {
    hide RunInv, RowInv, LogInv, RetiredLapsed, PanesExclusive, GrantsInv, LocksExclusive, IntentRecorded,
      ReplacementReady, ProcessesInv, GenerationsDistinct, LoadStep, BeginReleaseStep, CallReleaseStep,
      SettleReleaseStep, StepOnRow, OccupancyBlocked;
    var run := s.processes[act.p].run;
    var row := s.ledger[b];
    assert RowInv(row, PastOf(s.log, row.generation), s.now);
    if run.req.beadID == b {
      ExecLocalPost(s, act.p, act.ans, act.delivered);
      if row.intent.idempotencyKey != run.req.idempotencyKey {
        IntentOverEvent(row, PastOf(s.log, row.generation), s.now, PersistedRequest(run), run.actor, s.nextGeneration);
      }
      if ExecLocal(s, run, act.ans, act.delivered).row.value.generation != row.generation {
        NewGenerationNeedsIntent(run, Blocked(s, run), row, act.ans, act.delivered, s.now, s.nextGeneration);
      }
    }
  }

  lemma OpEvent(row: Assignment, op: Op, now: Time, past: Past)
    requires RowInv(row, past, now) && now > 0 && row.outbox.eventID != "" && ApplyOp(row, op, now).Ok?
    ensures ApplyOp(row, op, now).value.outbox.eventID != row.outbox.eventID <==> op.OpAcknowledge?
    ensures op.OpAcknowledge? ==>
              op.eventID == row.outbox.eventID && op.token != "" && OwnsLiveLease(row, op.eventID, op.token, now)
  {
  }

  lemma AcknowledgeApplies(row: Assignment, op: Op, now: Time, past: Past)
    requires RowInv(row, past, now) && now > 0 && op.OpAcknowledge? && op.eventID != "" && op.token != ""
    requires OwnsLiveLease(row, op.eventID, op.token, now)
    ensures ApplyOp(row, op, now).Ok?
  {
  }

  /** Exactly when a pending completion event leaves its row: the live lease owner acknowledges that very event,
      or a working replacement overtakes a pending terminal outcome. The second is the one way to lose it. */
  lemma EventLeaves(s: State, act: Action, b: string, eventID: string)
    requires Reachable(s) && Enabled(s, act) && eventID != "" && HasEvent(s.ledger, b, eventID)
    ensures !HasEvent(Next(s, act).ledger, b, eventID) <==>
              Acknowledges(s, act, b, eventID) || OvertakesTerminal(s, act, b)
  {
    hide Reachable, Inv, ExecStep, ApplyOp, RequestError, NormalizeRequest, OccupancyBlocked, RowInv, OwnsLiveLease,
      OvertakesTerminal;
    ReachableInv(s);
    RowOf(s, b);
    assert OvertakesTerminal(s, act, b) ==> act.Exec? by { OnlyExecOvertakes(s, act, b); }
    if act.Exec? {
      ExecEvent(s, act, b, eventID);
    } else if act.Guarded? && act.beadID == b {
      GuardedEvent(s, act.op, b, eventID);
    }
  }

  lemma OnlyExecOvertakes(s: State, act: Action, b: string)
    ensures OvertakesTerminal(s, act, b) ==> act.Exec?
  {
  }

  lemma GuardedEvent(s: State, op: Op, b: string, eventID: string)
    requires Inv(s) && Enabled(s, Guarded(b, op)) && eventID != "" && HasEvent(s.ledger, b, eventID)
    ensures !HasEvent(Next(s, Guarded(b, op)).ledger, b, eventID) <==> Acknowledges(s, Guarded(b, op), b, eventID)
  {
    hide LogInv, RetiredLapsed, PanesExclusive, GrantsInv, LocksExclusive, ProcessesInv, RowInv, ApplyOp, OwnsLiveLease;
    var row := s.ledger[b];
    var past := PastOf(s.log, row.generation);
    assert RowInv(row, past, s.now);
    if Acknowledges(s, Guarded(b, op), b, eventID) {
      AcknowledgeApplies(row, op, s.now, past);
    }
    if ApplyOp(row, op, s.now).Ok? {
      OpEvent(row, op, s.now, past);
    }
  }

  /** The loss is real: any working generation whose completion has begun can be replaced before the completion is
      finished, and the new row no longer carries the event. */
  lemma ReplacementDropsEvent(row: Assignment, status: AssignmentStatus, reason: string, now: Time, req: AtomicRequest, n: nat)
    requires row.status.StatusWorking? && row.clear.state.ClearStateNone? && row.outbox == NO_EVENT
    requires row.claim.actor != "" && !row.dispatch.state.DispatchSending?
    requires status.StatusCompleted? || status.StatusFailed?
    requires req.replaceWorkingAssignment && req.beadID == row.intent.beadID && req.idempotencyKey != row.intent.idempotencyKey
    ensures var begun := BeginTerminal(row, row, status, reason, true, now);
            && begun.Ok? && begun.value.outbox.eventID != ""
            && var released := LeasesReleased(begun.value);
               && released.Ok? && released.value.outbox == begun.value.outbox
               && var replaced := IntentRecorded(Some(released.value), req, row.claim.actor, n);
                  replaced.Ok? && replaced.value.outbox == NO_EVENT
  {
  }

  // ---------- Clearing ----------

  predicate SamePending(before: Clear, after: Clear) {
    after.pendingTerminalStatus == before.pendingTerminalStatus && after.pendingTerminalReason == before.pendingTerminalReason
  }

  /** The moves a row's clear record may make in one step. A terminal outcome ends a clear only when the leases and
      the claim were both recorded as released for that same outcome. */
  predicate ClearMove(before: Assignment, after: Option<Assignment>) {
    if after.None? then before.clear.state.ClearStateLeasesReleased? && before.outbox.eventID == ""
    else if after.value.generation != before.generation then
      || (before.clear.state.ClearStateNone? && IsTerminal(before.status) && before.outbox.eventID == "")
      || (before.clear.state.ClearStateLeasesReleased? && before.status.StatusWorking?)
    else match before.clear.state
      case ClearStateNone => !after.value.clear.state.ClearStateLeasesReleased? && !after.value.clear.claimReleased
      case ClearStateReservationReleasing =>
        !after.value.clear.state.ClearStateNone? && SamePending(before.clear, after.value.clear)
            && !after.value.clear.claimReleased
      case ClearStateLeasesReleased =>
        if after.value.clear.state.ClearStateLeasesReleased? then
          && SamePending(before.clear, after.value.clear)
          && (before.clear.claimReleased ==> after.value.clear.claimReleased)
          && (after.value.clear.claimReleased ==> before.clear.claimReleased || before.clear.pendingTerminalStatus.Some?)
        else
          && after.value.clear == NO_CLEAR && IsTerminal(after.value.status)
          && before.clear.pendingTerminalStatus == Some(after.value.status) && before.clear.claimReleased
          && (after.value.status.StatusFailed? ==> after.value.failReason == before.clear.pendingTerminalReason)
          && !AssignmentHasHandles(after.value)
  }

  lemma StepKeepsClear(run: Run, row: Assignment, ans: Answers, delivered: bool, now: Time)
    ensures var local := StepOnRow(run, row, ans, now, delivered);
            local.row.Some? && local.row.value.clear == row.clear && local.row.value.generation == row.generation
  {
    hide ValidLease, MatchesIntent, EffectiveClaimState, EffectiveReservationState, SettleReservation,
      ValidClaimReceipt;
  }

  lemma ExecClearMove(run: Run, blocked: bool, row: Assignment, ans: Answers, delivered: bool, past: Past, now: Time, n: nat)
    requires LocalPre(run, Some(row), past, now) && row.generation < n
    ensures ClearMove(row, ExecStep(run, blocked, Some(row), ans, now, delivered, n).row)
  {
    hide StepOnRow, Decide, MatchesIntent, ValidReleaseReceipt, LeasesTracked, DeliveredOnce, IsPhysicalPane,
      ValidClaimReceipt;
    StepKeepsClear(run, row, ans, delivered, now);
  }

  lemma OpClearMove(row: Assignment, op: Op, past: Past, now: Time)
    requires RowInv(row, past, now) && ApplyOp(row, op, now).Ok?
    ensures ClearMove(row, Some(ApplyOp(row, op, now).value))
  {
    hide LeasesTracked, DeliveredOnce, IsPhysicalPane, ValidOutbox, ValidClaimReceipt;
  }

  lemma ReleaseClearMove(row: Assignment, past: Past, now: Time)
    requires RowInv(row, past, now)
    ensures ClearMove(row, Some(row))
    ensures LeasesReleased(row).Ok? ==> ClearMove(row, Some(LeasesReleased(row).value))
  {
    hide LeasesTracked, DeliveredOnce, IsPhysicalPane, ValidOutbox, ValidClaimReceipt;
  }

  /** Every step of the whole system moves every row's clear record by one of these moves only. */
  lemma ClearProtocol(s: State, act: Action, b: string)
    requires Reachable(s) && Enabled(s, act) && b in s.ledger
    ensures ClearMove(s.ledger[b], Lookup(Next(s, act).ledger, b))
  {
    hide Reachable, RowInv, RunInv, ExecStep, ApplyOp, RequestError, NormalizeRequest, OccupancyBlocked, ClearMove,
      LeasesReleased, LogInv, RetiredLapsed, PanesExclusive, GrantsInv, LocksExclusive, GenerationsDistinct,
      ReleaseStands, PaneFree, SurveyStands;
    ReachableInv(s);
    var row := s.ledger[b];
    var past := PastOf(s.log, row.generation);
    assert RowInv(row, past, s.now);
    ReleaseClearMove(row, past, s.now);
    if act.Exec? && s.processes[act.p].run.req.beadID == b {
      var run := s.processes[act.p].run;
      assert ProcessInv(s.ledger, s.log, s.now, s.processes[act.p]);
      ExecLocalPost(s, act.p, act.ans, act.delivered);
      ExecClearMove(run, Blocked(s, run), row, act.ans, act.delivered, past, s.now, s.nextGeneration);
    } else if act.Guarded? && act.beadID == b && ApplyOp(row, act.op, s.now).Ok? {
      OpClearMove(row, act.op, past, s.now);
    } else if act.CompleteClear? && act.beadID == b {
      CompleteClearMove(row);
    }
  }

  lemma CompleteClearMove(row: Assignment)
    requires MayCompleteClear(row)
    ensures ClearMove(row, None)
  {
  }
}
