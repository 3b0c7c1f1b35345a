/**
 Panes and file leases over every run: no two beads are live on one pane, and no
 lease handle the service handed out for a required reservation is lost track of.
 */
module AtomicLeases {
  import opened Wrappers
  import opened AssignmentTypes
  import opened AssignmentPolicy
  import opened AssignmentTransitions
  import opened AtomicMachine
  import opened AtomicProtocol
  import opened AtomicInvariant
  import opened AtomicSafety

  // ---------- Panes ----------

  /** Two beads that are both claiming, claimed, assigned or working sit on different physical panes. */
  lemma PaneExclusion(s: State, b: string, c: string)
    requires Reachable(s) && b in s.ledger && c in s.ledger && b != c
    requires IsLive(s.ledger[b].status) && IsLive(s.ledger[c].status)
    ensures CanonicalPaneIdentity(s.ledger[b]).Some? && CanonicalPaneIdentity(s.ledger[c]).Some?
    ensures CanonicalPaneIdentity(s.ledger[b]) != CanonicalPaneIdentity(s.ledger[c])
  {
    hide LogInv, RetiredLapsed, GrantsInv, LocksExclusive, ProcessesInv, LeasesTracked, Reachable, ValidOutbox,
      DeliveredOnce, DigitsValue;
    ReachableInv(s);
    assert RowInv(s.ledger[b], PastOf(s.log, s.ledger[b].generation), s.now);
    assert RowInv(s.ledger[c], PastOf(s.log, s.ledger[c].generation), s.now);
    assert PaneFree(s.ledger, b, s.ledger[b].intent.occupancyKey);
  }

  // ---------- Leases ----------

  // The service handed `h` to generation `g`, whose reservation was required, in the i-th event.
  predicate HandedOut(log: seq<Event>, g: nat, h: Handle, i: nat) {
    && i < |log| && log[i].generation == g
    && (log[i].ReserveReturned? || log[i].ReservationInspected?) && log[i].required
    && h in LeaseHandles(log[i].lease)
  }

  // The event proves this very handle gone: it was released, a listing no longer shows it, or a definite answer about
  // all of the generation's leases does not name it.
  predicate Resolves(e: Event, g: nat, h: Handle) {
    && e.generation == g
    && match e
       case ReservationInspected(_, required, lease) => required && h !in LeaseHandles(lease)
       case LeasesListed(_, paths, ids) => !NamedBy(paths, ids, h)
       case ReleaseConfirmed(_, paths, ids) => NamedBy(paths, ids, h)
       case _ => false
  }

  // Handed out in the i-th event, and proved gone by none since.
  predicate Held(log: seq<Event>, g: nat, h: Handle, i: nat) {
    HandedOut(log, g, h, i) && forall k :: i < k < |log| ==> !Resolves(log[k], g, h)
  }

  lemma {:induction false} HeldIsOutstanding(log: seq<Event>, g: nat, h: Handle, i: nat)
    requires Held(log, g, h, i)
    ensures h in PastOf(log, g).outstanding
  {
    if i < |log| - 1 {
      assert Held(log[..|log| - 1], g, h, i);
      HeldIsOutstanding(log[..|log| - 1], g, h, i);
    }
  }

  // The row still accounts for the handle: it stores it, or its own outcome is open.
  predicate Tracks(row: Assignment, h: Handle) {
    h in LeaseHandles(row.reservation.lease) || OutcomeOpen(row)
  }

  /** A handle that was handed out, not since proved gone, and not expired, belongs to a generation that is still in the
      ledger and still accounts for it. */
  lemma NoLeaseForgotten(s: State, g: nat, h: Handle, i: nat)
    requires Reachable(s) && Held(s.log, g, h, i) && !Expired(h, s.now)
    ensures exists b :: b in s.ledger && s.ledger[b].generation == g && Tracks(s.ledger[b], h)
  {
    hide LogInv, PanesExclusive, GrantsInv, LocksExclusive, ProcessesInv, Reachable, RowShape, DeliveredOnce, Held;
    ReachableInv(s);
    HeldIsOutstanding(s.log, g, h, i);
    assert !Lapsed(PastOf(s.log, g).outstanding, s.now);
    var b :| b in s.ledger && s.ledger[b].generation == g;
    assert RowInv(s.ledger[b], PastOf(s.log, s.ledger[b].generation), s.now);
  }

  /** So a row whose reservation is neither under way nor unknown stores every such handle of its generation. */
  lemma SettledRowStoresLeases(s: State, b: string, h: Handle, i: nat)
    requires Reachable(s) && b in s.ledger && !OutcomeOpen(s.ledger[b])
    requires Held(s.log, s.ledger[b].generation, h, i) && !Expired(h, s.now)
    ensures h in LeaseHandles(s.ledger[b].reservation.lease)
  {
    hide Inv, Reachable, Held, RowInv;
    NoLeaseForgotten(s, s.ledger[b].generation, h, i);
    ReachableInv(s);
    GenerationNamesBead(s);
  }

  lemma GenerationNamesBead(s: State)
    requires Inv(s)
    ensures GenerationsDistinct(s.ledger)
  {
  }

  lemma NewGenerationNeedsIntent(run: Run, blocked: bool, row: Assignment, ans: Answers, delivered: bool, now: Time, n: nat)
    requires var local := ExecStep(run, blocked, Some(row), ans, now, delivered, n);
             local.row.Some? && local.row.value.generation != row.generation
    ensures run.pc.RecordIntent? && IntentRecorded(Some(row), PersistedRequest(run), run.actor, n).Ok?
    ensures row.intent.idempotencyKey != run.req.idempotencyKey
  {
    hide Decide, MatchesIntent, ValidLease, EffectiveClaimState, EffectiveReservationState, SettleReservation,
        ValidReleaseReceipt;
  }

  predicate Replaced(s: State, t: State, b: string) {
    b in s.ledger && (b !in t.ledger || t.ledger[b].generation != s.ledger[b].generation)
  }

  // Nothing of a reservation is left in the row, and nothing of it is open.
  predicate NothingReserved(row: Assignment) {
    && row.reservation.lease.reservationIDs == [] && row.reservation.lease.granted == []
    && row.reservation.state !in {ReservationReserving, ReservationUnknown}
    && (row.reservation.state == ReservationReserved ==> row.reservation.completed && !row.reservation.failed)
  }

  /** A row is overwritten by a new generation or removed only when it carries no lease handle, its reservation
      outcome is known, and every handle a required reservation ever handed to it has been proved gone or has expired. */
  lemma ReplacedRowCarriesNoLease(s: State, act: Action, b: string)
    requires Reachable(s) && Enabled(s, act) && Replaced(s, Next(s, act), b)
    ensures NothingReserved(s.ledger[b])
    ensures Lapsed(PastOf(s.log, s.ledger[b].generation).outstanding, s.now)
  {
    hide Reachable, ExecStep, ApplyOp, LeasesReleased, RequestError, NormalizeRequest, Inv, OccupancyBlocked, RowInv,
      IntentRecorded, NothingReserved, Lapsed;
    ReachableInv(s);
    RowOf(s, b);
    if act.CompleteClear? {
      ClearedRowIsEmpty(s.ledger[b], PastOf(s.log, s.ledger[b].generation), s.now);
    } else if act.Exec? {
      var run := s.processes[act.p].run;
      NewGenerationNeedsIntent(run, Blocked(s, run), s.ledger[b], act.ans, act.delivered, s.now, s.nextGeneration);
      OverwrittenRowIsEmpty(s.ledger[b], PastOf(s.log, s.ledger[b].generation), s.now, PersistedRequest(run), run.actor,
          s.nextGeneration);
    } else if act.Guarded? {
      SameGenerationAfterOp(s.ledger[b], act.op, s.now);
    } else {
      ReleaseKeepsGeneration(s.ledger[b]);
    }
  }

  lemma RowOf(s: State, b: string)
    requires Inv(s) && b in s.ledger
    ensures RowInv(s.ledger[b], PastOf(s.log, s.ledger[b].generation), s.now)
  {
  }

  lemma ClearedRowIsEmpty(row: Assignment, past: Past, now: Time)
    requires RowInv(row, past, now) && row.clear.state.ClearStateLeasesReleased?
    ensures NothingReserved(row) && Lapsed(past.outstanding, now)
  {
  }

  lemma OverwrittenRowIsEmpty(row: Assignment, past: Past, now: Time, req: AtomicRequest, actor: string, n: nat)
    requires RowInv(row, past, now)
    requires row.intent.idempotencyKey != req.idempotencyKey && IntentRecorded(Some(row), req, actor, n).Ok?
    ensures NothingReserved(row) && Lapsed(past.outstanding, now)
  {
  }

  lemma SameGenerationAfterOp(row: Assignment, op: Op, now: Time)
    requires ApplyOp(row, op, now).Ok?
    ensures ApplyOp(row, op, now).value.generation == row.generation
  {
  }

  lemma ReleaseKeepsGeneration(row: Assignment)
    ensures LeasesReleased(row).Ok? ==> LeasesReleased(row).value.generation == row.generation
  {
  }
}
