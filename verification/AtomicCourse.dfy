/**
 The course one call of Execute takes through the machine, while the outside world
 answers its ports and other processes write other beads; and exactly when that
 course ends with the prompt sent.
 */
module AtomicCourse {
  import opened Wrappers
  import opened AssignmentTypes
  import opened AssignmentPolicy
  import opened AssignmentTransitions
  import opened AtomicMachine
  import opened Admission
  import opened ReceiptChecks
  import opened AssignmentStores
  import AtomicProtocol

  /** What the outside world does during one call of Execute: what the ports answer, the clock at every step, whether a
      dispatch call really reaches the pane, where saves fail, and what the other beads' rows have become after each
      step. */
  datatype World = World(ans: Answers, times: nat -> Time, delivered: bool, generation: nat, faults: nat -> SaveFault,
                         others: nat -> Ledger)

  datatype Config = Config(run: Run, ledger: Ledger, log: seq<Event>, step: nat)

  function StepLocal(c: Config, w: World): Local {
    ExecStep(c.run, OccupancyBlocked(c.ledger, c.run.req.beadID, c.run.req.occupancyKey), Lookup(c.ledger, c.run.req.beadID),
             w.ans, w.times(c.step), w.delivered, w.generation)
  }

  // The run's own step.
  function OwnStep(c: Config, w: World): Config {
    var local := StepLocal(c, w);
    Config(local.run, AtomicProtocol.UpdateRow(c.ledger, c.run.req.beadID, local.row),
           c.log + AtomicProtocol.Logged(local.event), c.step + 1)
  }

  // The ledger once other processes have written what they will, to other beads than this.
  function Around(others: Ledger, b: string, ledger: Ledger): Ledger {
    With(others, b, Lookup(ledger, b))
  }

  // Then whatever other processes write before the next one.
  function Step(c: Config, w: World): Config {
    var own := OwnStep(c, w);
    own.(ledger := Around(w.others(c.step), c.run.req.beadID, own.ledger))
  }

  function Steps(c: Config, w: World, k: nat): Config {
    if k == 0 then c else Step(Steps(c, w, k - 1), w)
  }

  lemma NextStep(start: Config, w: World, c: Config)
    requires start.step == 0 && c == Steps(start, w, c.step)
    ensures Step(c, w).step == c.step + 1 && Step(c, w) == Steps(start, w, c.step + 1)
  {
    hide StepLocal;
  }

  predicate OwnsRow(c: Config) {
    c.run.req.beadID in c.ledger && c.ledger[c.run.req.beadID].intent.idempotencyKey == c.run.req.idempotencyKey
  }

  // The row after a step is the one the machine leaves.
  lemma RowAfterStep(c: Config, w: World)
    ensures var local := StepLocal(c, w); var b := c.run.req.beadID;
            && Step(c, w).run == local.run
            && Lookup(Step(c, w).ledger, b) == Lookup(OwnStep(c, w).ledger, b)
               == if local.row.Some? then local.row else Lookup(c.ledger, b)
  {
    hide StepLocal;
  }

  lemma NoSteps(c: Config, w: World)
    ensures Steps(c, w, 0) == c
  {
  }

  // ---------- A first attempt ----------

  // Where the run stands, and the row of its bead.
  predicate At(c: Config, run: Run, row: Option<Assignment>) {
    c.run == run && Lookup(c.ledger, run.req.beadID) == row
  }

  // The next step, once the pane has been looked at.
  lemma Onward(start: Config, w: World, k: nat, run: Run, row: Option<Assignment>, local: Local)
    requires start.step == 0 && At(Steps(start, w, k), run, row) && Steps(start, w, k).step == k
    requires !run.pc.Load? && local == ExecStep(run, false, row, w.ans, w.times(k), w.delivered, w.generation)
    requires local.run.req.beadID == run.req.beadID && (row.Some? ==> local.row.Some?)
    ensures At(Steps(start, w, k + 1), local.run, local.row) && Steps(start, w, k + 1).step == k + 1
  {
    hide ExecStep;
    var c := Steps(start, w, k);
    NextStep(start, w, c);
    RowAfterStep(c, w);
    BlockedOnlyMattersAtLoad(run, OccupancyBlocked(c.ledger, c.run.req.beadID, c.run.req.occupancyKey), row, w.ans, w.times(k),
                             w.delivered, w.generation);
  }

  lemma BlockedOnlyMattersAtLoad(run: Run, blocked: bool, row: Option<Assignment>, ans: Answers, now: Time, delivered: bool,
                                 n: nat)
    requires !run.pc.Load?
    ensures ExecStep(run, blocked, row, ans, now, delivered, n) == ExecStep(run, false, row, ans, now, delivered, n)
  {
    hide StepOnRow, RecordIntentStep, BeginReleaseStep, CallReleaseStep, SettleReleaseStep;
  }

  // ---------- What an attempt needs ----------

  // The tracker says this bead is this actor's, in progress.
  predicate GoodReceipt(receipt: ClaimReceipt, beadID: string, actor: string) {
    receipt.beadID == beadID && receipt.actor == actor && receipt.status == TrackerInProgress && receipt.claimedAt.Some?
  }

  predicate ClaimGranted(run: Run, ans: Answers) {
    ans.claim.ClaimReceived? && GoodReceipt(ans.claim.receipt, run.req.beadID, run.actor)
  }

  // The claim comes from the row, if it was recorded; from the tracker's books, if an earlier call may have made it; or
  // from a call of its own.
  predicate ClaimObtained(row: Assignment, run: Run, ans: Answers) {
    match EffectiveClaimState(row)
    case ClaimClaimed =>
      GoodReceipt(ClaimReceipt(row.intent.beadID, row.claim.actor, row.claim.status, row.claim.claimedAt), run.req.beadID,
                  run.actor)
    case ClaimFailed => false
    case ClaimIneligible => false
    case ClaimPending => ClaimGranted(run, ans)
    case _ => if run.ports.claimReconciler then ClaimFound(run, ans) else ClaimGranted(run, ans)
  }

  predicate ClaimFound(run: Run, ans: Answers) {
    match ans.claimInspection
    case ClaimInspectedOwned(receipt) => GoodReceipt(receipt, run.req.beadID, run.actor)
    case ClaimInspectedAbsent => ClaimGranted(run, ans)
    case _ => false
  }

  // How many steps that takes.
  function ClaimLength(row: Assignment, run: Run, ans: Answers): nat {
    match EffectiveClaimState(row)
    case ClaimClaimed => 1
    case ClaimPending => 4
    case _ => if !run.ports.claimReconciler then 4 else if ans.claimInspection.ClaimInspectedAbsent? then 6 else 3
  }

  // A lease of the request's agent on its pane, and everything required is in it.
  ghost predicate GoodLease(req: AtomicRequest, lease: LeaseReceipt, now: Time) {
    && lease.agentName != "" && lease.agentName == req.agentName && lease.target != "" && lease.target == req.occupancyKey
    && (req.requireReservation ==> GrantsAll(req, lease, now))
  }

  // A fresh reservation, begun in the k-th step; without a service, nothing may be required.
  ghost predicate LeaseGranted(run: Run, w: World, k: nat) {
    if !run.ports.reserver then !run.req.requireReservation
    else w.ans.reserve.ReserveGranted? && GoodLease(run.req, w.ans.reserve.lease, w.times(k + 2))
  }

  // The lease comes from the row, while it is good, and from a fresh call once it has run out; from the service's books,
  // if an earlier call may have made it; or from a call of its own.
  ghost predicate LeaseObtained(row: Assignment, run: Run, w: World, k: nat) {
    match EffectiveReservationState(row)
    case ReservationReserved =>
      var lease := row.reservation.lease;
      && !row.reservation.failed && GoodLease(run.req, lease, w.times(k))
      && (lease.expiresAt.Some? && lease.expiresAt.value <= w.times(k + 1) ==> LeaseGranted(run, w, k + 2))
    case ReservationReserving => LeaseFound(run, w, k)
    case ReservationUnknown => LeaseFound(run, w, k)
    case _ => LeaseGranted(run, w, k + 1)
  }

  ghost predicate LeaseFound(run: Run, w: World, k: nat) {
    && run.ports.reserver && run.ports.reservationReconciler
    && match w.ans.reserveInspection
       case ReserveInspectedReserved(lease) => GoodLease(run.req, lease, w.times(k + 2))
       case ReserveInspectedAbsent => LeaseGranted(run, w, k + 3)
       case _ => false
  }

  // What may be taken over was released before, or is released now: the tracker still has the bead with the same actor,
  // and the releaser reports all that the row names.
  ghost predicate Released(row: Assignment, ports: Ports, ans: Answers) {
    if row.clear.state.ClearStateLeasesReleased? then !HasUnresolvedReservation(row)
    else
      && ports.releaser && ports.replaceAuth && ans.replaceOwner == Some((TrackerInProgress, row.claim.actor))
      && (row.clear.state.ClearStateNone? ==> row.outbox.eventID == "")
      && ans.release.ReleaseReported? && NamesAll(row, ans.release.paths, ans.release.ids)
  }

  // The run once it has passed its first step, up to its generation.
  function StartedRun(prior: Option<Assignment>, req: AtomicRequest, ports: Ports, ans: Answers, pc: Pc): Run {
    Run(pc, req.(prompt := Delivered(prior, req, ports, ans), beadTitle := DurableTitle(prior, req, ports, ans),
                 intentSHA256 := IntentOf(prior, req)),
        ports, Durable(prior, req, ports, ans), ActorFor(prior, req), 0)
  }

  // The row the attempt goes on with: its own, or a new one.
  function StartedRow(prior: Option<Assignment>, req: AtomicRequest, ports: Ports, w: World): Assignment {
    if prior.Some? && prior.value.intent.idempotencyKey == req.idempotencyKey then prior.value
    else
      var run := StartedRun(prior, req, ports, w.ans, Load);
      NewRow(PersistedRequest(run), run.actor, w.generation, 0)
  }

  // How many steps there are up to the claim.
  function StartLength(prior: Option<Assignment>, req: AtomicRequest): nat {
    if prior.None? || !TakesOver(prior.value, req) then 2
    else if prior.value.clear.state.ClearStateLeasesReleased? then 3
    else 5
  }

  /** All an attempt needs: a free pane, leave to start, the release of what it takes over, the claim, the lease, and a
      receipt. */
  ghost predicate Succeeds(ledger: Ledger, req: AtomicRequest, ports: Ports, w: World) {
    var prior := Lookup(ledger, req.beadID);
    var run, row := StartedRun(prior, req, ports, w.ans, Load), StartedRow(prior, req, ports, w);
    && !OccupancyBlocked(ledger, req.beadID, req.occupancyKey)
    && MayStart(prior, req, ports, w.ans, w.times(0))
    && (prior.Some? && TakesOver(prior.value, req) ==> Released(prior.value, ports, w.ans))
    && ClaimObtained(row, run, w.ans)
    && LeaseObtained(row, run, w, StartLength(prior, req) + ClaimLength(row, run, w.ans))
    && w.ans.dispatch.DispatchReceived? && w.ans.dispatch.receiptID != ""
  }

  // ---------- The claim ----------

  // The run's own row, with its prompt still to be sent.
  predicate Held(run: Run, row: Assignment) {
    && row.intent.idempotencyKey == run.req.idempotencyKey && row.intent.beadID == run.req.beadID
    && row.claim.actor == run.actor && run.actor != "" && run.req.beadID != ""
    && row.dispatch.state.DispatchPending? && MatchesIntent(row, PersistedRequest(run))
  }

  // The call is over by then, without a prompt sent.
  predicate OverUnsent(start: Config, w: World, k: nat) {
    Steps(start, w, k).run.pc.Finished? && !Steps(start, w, k).run.pc.outcome.Sent?
  }

  // The run stands here, before its k-th step.
  predicate Stands(start: Config, w: World, k: nat, run: Run, row: Assignment) {
    start.step == 0 && At(Steps(start, w, k), run, Some(row)) && Steps(start, w, k).step == k && Held(run, row)
  }

  // A step that keeps the row's attempt, or ends the call unsent.
  lemma HeldOnward(start: Config, w: World, k: nat, run: Run, row: Assignment, local: Local)
    requires Stands(start, w, k, run, row) && !run.pc.Load? && !run.pc.RecordIntent?
    requires local == ExecStep(run, false, Some(row), w.ans, w.times(k), w.delivered, w.generation)
    requires local.run == run.(pc := local.run.pc) && local.row.Some?
    ensures At(Steps(start, w, k + 1), local.run, local.row) && Steps(start, w, k + 1).step == k + 1
    ensures Held(run, local.row.value) ==> Stands(start, w, k + 1, local.run, local.row.value)
    ensures local.run.pc.Finished? && !local.run.pc.outcome.Sent? ==> OverUnsent(start, w, k + 1)
  {
    hide ExecStep, Steps, MatchesIntent;
    Onward(start, w, k, run, Some(row), local);
  }

  // Of a row that only its claim, its reservation or its status changes, the attempt stays the same.
  lemma StillHeld(run: Run, row: Assignment, after: Assignment)
    requires Held(run, row) && after.intent == row.intent && after.claim.actor == row.claim.actor
    requires after.dispatch == row.dispatch
    ensures Held(run, after)
  {
  }

  lemma Receives(run: Run, row: Assignment, receipt: ClaimReceipt)
    requires Held(run, row)
    ensures var local := AcceptClaim(run, row, receipt);
            && local.run == run.(pc := local.run.pc) && local.row.Some? && local.row.value.reservation == row.reservation
            && if GoodReceipt(receipt, run.req.beadID, run.actor)
               then local.run.pc == CheckReservation && Held(run, local.row.value)
               else local.run.pc.Finished? && !local.run.pc.outcome.Sent?
  {
    hide MatchesIntent;
    var local := AcceptClaim(run, row, receipt);
    if GoodReceipt(receipt, run.req.beadID, run.actor) {
      StillHeld(run, row, local.row.value);
    }
  }

  // A claim call of the run's own.
  lemma FreshClaim(start: Config, w: World, k: nat, run: Run, row: Assignment) returns (after: Assignment)
    requires Stands(start, w, k, run, row) && run.pc == StartClaim && !EffectiveClaimState(row).ClaimClaimed?
    ensures if ClaimGranted(run, w.ans)
            then Stands(start, w, k + 3, run.(pc := CheckReservation), after) && after.reservation == row.reservation
            else OverUnsent(start, w, k + 3)
  {
    hide Steps, MatchesIntent, AcceptClaim, RefuseClaim, ClaimStarted;
    var started := ClaimStarted(row);
    StartedIsHeld(run, row);
    CallSteps(run, row, w, w.times(k));
    HeldOnward(start, w, k, run, row, Goto(run, CallClaim, Some(started)));
    CallSteps(run.(pc := CallClaim), started, w, w.times(k + 1));
    HeldOnward(start, w, k + 1, run.(pc := CallClaim), started, Goto(run, SettleClaim(w.ans.claim), Some(started)));
    var settling := run.(pc := SettleClaim(w.ans.claim));
    CallSteps(settling, started, w, w.times(k + 2));
    var local := ExecStep(settling, false, Some(started), w.ans, w.times(k + 2), w.delivered, w.generation);
    after := started;
    if w.ans.claim.ClaimReceived? {
      Receives(settling, started, w.ans.claim.receipt);
      after := local.row.value;
    } else {
      Refuses(settling, started, w.ans.claim.error);
    }
    HeldOnward(start, w, k + 2, settling, started, local);
  }

  lemma StartedIsHeld(run: Run, row: Assignment)
    requires Held(run, row)
    ensures Held(run, ClaimStarted(row)) && ClaimStarted(row).reservation == row.reservation
    ensures forall pc :: Held(run.(pc := pc), ClaimStarted(row))
  {
    hide EffectiveClaimState;
  }

  lemma Refuses(run: Run, row: Assignment, error: Error)
    ensures var local := RefuseClaim(run, row, error);
            local.run == run.(pc := Finished(Failed(error))) && local.row.Some?
  {
    hide ClaimUncertain;
  }

  // The three steps of a claim call.
  lemma CallSteps(run: Run, row: Assignment, w: World, now: Time)
    requires row.intent.idempotencyKey == run.req.idempotencyKey
    ensures var local := ExecStep(run, false, Some(row), w.ans, now, w.delivered, w.generation);
            && (run.pc == StartClaim ==> local == Goto(run, CallClaim, Some(ClaimStarted(row))))
            && (run.pc == CallClaim ==> local == Goto(run, SettleClaim(w.ans.claim), Some(row)))
            && (run.pc == SettleClaim(w.ans.claim) ==>
                  local == match w.ans.claim
                           case ClaimRefused(error) => RefuseClaim(run, row, error)
                           case ClaimReceived(receipt) => AcceptClaim(run, row, receipt))
  {
    hide ClaimStarted, AcceptClaim, RefuseClaim, LoadStep, RecordIntentStep, BeginReleaseStep, CallReleaseStep,
      SettleReleaseStep;
  }

  lemma CheckSteps(run: Run, row: Assignment, w: World, now: Time)
    requires row.intent.idempotencyKey == run.req.idempotencyKey
    ensures var local := ExecStep(run, false, Some(row), w.ans, now, w.delivered, w.generation);
            && (run.pc == CheckClaim ==> local == CheckClaimStep(run, row))
            && (run.pc == InspectClaim ==> local == Goto(run, SettleClaimInspection(w.ans.claimInspection), Some(row)))
            && (run.pc == SettleClaimInspection(w.ans.claimInspection) ==>
                  local == SettleClaimInspectionStep(run, row, w.ans.claimInspection))
  {
    hide CheckClaimStep, SettleClaimInspectionStep, LoadStep, RecordIntentStep, BeginReleaseStep, CallReleaseStep,
      SettleReleaseStep;
  }

  // An earlier claim call whose outcome is open is looked up.
  lemma FoundClaim(start: Config, w: World, k: nat, run: Run, row: Assignment) returns (j: nat, after: Assignment)
    requires Stands(start, w, k, run, row) && run.pc == InspectClaim && !EffectiveClaimState(row).ClaimClaimed?
    ensures if ClaimFound(run, w.ans)
            then Stands(start, w, j, run.(pc := CheckReservation), after) && after.reservation == row.reservation
                 && j == k + if w.ans.claimInspection.ClaimInspectedAbsent? then 5 else 2
            else OverUnsent(start, w, j)
  {
    hide Steps, MatchesIntent, AcceptClaim, RefuseClaim, EffectiveClaimState;
    var found, settling := w.ans.claimInspection, run.(pc := SettleClaimInspection(w.ans.claimInspection));
    CheckSteps(run, row, w, w.times(k));
    HeldOnward(start, w, k, run, row, Goto(run, settling.pc, Some(row)));
    CheckSteps(settling, row, w, w.times(k + 1));
    var local := SettleClaimInspectionStep(settling, row, found);
    j, after := k + 2, row;
    match found {
      case ClaimInspectedOwned(receipt) =>
        Receives(settling, row, receipt);
        after := local.row.value;
        HeldOnward(start, w, k + 1, settling, row, local);
      case ClaimInspectedAbsent =>
        HeldOnward(start, w, k + 1, settling, row, local);
        after := FreshClaim(start, w, k + 2, run.(pc := StartClaim), row);
        j := k + 5;
      case ClaimInspectedConflict =>
        Refuses(settling, row, ErrClaimConflict);
        HeldOnward(start, w, k + 1, settling, row, local);
      case ClaimInspectionFailed =>
        Refuses(settling, row, ErrClaimOutcomeUnknown);
        HeldOnward(start, w, k + 1, settling, row, local);
      case ClaimInspectedUnknown =>
        Refuses(settling, row, ErrClaimOutcomeUnknown);
        HeldOnward(start, w, k + 1, settling, row, local);
    }
  }

  // What the row says of the claim decides how the run goes on.
  lemma ClaimChecked(run: Run, row: Assignment)
    requires Held(run, row)
    ensures var local := CheckClaimStep(run, row); var state := EffectiveClaimState(row);
            && local.run == run.(pc := local.run.pc) && local.row == Some(row)
            && local.run.pc ==
               if state == ClaimClaimed then
                 if GoodReceipt(ClaimReceipt(row.intent.beadID, row.claim.actor, row.claim.status, row.claim.claimedAt),
                                run.req.beadID, run.actor)
                 then CheckReservation else Finished(Failed(ErrClaimOutcomeUnknown))
               else if state == ClaimFailed then Finished(Failed(ErrClaimConflict))
               else if state == ClaimIneligible then Finished(Failed(ErrClaimIneligible))
               else if state in {ClaimClaiming, ClaimUnknown} && run.ports.claimReconciler then InspectClaim
               else StartClaim
  {
    hide EffectiveClaimState, MatchesIntent;
  }

  lemma ClaimIsSet(row: Assignment)
    ensures EffectiveClaimState(row) != ClaimUnset
  {
  }

  // What the claim still takes, by where its check leads.
  lemma ClaimLeft(row: Assignment, run: Run, next: Run, ans: Answers)
    requires Held(run, row) && next == CheckClaimStep(run, row).run
    ensures match next.pc
            case CheckReservation => ClaimObtained(row, run, ans) && ClaimLength(row, run, ans) == 1
            case StartClaim =>
              && !EffectiveClaimState(row).ClaimClaimed? && ClaimLength(row, run, ans) == 4
              && (ClaimObtained(row, run, ans) <==> ClaimGranted(next, ans))
            case InspectClaim =>
              && !EffectiveClaimState(row).ClaimClaimed?
              && ClaimLength(row, run, ans) == (if ans.claimInspection.ClaimInspectedAbsent? then 6 else 3)
              && (ClaimObtained(row, run, ans) <==> ClaimFound(next, ans))
            case Finished(_) => !ClaimObtained(row, run, ans)
            case _ => false
  {
    hide EffectiveClaimState, CheckClaimStep, GoodReceipt, Held;
    ClaimChecked(run, row);
    ClaimIsSet(row);
  }

  lemma ClaimCheckStep(start: Config, w: World, k: nat, run: Run, row: Assignment) returns (next: Run)
    requires Stands(start, w, k, run, row) && run.pc == CheckClaim
    ensures next == run.(pc := next.pc) && next == CheckClaimStep(run, row).run
    ensures if next.pc.Finished? then OverUnsent(start, w, k + 1) else Stands(start, w, k + 1, next, row)
  {
    hide Steps, MatchesIntent, EffectiveClaimState, CheckClaimStep, GoodReceipt;
    CheckSteps(run, row, w, w.times(k));
    ClaimChecked(run, row);
    var local := CheckClaimStep(run, row);
    HeldOnward(start, w, k, run, row, local);
    next := local.run;
  }

  lemma ClaimPhase(start: Config, w: World, k: nat, run: Run, row: Assignment) returns (j: nat, after: Assignment)
    requires Stands(start, w, k, run, row) && run.pc == CheckClaim
    ensures if ClaimObtained(row, run, w.ans)
            then Stands(start, w, j, run.(pc := CheckReservation), after) && after.reservation == row.reservation
                 && j == k + ClaimLength(row, run, w.ans)
            else OverUnsent(start, w, j)
  {
    hide Steps, ClaimObtained, ClaimGranted, ClaimFound, ClaimLength, EffectiveClaimState, CheckClaimStep, Stands, Held,
      OverUnsent;
    StandsHeld(start, w, k, run, row);
    var next := ClaimCheckStep(start, w, k, run, row);
    ClaimLeft(row, run, next, w.ans);
    j, after := k + 1, row;
    if next.pc == StartClaim {
      after := FreshClaim(start, w, k + 1, next, row);
      j := k + 4;
    } else if next.pc == InspectClaim {
      j, after := FoundClaim(start, w, k + 1, next, row);
    }
  }

  // ---------- The lease ----------

  lemma LeaseCheck(run: Run, lease: LeaseReceipt, now: Time)
    ensures ValidLease(run.req, lease, now) <==> GoodLease(run.req, lease, now)
  {
    hide ValidRequiredLease, GrantsAll;
    RequiredLeaseGrantsAll(run.req, lease, now);
  }

  // A lease just answered is recorded, and lets the run go on when it is good.
  lemma Leases(run: Run, row: Assignment, lease: LeaseReceipt, now: Time)
    requires Held(run, row)
    ensures var local := SettleLease(run, row, lease, now);
            && local.run == run.(pc := local.run.pc) && local.row.Some? && Held(run, local.row.value)
            && if GoodLease(run.req, lease, now) then local.run.pc == StartDispatch(now)
               else local.run.pc.Finished? && !local.run.pc.outcome.Sent?
  {
    hide ValidLease, GoodLease, MatchesIntent, ClassifyValidatedReservation, SettleReservation;
    LeaseCheck(run, lease, now);
    StillHeld(run, row, SettleLease(run, row, lease, now).row.value);
  }

  lemma ReserveSteps(run: Run, row: Assignment, w: World, now: Time)
    requires row.intent.idempotencyKey == run.req.idempotencyKey
    ensures var local := ExecStep(run, false, Some(row), w.ans, now, w.delivered, w.generation);
            && (run.pc == StartReservation ==> local == StartReservationStep(run, row, now))
            && (run.pc == CallReserve ==>
                  local.run == run.(pc := SettleReserve(w.ans.reserve)) && local.row == Some(row))
            && (run.pc == SettleReserve(w.ans.reserve) ==> local == SettleReserveStep(run, row, w.ans.reserve, now))
            && (run.pc == CheckReservation ==> local == CheckReservationStep(run, row, now))
            && (run.pc.CheckExpiry? ==> local == CheckExpiryStep(run, row, run.pc.validatedAt, now))
            && (run.pc == InspectReservation ==>
                  local.run == run.(pc := SettleReserveInspection(w.ans.reserveInspection)) && local.row == Some(row))
            && (run.pc == SettleReserveInspection(w.ans.reserveInspection) ==>
                  local == SettleReserveInspectionStep(run, row, w.ans.reserveInspection, now))
  {
    hide LoadStep, RecordIntentStep, BeginReleaseStep, CallReleaseStep, SettleReleaseStep, StartReservationStep,
      SettleReserveStep, CheckReservationStep, CheckExpiryStep, SettleReserveInspectionStep;
  }

  // The run is ready to send.
  predicate Ready(start: Config, w: World, j: nat, run: Run, after: Assignment, at: Time) {
    Stands(start, w, j, run.(pc := StartDispatch(at)), after)
  }

  // A reservation call of the run's own.
  lemma FreshLease(start: Config, w: World, k: nat, run: Run, row: Assignment) returns (j: nat, after: Assignment, at: Time)
    requires Stands(start, w, k, run, row) && run.pc == StartReservation
    ensures if LeaseGranted(run, w, k) then Ready(start, w, j, run, after, at) else OverUnsent(start, w, j)
  {
    hide Steps, MatchesIntent, SettleLease, GoodLease;
    ReserveSteps(run, row, w, w.times(k));
    var local := StartReservationStep(run, row, w.times(k));
    j, after, at := k + 1, row, w.times(k);
    if run.ports.reserver {
      var started := ReservationStarted(row);
      StillHeld(run, row, started);
      HeldOnward(start, w, k, run, row, local);
      var calling, settling := run.(pc := CallReserve), run.(pc := SettleReserve(w.ans.reserve));
      ReserveSteps(calling, started, w, w.times(k + 1));
      HeldOnward(start, w, k + 1, calling, started,
                 ExecStep(calling, false, Some(started), w.ans, w.times(k + 1), w.delivered, w.generation));
      ReserveSteps(settling, started, w, w.times(k + 2));
      local := SettleReserveStep(settling, started, w.ans.reserve, w.times(k + 2));
      if w.ans.reserve.ReserveGranted? {
        Leases(settling, started, w.ans.reserve.lease, w.times(k + 2));
      }
      HeldOnward(start, w, k + 2, settling, started, local);
      j, after, at := k + 3, local.row.value, w.times(k + 2);
    } else {
      HeldOnward(start, w, k, run, row, local);
    }
  }

  // An earlier reservation call whose outcome is open is looked up.
  lemma FoundLease(start: Config, w: World, k: nat, run: Run, row: Assignment) returns (j: nat, after: Assignment, at: Time)
    requires Stands(start, w, k, run, row) && run.pc == InspectReservation
    requires run.ports.reserver && run.ports.reservationReconciler && k > 0
    ensures if LeaseFound(run, w, k - 1) then Ready(start, w, j, run, after, at) else OverUnsent(start, w, j)
  {
    hide Steps, MatchesIntent, SettleLease, GoodLease, LeaseGranted;
    var found, settling := w.ans.reserveInspection, run.(pc := SettleReserveInspection(w.ans.reserveInspection));
    ReserveSteps(run, row, w, w.times(k));
    HeldOnward(start, w, k, run, row, ExecStep(run, false, Some(row), w.ans, w.times(k), w.delivered, w.generation));
    ReserveSteps(settling, row, w, w.times(k + 1));
    var local := SettleReserveInspectionStep(settling, row, found, w.times(k + 1));
    if found.ReserveInspectedReserved? {
      Leases(settling, row, found.lease, w.times(k + 1));
    } else {
      StillHeld(run, row, local.row.value);
    }
    HeldOnward(start, w, k + 1, settling, row, local);
    j, after, at := k + 2, local.row.value, w.times(k + 1);
    if found.ReserveInspectedAbsent? {
      j, after, at := FreshLease(start, w, k + 2, local.run, after);
      LeaseOfRun(run, local.run, w, k + 2);
    }
  }

  // Where a run stands makes no difference to what it needs.
  lemma LeaseOfRun(run: Run, later: Run, w: World, k: nat)
    requires later == run.(pc := later.pc)
    ensures LeaseGranted(later, w, k) <==> LeaseGranted(run, w, k)
  {
  }

  // What the row says of the reservation decides how the run goes on.
  lemma LeaseChecked(run: Run, row: Assignment, now: Time)
    requires Held(run, row)
    ensures var local := CheckReservationStep(run, row, now); var state := EffectiveReservationState(row);
            && local.run == run.(pc := local.run.pc) && local.row.Some? && (!local.run.pc.Finished? ==> local.row == Some(row))
            && if state == ReservationReserved && !row.reservation.failed
                  && GoodLease(run.req, row.reservation.lease, now) then
                 local.run.pc == CheckExpiry(now)
               else if state in {ReservationReserving, ReservationUnknown}
                       && run.ports.reserver && run.ports.reservationReconciler then
                 local.run.pc == InspectReservation
               else if state in {ReservationReserved, ReservationReserving, ReservationUnknown} then
                 local.run.pc.Finished? && local.run.pc.outcome.Failed?
               else local.run.pc == StartReservation
  {
    hide EffectiveReservationState, ValidLease, GoodLease, MatchesIntent, ReservationRecorded,
      ClassifyValidatedReservation;
    LeaseCheck(run, row.reservation.lease, now);
  }

  lemma LeaseCheckStep(start: Config, w: World, k: nat, run: Run, row: Assignment) returns (next: Run)
    requires Stands(start, w, k, run, row) && run.pc == CheckReservation
    ensures next == run.(pc := next.pc) && next == CheckReservationStep(run, row, w.times(k)).run
    ensures if next.pc.Finished? then OverUnsent(start, w, k + 1) else Stands(start, w, k + 1, next, row)
  {
    hide Steps, MatchesIntent, GoodLease, CheckReservationStep, EffectiveReservationState;
    ReserveSteps(run, row, w, w.times(k));
    LeaseChecked(run, row, w.times(k));
    var local := CheckReservationStep(run, row, w.times(k));
    HeldOnward(start, w, k, run, row, local);
    next := local.run;
  }

  // What the reservation still takes, by where its check leads.
  lemma LeaseLeft(row: Assignment, run: Run, next: Run, w: World, k: nat)
    requires Held(run, row) && next == CheckReservationStep(run, row, w.times(k)).run && next == run.(pc := next.pc)
    ensures var expiry := row.reservation.lease.expiresAt;
            match next.pc
            case StartReservation => LeaseObtained(row, run, w, k) <==> LeaseGranted(next, w, k + 1)
            case InspectReservation =>
              && run.ports.reserver && run.ports.reservationReconciler
              && (LeaseObtained(row, run, w, k) <==> LeaseFound(next, w, k))
            case CheckExpiry(at) =>
              && at == w.times(k)
              && (LeaseObtained(row, run, w, k) <==>
                  (expiry.Some? && expiry.value <= w.times(k + 1) ==> LeaseGranted(next, w, k + 2)))
            case Finished(_) => !LeaseObtained(row, run, w, k)
            case _ => false
  {
    hide GoodLease, LeaseGranted, LeaseFound, CheckReservationStep, EffectiveReservationState, Held;
    LeaseChecked(run, row, w.times(k));
    LeaseFoundNeeds(run, w, k);
    LeaseOfRun(run, next, w, k + 1);
    LeaseOfRun(run, next, w, k + 2);
    FoundOfRun(run, next, w, k);
  }

  lemma LeasePhase(start: Config, w: World, k: nat, run: Run, row: Assignment) returns (j: nat, after: Assignment, at: Time)
    requires Stands(start, w, k, run, row) && run.pc == CheckReservation
    ensures if LeaseObtained(row, run, w, k) then Ready(start, w, j, run, after, at) else OverUnsent(start, w, j)
  {
    hide Steps, LeaseObtained, LeaseGranted, LeaseFound, CheckReservationStep, Stands, Held, OverUnsent;
    StandsHeld(start, w, k, run, row);
    var next := LeaseCheckStep(start, w, k, run, row);
    LeaseLeft(row, run, next, w, k);
    j, after, at := k + 1, row, w.times(k);
    if next.pc == StartReservation {
      j, after, at := FreshLease(start, w, k + 1, next, row);
    } else if next.pc == InspectReservation {
      j, after, at := FoundLease(start, w, k + 1, next, row);
    } else if next.pc.CheckExpiry? {
      j, after, at := KeptLease(start, w, k + 1, next, row);
    }
  }

  lemma StandsHeld(start: Config, w: World, k: nat, run: Run, row: Assignment)
    requires Stands(start, w, k, run, row)
    ensures Held(run, row)
  {
  }

  lemma LeaseFoundNeeds(run: Run, w: World, k: nat)
    ensures LeaseFound(run, w, k) ==> run.ports.reserver && run.ports.reservationReconciler
  {
  }

  // A stored lease that is good is used, unless it has run out meanwhile.
  lemma KeptLease(start: Config, w: World, k: nat, run: Run, row: Assignment) returns (j: nat, after: Assignment, at: Time)
    requires Stands(start, w, k, run, row) && run.pc.CheckExpiry?
    ensures var expiry := row.reservation.lease.expiresAt;
            if expiry.Some? && expiry.value <= w.times(k) ==> LeaseGranted(run, w, k + 1)
            then Ready(start, w, j, run, after, at) else OverUnsent(start, w, j)
  {
    hide Steps, MatchesIntent, LeaseGranted;
    ReserveSteps(run, row, w, w.times(k));
    var checked := CheckExpiryStep(run, row, run.pc.validatedAt, w.times(k));
    HeldOnward(start, w, k, run, row, checked);
    j, after, at := k + 1, row, run.pc.validatedAt;
    if checked.run.pc == StartReservation {
      j, after, at := FreshLease(start, w, k + 1, checked.run, row);
      LeaseOfRun(run, checked.run, w, k + 1);
    }
  }

  lemma FoundOfRun(run: Run, later: Run, w: World, k: nat)
    requires later == run.(pc := later.pc)
    ensures LeaseFound(later, w, k) <==> LeaseFound(run, w, k)
  {
  }

  // ---------- The prompt ----------

  lemma SendSteps(run: Run, row: Assignment, w: World, now: Time)
    requires Held(run, row)
    ensures var sending := row.(dispatch := row.dispatch.(state := DispatchSending, attempts := row.dispatch.attempts + 1));
            && (run.pc.StartDispatch? ==>
                  ExecStep(run, false, Some(row), w.ans, now, w.delivered, w.generation)
                  == Goto(run, CallDispatch(run.pc.validatedAt), Some(sending)))
            && (run.pc.CallDispatch? ==>
                  var local := ExecStep(run, false, Some(sending), w.ans, now, w.delivered, w.generation);
                  local.run == run.(pc := SettleDispatch(w.ans.dispatch)) && local.row == Some(sending))
            && (run.pc == SettleDispatch(w.ans.dispatch) ==>
                  var local := ExecStep(run, false, Some(sending), w.ans, now, w.delivered, w.generation);
                  && local.run == run.(pc := local.run.pc) && local.row.Some? && local.run.pc.Finished?
                  && (local.run.pc.outcome.Sent? <==> w.ans.dispatch.DispatchReceived? && w.ans.dispatch.receiptID != ""))
  {
    hide LoadStep, RecordIntentStep, BeginReleaseStep, CallReleaseStep, SettleReleaseStep, CheckReservationStep,
      CheckClaimStep, SettleReserveStep, SettleReserveInspectionStep, SettleClaimStep, MatchesIntent;
  }

  lemma SendPhase(start: Config, w: World, k: nat, run: Run, row: Assignment)
    requires Stands(start, w, k, run, row) && run.pc.StartDispatch?
    ensures var pc := Steps(start, w, k + 3).run.pc;
            pc.Finished? && (pc.outcome.Sent? <==> w.ans.dispatch.DispatchReceived? && w.ans.dispatch.receiptID != "")
  {
    hide Steps, ExecStep, MatchesIntent;
    var sending := row.(dispatch := row.dispatch.(state := DispatchSending, attempts := row.dispatch.attempts + 1));
    SendSteps(run, row, w, w.times(k));
    Onward(start, w, k, run, Some(row), Goto(run, CallDispatch(run.pc.validatedAt), Some(sending)));
    var calling, settling := run.(pc := CallDispatch(run.pc.validatedAt)), run.(pc := SettleDispatch(w.ans.dispatch));
    SendSteps(calling, row, w, w.times(k + 1));
    Onward(start, w, k + 1, calling, Some(sending),
           ExecStep(calling, false, Some(sending), w.ans, w.times(k + 1), w.delivered, w.generation));
    SendSteps(settling, row, w, w.times(k + 2));
    Onward(start, w, k + 2, settling, Some(sending),
           ExecStep(settling, false, Some(sending), w.ans, w.times(k + 2), w.delivered, w.generation));
  }

  // ---------- The start ----------

  predicate Begins(start: Config, req: AtomicRequest, ports: Ports) {
    && start.run == Run(Load, req, ports, "", "", 0) && start.step == 0 && req.beadID != ""
    && WellKeyed(Lookup(start.ledger, req.beadID), req)
  }

  lemma LoadPhase(start: Config, w: World, req: AtomicRequest, ports: Ports)
    requires Begins(start, req, ports)
    ensures var prior := Lookup(start.ledger, req.beadID);
            if !OccupancyBlocked(start.ledger, req.beadID, req.occupancyKey) && MayStart(prior, req, ports, w.ans, w.times(0))
            then
              && At(Steps(start, w, 1),
                    StartedRun(prior, req, ports, w.ans, if prior.Some? && TakesOver(prior.value, req) then BeginRelease
                                                         else RecordIntent), prior)
              && Steps(start, w, 1).step == 1
            else OverUnsent(start, w, 1)
  {
    hide Decide, StepOnRow, BeginReleaseStep, CallReleaseStep, SettleReleaseStep, RecordIntentStep, OccupancyBlocked,
      MayStart, StableClaimActor, Delivered, Durable, DurableTitle, TakesOver, Around, Steps;
    NoSteps(start, w);
    NextStep(start, w, start);
    RowAfterStep(start, w);
    GoesExactlyWhen(Lookup(start.ledger, req.beadID), req, ports, w.ans, w.times(0));
  }

  // The row that was recorded has the same needs as the one the attempt goes on with.
  predicate SameNeeds(row: Assignment, recorded: Assignment) {
    recorded == row.(retryCount := recorded.retryCount,
                     claim := row.claim.(requiresNonTerminal := recorded.claim.requiresNonTerminal))
  }

  lemma NeedsAgree(row: Assignment, recorded: Assignment, run: Run, w: World, k: nat)
    requires SameNeeds(row, recorded)
    ensures ClaimObtained(row, run, w.ans) == ClaimObtained(recorded, run, w.ans)
    ensures ClaimLength(row, run, w.ans) == ClaimLength(recorded, run, w.ans)
    ensures LeaseObtained(row, run, w, k) == LeaseObtained(recorded, run, w, k)
  {
    hide ClaimGranted, GoodLease, LeaseGranted, LeaseFound;
  }

  lemma NeedsOfRun(row: Assignment, run: Run, later: Run, w: World, k: nat)
    requires later == run.(pc := later.pc, generation := later.generation)
    ensures ClaimObtained(row, later, w.ans) == ClaimObtained(row, run, w.ans)
    ensures ClaimLength(row, later, w.ans) == ClaimLength(row, run, w.ans)
    ensures LeaseObtained(row, later, w, k) == LeaseObtained(row, run, w, k)
  {
    hide EffectiveClaimState, EffectiveReservationState, GoodLease;
  }

  lemma NewRowIsHeld(run: Run, n: nat, retryCount: nat)
    requires run.req.intentSHA256 != NoDigest && run.actor != "" && run.req.beadID != ""
    ensures Held(run, NewRow(PersistedRequest(run), run.actor, n, retryCount))
  {
  }

  // A row that may be resumed matches what the run would record.
  lemma ResumedMatches(row: Assignment, req: AtomicRequest, ports: Ports, ans: Answers)
    requires WellKeyed(Some(row), req) && Resumes(row, req, ports, ans) && req.beadID != ""
    ensures Held(StartedRun(Some(row), req, ports, ans, RecordIntent), row)
  {
    hide MatchesRawIntent, SameIntent, EffectiveClaimState, Durable, DurableTitle, Delivered, PromptSHA256;
    SameIntentByChecks(row, req);
    var run := StartedRun(Some(row), req, ports, ans, RecordIntent);
    var described := req.(intentSHA256 := IntentOf(Some(row), req));
    RawIntentIgnoresPrompt(row, described, run.durablePrompt, run.req.beadTitle);
    assert PersistedRequest(run) == described.(prompt := run.durablePrompt, beadTitle := run.req.beadTitle);
  }

  // The intent is recorded: over the attempt's own row, over none, or over one that ended.
  lemma IntentFits(prior: Option<Assignment>, req: AtomicRequest, ports: Ports, w: World)
    requires WellKeyed(prior, req) && req.beadID != "" && MayStart(prior, req, ports, w.ans, w.times(0))
    requires prior.None? || !TakesOver(prior.value, req)
    ensures var run := StartedRun(prior, req, ports, w.ans, RecordIntent);
            var r := IntentRecorded(prior, PersistedRequest(run), run.actor, w.generation);
            r.Ok? && Held(run, r.value) && SameNeeds(StartedRow(prior, req, ports, w), r.value)
  {
    hide StableClaimActor, Delivered, Durable, DurableTitle, PortsGrant, MatchesIntent, HasUnresolvedReservation,
      EffectiveClaimState, SameIntent;
    var run := StartedRun(prior, req, ports, w.ans, RecordIntent);
    if prior.Some? && prior.value.intent.idempotencyKey == req.idempotencyKey {
      var row := prior.value;
      ResumedMatches(row, req, ports, w.ans);
      StillHeld(run, row, row.(claim := row.claim.(requiresNonTerminal := true)));
    } else {
      ActorIsSet(prior, req);
      NewRowIsHeld(run, w.generation, 0);
    }
  }

  lemma ActorIsSet(prior: Option<Assignment>, req: AtomicRequest)
    requires WellKeyed(prior, req)
    ensures ActorFor(prior, req) != ""
  {
  }

  // Recording the intent leads to the claim.
  lemma RecordPhase(start: Config, w: World, k: nat, run: Run, row: Option<Assignment>, recorded: Assignment)
    requires start.step == 0 && At(Steps(start, w, k), run, row) && Steps(start, w, k).step == k && run.pc == RecordIntent
    requires IntentRecorded(row, PersistedRequest(run), run.actor, w.generation) == Ok(recorded) && Held(run, recorded)
    ensures Stands(start, w, k + 1, run.(pc := CheckClaim, generation := recorded.generation), recorded)
  {
    hide Steps, MatchesIntent, IntentRecorded, StepOnRow;
    var later := run.(generation := recorded.generation);
    Onward(start, w, k, run, row, Goto(later, CheckClaim, Some(recorded)));
  }

  // ---------- Taking over ----------

  lemma ReleaseSteps(run: Run, row: Assignment, w: World, now: Time)
    ensures var local := ExecStep(run, false, Some(row), w.ans, now, w.delivered, w.generation);
            && (run.pc == BeginRelease ==> local == BeginReleaseStep(run, row, w.ans))
            && (run.pc == CallRelease ==> local == CallReleaseStep(run, row, w.ans))
            && (run.pc.SettleRelease? ==> local == SettleReleaseStep(run, row, run.pc.released))
  {
    hide BeginReleaseStep, CallReleaseStep, SettleReleaseStep, LoadStep, RecordIntentStep, StepOnRow;
  }

  // The first step of a takeover: the row is released already, its release may be called for, or the takeover fails.
  lemma TakeoverBegins(run: Run, row: Assignment, ans: Answers)
    requires TakesOver(row, run.req) && row.claim.actor != ""
    ensures var local := BeginReleaseStep(run, row, ans);
            && local.run == run.(pc := local.run.pc)
            && if row.clear.state.ClearStateLeasesReleased? then
                 local.row == Some(row)
                     && if !HasUnresolvedReservation(row) then local.run.pc == RecordIntent
                        else local.run.pc.Finished? && local.run.pc.outcome.Failed?
               else if run.ports.releaser && run.ports.replaceAuth
                       && ans.replaceOwner == Some((TrackerInProgress, row.claim.actor))
                       && (row.clear.state.ClearStateNone? ==> row.outbox.eventID == "") then
                 && local.run.pc == CallRelease
                 && local.row == Some(row.(clear := row.clear.(state := ClearStateReservationReleasing)))
               else local.run.pc.Finished? && local.run.pc.outcome.Failed? && local.row == Some(row)
  {
    hide HasUnresolvedReservation;
  }

  // The row once its release is recorded.
  function AfterRelease(row: Assignment): Assignment {
    row.(clear := row.clear.(state := ClearStateLeasesReleased), reservation := NoLeases(row.reservation))
  }

  lemma ReleaseSettles(run: Run, row: Assignment, ans: Answers)
    requires TakesOver(row, run.req) && row.clear.state.ClearStateReservationReleasing?
    ensures var called := CallReleaseStep(run, row, ans);
            && called.run == run.(pc := SettleRelease(ans.release.ReleaseReported?
                                                      && NamesAll(row, ans.release.paths, ans.release.ids)))
            && called.row == Some(row)
            && var settled := SettleReleaseStep(called.run, row, called.run.pc.released);
               && settled.run == run.(pc := settled.run.pc) && settled.row.Some?
               && if called.run.pc.released then settled.run.pc == RecordIntent && settled.row == Some(AfterRelease(row))
                  else settled.run.pc.Finished? && settled.run.pc.outcome.Failed?
  {
    hide ValidReleaseReceipt, NamesAll;
    if ans.release.ReleaseReported? {
      ReceiptNamesAll(row, ans.release.paths, ans.release.ids);
    }
  }

  lemma ReleasePhase(start: Config, w: World, run: Run, row: Assignment) returns (j: nat, after: Assignment)
    requires start.step == 0 && At(Steps(start, w, 1), run, Some(row)) && Steps(start, w, 1).step == 1
    requires run.pc == BeginRelease && TakesOver(row, run.req) && row.claim.actor != ""
    ensures if Released(row, run.ports, w.ans)
            then
              && j == (if row.clear.state.ClearStateLeasesReleased? then 2 else 4)
              && At(Steps(start, w, j), run.(pc := RecordIntent), Some(after)) && Steps(start, w, j).step == j
              && after == (if row.clear.state.ClearStateLeasesReleased? then row else AfterRelease(row))
            else OverUnsent(start, w, j)
  {
    hide Steps, ExecStep, BeginReleaseStep, CallReleaseStep, SettleReleaseStep, HasUnresolvedReservation, NamesAll,
      AfterRelease;
    ReleaseSteps(run, row, w, w.times(1));
    TakeoverBegins(run, row, w.ans);
    var local := BeginReleaseStep(run, row, w.ans);
    Onward(start, w, 1, run, Some(row), local);
    j, after := 2, row;
    if local.run.pc == CallRelease {
      var releasing := local.row.value;
      ReleaseSteps(local.run, releasing, w, w.times(2));
      ReleaseSettles(local.run, releasing, w.ans);
      NamesAllOf(row, releasing, w.ans);
      var called := CallReleaseStep(local.run, releasing, w.ans);
      Onward(start, w, 2, local.run, Some(releasing), called);
      ReleaseSteps(called.run, releasing, w, w.times(3));
      var settled := SettleReleaseStep(called.run, releasing, called.run.pc.released);
      Onward(start, w, 3, called.run, Some(releasing), settled);
      j, after := 4, settled.row.value;
      ReleasedOf(row, releasing);
    }
  }

  lemma NamesAllOf(row: Assignment, releasing: Assignment, ans: Answers)
    requires releasing == row.(clear := releasing.clear)
    ensures ans.release.ReleaseReported? ==>
              (NamesAll(releasing, ans.release.paths, ans.release.ids) <==> NamesAll(row, ans.release.paths, ans.release.ids))
  {
  }

  lemma ReleasedOf(row: Assignment, releasing: Assignment)
    requires releasing == row.(clear := row.clear.(state := ClearStateReservationReleasing))
    ensures AfterRelease(releasing) == AfterRelease(row)
  {
  }

  lemma TakeoverFits(row: Assignment, after: Assignment, req: AtomicRequest, ports: Ports, w: World)
    requires WellKeyed(Some(row), req) && req.beadID != "" && TakesOver(row, req) && Released(row, ports, w.ans)
    requires after == if row.clear.state.ClearStateLeasesReleased? then row else AfterRelease(row)
    ensures var run := StartedRun(Some(row), req, ports, w.ans, RecordIntent);
            var r := IntentRecorded(Some(after), PersistedRequest(run), run.actor, w.generation);
            r.Ok? && Held(run, r.value) && SameNeeds(StartedRow(Some(row), req, ports, w), r.value)
  {
    hide Delivered, Durable, DurableTitle, NamesAll;
    var run := StartedRun(Some(row), req, ports, w.ans, RecordIntent);
    NewRowIsHeld(run, w.generation, row.retryCount);
  }

  // ---------- The whole course ----------

  // From the claim on.
  lemma Rest(start: Config, w: World, k: nat, run: Run, row: Assignment) returns (j: nat)
    requires Stands(start, w, k, run, row) && run.pc == CheckClaim
    ensures Steps(start, w, j).run.pc.Finished?
    ensures Steps(start, w, j).run.pc.outcome.Sent? <==>
              && ClaimObtained(row, run, w.ans) && LeaseObtained(row, run, w, k + ClaimLength(row, run, w.ans))
              && w.ans.dispatch.DispatchReceived? && w.ans.dispatch.receiptID != ""
  {
    hide Steps, Stands, ClaimObtained, LeaseObtained, ClaimLength;
    var after, at;
    j, after := ClaimPhase(start, w, k, run, row);
    if ClaimObtained(row, run, w.ans) {
      LeaseByReservation(row, after, run, w, j);
      j, after, at := LeasePhase(start, w, j, run.(pc := CheckReservation), after);
      if LeaseObtained(row, run, w, k + ClaimLength(row, run, w.ans)) {
        SendPhase(start, w, j, run.(pc := StartDispatch(at)), after);
        j := j + 3;
      }
    }
  }

  lemma LeaseByReservation(row: Assignment, after: Assignment, run: Run, w: World, k: nat)
    requires after.reservation == row.reservation
    ensures LeaseObtained(after, run.(pc := CheckReservation), w, k) == LeaseObtained(row, run, w, k)
  {
    hide GoodLease;
  }

  // Up to the claim.
  lemma StartPhase(start: Config, w: World, req: AtomicRequest, ports: Ports)
    returns (j: nat, recorded: Option<Assignment>)
    requires Begins(start, req, ports)
    ensures var prior := Lookup(start.ledger, req.beadID);
            if !OccupancyBlocked(start.ledger, req.beadID, req.occupancyKey) && MayStart(prior, req, ports, w.ans, w.times(0))
               && (prior.Some? && TakesOver(prior.value, req) ==> Released(prior.value, ports, w.ans))
            then
              && recorded.Some? && j == StartLength(prior, req)
              && SameNeeds(StartedRow(prior, req, ports, w), recorded.value)
              && Stands(start, w, j, StartedRun(prior, req, ports, w.ans, CheckClaim)
                                       .(generation := recorded.value.generation), recorded.value)
            else recorded.None? && OverUnsent(start, w, j)
  {
    hide Steps, MayStart, OccupancyBlocked, Delivered, Durable, DurableTitle, StableClaimActor, TakesOver, Released,
      Held, IntentRecorded, SameNeeds, NewRow, StartedRow, OverUnsent;
    var prior := Lookup(start.ledger, req.beadID);
    LoadPhase(start, w, req, ports);
    j, recorded := 1, None;
    if !OccupancyBlocked(start.ledger, req.beadID, req.occupancyKey) && MayStart(prior, req, ports, w.ans, w.times(0)) {
      if prior.Some? && TakesOver(prior.value, req) {
        TakesOverStill(prior.value, req, ports, w.ans);
        j, recorded := TakeoverEnds(start, w, req, ports, prior.value);
      } else {
        var run := StartedRun(prior, req, ports, w.ans, RecordIntent);
        IntentFits(prior, req, ports, w);
        recorded := Some(IntentRecorded(prior, PersistedRequest(run), run.actor, w.generation).value);
        RecordPhase(start, w, 1, run, prior, recorded.value);
        j := 2;
      }
    }
  }

  /** Every call comes to an end, and it ends as sent exactly when it gets all it needs. */
  lemma CallEnds(start: Config, w: World, req: AtomicRequest, ports: Ports) returns (j: nat)
    requires Begins(start, req, ports)
    ensures Steps(start, w, j).run.pc.Finished?
    ensures Steps(start, w, j).run.pc.outcome.Sent? <==> Succeeds(start.ledger, req, ports, w)
  {
    hide Steps, MayStart, OccupancyBlocked, Delivered, Durable, DurableTitle, TakesOver, Released, Stands, ActorFor,
      ClaimObtained, LeaseObtained, ClaimLength, StartLength, SameNeeds, StartedRow;
    var prior, recorded := Lookup(start.ledger, req.beadID), None;
    j, recorded := StartPhase(start, w, req, ports);
    if recorded.Some? {
      var later := StartedRun(prior, req, ports, w.ans, CheckClaim).(generation := recorded.value.generation);
      var row := StartedRow(prior, req, ports, w);
      NeedsOfRun(row, StartedRun(prior, req, ports, w.ans, Load), later, w, j + ClaimLength(row, later, w.ans));
      NeedsAgree(row, recorded.value, later, w, j + ClaimLength(row, later, w.ans));
      j := Rest(start, w, j, later, recorded.value);
    }
  }

  lemma TakesOverStill(row: Assignment, req: AtomicRequest, ports: Ports, ans: Answers)
    requires TakesOver(row, req)
    ensures TakesOver(row, StartedRun(Some(row), req, ports, ans, BeginRelease).req)
  {
    hide Delivered, Durable, DurableTitle;
  }

  // A takeover up to the claim.
  lemma TakeoverEnds(start: Config, w: World, req: AtomicRequest, ports: Ports, row: Assignment)
    returns (j: nat, recorded: Option<Assignment>)
    requires start.step == 0 && WellKeyed(Some(row), req) && req.beadID != "" && TakesOver(row, req)
    requires At(Steps(start, w, 1), StartedRun(Some(row), req, ports, w.ans, BeginRelease), Some(row))
             && Steps(start, w, 1).step == 1
    ensures if Released(row, ports, w.ans)
            then
              && recorded.Some? && j == StartLength(Some(row), req)
              && SameNeeds(StartedRow(Some(row), req, ports, w), recorded.value)
              && Stands(start, w, j, StartedRun(Some(row), req, ports, w.ans, CheckClaim)
                                       .(generation := recorded.value.generation), recorded.value)
            else recorded.None? && OverUnsent(start, w, j)
  {
    hide Steps, Delivered, Durable, DurableTitle, Released, Held, IntentRecorded, SameNeeds, NewRow, StartedRow;
    TakesOverStill(row, req, ports, w.ans);
    recorded := None;
    var after;
    j, after := ReleasePhase(start, w, StartedRun(Some(row), req, ports, w.ans, BeginRelease), row);
    if Released(row, ports, w.ans) {
      TakeoverFits(row, after, req, ports, w);
      var run := StartedRun(Some(row), req, ports, w.ans, RecordIntent);
      recorded := Some(IntentRecorded(Some(after), PersistedRequest(run), run.actor, w.generation).value);
      RecordPhase(start, w, j, run, Some(after), recorded.value);
      j := j + 1;
    }
  }

  // A finished call stays as it is.
  lemma {:induction false} FinishedForGood(start: Config, w: World, i: nat, j: nat)
    requires start.step == 0 && Steps(start, w, i).run.pc.Finished? && i <= j
    ensures Steps(start, w, j).run == Steps(start, w, i).run
    decreases j
  {
    hide ExecStep;
    if i < j {
      FinishedForGood(start, w, i, j - 1);
      var c := Steps(start, w, j - 1);
      FinishedStays(c.run, OccupancyBlocked(c.ledger, c.run.req.beadID, c.run.req.occupancyKey),
                    Lookup(c.ledger, c.run.req.beadID), w.ans, w.times(c.step), w.delivered, w.generation);
    }
  }

  lemma FinishedStays(run: Run, blocked: bool, row: Option<Assignment>, ans: Answers, now: Time, delivered: bool, n: nat)
    requires run.pc.Finished?
    ensures ExecStep(run, blocked, row, ans, now, delivered, n) == Local(run, row, None)
  {
  }

  /** So wherever a call has ended, it has sent exactly when the attempt got all it needs. */
  lemma SendsExactlyWhen(start: Config, w: World, req: AtomicRequest, ports: Ports, j: nat)
    requires Begins(start, req, ports) && Steps(start, w, j).run.pc.Finished?
    ensures Steps(start, w, j).run.pc.outcome.Sent? <==> Succeeds(start.ledger, req, ports, w)
  {
    hide Steps, Succeeds;
    var k := CallEnds(start, w, req, ports);
    if k <= j {
      FinishedForGood(start, w, k, j);
    } else {
      FinishedForGood(start, w, j, k);
    }
  }
}
