/**
 AtomicCoordinator.Execute as a machine that takes one durable write or one port
 call at a time, so that a crash may fall between any two of them.
 */
module AtomicMachine {
  import opened Wrappers
  import opened AssignmentTypes
  import opened AssignmentPolicy
  import opened AssignmentTransitions

  // Where a run of Execute stands. `Settle...` holds a port answer not yet recorded.
  datatype Pc =
    | WaitCleanup | WaitBead | WaitTarget
    | Load
    | BeginRelease | CallRelease | SettleRelease(released: bool)
    | RecordIntent
    | CheckClaim | InspectClaim | SettleClaimInspection(claimFound: ClaimInspection)
    | StartClaim | CallClaim | SettleClaim(claimAnswer: ClaimAnswer)
    | CheckReservation | CheckExpiry(validatedAt: Time)
    | InspectReservation | SettleReserveInspection(leaseFound: ReserveInspection)
    | StartReservation | CallReserve | SettleReserve(reserveAnswer: ReserveAnswer)
    | StartDispatch(validatedAt: Time) | CallDispatch(validatedAt: Time) | SettleDispatch(dispatchAnswer: DispatchAnswer)
    | Finished(outcome: Outcome)

  datatype Run = Run(
    pc: Pc,
    req: AtomicRequest,
    ports: Ports,
    durablePrompt: string,
    actor: string,
    generation: nat)

  /** What the outside world saw, and the one durable fact that licenses a second dispatch. `ReserveReturned` names
      leases besides any named before, `ReservationInspected` all there are; `required` is whether the generation's
      reservation was. `LeasesListed` is what a cleaner's listing still shows, `ReleaseConfirmed` what is proved gone. */
  datatype Event =
    | ReserveReturned(generation: nat, required: bool, lease: LeaseReceipt)
    | ReservationInspected(generation: nat, required: bool, lease: LeaseReceipt)
    | LeasesListed(generation: nat, paths: set<string>, ids: set<int>)
    | ReleaseConfirmed(generation: nat, paths: set<string>, ids: set<int>)
    | DispatchCalled(generation: nat, delivered: bool, message: Message, answer: DispatchAnswer)
    | NoActuationRecorded(generation: nat)

  // A step's outcome: the run, the bead's durable row, and the event the step caused, if any.
  datatype Local = Local(run: Run, row: Option<Assignment>, event: Option<Event>)

  function Goto(run: Run, pc: Pc, row: Option<Assignment>): Local {
    Local(run.(pc := pc), row, None)
  }

  function Fail(run: Run, error: Error, row: Option<Assignment>): Local {
    Goto(run, Finished(Failed(error)), row)
  }

  function PersistedRequest(run: Run): AtomicRequest {
    run.req.(prompt := run.durablePrompt)
  }

  // ---------- Reading the ledger and deciding ----------

  function LoadStep(run: Run, blocked: bool, row: Option<Assignment>, ans: Answers, now: Time): Local {
    if blocked then Fail(run, ErrTargetOccupied, row)
    else match Decide(row, run.req, run.ports, ans, now)
      case Stop(error) => Fail(run, error, row)
      case Replay(receiptID) => Goto(run, Finished(Replayed(receiptID)), row)
      case Go(req, durablePrompt, actor, replacementStart) =>
        Goto(run.(req := req, durablePrompt := durablePrompt, actor := actor),
             if replacementStart then BeginRelease else RecordIntent, row)
  }

  // ---------- Releasing a working generation before it is replaced ----------

  function BeginReleaseStep(run: Run, row: Assignment, ans: Answers): Local {
    if !ReplacementCandidate(row, run.req) then Fail(run, ErrWorkingReplacementNotAllowed, Some(row))
    else if row.clear.state.ClearStateLeasesReleased? then
      if ReplacementReady(row, run.req) then Goto(run, RecordIntent, Some(row))
      else Fail(run, ErrWorkingReplacementNotAllowed, Some(row))
    else if !run.ports.releaser || !run.ports.replaceAuth || row.claim.actor == ""
            || ans.replaceOwner != Some((TrackerInProgress, row.claim.actor)) then
      Fail(run, ErrWorkingReplacementNotAllowed, Some(row))
    else if row.clear.state.ClearStateReservationReleasing? then Goto(run, CallRelease, Some(row))
    else match BeginClear(row, {StatusWorking})
      case Ok(clearing) => Goto(run, CallRelease, Some(clearing))
      case Err(error) => Fail(run, error, Some(row))
  }

  function CallReleaseStep(run: Run, row: Assignment, ans: Answers): Local {
    if ans.release.ReleaseReported? && ValidReleaseReceipt(row, ans.release.paths, ans.release.ids) then
      Local(run.(pc := SettleRelease(true)), Some(row),
            Some(ReleaseConfirmed(row.generation, Elements(ans.release.paths), Elements(ans.release.ids))))
    else Goto(run, SettleRelease(false), Some(row))
  }

  function SettleReleaseStep(run: Run, row: Assignment, released: bool): Local {
    if !released then Fail(run, ErrOther, Some(row))
    else match LeasesReleased(row)
      case Err(error) => Fail(run, error, Some(row))
      case Ok(cleared) =>
        if ReplacementReady(cleared, run.req) then Goto(run, RecordIntent, Some(cleared))
        else Fail(run, ErrWorkingReplacementNotAllowed, Some(cleared))
  }

  // ---------- Intent and claim ----------

  function RecordIntentStep(run: Run, row: Option<Assignment>, generation: nat): Local {
    match IntentRecorded(row, PersistedRequest(run), run.actor, generation)
    case Err(error) => Fail(run, error, row)
    case Ok(recorded) => Goto(run.(generation := recorded.generation), CheckClaim, Some(recorded))
  }

  function CheckClaimStep(run: Run, row: Assignment): Local {
    match EffectiveClaimState(row)
    case ClaimClaimed =>
      if ValidClaimReceipt(ClaimFromAssignment(row), run.req.beadID, run.actor) then Goto(run, CheckReservation, Some(row))
      else Fail(run, ErrClaimOutcomeUnknown, Some(row))
    case ClaimFailed => Fail(run, ErrClaimConflict, Some(row))
    case ClaimIneligible => Fail(run, ErrClaimIneligible, Some(row))
    case ClaimClaiming => Goto(run, if run.ports.claimReconciler then InspectClaim else StartClaim, Some(row))
    case ClaimUnknown => Goto(run, if run.ports.claimReconciler then InspectClaim else StartClaim, Some(row))
    case _ => Goto(run, StartClaim, Some(row))
  }

  function RefuseClaim(run: Run, row: Assignment, error: Error): Local {
    Fail(run, error, Some(ClaimUncertain(row, error)))
  }

  // A claim receipt, whether fresh or found by inspection, becomes durable only when it is valid.
  function AcceptClaim(run: Run, row: Assignment, receipt: ClaimReceipt): Local {
    if !ValidClaimReceipt(receipt, run.req.beadID, run.actor) then RefuseClaim(run, row, ErrClaimOutcomeUnknown)
    else match Claimed(row, PersistedRequest(run), receipt)
      case Err(error) => Fail(run, error, Some(row))
      case Ok(claimed) => Goto(run, CheckReservation, Some(claimed))
  }

  function SettleClaimInspectionStep(run: Run, row: Assignment, found: ClaimInspection): Local {
    match found
    case ClaimInspectionFailed => RefuseClaim(run, row, ErrClaimOutcomeUnknown)
    case ClaimInspectedOwned(receipt) => AcceptClaim(run, row, receipt)
    case ClaimInspectedConflict => RefuseClaim(run, row, ErrClaimConflict)
    case ClaimInspectedAbsent => Goto(run, StartClaim, Some(row))
    case ClaimInspectedUnknown => RefuseClaim(run, row, ErrClaimOutcomeUnknown)
  }

  function SettleClaimStep(run: Run, row: Assignment, answer: ClaimAnswer): Local {
    match answer
    case ClaimRefused(error) => RefuseClaim(run, row, error)
    case ClaimReceived(receipt) => AcceptClaim(run, row, receipt)
  }

  // ---------- Reservation ----------

  // Records a lease whose receipt was just checked, and goes on only when it is valid.
  function SettleLease(run: Run, row: Assignment, lease: LeaseReceipt, now: Time): Local {
    var valid := ValidLease(run.req, lease, now);
    var (state, fault) := ClassifyValidatedReservation(lease, valid);
    var recorded := Some(ReservationRecorded(row, state, lease, fault));
    if valid then Goto(run, StartDispatch(now), recorded) else Fail(run, FaultError(fault), recorded)
  }

  function FaultError(fault: Option<ReservationFault>): Error {
    if fault == Some(FaultReleaseRequired) then ErrReservationReleaseRequired
    else if fault == Some(FaultPlain) then ErrReservationOutcomeUnknown
    else ErrOther
  }

  function CheckReservationStep(run: Run, row: Assignment, now: Time): Local {
    match EffectiveReservationState(row)
    case ReservationReserved =>
      if row.reservation.failed then Fail(run, ErrReservationReleaseRequired, Some(row))
      else if ValidLease(run.req, row.reservation.lease, now) then Goto(run, CheckExpiry(now), Some(row))
      else SettleLease(run, row, row.reservation.lease, now)
    case ReservationReserving => AmbiguousReservation(run, row)
    case ReservationUnknown => AmbiguousReservation(run, row)
    case _ => Goto(run, StartReservation, Some(row))
  }

  function AmbiguousReservation(run: Run, row: Assignment): Local {
    if run.ports.reserver && run.ports.reservationReconciler then Goto(run, InspectReservation, Some(row))
    else Fail(run, ErrReservationOutcomeUnknown, Some(row))
  }

  function CheckExpiryStep(run: Run, row: Assignment, validatedAt: Time, now: Time): Local {
    Goto(run, if ReservationExpired(row, now) then StartReservation else StartDispatch(validatedAt), Some(row))
  }

  function InspectReservationStep(run: Run, row: Option<Assignment>, ans: Answers): Local {
    var next, required := run.(pc := SettleReserveInspection(ans.reserveInspection)), run.req.requireReservation;
    match ans.reserveInspection
    case ReserveInspectedReserved(lease) => Local(next, row, Some(ReservationInspected(run.generation, required, lease)))
    case ReserveInspectedAbsent => Local(next, row, Some(ReservationInspected(run.generation, required, NO_LEASE)))
    // An answer that leaves the outcome open may be partial: it supersedes nothing.
    case ReserveInspectedUnknown(lease) => Local(next, row, Some(ReserveReturned(run.generation, required, lease)))
    case ReserveInspectionFailed => Local(next, row, None)
  }

  function SettleReserveInspectionStep(run: Run, row: Assignment, found: ReserveInspection, now: Time): Local {
    match found
    case ReserveInspectionFailed =>
      Fail(run, ErrReservationOutcomeUnknown,
           Some(ReservationRecorded(row, ReservationUnknown, row.reservation.lease, Some(FaultPlain))))
    case ReserveInspectedReserved(lease) => SettleLease(run, row, lease, now)
    case ReserveInspectedAbsent =>
      Goto(run, StartReservation, Some(ReservationRecorded(row, ReservationFailed, NO_LEASE, None)))
    case ReserveInspectedUnknown(lease) =>
      var known := if LeaseHasHandles(lease) then lease else row.reservation.lease;
      Fail(run, ErrReservationOutcomeUnknown,
           Some(ReservationRecorded(row, ReservationUnknown, known, Some(FaultPlain))))
  }

  function StartReservationStep(run: Run, row: Assignment, now: Time): Local {
    if run.ports.reserver then Goto(run, CallReserve, Some(ReservationStarted(row)))
    else if run.req.requireReservation then Fail(run, ErrReservationRequired, Some(row))
    else Goto(run, StartDispatch(now), Some(row))
  }

  function CallReserveStep(run: Run, row: Option<Assignment>, ans: Answers): Local {
    Local(run.(pc := SettleReserve(ans.reserve)), row,
          Some(ReserveReturned(run.generation, run.req.requireReservation, ans.reserve.lease)))
  }

  function SettleReserveStep(run: Run, row: Assignment, answer: ReserveAnswer, now: Time): Local {
    match answer
    case ReserveGranted(lease) => SettleLease(run, row, lease, now)
    case ReserveFailed(lease, fault) =>
      var (state, error) := ClassifyReservationFailure(lease, fault);
      Fail(run, FaultError(Some(error)), Some(ReservationRecorded(row, state, lease, Some(error))))
  }

  // ---------- Dispatch ----------

  function StartDispatchStep(run: Run, row: Assignment, validatedAt: Time): Local {
    match DispatchStarted(row)
    case Err(error) => Fail(run, error, Some(row))
    case Ok(sending) => Goto(run, CallDispatch(validatedAt), Some(sending))
  }

  function MessageFor(req: AtomicRequest): Message {
    Message(req.beadID, req.beadTitle, req.target, req.agentType, req.agentName, req.prompt, req.idempotencyKey)
  }

  function CallDispatchStep(run: Run, row: Assignment, ans: Answers, delivered: bool): Local {
    Local(run.(pc := SettleDispatch(ans.dispatch)), Some(row),
          Some(DispatchCalled(run.generation, delivered, MessageFor(run.req), ans.dispatch)))
  }

  function SettleDispatchStep(run: Run, row: Assignment, answer: DispatchAnswer): Local {
    match answer
    case DispatchNotActuated =>
      Local(run.(pc := Finished(Failed(ErrDispatchFailed))), Some(DispatchFailed(row)),
          Some(NoActuationRecorded(run.generation)))
    case DispatchErrored => Fail(run, ErrDispatchOutcomeUnknown, Some(row))
    case DispatchReceived(receiptID) =>
      if receiptID == "" then Fail(run, ErrDispatchOutcomeUnknown, Some(row))
      else Goto(run, Finished(Sent(receiptID)), Some(DispatchDelivered(row, run.durablePrompt, receiptID)))
  }

  // ---------- One step ----------

  // Every ledger method after the intent first checks that the key still owns the row.
  function StepOnRow(run: Run, row: Assignment, ans: Answers, now: Time, delivered: bool): Local {
    match run.pc
    case CheckClaim => CheckClaimStep(run, row)
    case InspectClaim => Goto(run, SettleClaimInspection(ans.claimInspection), Some(row))
    case SettleClaimInspection(found) => SettleClaimInspectionStep(run, row, found)
    case StartClaim => Goto(run, CallClaim, Some(ClaimStarted(row)))
    case CallClaim => Goto(run, SettleClaim(ans.claim), Some(row))
    case SettleClaim(answer) => SettleClaimStep(run, row, answer)
    case CheckReservation => CheckReservationStep(run, row, now)
    case CheckExpiry(validatedAt) => CheckExpiryStep(run, row, validatedAt, now)
    case InspectReservation => InspectReservationStep(run, Some(row), ans)
    case SettleReserveInspection(found) => SettleReserveInspectionStep(run, row, found, now)
    case StartReservation => StartReservationStep(run, row, now)
    case CallReserve => CallReserveStep(run, Some(row), ans)
    case SettleReserve(answer) => SettleReserveStep(run, row, answer, now)
    case StartDispatch(validatedAt) => StartDispatchStep(run, row, validatedAt)
    case CallDispatch(_) => CallDispatchStep(run, row, ans, delivered)
    case SettleDispatch(answer) => SettleDispatchStep(run, row, answer)
    case _ => Local(run, Some(row), None)
  }

  /** One step of a run that holds its locks. `delivered` is whether a dispatch call made in this
      step really reached the pane; `generation` labels the row if this step creates one. */
  function ExecStep(run: Run, blocked: bool, row: Option<Assignment>, ans: Answers, now: Time,
                    delivered: bool, generation: nat): Local {
    match run.pc
    case Load => LoadStep(run, blocked, row, ans, now)
    case RecordIntent => RecordIntentStep(run, row, generation)
    case BeginRelease =>
      if row.None? then Fail(run, ErrWorkingReplacementNotAllowed, row) else BeginReleaseStep(run, row.value, ans)
    case CallRelease =>
      if row.None? then Goto(run, SettleRelease(false), row) else CallReleaseStep(run, row.value, ans)
    case SettleRelease(released) =>
      if row.None? then Fail(run, ErrAssignmentMissing, row) else SettleReleaseStep(run, row.value, released)
    case Finished(_) => Local(run, row, None)
    case _ =>
      if row.None? then Fail(run, ErrAssignmentMissing, row)
      else if row.value.intent.idempotencyKey != run.req.idempotencyKey then Fail(run, ErrClaimConflict, row)
      else StepOnRow(run, row.value, ans, now, delivered)
  }
}
