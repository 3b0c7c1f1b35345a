/**
 What every guarded ledger operation does to one row: the specification that the
 methods of AssignmentStore meet and that the protocol machine steps by.
 `Err` leaves the durable row alone.
 */
module AssignmentTransitions {
  import opened Wrappers
  import opened AssignmentTypes
  import opened AssignmentPolicy

  type RowResult = Result<Assignment, Error>

  // ---------- Atomic intent, claim, reservation, dispatch (atomic.go) ----------

  function NewRow(req: AtomicRequest, actor: string, generation: nat, retryCount: nat): Assignment {
    Assignment(
      generation,
      Intent(req.beadID, req.beadTitle, req.agentType, req.agentName, req.idempotencyKey, req.target,
             NormalizeOccupancyKey(req.target, req.occupancyKey), PromptSHA256(req.prompt), req.intentSHA256,
             req.requireReservation, req.allowReservationDiscovery, req.requestedPaths),
      StatusClaiming, "", retryCount,
      Claim(actor, ClaimPending, TrackerUnset, 0, None, true),
      Reservation(ReservationPending, 0, false, NO_LEASE, false),
      Dispatch(DispatchPending, 0, req.prompt, "", ""),
      NO_CLEAR, NO_EVENT)
  }

  function IntentRecorded(existing: Option<Assignment>, req: AtomicRequest, actor: string, generation: nat): RowResult {
    match existing
    case None =>
      if req.replaceWorkingAssignment then Err(ErrWorkingReplacementNotAllowed)
      else Ok(NewRow(req, actor, generation, 0))
    case Some(row) =>
      var sameKey := row.intent.idempotencyKey == req.idempotencyKey;
      var replacementStart := req.replaceWorkingAssignment && !sameKey;
      if IsTerminal(row.status) && !sameKey && row.outbox.eventID != "" then Err(ErrCompletionEventPending)
      else if replacementStart then
        if !ReplacementReady(row, req) || row.claim.actor == "" then Err(ErrWorkingReplacementNotAllowed)
        else if actor != row.claim.actor then Err(ErrClaimConflict)
        else Ok(NewRow(req, actor, generation, row.retryCount))
      else if row.clear.state != ClearStateNone then Err(ErrClaimConflict)
      else if row.intent.idempotencyKey != "" && !sameKey && IsLive(row.status) then Err(ErrClaimConflict)
      else if row.intent.idempotencyKey != "" && !sameKey && IsTerminal(row.status) && HasUnresolvedReservation(row) then
        Err(ErrReservationReleaseRequired)
      else if sameKey then
        if row.claim.actor != "" && row.claim.actor != actor then Err(ErrClaimConflict)
        else if !MatchesIntent(row, req) then Err(ErrIntentMismatch)
        else Ok(row.(claim := row.claim.(requiresNonTerminal := true)))
      else Ok(NewRow(req, actor, generation, 0))
  }

  function ClaimStarted(row: Assignment): Assignment {
    if EffectiveClaimState(row).ClaimClaimed? then row
    else row.(status := StatusClaiming, claim := row.claim.(state := ClaimClaiming, attempts := row.claim.attempts + 1))
  }

  function Claimed(row: Assignment, req: AtomicRequest, claim: ClaimReceipt): RowResult {
    if row.intent.idempotencyKey != req.idempotencyKey then Err(ErrClaimConflict)
    else if row.claim.actor != "" && row.claim.actor != claim.actor then Err(ErrClaimConflict)
    else if !MatchesIntent(row, req) then Err(ErrIntentMismatch)
    else Ok(row.(status := StatusClaimed,
                 claim := row.claim.(actor := claim.actor, state := ClaimClaimed, status := claim.status,
                                     claimedAt := claim.claimedAt)))
  }

  function ClaimUncertain(row: Assignment, error: Error): Assignment {
    match error
    case ErrClaimIneligible => row.(claim := row.claim.(state := ClaimIneligible), status := StatusFailed)
    case ErrClaimConflict => row.(claim := row.claim.(state := ClaimFailed), status := StatusFailed)
    case _ => row.(claim := row.claim.(state := ClaimUnknown))
  }

  function ReservationStarted(row: Assignment): Assignment {
    row.(reservation := row.reservation.(state := ReservationReserving, attempts := row.reservation.attempts + 1,
                                         failed := false))
  }

  // The state and error actually stored for an outcome the caller classified as (state, fault).
  function SettleReservation(state: ReservationState, lease: LeaseReceipt, fault: Option<ReservationFault>)
    : (ReservationState, Option<ReservationFault>)
  {
    if state.ReservationFailed? && LeaseHasHandles(lease) then (ReservationReserved, Some(FaultReleaseRequired))
    else if state.ReservationReserved? && fault.Some? then
      if LeaseHasHandles(lease) || fault.value.FaultReleaseRequired? then (ReservationReserved, Some(FaultReleaseRequired))
      else (ReservationFailed, Some(FaultGuaranteedNone))
    else if state.ReservationUnknown? && fault.None? then (ReservationUnknown, Some(FaultPlain))
    else (state, fault)
  }

  function ReservationRecorded(row: Assignment, state: ReservationState, lease: LeaseReceipt,
      fault: Option<ReservationFault>): Assignment {
    var (settled, error) := SettleReservation(state, lease, fault);
    row.(reservation := row.reservation.(state := settled, lease := lease,
                                         completed := settled.ReservationReserved? && error.None?,
                                         failed := error.Some?))
  }

  function DispatchStarted(row: Assignment): RowResult {
    if row.dispatch.state.DispatchSent? then Ok(row)
    else if row.dispatch.state.DispatchSending? then Err(ErrDispatchOutcomeUnknown)
    else Ok(row.(dispatch := row.dispatch.(state := DispatchSending, attempts := row.dispatch.attempts + 1)))
  }

  function DispatchFailed(row: Assignment): Assignment {
    row.(dispatch := row.dispatch.(state := DispatchPending))
  }

  function DispatchDelivered(row: Assignment, prompt: string, receiptID: string): Assignment {
    row.(status := StatusAssigned,
         dispatch := row.dispatch.(promptSent := prompt, pendingPrompt := "", state := DispatchSent, receiptID := receiptID))
  }

  // ---------- Guarded lifecycle transitions (store.go) ----------

  predicate ValidTransition(from: AssignmentStatus, to: AssignmentStatus) {
    match from
    case StatusClaimed => to.StatusAssigned? || to.StatusFailed?
    case StatusAssigned => to.StatusWorking? || to.StatusCompleted? || to.StatusFailed?
    case StatusWorking => to.StatusCompleted? || to.StatusFailed? || to.StatusReassigned?
    case StatusFailed => to.StatusAssigned?
    case _ => false
  }

  function Transition(row: Assignment, observed: Assignment, to: AssignmentStatus, reason: string): RowResult {
    if !SameGeneration(observed, row) || row.clear.state != ClearStateNone || !ValidTransition(row.status, to) then
      Err(ErrAssignmentStatusMismatch)
    else match to
      case StatusWorking => Ok(row.(status := to))
      case StatusCompleted => Ok(row.(status := to))
      case StatusFailed => Ok(row.(status := to, failReason := reason))
      case _ => Err(ErrOther)
  }

  // ---------- Clear protocol ----------

  function BeginClear(row: Assignment, expected: set<AssignmentStatus>): RowResult {
    if expected != {} && row.status !in expected then Err(ErrAssignmentStatusMismatch)
    else if row.dispatch.state.DispatchSending? then Err(ErrDispatchOutcomeUnknown)
    else if row.outbox.eventID != "" then Err(ErrCompletionEventPending)
    else if row.clear.state != ClearStateNone then Ok(row)
    else Ok(row.(clear := row.clear.(state := ClearStateReservationReleasing)))
  }

  function LeasesReleased(row: Assignment): RowResult {
    match row.clear.state
    case ClearStateLeasesReleased => Ok(row)
    case ClearStateNone => Err(ErrOther)
    case ClearStateReservationReleasing =>
      Ok(row.(clear := row.clear.(state := ClearStateLeasesReleased), reservation := NoLeases(row.reservation)))
  }

  function NoLeases(r: Reservation): Reservation {
    r.(state := ReservationReleased, completed := false, failed := false,
       lease := r.lease.(granted := [], reservationIDs := [], expiresAt := None))
  }

  // Whether CompleteClear may remove the row.
  predicate MayCompleteClear(row: Assignment) {
    row.outbox.eventID == "" && row.clear.state.ClearStateLeasesReleased?
  }

  // ---------- Terminal reconciliation ----------

  function StatusName(status: AssignmentStatus): string {
    match status
    case StatusClaiming => "claiming"
    case StatusClaimed => "claimed"
    case StatusAssigned => "assigned"
    case StatusWorking => "working"
    case StatusCompleted => "completed"
    case StatusFailed => "failed"
    case StatusReassigned => "reassigned"
  }

  function Decimal(n: nat): string {
    (if n < 10 then "" else Decimal(n / 10)) + ["0123456789"[n % 10]]
  }

  // A keyless attempt goes by its creation time.
  function CompletionEventID(row: Assignment, status: AssignmentStatus): string {
    var generation := if row.intent.idempotencyKey != "" then row.intent.idempotencyKey else Decimal(row.generation);
    row.intent.beadID + "/" + generation + "/" + StatusName(status)
  }

  function EnsureEvent(row: Assignment, status: AssignmentStatus, withEvent: bool, now: Time): Assignment {
    if !withEvent || row.outbox.eventID != "" then row
    else row.(outbox := Outbox(CompletionEventID(row, status), Some(now), "", None))
  }

  function BeginTerminal(row: Assignment, observed: Assignment, status: AssignmentStatus, reason: string,
                         withEvent: bool, now: Time): RowResult {
    if !status.StatusCompleted? && !status.StatusFailed? then Err(ErrOther)
    else if !SameGeneration(observed, row) then Err(ErrAssignmentStatusMismatch)
    else if row.dispatch.state.DispatchSending? then Err(ErrDispatchOutcomeUnknown)
    else if row.clear.state != ClearStateNone then
      if row.clear.pendingTerminalStatus == Some(status) && row.clear.pendingTerminalReason == reason then
        Ok(EnsureEvent(row, status, withEvent, now))
      else Err(ErrAssignmentStatusMismatch)
    else if withEvent && row.status == status then
      if status.StatusFailed? && row.failReason != reason then Err(ErrAssignmentStatusMismatch)
      else Ok(EnsureEvent(row, status, withEvent, now))
    else if !IsLive(row.status) then Err(ErrAssignmentStatusMismatch)
    else
      Ok(row.(clear := Clear(ClearStateReservationReleasing, Some(status), reason, false),
              outbox := if withEvent then Outbox(CompletionEventID(row, status), Some(now), "", None) else NO_EVENT))
  }

  function TerminalClaimReleased(row: Assignment): RowResult {
    if row.clear.pendingTerminalStatus != Some(StatusCompleted)
        && row.clear.pendingTerminalStatus != Some(StatusFailed) then Err(ErrOther)
    else if row.clear.state != ClearStateLeasesReleased then Err(ErrOther)
    else Ok(row.(clear := row.clear.(claimReleased := true)))
  }

  function CompleteTerminal(row: Assignment, status: AssignmentStatus, reason: string): RowResult {
    if !status.StatusCompleted? && !status.StatusFailed? then Err(ErrOther)
    else if row.clear.state != ClearStateLeasesReleased then Err(ErrOther)
    else if row.clear.pendingTerminalStatus != Some(status) || row.clear.pendingTerminalReason != reason then Err(ErrOther)
    else if !row.clear.claimReleased then Err(ErrOther)
    else if row.dispatch.state.DispatchSending? then Err(ErrDispatchOutcomeUnknown)
    else Ok(row.(status := status, reservation := NoLeases(row.reservation), clear := NO_CLEAR,
                 failReason := if status.StatusFailed? then reason else ""))
  }

  // ---------- Completion outbox ----------

  // Acquires or confirms the consumer lease; Err is a clean refusal as well as a failure.
  function ClaimEvent(row: Assignment, eventID: string, token: string, duration: int, now: Time): RowResult {
    if eventID == "" || token == "" || duration <= 0 || now <= 0 then Err(ErrOther)
    else if row.outbox.eventID != eventID then Err(ErrAssignmentStatusMismatch)
    else if !row.status.StatusCompleted? && !row.status.StatusFailed? then Err(ErrOther)
    else if (row.outbox.consumerToken == "") != row.outbox.leaseExpiresAt.None? then Err(ErrOther)
    else if row.outbox.consumerToken != "" && now < row.outbox.leaseExpiresAt.value then
      if row.outbox.consumerToken == token then Ok(row) else Err(ErrAssignmentStatusMismatch)
    else Ok(row.(outbox := row.outbox.(consumerToken := token, leaseExpiresAt := Some(now + duration))))
  }

  function RenewEvent(row: Assignment, eventID: string, token: string, duration: int, now: Time): RowResult {
    if eventID == "" || token == "" || duration <= 0 || now <= 0 then Err(ErrOther)
    else if row.outbox.eventID != eventID || row.outbox.consumerToken != token then
      Err(ErrAssignmentStatusMismatch)
    else if row.outbox.leaseExpiresAt.None? then Err(ErrOther)
    else if now >= row.outbox.leaseExpiresAt.value then Err(ErrAssignmentStatusMismatch)
    else Ok(row.(outbox := row.outbox.(leaseExpiresAt := Some(now + duration))))
  }

  predicate OwnsLiveLease(row: Assignment, eventID: string, token: string, now: Time) {
    && row.outbox.eventID == eventID
    && row.outbox.consumerToken == token
    && row.outbox.leaseExpiresAt.Some? && row.outbox.leaseExpiresAt.value > now
  }

  function AcknowledgeEvent(row: Assignment, eventID: string, token: string, now: Time): RowResult {
    if eventID == "" || token == "" || now <= 0 then Err(ErrOther)
    else if !OwnsLiveLease(row, eventID, token, now) then Err(ErrAssignmentStatusMismatch)
    else if !row.status.StatusCompleted? && !row.status.StatusFailed? then Err(ErrOther)
    else Ok(row.(outbox := NO_EVENT))
  }

  /** The check every load makes on every row (validateCompletionOutboxAssignment). */
  predicate ValidOutbox(row: Assignment) {
    && (row.outbox.eventID != "" <==> row.outbox.detectedAt.Some?)
    && (row.outbox.detectedAt.Some? ==>
          && row.outbox.detectedAt.value > 0
          && (|| row.status.StatusCompleted? || row.status.StatusFailed?
              || (row.clear.state != ClearStateNone
                  && (|| row.clear.pendingTerminalStatus == Some(StatusCompleted)
                      || row.clear.pendingTerminalStatus == Some(StatusFailed)))))
    && (row.outbox.consumerToken != "" <==> row.outbox.leaseExpiresAt.Some?)
    && (row.outbox.consumerToken != "" ==>
          && row.outbox.eventID != ""
          && (row.status.StatusCompleted? || row.status.StatusFailed?)
          && row.clear.state.ClearStateNone?
          && row.outbox.leaseExpiresAt.value > 0)
  }
}
