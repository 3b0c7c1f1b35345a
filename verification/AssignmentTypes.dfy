/**
 The durable ledger row and the vocabulary of the crash-recoverable assignment
 protocol (internal/assignment). Strings stand for the values the source works
 with after trimming, so "blank" is the empty string.
 */
module AssignmentTypes {
  import opened Wrappers

  // A point on the ledger clock, in nanoseconds since its zero value.
  type Time = int

  datatype AssignmentStatus =
    | StatusClaiming | StatusClaimed | StatusAssigned | StatusWorking
    | StatusCompleted | StatusFailed | StatusReassigned

  datatype ClaimState =
    | ClaimUnset | ClaimPending | ClaimClaiming | ClaimClaimed | ClaimFailed | ClaimIneligible | ClaimUnknown

  datatype ReservationState =
    | ReservationUnset | ReservationPending | ReservationReserving | ReservationReserved
    | ReservationFailed | ReservationUnknown | ReservationReleased

  datatype DispatchState = DispatchPending | DispatchSending | DispatchSent

  datatype ClearState = ClearStateNone | ClearStateReservationReleasing | ClearStateLeasesReleased

  // The tracker's own status of a work item, as claim receipts and status reads report it.
  datatype TrackerStatus = TrackerUnset | TrackerOpen | TrackerInProgress | TrackerClosed | TrackerOther

  // SHA-256 as an injective constructor.
  datatype Digest = NoDigest | Sha256(text: string)

  function PromptSHA256(prompt: string): Digest {
    Sha256(prompt)
  }

  // What the attempt is for: fixed when the row is created.
  datatype Intent = Intent(
    beadID: string,
    beadTitle: string,
    agentType: string,
    agentName: string,
    idempotencyKey: string,
    dispatchTarget: string,
    occupancyKey: string,
    promptSHA256: Digest,
    intentSHA256: Digest,
    reservationRequired: bool,
    reservationDiscovery: bool,
    reservationInputPaths: seq<string>)

  datatype Claim = Claim(
    actor: string,
    state: ClaimState,
    status: TrackerStatus,
    attempts: nat,
    claimedAt: Option<Time>,
    requiresNonTerminal: bool)

  datatype LeaseReceipt = LeaseReceipt(
    agentName: string,
    target: string,
    requested: seq<string>,
    granted: seq<string>,
    reservationIDs: seq<int>,
    expiresAt: Option<Time>)

  const NO_LEASE := LeaseReceipt("", "", [], [], [], None)

  // `failed` stands for a stored reservation error.
  datatype Reservation = Reservation(
    state: ReservationState,
    attempts: nat,
    completed: bool,
    lease: LeaseReceipt,
    failed: bool)

  datatype Dispatch = Dispatch(
    state: DispatchState,
    attempts: nat,
    pendingPrompt: string,
    promptSent: string,
    receiptID: string)

  datatype Clear = Clear(
    state: ClearState,
    pendingTerminalStatus: Option<AssignmentStatus>,
    pendingTerminalReason: string,
    claimReleased: bool)

  datatype Outbox = Outbox(
    eventID: string,
    detectedAt: Option<Time>,
    consumerToken: string,
    leaseExpiresAt: Option<Time>)

  const NO_CLEAR := Clear(ClearStateNone, None, "", false)
  const NO_EVENT := Outbox("", None, "", None)

  /** One ledger row; the source's flat record is grouped by the boundary each field belongs to.
      `generation` is not stored by the source: it labels the identity of the row from the intent
      that created it until it is replaced or removed. */
  datatype Assignment = Assignment(
    generation: nat,
    intent: Intent,
    status: AssignmentStatus,
    failReason: string,
    retryCount: nat,
    claim: Claim,
    reservation: Reservation,
    dispatch: Dispatch,
    clear: Clear,
    outbox: Outbox)

  type Ledger = map<string, Assignment>

  function Lookup(ledger: Ledger, beadID: string): Option<Assignment> {
    if beadID in ledger then Some(ledger[beadID]) else None
  }

  datatype ClaimReceipt = ClaimReceipt(beadID: string, actor: string, status: TrackerStatus, claimedAt: Option<Time>)

  datatype AtomicRequest = AtomicRequest(
    beadID: string,
    beadTitle: string,
    target: string,
    occupancyKey: string,
    agentType: string,
    agentName: string,
    actor: string,
    prompt: string,
    idempotencyKey: string,
    intentSHA256: Digest,
    recoveredIntentSHA256: Digest,
    requireReservation: bool,
    allowReservationDiscovery: bool,
    requestedPaths: seq<string>,
    replaceWorkingAssignment: bool)

  datatype Error =
    | ErrInvalidRequest
    | ErrReservationPathsRequired
    | ErrPaneIdentityMigrationRequired
    | ErrTargetOccupied
    | ErrCompletionEventPending
    | ErrWorkingReplacementNotAllowed
    | ErrRecoveredIntent
    | ErrClaimConflict
    | ErrClaimIneligible
    | ErrClaimOutcomeUnknown
    | ErrTerminalAssignmentAttempt
    | ErrIntentMismatch
    | ErrDispatchOutcomeUnknown
    | ErrReservationReleaseRequired
    | ErrReservationOutcomeUnknown
    | ErrReservationRequired
    | ErrPreflight
    | ErrNotAuthorized
    | ErrDispatchFailed
    | ErrAssignmentMissing
    | ErrAssignmentStatusMismatch
    | ErrPersistence
    | ErrOther

  // What a failing reservation call guarantees about remote leases.
  datatype ReservationFault = FaultPlain | FaultGuaranteedNone | FaultReleaseRequired

  // Which optional ports a coordinator was built with.
  datatype Ports = Ports(
    reserver: bool,
    claimReconciler: bool,
    reservationReconciler: bool,
    workStatus: bool,
    eligibility: bool,
    replaceAuth: bool,
    releaser: bool,
    preflight: bool)

  datatype PreflightResult = PreflightResult(dispatchPrompt: string, durablePrompt: string, durableTitle: string)

  datatype ClaimAnswer = ClaimReceived(receipt: ClaimReceipt) | ClaimRefused(error: Error)

  datatype ClaimInspection =
    | ClaimInspectionFailed
    | ClaimInspectedOwned(receipt: ClaimReceipt)
    | ClaimInspectedConflict
    | ClaimInspectedAbsent
    | ClaimInspectedUnknown

  datatype ReserveAnswer = ReserveGranted(lease: LeaseReceipt) | ReserveFailed(lease: LeaseReceipt, fault: ReservationFault)

  datatype ReserveInspection =
    | ReserveInspectionFailed
    | ReserveInspectedReserved(lease: LeaseReceipt)
    | ReserveInspectedAbsent
    | ReserveInspectedUnknown(lease: LeaseReceipt)

  datatype DispatchAnswer = DispatchReceived(receiptID: string) | DispatchNotActuated | DispatchErrored

  // `paths` and `ids` are what a successful release reports back.
  datatype ReleaseAnswer = ReleaseReported(paths: seq<string>, ids: seq<int>) | ReleaseErrored

  // What transport is asked to deliver.
  datatype Message = Message(beadID: string, beadTitle: string, target: string, agentType: string, agentName: string,
                             prompt: string, idempotencyKey: string)

  /** One answer from every port Execute may consult; each is called at most once per run. */
  datatype Answers = Answers(
    trackerStatus: Option<TrackerStatus>,
    preflight: Option<PreflightResult>,
    eligible: bool,
    replaceOwner: Option<(TrackerStatus, string)>,
    release: ReleaseAnswer,
    claimInspection: ClaimInspection,
    claim: ClaimAnswer,
    reserveInspection: ReserveInspection,
    reserve: ReserveAnswer,
    dispatch: DispatchAnswer)

  datatype Outcome = Failed(error: Error) | Replayed(receiptID: string) | Sent(receiptID: string)
}
