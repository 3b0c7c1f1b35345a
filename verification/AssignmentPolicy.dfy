/**
 The pure decisions of internal/assignment/atomic.go: effective states, receipt
 validation, failure classification, intent matching and the read-only checks
 Execute makes before it touches the ledger or any mutating port.
 */
module AssignmentPolicy {
  import opened Wrappers
  import opened AssignmentTypes

  // ---------- Statuses ----------

  predicate IsTerminal(status: AssignmentStatus) {
    status.StatusCompleted? || status.StatusFailed? || status.StatusReassigned?
  }

  predicate IsLive(status: AssignmentStatus) {
    status.StatusClaiming? || status.StatusClaimed? || status.StatusAssigned? || status.StatusWorking?
  }

  function EffectiveClaimState(a: Assignment): ClaimState {
    if a.claim.state != ClaimUnset then a.claim.state
    else if a.claim.claimedAt.Some? || a.claim.status != TrackerUnset
            || a.status.StatusClaimed? || a.status.StatusAssigned? || a.status.StatusWorking? then ClaimClaimed
    else ClaimPending
  }

  function EffectiveReservationState(a: Assignment): ReservationState {
    if a.reservation.state != ReservationUnset then a.reservation.state
    else if a.reservation.completed || LeaseHasHandles(a.reservation.lease) then ReservationReserved
    else ReservationPending
  }

  // ---------- Generations ----------

  // Attempts are told apart by key; two keyless rows by their creation times, which the generation labels stand for.
  predicate SameGeneration(observed: Assignment, current: Assignment) {
    if observed.intent.idempotencyKey != "" || current.intent.idempotencyKey != "" then
      observed.intent.idempotencyKey == current.intent.idempotencyKey
    else observed.generation == current.generation
  }

  // ---------- Pane identity ----------

  function DigitsValue(digits: string): nat {
    if digits == "" then 0
    else
      var last := digits[|digits| - 1];
      10 * DigitsValue(digits[..|digits| - 1]) + (if '0' <= last <= '9' then last as int - '0' as int else 0)
  }

  // A tmux pane ID: '%', then a decimal 64-bit unsigned number without leading zeros.
  predicate IsPhysicalPane(value: string) {
    && |value| >= 2
    && value[0] == '%'
    && !(|value| > 2 && value[1] == '0')
    && (forall i :: 1 <= i < |value| ==> '0' <= value[i] <= '9')
    && DigitsValue(value[1..]) < 0x1_0000_0000_0000_0000
  }

  function NormalizeOccupancyKey(target: string, occupancyKey: string): string {
    if occupancyKey != "" then occupancyKey else target
  }

  function CanonicalPaneIdentity(a: Assignment): Option<string> {
    if a.intent.occupancyKey != "" then
      if IsPhysicalPane(a.intent.occupancyKey) then Some(a.intent.occupancyKey) else None
    else if a.intent.dispatchTarget != "" && IsPhysicalPane(a.intent.dispatchTarget) then Some(a.intent.dispatchTarget)
    else None
  }

  // A row that still ties up a pane, whatever its bead.
  predicate Occupies(a: Assignment) {
    IsLive(a.status) || a.dispatch.state.DispatchSending? || a.clear.state != ClearStateNone
  }

  /** What the scan over all other beads' rows finds. The first hit in the scan decides which
      of the two errors is reported, so with both kinds present either is possible. */
  predicate OccupancyBlocked(ledger: Ledger, beadID: string, pane: string) {
    exists b :: b in ledger && b != beadID && Blocks(ledger[b], pane)
  }

  predicate Blocks(a: Assignment, pane: string) {
    Occupies(a) && (CanonicalPaneIdentity(a).None? || CanonicalPaneIdentity(a).value == pane)
  }

  // ---------- Receipts ----------

  predicate NoDuplicates<T(==)>(s: seq<T>) {
    forall i, j :: 0 <= i < j < |s| ==> s[i] != s[j]
  }

  function Elements<T>(s: seq<T>): set<T> {
    set x | x in s
  }

  predicate NormalizedPaths(paths: seq<string>) {
    "" !in paths && NoDuplicates(paths)
  }

  predicate NormalizedIDs(ids: seq<int>) {
    (forall id :: id in ids ==> id > 0) && NoDuplicates(ids)
  }

  predicate ValidClaimReceipt(claim: ClaimReceipt, beadID: string, actor: string) {
    && claim.beadID != "" && claim.beadID == beadID
    && claim.actor != "" && claim.actor == actor
    && claim.status == TrackerInProgress
    && claim.claimedAt.Some?
  }

  function ClaimFromAssignment(a: Assignment): ClaimReceipt {
    ClaimReceipt(a.intent.beadID, a.claim.actor, a.claim.status, a.claim.claimedAt)
  }

  predicate ValidLeaseBinding(agentName: string, target: string, lease: LeaseReceipt) {
    && lease.agentName != "" && lease.agentName == agentName
    && lease.target != "" && lease.target == target
  }

  function ExpectedPaths(req: AtomicRequest, lease: LeaseReceipt): seq<string> {
    if req.allowReservationDiscovery && req.requestedPaths == [] then lease.requested else req.requestedPaths
  }

  /** A required lease: the granted set is exactly the expected set, every handle is a distinct
      positive ID, and the expiry lies after `now`. */
  predicate ValidRequiredLease(req: AtomicRequest, lease: LeaseReceipt, now: Time) {
    && NormalizedPaths(req.requestedPaths)
    && NormalizedPaths(lease.requested)
    && (!(req.allowReservationDiscovery && req.requestedPaths == []) ==>
          Elements(req.requestedPaths) == Elements(lease.requested))
    && ExpectedPaths(req, lease) != []
    && NormalizedPaths(lease.granted)
    && Elements(lease.granted) == Elements(ExpectedPaths(req, lease))
    && NormalizedIDs(lease.reservationIDs)
    && lease.reservationIDs != []
    && lease.expiresAt.Some? && lease.expiresAt.value > now
  }

  predicate ValidLease(req: AtomicRequest, lease: LeaseReceipt, now: Time) {
    && ValidLeaseBinding(req.agentName, req.occupancyKey, lease)
    && (req.requireReservation ==> ValidRequiredLease(req, lease, now))
  }

  predicate LeaseHasHandles(lease: LeaseReceipt) {
    lease.reservationIDs != [] || lease.granted != []
  }

  predicate AssignmentHasHandles(a: Assignment) {
    LeaseHasHandles(a.reservation.lease)
  }

  predicate HasUnresolvedReservation(a: Assignment) {
    || AssignmentHasHandles(a)
    || EffectiveReservationState(a).ReservationReserving?
    || EffectiveReservationState(a).ReservationUnknown?
    || (EffectiveReservationState(a).ReservationReserved? && (!a.reservation.completed || a.reservation.failed))
  }

  // Whether the stored handles alone do not prove the complete set of leases, so that a cleaner must ask.
  predicate NeedsReconciliation(a: Assignment) {
    && a.intent.reservationRequired
    && match EffectiveReservationState(a)
       case ReservationReleased => false
       case ReservationPending => a.reservation.attempts > 0 || AssignmentHasHandles(a)
       case ReservationFailed => AssignmentHasHandles(a)
       case ReservationReserved => !a.reservation.completed || a.reservation.failed
       case _ => true
  }

  // Both classifiers also say whether an error accompanies the state and which kind it is.
  function ClassifyReservationFailure(lease: LeaseReceipt, fault: ReservationFault): (ReservationState, ReservationFault) {
    if LeaseHasHandles(lease) || fault.FaultReleaseRequired? then (ReservationReserved, FaultReleaseRequired)
    else if fault.FaultGuaranteedNone? then (ReservationFailed, FaultGuaranteedNone)
    else (ReservationUnknown, FaultPlain)
  }

  function ClassifyValidatedReservation(lease: LeaseReceipt, valid: bool): (ReservationState, Option<ReservationFault>) {
    if valid then (ReservationReserved, None)
    else if LeaseHasHandles(lease) then (ReservationReserved, Some(FaultReleaseRequired))
    else (ReservationFailed, Some(FaultGuaranteedNone))
  }

  predicate ReservationExpired(a: Assignment, now: Time) {
    a.reservation.lease.expiresAt.Some? && a.reservation.lease.expiresAt.value <= now
  }

  predicate ReservationNeedsRefresh(a: Assignment, now: Time) {
    EffectiveReservationState(a).ReservationReserved? ==> ReservationExpired(a, now)
  }

  predicate ReservationOutcomeAmbiguous(a: Assignment) {
    EffectiveReservationState(a).ReservationReserving? || EffectiveReservationState(a).ReservationUnknown?
  }

  // ---------- Intents ----------

  predicate MatchesRawIntent(a: Assignment, req: AtomicRequest) {
    var intent := if req.intentSHA256 == NoDigest then PromptSHA256(req.prompt) else req.intentSHA256;
    var storedIntent := if a.intent.intentSHA256 == NoDigest then a.intent.promptSHA256 else a.intent.intentSHA256;
    var storedOccupancy := if a.intent.occupancyKey == "" then a.intent.dispatchTarget else a.intent.occupancyKey;
    && a.intent.dispatchTarget == req.target
    && storedOccupancy == NormalizeOccupancyKey(req.target, req.occupancyKey)
    && a.intent.agentName == req.agentName
    && a.intent.agentType == req.agentType
    && storedIntent == intent
    && a.intent.reservationRequired == req.requireReservation
    && a.intent.reservationDiscovery == req.allowReservationDiscovery
    && a.intent.reservationInputPaths == req.requestedPaths
  }

  predicate MatchesIntent(a: Assignment, req: AtomicRequest) {
    && MatchesRawIntent(a, req)
    && a.intent.beadTitle == req.beadTitle
    && a.intent.promptSHA256 == PromptSHA256(req.prompt)
  }

  // ---------- Claim actors ----------

  predicate HasSuffix(s: string, suffix: string) {
    |s| >= |suffix| && s[|s| - |suffix|..] == suffix
  }

  /** The source keys a blank idempotency key on a digest prefix of the actor; the injective
      stand-in for that prefix is the actor itself. */
  function StableClaimActor(baseActor: string, idempotencyKey: string): (actor: string)
    ensures actor != ""
    ensures idempotencyKey != "" ==>
              var base := if baseActor == "" then "ntm" else baseActor;
              var suffix := "/ntm-" + if |idempotencyKey| > 12 then idempotencyKey[..12] else idempotencyKey;
              actor == if HasSuffix(base, suffix) then base else base + suffix
  {
    var actor := if baseActor == "" then "ntm" else baseActor;
    var suffix := "/ntm-" + ActorSuffix(actor, idempotencyKey);
    if HasSuffix(actor, suffix) then actor else actor + suffix
  }

  /** Making an actor stable again changes nothing, and two attempts whose keys differ within their first twelve
      characters never claim under one actor. */
  lemma StableActors(base: string, other: string, one: string, two: string)
    requires |one| >= 12 && |two| >= 12
    ensures StableClaimActor(StableClaimActor(base, one), one) == StableClaimActor(base, one)
    ensures StableClaimActor(base, one) == StableClaimActor(other, two) ==> one[..12] == two[..12]
  {
    EndsInKey(base, one);
    EndsInKey(other, two);
  }

  lemma EndsInKey(base: string, key: string)
    requires |key| >= 12
    ensures var actor := StableClaimActor(base, key); |actor| >= 17 && actor[|actor| - 12..] == key[..12]
    ensures HasSuffix(StableClaimActor(base, key), "/ntm-" + key[..12])
  {
    var suffix := "/ntm-" + key[..12];
    var actor := StableClaimActor(base, key);
    assert HasSuffix(actor, suffix);
    assert actor[|actor| - 12..] == actor[|actor| - |suffix|..][5..] == key[..12];
  }

  function ActorSuffix(actor: string, idempotencyKey: string): string {
    if idempotencyKey == "" then actor
    else if |idempotencyKey| > 12 then idempotencyKey[..12]
    else idempotencyKey
  }

  // ---------- Working replacement ----------

  predicate ReplacementCandidate(prior: Assignment, req: AtomicRequest) {
    && prior.intent.beadID == req.beadID
    && prior.status.StatusWorking?
    && !prior.dispatch.state.DispatchSending?
    && prior.intent.idempotencyKey != req.idempotencyKey
  }

  predicate ReplacementReady(prior: Assignment, req: AtomicRequest) {
    && ReplacementCandidate(prior, req)
    && prior.clear.state.ClearStateLeasesReleased?
    && !HasUnresolvedReservation(prior)
  }

  // A release receipt must name exactly the durable paths and IDs of the row it releases.
  predicate ValidReleaseReceipt(current: Assignment, paths: seq<string>, ids: seq<int>) {
    && NormalizedPaths(paths) && NormalizedIDs(ids)
    && NormalizedPaths(current.reservation.lease.granted)
    && NormalizedPaths(current.reservation.lease.requested)
    && NormalizedPaths(current.intent.reservationInputPaths)
    && Elements(paths) == Elements(current.reservation.lease.granted) + Elements(current.reservation.lease.requested)
                          + Elements(current.intent.reservationInputPaths)
    && NormalizedIDs(current.reservation.lease.reservationIDs)
    && Elements(ids) == Elements(current.reservation.lease.reservationIDs)
  }

  // ---------- The read-only half of Execute ----------

  function NormalizeRequest(req: AtomicRequest): AtomicRequest {
    req.(requireReservation := req.requireReservation || req.requestedPaths != [],
         occupancyKey := NormalizeOccupancyKey(req.target, req.occupancyKey),
         intentSHA256 := PromptSHA256(req.prompt))
  }

  // The error of validateAtomicRequest on a normalized request, if any.
  function RequestError(req: AtomicRequest): Option<Error> {
    if req.beadID == "" || req.idempotencyKey == "" || req.target == "" then Some(ErrInvalidRequest)
    else if !IsPhysicalPane(req.occupancyKey) then Some(ErrPaneIdentityMigrationRequired)
    else if req.prompt == "" then Some(ErrInvalidRequest)
    else if req.requireReservation && req.requestedPaths == [] && !req.allowReservationDiscovery then
      Some(ErrReservationPathsRequired)
    else if "" in req.requestedPaths then Some(ErrInvalidRequest)
    else None
  }

  /** `Go` carries the request as it will be dispatched, the prompt as it will be stored, and
      the tracker actor this generation claims under. */
  datatype Decision =
    | Stop(error: Error)
    | Replay(receiptID: string)
    | Go(req: AtomicRequest, durablePrompt: string, actor: string, replacementStart: bool)

  // Actor, replacement flag and title for this attempt, or the reason it may not start.
  function ChooseActor(prior: Option<Assignment>, req: AtomicRequest): Decision {
    var derived := StableClaimActor(req.actor, req.idempotencyKey);
    match prior
    case None =>
      if req.replaceWorkingAssignment then Stop(ErrWorkingReplacementNotAllowed)
      else Go(req, req.prompt, derived, false)
    case Some(row) =>
      if IsTerminal(row.status) && row.intent.idempotencyKey != req.idempotencyKey && row.outbox.eventID != "" then
        Stop(ErrCompletionEventPending)
      else if row.intent.idempotencyKey == req.idempotencyKey then
        Go(req, req.prompt, if row.claim.actor != "" then row.claim.actor else derived, false)
      else if req.replaceWorkingAssignment then
        if !ReplacementCandidate(row, req) || row.claim.actor == "" then Stop(ErrWorkingReplacementNotAllowed)
        else Go(req.(beadTitle := if req.beadTitle == "" then row.intent.beadTitle else req.beadTitle),
                req.prompt, row.claim.actor, true)
      else Go(req, req.prompt, derived, false)
  }

  // Substitutes the stored prompt when the caller recovers an attempt by its checksum alone.
  function RecoverIntent(prior: Option<Assignment>, d: Decision): Decision
    requires d.Go?
  {
    if d.req.recoveredIntentSHA256 == NoDigest then d
    else match prior
      case None => Stop(ErrRecoveredIntent)
      case Some(row) =>
        var stored := if row.intent.intentSHA256 == NoDigest then row.intent.promptSHA256 else row.intent.intentSHA256;
        if row.intent.idempotencyKey != d.req.idempotencyKey || stored == NoDigest
           || stored != d.req.recoveredIntentSHA256 then
          Stop(ErrRecoveredIntent)
        else if row.dispatch.state.DispatchSent? || row.dispatch.state.DispatchSending? then
          d.(req := d.req.(intentSHA256 := stored))
        else if row.dispatch.pendingPrompt == "" then Stop(ErrRecoveredIntent)
        else Go(d.req.(intentSHA256 := stored, prompt := row.dispatch.pendingPrompt, beadTitle := row.intent.beadTitle),
                row.dispatch.pendingPrompt, d.actor, d.replacementStart)
  }

  // Replays, conflicts and terminal rows: what the durable row alone decides.
  function CheckPrior(prior: Option<Assignment>, d: Decision, ports: Ports, ans: Answers): Decision
    requires d.Go?
  {
    match prior
    case None => d
    case Some(row) =>
      if row.clear.state != ClearStateNone && !d.replacementStart then Stop(ErrClaimConflict)
      else if row.intent.idempotencyKey == d.req.idempotencyKey && row.claim.actor == d.actor then
        if EffectiveClaimState(row).ClaimIneligible? then Stop(ErrClaimIneligible)
        else if EffectiveClaimState(row).ClaimFailed? then Stop(ErrClaimConflict)
        else if IsTerminal(row.status) then Stop(ErrTerminalAssignmentAttempt)
        else if !MatchesRawIntent(row, d.req) then Stop(ErrIntentMismatch)
        else if row.dispatch.state.DispatchSent? then
          if row.dispatch.receiptID == "" then Stop(ErrDispatchOutcomeUnknown) else Replay(row.dispatch.receiptID)
        else if row.dispatch.state.DispatchSending? then Stop(ErrDispatchOutcomeUnknown)
        else d
      else if row.intent.idempotencyKey != "" && !d.replacementStart && IsLive(row.status) then Stop(ErrClaimConflict)
      else if IsTerminal(row.status) && row.intent.idempotencyKey != d.req.idempotencyKey then
        if HasUnresolvedReservation(row) then Stop(ErrReservationReleaseRequired)
        else if !ports.workStatus then Stop(ErrTerminalAssignmentAttempt)
        else if ans.trackerStatus != Some(TrackerOpen) && ans.trackerStatus != Some(TrackerInProgress) then
          Stop(ErrTerminalAssignmentAttempt)
        else d.(actor := if row.claim.actor != "" then row.claim.actor else d.actor)
      else d
  }

  function RunPreflight(prior: Option<Assignment>, d: Decision, ports: Ports, ans: Answers): Decision
    requires d.Go?
  {
    var recovering := d.req.recoveredIntentSHA256 != NoDigest && prior.Some?;
    if !ports.preflight then
      if recovering then
        d.(req := d.req.(beadTitle := prior.value.intent.beadTitle),
           durablePrompt := if prior.value.dispatch.pendingPrompt != "" then prior.value.dispatch.pendingPrompt
               else d.durablePrompt)
      else d
    else match ans.preflight
      case None => Stop(ErrPreflight)
      case Some(result) =>
        if result.dispatchPrompt == "" || result.durablePrompt == "" then Stop(ErrPreflight)
        else
          var title := if recovering then prior.value.intent.beadTitle
                       else if result.durableTitle != "" then result.durableTitle else d.req.beadTitle;
          var durable := if recovering && prior.value.dispatch.pendingPrompt != "" then prior.value.dispatch.pendingPrompt
                         else result.durablePrompt;
          d.(req := d.req.(prompt := result.dispatchPrompt, beadTitle := title), durablePrompt := durable)
  }

  // Durable intent, reservation port and eligibility gates, in the order Execute applies them.
  function CheckGates(prior: Option<Assignment>, d: Decision, ports: Ports, ans: Answers, now: Time): Decision
    requires d.Go?
  {
    var sameKey := prior.Some? && prior.value.intent.idempotencyKey == d.req.idempotencyKey;
    if sameKey && prior.value.claim.actor == d.actor && !MatchesIntent(prior.value, Persisted(d)) then Stop(ErrIntentMismatch)
    else if d.req.requireReservation && !ports.reserver && sameKey && ReservationOutcomeAmbiguous(prior.value) then
      Stop(ErrReservationOutcomeUnknown)
    else if d.req.requireReservation && !ports.reserver && (!sameKey || ReservationNeedsRefresh(prior.value, now)) then
      Stop(ErrReservationRequired)
    else if ports.eligibility && !ans.eligible then Stop(ErrNotAuthorized)
    else d
  }

  // The request with the prompt the ledger stores instead of the one transport delivers.
  function Persisted(d: Decision): AtomicRequest
    requires d.Go?
  {
    d.req.(prompt := d.durablePrompt)
  }

  function Decide(prior: Option<Assignment>, req: AtomicRequest, ports: Ports, ans: Answers, now: Time): Decision {
    var chosen := ChooseActor(prior, req);
    if !chosen.Go? then chosen
    else
      var recovered := RecoverIntent(prior, chosen);
      if !recovered.Go? then recovered
      else
        var checked := CheckPrior(prior, recovered, ports, ans);
        if !checked.Go? then checked
        else
          var ready := RunPreflight(prior, checked, ports, ans);
          if !ready.Go? then ready else CheckGates(prior, ready, ports, ans, now)
  }
}
