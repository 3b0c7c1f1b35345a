/**
 Which attempts Execute lets start (internal/assignment/atomic.go:724-908), said
 without following its checks: what every port has to grant, and the four kinds of
 attempts there are.
 */
module Admission {
  import opened Wrappers
  import opened AssignmentTypes
  import opened AssignmentPolicy

  function StoredIntent(row: Assignment): Digest {
    if row.intent.intentSHA256 == NoDigest then row.intent.promptSHA256 else row.intent.intentSHA256
  }

  // The request describes the stored attempt: the same pane, agent and reservation, and the intent it was recorded for, by
  // its own checksum or, when it recovers the attempt, by the checksum it gives.
  predicate SameIntent(row: Assignment, req: AtomicRequest) {
    && row.intent.dispatchTarget == req.target
    && (if row.intent.occupancyKey == "" then row.intent.dispatchTarget else row.intent.occupancyKey)
       == (if req.occupancyKey == "" then req.target else req.occupancyKey)
    && row.intent.agentName == req.agentName && row.intent.agentType == req.agentType
    && row.intent.reservationRequired == req.requireReservation
    && row.intent.reservationDiscovery == req.allowReservationDiscovery
    && row.intent.reservationInputPaths == req.requestedPaths
    && StoredIntent(row) == if req.recoveredIntentSHA256 == NoDigest then req.intentSHA256 else req.recoveredIntentSHA256
  }

  // That is how the code compares them.
  lemma SameIntentByChecks(row: Assignment, req: AtomicRequest)
    requires req.intentSHA256 != NoDigest
    ensures SameIntent(row, req) <==>
              if req.recoveredIntentSHA256 == NoDigest then MatchesRawIntent(row, req)
              else
                && req.recoveredIntentSHA256 == StoredIntent(row)
                && MatchesRawIntent(row, req.(intentSHA256 := StoredIntent(row)))
  {
  }

  // The reservation stored in the row can be used as it is.
  predicate HoldsUnexpiredLease(row: Assignment, now: Time) {
    && EffectiveReservationState(row).ReservationReserved?
    && !(row.reservation.lease.expiresAt.Some? && row.reservation.lease.expiresAt.value <= now)
  }

  // What the configured ports have to grant, whatever kind of attempt it is.
  predicate PortsGrant(prior: Option<Assignment>, req: AtomicRequest, ports: Ports, ans: Answers, now: Time) {
    && (ports.eligibility ==> ans.eligible)
    && (ports.preflight ==>
          ans.preflight.Some? && ans.preflight.value.dispatchPrompt != "" && ans.preflight.value.durablePrompt != "")
    && (req.requireReservation && !ports.reserver ==>
          prior.Some? && prior.value.intent.idempotencyKey == req.idempotencyKey && HoldsUnexpiredLease(prior.value, now))
  }

  // The prompt that goes to the pane: what preflight made of the caller's, or of the stored one when recovering.
  function Delivered(prior: Option<Assignment>, req: AtomicRequest, ports: Ports, ans: Answers): string {
    if ports.preflight && ans.preflight.Some? then ans.preflight.value.dispatchPrompt
    else if req.recoveredIntentSHA256 != NoDigest && prior.Some? then prior.value.dispatch.pendingPrompt
    else req.prompt
  }

  // The prompt and title that go to the ledger.
  function Durable(prior: Option<Assignment>, req: AtomicRequest, ports: Ports, ans: Answers): string {
    if req.recoveredIntentSHA256 != NoDigest && prior.Some? then prior.value.dispatch.pendingPrompt
    else if ports.preflight && ans.preflight.Some? then ans.preflight.value.durablePrompt
    else req.prompt
  }

  function DurableTitle(prior: Option<Assignment>, req: AtomicRequest, ports: Ports, ans: Answers): string {
    if req.recoveredIntentSHA256 != NoDigest && prior.Some? then prior.value.intent.beadTitle
    else if ports.preflight && ans.preflight.Some? && ans.preflight.value.durableTitle != "" then
      ans.preflight.value.durableTitle
    else if req.beadTitle == "" && prior.Some? && TakesOver(prior.value, req) then prior.value.intent.beadTitle
    else req.beadTitle
  }

  // A first attempt at a bead without a row.
  predicate StartsFresh(req: AtomicRequest) {
    !req.replaceWorkingAssignment && req.recoveredIntentSHA256 == NoDigest
  }

  // The stored attempt goes on: it is live, unsent, not refused by the tracker and not being cleared, and it is this one.
  predicate Resumes(row: Assignment, req: AtomicRequest, ports: Ports, ans: Answers) {
    && row.intent.idempotencyKey == req.idempotencyKey
    && IsLive(row.status) && row.clear.state.ClearStateNone? && row.dispatch.state.DispatchPending?
    && !EffectiveClaimState(row).ClaimFailed? && !EffectiveClaimState(row).ClaimIneligible?
    && SameIntent(row, req)
    && (req.recoveredIntentSHA256 != NoDigest ==> row.dispatch.pendingPrompt != "")
    && row.intent.beadTitle == DurableTitle(Some(row), req, ports, ans)
    && row.intent.promptSHA256 == PromptSHA256(Durable(Some(row), req, ports, ans))
  }

  // A new attempt at a bead whose last one ended: its event was acknowledged and its leases are settled, and the tracker
  // says the bead is open again.
  predicate Reopens(row: Assignment, req: AtomicRequest, ports: Ports, ans: Answers) {
    && row.intent.idempotencyKey != req.idempotencyKey
    && !req.replaceWorkingAssignment && req.recoveredIntentSHA256 == NoDigest
    && IsTerminal(row.status) && row.clear.state.ClearStateNone? && row.outbox.eventID == ""
    && !HasUnresolvedReservation(row)
    && ports.workStatus && (ans.trackerStatus == Some(TrackerOpen) || ans.trackerStatus == Some(TrackerInProgress))
  }

  // A new attempt that takes a working bead over.
  predicate TakesOver(row: Assignment, req: AtomicRequest) {
    && row.intent.idempotencyKey != req.idempotencyKey
    && req.replaceWorkingAssignment && req.recoveredIntentSHA256 == NoDigest
    && row.intent.beadID == req.beadID && row.status.StatusWorking? && !row.dispatch.state.DispatchSending?
  }

  // An attempt recovered by checksum goes on under the stored intent.
  function IntentOf(prior: Option<Assignment>, req: AtomicRequest): Digest {
    if req.recoveredIntentSHA256 != NoDigest && prior.Some? then StoredIntent(prior.value) else req.intentSHA256
  }

  predicate MayStart(prior: Option<Assignment>, req: AtomicRequest, ports: Ports, ans: Answers, now: Time) {
    && PortsGrant(prior, req, ports, ans, now)
    && match prior
       case None => StartsFresh(req)
       case Some(row) => Resumes(row, req, ports, ans) || Reopens(row, req, ports, ans) || TakesOver(row, req)
  }

  // The tracker actor: the stored one wherever there is a row to go on from, else one made from the key.
  function ActorFor(prior: Option<Assignment>, req: AtomicRequest): string {
    if prior.Some? then prior.value.claim.actor else StableClaimActor(req.actor, req.idempotencyKey)
  }

  // A row as every guarded operation leaves it, and a request as Execute normalizes it.
  predicate WellKeyed(prior: Option<Assignment>, req: AtomicRequest) {
    && (prior.Some? ==> prior.value.intent.idempotencyKey != "" && prior.value.claim.actor != ""
                        && prior.value.intent.beadID == req.beadID)
    && req.idempotencyKey != "" && req.intentSHA256 != NoDigest
  }

  // ---------- Rows from before the states were kept ----------

  /** What a row without a recorded state stands for: a claim was made if anything in the row says so, and a lease taken if
      it names one. A reservation is not resolved while a handle is left, its outcome is open, or it was reserved without
      being completed; and the service has to be asked about a required one unless the row proves what is left of it. */
  lemma EffectiveStates(row: Assignment)
    ensures EffectiveClaimState(row) ==
              if row.claim.state != ClaimUnset then row.claim.state
              else if row.claim.status == TrackerUnset && row.claim.claimedAt == None
                      && row.status !in {StatusClaimed, StatusAssigned, StatusWorking} then ClaimPending
              else ClaimClaimed
    ensures var held := row.reservation.lease.reservationIDs != [] || row.reservation.lease.granted != [];
            var state := EffectiveReservationState(row);
            && state == (if row.reservation.state != ReservationUnset then row.reservation.state
                         else if held || row.reservation.completed then ReservationReserved else ReservationPending)
            && (HasUnresolvedReservation(row) <==>
                  held || state in {ReservationReserving, ReservationUnknown}
                  || (state == ReservationReserved && (row.reservation.failed || !row.reservation.completed)))
            && (NeedsReconciliation(row) <==>
                  && row.intent.reservationRequired && state != ReservationReleased
                  && (state == ReservationPending ==> row.reservation.attempts > 0 || held)
                  && (state == ReservationFailed ==> held)
                  && (state == ReservationReserved ==> row.reservation.failed || !row.reservation.completed))
  {
  }

  // ---------- Requests ----------

  /** What Execute takes as a request: a bead, a key, a target and a prompt; a physical pane, which the target is unless
      another is named; and paths, none blank, or leave to choose them, wherever a reservation is required. */
  lemma ValidRequests(request: AtomicRequest)
    ensures var req := NormalizeRequest(request);
            && req == request.(requireReservation := req.requireReservation, occupancyKey := req.occupancyKey,
                               intentSHA256 := Sha256(request.prompt))
            && req.occupancyKey == (if request.occupancyKey == "" then request.target else request.occupancyKey)
            && (req.requireReservation <==> request.requireReservation || request.requestedPaths != [])
            && (RequestError(req).None? <==>
                  && request.beadID != "" && request.idempotencyKey != "" && request.target != "" && request.prompt != ""
                  && IsPhysicalPane(req.occupancyKey) && "" !in request.requestedPaths
                  && (request.requireReservation ==> request.requestedPaths != [] || request.allowReservationDiscovery))
            && (RequestError(req).None? ==> req.beadID != "" && WellKeyed(None, req))
  {
    hide IsPhysicalPane;
  }

  // ---------- The checks decide just that ----------

  // A stored intent never depends on the prompt of a request that carries one of its own.
  lemma RawIntentIgnoresPrompt(row: Assignment, req: AtomicRequest, prompt: string, title: string)
    requires req.intentSHA256 != NoDigest
    ensures MatchesRawIntent(row, req.(prompt := prompt, beadTitle := title)) == MatchesRawIntent(row, req)
  {
  }

  // What an attempt that goes on carries: the prompts and the title, the actor, and nothing else changed.
  predicate CarriesOn(d: Decision, prior: Option<Assignment>, req: AtomicRequest, ports: Ports, ans: Answers)
    requires d.Go?
  {
    && d.req.prompt == Delivered(prior, req, ports, ans)
    && d.req.beadTitle == DurableTitle(prior, req, ports, ans)
    && d.req == req.(prompt := d.req.prompt, beadTitle := d.req.beadTitle, intentSHA256 := IntentOf(prior, req))
    && d.durablePrompt == Durable(prior, req, ports, ans)
    && d.actor == ActorFor(prior, req)
    && (d.replacementStart <==> prior.Some? && TakesOver(prior.value, req))
  }

  // Without a row there is nothing to resume, replay or take over.
  lemma FirstAttempt(req: AtomicRequest, ports: Ports, ans: Answers, now: Time)
    requires WellKeyed(None, req)
    ensures var d := Decide(None, req, ports, ans, now);
            (d.Go? <==> MayStart(None, req, ports, ans, now)) && (d.Go? ==> CarriesOn(d, None, req, ports, ans)) && !d.Replay?
  {
    hide StableClaimActor;
  }

  // What the row alone decides, before preflight and the gates.
  function Checked(prior: Option<Assignment>, req: AtomicRequest, ports: Ports, ans: Answers): Decision {
    var chosen := ChooseActor(prior, req);
    var recovered := if chosen.Go? then RecoverIntent(prior, chosen) else chosen;
    if recovered.Go? then CheckPrior(prior, recovered, ports, ans) else recovered
  }

  lemma DecidedFromThere(prior: Option<Assignment>, req: AtomicRequest, ports: Ports, ans: Answers, now: Time)
    ensures var checked := Checked(prior, req, ports, ans);
            var ready := if checked.Go? then RunPreflight(prior, checked, ports, ans) else checked;
            Decide(prior, req, ports, ans, now) == if ready.Go? then CheckGates(prior, ready, ports, ans, now) else ready
  {
    hide ChooseActor, RecoverIntent, CheckPrior, RunPreflight, CheckGates;
  }

  predicate CheckedSame(row: Assignment, req: AtomicRequest) {
    && IsLive(row.status) && row.clear.state.ClearStateNone? && row.dispatch.state.DispatchPending?
    && !EffectiveClaimState(row).ClaimFailed? && !EffectiveClaimState(row).ClaimIneligible?
    && SameIntent(row, req)
    && (req.recoveredIntentSHA256 != NoDigest ==> row.dispatch.pendingPrompt != "")
  }

  // The stored prompt and title, when the attempt is recovered by checksum.
  function Restored(row: Assignment, req: AtomicRequest): AtomicRequest {
    if req.recoveredIntentSHA256 == NoDigest then req
    else req.(intentSHA256 := StoredIntent(row), prompt := row.dispatch.pendingPrompt, beadTitle := row.intent.beadTitle)
  }

  // Under the row's own key, first by the row alone,
  lemma SameAttemptChecked(row: Assignment, req: AtomicRequest, ports: Ports, ans: Answers)
    requires WellKeyed(Some(row), req) && row.intent.idempotencyKey == req.idempotencyKey
    ensures var d := Checked(Some(row), req, ports, ans);
            && (d.Go? <==> CheckedSame(row, req))
            && (d.Go? ==> d == Go(Restored(row, req), Restored(row, req).prompt, row.claim.actor, false))
            && (d.Replay? ==> row.dispatch.state.DispatchSent? && d.receiptID == row.dispatch.receiptID)
  {
    hide StableClaimActor, MatchesRawIntent, SameIntent, EffectiveClaimState, HasUnresolvedReservation;
    SameIntentByChecks(row, req);
    assert ChooseActor(Some(row), req) == Go(req, req.prompt, row.claim.actor, false);
    if req.recoveredIntentSHA256 != NoDigest && req.recoveredIntentSHA256 == StoredIntent(row) {
      RawIntentIgnoresPrompt(row, req.(intentSHA256 := StoredIntent(row)), row.dispatch.pendingPrompt, row.intent.beadTitle);
    }
  }

  // then by preflight,
  lemma SameAttemptPreflight(row: Assignment, req: AtomicRequest, ports: Ports, ans: Answers)
    requires CheckedSame(row, req) && row.intent.idempotencyKey == req.idempotencyKey
    ensures var d := RunPreflight(Some(row), Go(Restored(row, req), Restored(row, req).prompt, row.claim.actor, false),
                                  ports, ans);
            && !d.Replay?
            && (d.Go? <==> (ports.preflight ==> ans.preflight.Some? && ans.preflight.value.dispatchPrompt != ""
                                                && ans.preflight.value.durablePrompt != ""))
            && (d.Go? ==> d == Go(Restored(row, req).(prompt := Delivered(Some(row), req, ports, ans),
                                                      beadTitle := DurableTitle(Some(row), req, ports, ans)),
                                  Durable(Some(row), req, ports, ans), row.claim.actor, false))
  {
    hide MatchesRawIntent, EffectiveClaimState;
  }

  // and by the gates.
  lemma SameAttemptGates(row: Assignment, d: Decision, ports: Ports, ans: Answers, now: Time)
    requires d.Go? && row.intent.idempotencyKey == d.req.idempotencyKey && row.claim.actor == d.actor
    requires d.req.intentSHA256 != NoDigest && MatchesRawIntent(row, d.req)
    ensures var g := CheckGates(Some(row), d, ports, ans, now);
            && !g.Replay?
            && (g.Go? <==> && row.intent.beadTitle == d.req.beadTitle
                           && row.intent.promptSHA256 == PromptSHA256(d.durablePrompt)
                           && (ports.eligibility ==> ans.eligible)
                           && (d.req.requireReservation && !ports.reserver ==> HoldsUnexpiredLease(row, now)))
            && (g.Go? ==> g == d)
  {
    hide MatchesRawIntent, EffectiveReservationState;
    RawIntentIgnoresPrompt(row, d.req, d.durablePrompt, d.req.beadTitle);
    assert Persisted(d) == d.req.(prompt := d.durablePrompt, beadTitle := d.req.beadTitle);
  }

  lemma SameAttempt(row: Assignment, req: AtomicRequest, ports: Ports, ans: Answers, now: Time)
    requires WellKeyed(Some(row), req) && row.intent.idempotencyKey == req.idempotencyKey
    ensures var d := Decide(Some(row), req, ports, ans, now);
            && (d.Go? <==> MayStart(Some(row), req, ports, ans, now)) && (d.Go? ==> CarriesOn(d, Some(row), req, ports, ans))
            && (d.Replay? ==> row.dispatch.state.DispatchSent? && d.receiptID == row.dispatch.receiptID)
  {
    hide Decide, Checked, RunPreflight, CheckGates, MatchesRawIntent, HoldsUnexpiredLease, EffectiveClaimState,
      SameIntent, Delivered, Durable, DurableTitle;
    DecidedFromThere(Some(row), req, ports, ans, now);
    SameAttemptChecked(row, req, ports, ans);
    if CheckedSame(row, req) {
      SameAttemptPreflight(row, req, ports, ans);
      RestoredMatches(row, req);
      var ready := RunPreflight(Some(row), Checked(Some(row), req, ports, ans), ports, ans);
      if ready.Go? {
        RawIntentIgnoresPrompt(row, Restored(row, req), ready.req.prompt, ready.req.beadTitle);
        SameAttemptGates(row, ready, ports, ans, now);
      }
    }
  }

  lemma RestoredMatches(row: Assignment, req: AtomicRequest)
    requires CheckedSame(row, req) && req.intentSHA256 != NoDigest
    ensures MatchesRawIntent(row, Restored(row, req)) && Restored(row, req).intentSHA256 != NoDigest
  {
    hide MatchesRawIntent, SameIntent;
    SameIntentByChecks(row, req);
    if req.recoveredIntentSHA256 != NoDigest {
      RawIntentIgnoresPrompt(row, req.(intentSHA256 := StoredIntent(row)), row.dispatch.pendingPrompt, row.intent.beadTitle);
    }
  }

  predicate CheckedOther(row: Assignment, req: AtomicRequest, ports: Ports, ans: Answers) {
    || TakesOver(row, req)
    || Reopens(row, req, ports, ans)
  }

  // Under another key, first by the row alone,
  lemma OtherAttemptChecked(row: Assignment, req: AtomicRequest, ports: Ports, ans: Answers)
    requires WellKeyed(Some(row), req) && row.intent.idempotencyKey != req.idempotencyKey
    ensures var d := Checked(Some(row), req, ports, ans);
            && (d.Go? <==> CheckedOther(row, req, ports, ans)) && !d.Replay?
            && (d.Go? ==> d == Go(req.(beadTitle := if TakesOver(row, req) && req.beadTitle == "" then row.intent.beadTitle
                                                   else req.beadTitle),
                                  req.prompt, row.claim.actor, TakesOver(row, req)))
  {
    hide StableClaimActor, EffectiveClaimState, HasUnresolvedReservation;
  }

  // then by preflight and the gates.
  lemma OtherAttempt(row: Assignment, req: AtomicRequest, ports: Ports, ans: Answers, now: Time)
    requires WellKeyed(Some(row), req) && row.intent.idempotencyKey != req.idempotencyKey
    ensures var d := Decide(Some(row), req, ports, ans, now);
            && (d.Go? <==> MayStart(Some(row), req, ports, ans, now)) && (d.Go? ==> CarriesOn(d, Some(row), req, ports, ans))
            && !d.Replay?
  {
    hide Decide, Checked, EffectiveReservationState, EffectiveClaimState, HasUnresolvedReservation;
    DecidedFromThere(Some(row), req, ports, ans, now);
    OtherAttemptChecked(row, req, ports, ans);
  }

  /** The checks let an attempt start in exactly these cases, and it then goes on with exactly this. */
  lemma GoesExactlyWhen(prior: Option<Assignment>, req: AtomicRequest, ports: Ports, ans: Answers, now: Time)
    requires WellKeyed(prior, req)
    ensures var d := Decide(prior, req, ports, ans, now);
            && (d.Go? <==> MayStart(prior, req, ports, ans, now))
            && (d.Go? ==> CarriesOn(d, prior, req, ports, ans))
            && (d.Replay? ==> && prior.Some? && prior.value.intent.idempotencyKey == req.idempotencyKey
                              && prior.value.dispatch.state.DispatchSent? && d.receiptID == prior.value.dispatch.receiptID)
  {
    hide Decide, MayStart, CarriesOn;
    match prior
    case None => FirstAttempt(req, ports, ans, now);
    case Some(row) =>
      if row.intent.idempotencyKey == req.idempotencyKey {
        SameAttempt(row, req, ports, ans, now);
      } else {
        OtherAttempt(row, req, ports, ans, now);
      }
  }

  // ---------- Why an attempt is refused ----------

  /** Another attempt's row: who is told what. */
  lemma OtherAttemptRefused(row: Assignment, req: AtomicRequest, ports: Ports, ans: Answers, now: Time)
    requires WellKeyed(Some(row), req) && row.intent.idempotencyKey != req.idempotencyKey
    ensures var d := Decide(Some(row), req, ports, ans, now);
            if IsTerminal(row.status) && row.outbox.eventID != "" then d == Stop(ErrCompletionEventPending)
            else if req.replaceWorkingAssignment && !TakesOver(row, req.(recoveredIntentSHA256 := NoDigest)) then
              d == Stop(ErrWorkingReplacementNotAllowed)
            else if req.recoveredIntentSHA256 != NoDigest then d == Stop(ErrRecoveredIntent)
            else if req.replaceWorkingAssignment then true
            else if IsLive(row.status) || row.clear.state != ClearStateNone then d == Stop(ErrClaimConflict)
            else if HasUnresolvedReservation(row) then d == Stop(ErrReservationReleaseRequired)
            else (Reopens(row, req, ports, ans) || d == Stop(ErrTerminalAssignmentAttempt))
  {
    hide StableClaimActor, EffectiveReservationState, HasUnresolvedReservation, RunPreflight, CheckGates;
  }

  /** The attempt's own row, not recovered by checksum: who is told what, and who is replayed. */
  lemma SameAttemptRefused(row: Assignment, req: AtomicRequest, ports: Ports, ans: Answers, now: Time)
    requires WellKeyed(Some(row), req) && row.intent.idempotencyKey == req.idempotencyKey
    requires req.recoveredIntentSHA256 == NoDigest
    ensures var d := Decide(Some(row), req, ports, ans, now);
            if row.clear.state != ClearStateNone || EffectiveClaimState(row).ClaimFailed? then d == Stop(ErrClaimConflict)
            else if EffectiveClaimState(row).ClaimIneligible? then d == Stop(ErrClaimIneligible)
            else if IsTerminal(row.status) then d == Stop(ErrTerminalAssignmentAttempt)
            else if !SameIntent(row, req) then d == Stop(ErrIntentMismatch)
            else if row.dispatch.state.DispatchSending? then d == Stop(ErrDispatchOutcomeUnknown)
            else if row.dispatch.state.DispatchSent? then
              d == if row.dispatch.receiptID == "" then Stop(ErrDispatchOutcomeUnknown) else Replay(row.dispatch.receiptID)
            else !d.Replay?
  {
    hide StableClaimActor, MatchesRawIntent, SameIntent, EffectiveClaimState, RunPreflight, CheckGates;
    SameIntentByChecks(row, req);
    assert ChooseActor(Some(row), req) == Go(req, req.prompt, row.claim.actor, false);
    if CheckedSame(row, req) { SameAttempt(row, req, ports, ans, now); }
  }

  // Nothing before the gates asks the authorizer or the reserver.
  lemma OnlyGatesAsk(prior: Option<Assignment>, req: AtomicRequest, ports: Ports, granting: Ports, ans: Answers)
    requires granting == ports.(eligibility := granting.eligibility, reserver := granting.reserver)
    ensures Checked(prior, req, granting, ans) == Checked(prior, req, ports, ans)
    ensures var d := Checked(prior, req, ports, ans);
            d.Go? ==> RunPreflight(prior, d, granting, ans) == RunPreflight(prior, d, ports, ans)
  {
    hide ChooseActor, RecoverIntent, MatchesRawIntent, HasUnresolvedReservation, EffectiveClaimState;
  }

  /** An attempt that lacks only the authorizer's word is told so, */
  lemma OnlyUnauthorized(prior: Option<Assignment>, req: AtomicRequest, ports: Ports, ans: Answers, now: Time)
    requires WellKeyed(prior, req) && ports.eligibility && !ans.eligible
    requires MayStart(prior, req, ports.(eligibility := false), ans, now)
    ensures Decide(prior, req, ports, ans, now) == Stop(ErrNotAuthorized)
  {
    hide Decide, MayStart, Checked, RunPreflight, CarriesOn, MatchesIntent, EffectiveReservationState;
    GoesExactlyWhen(prior, req, ports.(eligibility := false), ans, now);
    OnlyGatesAsk(prior, req, ports, ports.(eligibility := false), ans);
    DecidedFromThere(prior, req, ports, ans, now);
    DecidedFromThere(prior, req, ports.(eligibility := false), ans, now);
  }

  /** and one that lacks only a reserver goes on just when the lease it stored is still good. */
  lemma OnlyNoReserver(prior: Option<Assignment>, req: AtomicRequest, ports: Ports, ans: Answers, now: Time)
    requires WellKeyed(prior, req) && req.requireReservation && !ports.reserver
    requires MayStart(prior, req, ports.(reserver := true), ans, now)
    ensures var sameKey := prior.Some? && prior.value.intent.idempotencyKey == req.idempotencyKey;
            Decide(prior, req, ports, ans, now)
            == if sameKey && HoldsUnexpiredLease(prior.value, now) then Decide(prior, req, ports.(reserver := true), ans, now)
               else if sameKey && ReservationOutcomeAmbiguous(prior.value) then Stop(ErrReservationOutcomeUnknown)
               else Stop(ErrReservationRequired)
  {
    hide Decide, MayStart, Checked, RunPreflight, MatchesIntent, EffectiveReservationState, Delivered, Durable,
      DurableTitle, TakesOver, IntentOf, ActorFor;
    GoesExactlyWhen(prior, req, ports.(reserver := true), ans, now);
    OnlyGatesAsk(prior, req, ports, ports.(reserver := true), ans);
    DecidedFromThere(prior, req, ports, ans, now);
    DecidedFromThere(prior, req, ports.(reserver := true), ans, now);
  }
}
