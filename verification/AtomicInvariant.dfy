/**
 The inductive invariant of the assignment protocol, first for one run and the row
 it works on. Everything here is local: AtomicSafety lifts it to all processes.
 */
module AtomicInvariant {
  import opened Wrappers
  import opened AssignmentTypes
  import opened AssignmentPolicy
  import opened AssignmentTransitions
  import opened AtomicMachine
  import opened AtomicProtocol

  // ---------- Rows ----------

  // Whether leases may exist that the row does not name.
  predicate OutcomeOpen(row: Assignment) {
    row.reservation.state.ReservationReserving? || row.reservation.state.ReservationUnknown?
  }

  // How status, clear record, dispatch and outbox go together.
  predicate LifecycleShape(row: Assignment) {
    && (row.clear.state.ClearStateLeasesReleased? ==> row.reservation.state.ReservationReleased? && !AssignmentHasHandles(row))
    && (row.clear.pendingTerminalStatus.Some? ==>
          && row.clear.state != ClearStateNone && IsLive(row.status)
          && (row.clear.pendingTerminalStatus.value.StatusCompleted? || row.clear.pendingTerminalStatus.value.StatusFailed?))
    && (row.outbox.eventID != "" && row.clear.state != ClearStateNone ==> row.clear.pendingTerminalStatus.Some?)
    && (row.clear.claimReleased ==> row.clear.pendingTerminalStatus.Some? && row.clear.state.ClearStateLeasesReleased?)
    && (row.status.StatusAssigned? || row.status.StatusWorking? ==> row.dispatch.state.DispatchSent?)
    && (row.dispatch.state.DispatchSent? ==> !row.status.StatusClaiming? && !row.status.StatusClaimed?)
    && ValidOutbox(row)
  }

  /** What every row the guarded operations write looks like. */
  predicate RowShape(row: Assignment) {
    && row.intent.idempotencyKey != "" && row.claim.actor != ""
    && IsPhysicalPane(row.intent.occupancyKey)
    && row.claim.state != ClaimUnset && row.reservation.state != ReservationUnset
    && LifecycleShape(row)
    && (!row.dispatch.state.DispatchPending? ==>
          row.claim.state.ClaimClaimed? && ValidClaimReceipt(ClaimFromAssignment(row), row.intent.beadID, row.claim.actor))
    && (!row.dispatch.state.DispatchPending? ==> !OutcomeOpen(row))
    && (row.dispatch.state.DispatchSent? ==> row.dispatch.receiptID != "")
  }

  predicate Lapsed(handles: set<Handle>, now: Time) {
    forall h :: h in handles ==> Expired(h, now)
  }

  predicate LapsedOrKnown(handles: set<Handle>, known: set<Handle>, now: Time) {
    forall h :: h in handles ==> Expired(h, now) || h in known
  }

  /** No handle the service returned for this row is lost: it is stored, it has lapsed, or the row
      itself says the outcome is still open. */
  predicate LeasesTracked(row: Assignment, outstanding: set<Handle>, now: Time) {
    match row.reservation.state
    case ReservationReserving => true
    case ReservationUnknown => true
    case ReservationReserved => LapsedOrKnown(outstanding, LeaseHandles(row.reservation.lease), now)
    case _ => Lapsed(outstanding, now)
  }

  // What a message says of the attempt it is sent for.
  predicate Addressed(message: Message, intent: Intent) {
    && message.beadID == intent.beadID && message.beadTitle == intent.beadTitle && message.target == intent.dispatchTarget
    && message.agentType == intent.agentType && message.agentName == intent.agentName
    && message.idempotencyKey == intent.idempotencyKey
  }

  /** The prompt the row stores is the one its intent was recorded for, and a row recorded as sent holds what transport
      answered to the last call, which was made for this very intent. */
  predicate DispatchTrue(intent: Intent, dispatch: Dispatch, last: Option<Call>) {
    && intent.promptSHA256
       == PromptSHA256(if dispatch.state.DispatchSent? then dispatch.promptSent else dispatch.pendingPrompt)
    && (dispatch.state.DispatchSent? ==>
          && dispatch.pendingPrompt == ""
          && last.Some? && last.value.answer == DispatchReceived(dispatch.receiptID) && Addressed(last.value.message, intent))
  }

  predicate DeliveredOnce(past: Past) {
    past.delivered <= 1 && (!past.attempted ==> past.delivered == 0)
  }

  predicate RowInv(row: Assignment, past: Past, now: Time) {
    && RowShape(row)
    && LeasesTracked(row, past.outstanding, now)
    && (!row.intent.reservationRequired ==> past.outstanding == {})
    && (Pending(row) ==> !past.attempted)
    && DeliveredOnce(past)
    && DispatchTrue(row.intent, row.dispatch, past.last)
  }

  // ---------- Runs ----------

  predicate RequestOk(run: Run) {
    && run.req.beadID != "" && run.req.idempotencyKey != "" && IsPhysicalPane(run.req.occupancyKey)
    && run.req.intentSHA256 != NoDigest
  }

  // The run's generation is the bead's live row.
  predicate OwnsRow(run: Run, row: Option<Assignment>) {
    && row.Some?
    && row.value.intent.idempotencyKey == run.req.idempotencyKey
    && row.value.generation == run.generation
    && row.value.claim.actor == run.actor
    && row.value.intent.occupancyKey == run.req.occupancyKey
    && row.value.intent.reservationRequired == run.req.requireReservation
    && IsLive(row.value.status)
    && row.value.clear.state.ClearStateNone?
  }

  // The stored intent is the one this request carries.
  predicate Describes(req: AtomicRequest, intent: Intent) {
    && Addressed(MessageFor(req), intent) && intent.promptSHA256 == PromptSHA256(req.prompt)
    && req.intentSHA256 == (if intent.intentSHA256 == NoDigest then intent.promptSHA256 else intent.intentSHA256)
    && req.allowReservationDiscovery == intent.reservationDiscovery && req.requestedPaths == intent.reservationInputPaths
  }

  predicate ClaimProved(run: Run, row: Assignment) {
    row.claim.state.ClaimClaimed? && ValidClaimReceipt(ClaimFromAssignment(row), run.req.beadID, run.actor)
  }

  predicate ReservationProved(run: Run, row: Assignment, validatedAt: Time) {
    run.req.requireReservation ==>
      row.reservation.state.ReservationReserved? && ValidLease(run.req, row.reservation.lease, validatedAt)
  }

  predicate Pending(row: Assignment) {
    row.dispatch.state.DispatchPending?
  }

  // Program points from the recorded intent to the end of the run.
  predicate AfterIntent(pc: Pc) {
    !pc.WaitCleanup? && !pc.WaitBead? && !pc.WaitTarget? && !pc.Load? && !pc.Finished?
    && !pc.BeginRelease? && !pc.CallRelease? && !pc.SettleRelease? && !pc.RecordIntent?
  }

  // Program points between the recorded claim and the recorded send intent or the send itself.
  predicate AfterClaim(pc: Pc) {
    pc.CheckReservation? || pc.CheckExpiry? || pc.InspectReservation? || pc.SettleReserveInspection?
    || pc.StartReservation? || pc.CallReserve? || pc.SettleReserve? || pc.StartDispatch? || pc.CallDispatch?
  }

  predicate SendRecorded(pc: Pc) {
    pc.CallDispatch? || pc.SettleDispatch?
  }

  predicate RunInv(run: Run, row: Option<Assignment>, past: Past, now: Time) {
    && (run.pc.BeginRelease? || run.pc.CallRelease? || run.pc.SettleRelease? || run.pc.RecordIntent? ==> run.actor != "")
    && (run.pc.CallRelease? || run.pc.SettleRelease? ==>
          row.Some? && row.value.clear.state.ClearStateReservationReleasing? && row.value.status.StatusWorking?)
    && (run.pc.SettleRelease? && run.pc.released ==> Lapsed(past.outstanding, now))
    && (run.pc.RecordIntent? && row.Some? && row.value.intent.idempotencyKey == run.req.idempotencyKey ==>
          IsLive(row.value.status) && Pending(row.value))
    && (AfterIntent(run.pc) ==>
          && OwnsRow(run, row) && Describes(PersistedRequest(run), row.value.intent)
          && (if SendRecorded(run.pc) then row.value.dispatch.state.DispatchSending? else Pending(row.value))
          && (AfterClaim(run.pc) ==> ClaimProved(run, row.value))
          && ClaimFacts(run, row.value)
          && ReservationFacts(run, row.value, past, now)
          && DispatchFacts(run, row.value, past, now))
  }

  predicate ClaimFacts(run: Run, row: Assignment) {
    && (run.pc.InspectClaim? || run.pc.SettleClaimInspection? ==>
          row.claim.state.ClaimClaiming? || row.claim.state.ClaimUnknown?)
    && (run.pc.StartClaim? ==> !row.claim.state.ClaimClaimed?)
    && (run.pc.CallClaim? || run.pc.SettleClaim? ==> row.claim.state.ClaimClaiming? && row.status.StatusClaiming?)
  }

  predicate ReservationFacts(run: Run, row: Assignment, past: Past, now: Time) {
    && (run.pc.CheckExpiry? ==>
          && ReservationProved(run, row, run.pc.validatedAt) && run.pc.validatedAt <= now
          && row.reservation.state.ReservationReserved?)
    && (run.pc.InspectReservation? ==> ReservationOutcomeAmbiguous(row))
    && (run.pc.SettleReserveInspection? && run.pc.leaseFound.ReserveInspectedReserved? ==>
          past.outstanding <= LeaseHandles(run.pc.leaseFound.lease))
    && (run.pc.SettleReserveInspection? && run.pc.leaseFound.ReserveInspectedAbsent? ==> past.outstanding == {})
    && (run.pc.StartReservation? || run.pc.CallReserve? ==> Lapsed(past.outstanding, now))
    && (run.pc.StartReservation? || run.pc.StartDispatch? ==> !OutcomeOpen(row))
    && (run.pc.CallReserve? ==> row.reservation.state.ReservationReserving?)
    && (run.pc.SettleReserve? ==> LapsedOrKnown(past.outstanding, LeaseHandles(run.pc.reserveAnswer.lease), now))
  }

  predicate DispatchFacts(run: Run, row: Assignment, past: Past, now: Time) {
    && (run.pc.StartDispatch? || run.pc.CallDispatch? ==>
          ReservationProved(run, row, run.pc.validatedAt) && run.pc.validatedAt <= now)
    && (run.pc.CallDispatch? ==> !past.attempted)
    && (run.pc.SettleDispatch? ==>
          && past.last.Some? && past.last.value.answer == run.pc.dispatchAnswer
          && past.last.value.message == MessageFor(run.req))
    && (run.pc.SettleDispatch? && run.pc.dispatchAnswer.DispatchNotActuated? ==> past.delivered == 0)
  }

  predicate LocalPre(run: Run, row: Option<Assignment>, past: Past, now: Time) {
    && RequestOk(run) && InCriticalSection(run) && !run.pc.Finished?
    && RunInv(run, row, past, now)
    && (row.Some? ==> row.value.intent.beadID == run.req.beadID && RowInv(row.value, past, now))
  }

  // Whether the step replaced the row by one of a new generation.
  predicate NewGeneration(row: Option<Assignment>, local: Local) {
    local.row.Some? && (row.None? || local.row.value.generation != row.value.generation)
  }

  function PastAfter(row: Option<Assignment>, past: Past, local: Local): Past {
    if NewGeneration(row, local) then NO_PAST
    else if local.event.Some? then Advance(past, local.event.value)
    else past
  }

  predicate SameTask(before: Run, after: Run) {
    && after.req.beadID == before.req.beadID && after.req.idempotencyKey == before.req.idempotencyKey
    && after.req.occupancyKey == before.req.occupancyKey && InCriticalSection(after)
    && (before.req.intentSHA256 != NoDigest ==> after.req.intentSHA256 != NoDigest)
  }

  /** What one step leaves behind: the invariant, and the frame facts other processes rely on. */
  predicate LocalPost(run: Run, row: Option<Assignment>, past: Past, now: Time, generation: nat, local: Local) {
    && SameTask(run, local.run)
    && RunInv(local.run, local.row, PastAfter(row, past, local), now)
    && (row.Some? ==> local.row.Some?)
    && (local.row.Some? ==>
          local.row.value.intent.beadID == run.req.beadID && RowInv(local.row.value, PastAfter(row, past, local), now))
    && (local.event.Some? ==> row.Some? && local.event.value.generation == row.value.generation)
    && (local.event.Some? && local.event.value.DispatchCalled? ==> !past.attempted)
    && (NewGeneration(row, local) ==>
          && local.row.value.generation == generation && local.event.None?
          && (row.Some? ==> Lapsed(past.outstanding, now)))
    && (local.row.Some? && IsLive(local.row.value.status) ==>
          || local.row.value.intent.occupancyKey == run.req.occupancyKey
          || (row.Some? && IsLive(row.value.status) && local.row.value.intent.occupancyKey == row.value.intent.occupancyKey))
    && (run.pc.Load? ==> local.row == row)
    && (row.Some? ==> OutboxKept(row.value, local))
  }

  // Only a replacement of a working row can take a pending completion event away.
  predicate OutboxKept(row: Assignment, local: Local)
    requires local.row.Some?
  {
    || local.row.value.outbox == row.outbox
    || (local.row.value.generation != row.generation && (row.outbox.eventID == "" || row.status.StatusWorking?))
  }

  // ---------- Local preservation, one group of program points at a time ----------

  // Decide never changes what the locks were taken for, and it always settles on an actor.
  predicate SameIdentity(req: AtomicRequest, d: Decision)
    requires d.Go?
  {
    && d.req.beadID == req.beadID && d.req.idempotencyKey == req.idempotencyKey
    && d.req.occupancyKey == req.occupancyKey && (req.intentSHA256 != NoDigest ==> d.req.intentSHA256 != NoDigest)
    && d.actor != ""
  }

  predicate KeepsActor(prior: Option<Assignment>, d: Decision)
    requires d.Go?
  {
    prior.Some? && prior.value.intent.idempotencyKey == d.req.idempotencyKey ==> prior.value.claim.actor == d.actor
  }

  predicate Resumable(prior: Option<Assignment>, d: Decision)
    requires d.Go?
  {
    prior.Some? && prior.value.intent.idempotencyKey == d.req.idempotencyKey ==>
      !IsTerminal(prior.value.status) && Pending(prior.value)
  }

  lemma ChooseActorIdentity(prior: Option<Assignment>, req: AtomicRequest)
    requires prior.Some? ==> prior.value.claim.actor != ""
    ensures var d := ChooseActor(prior, req); d.Go? ==> SameIdentity(req, d) && KeepsActor(prior, d)
  {
  }

  lemma RecoverIntentIdentity(prior: Option<Assignment>, req: AtomicRequest, d: Decision)
    requires d.Go? && SameIdentity(req, d) && KeepsActor(prior, d)
    ensures var r := RecoverIntent(prior, d); r.Go? ==> SameIdentity(req, r) && KeepsActor(prior, r)
  {
  }

  lemma CheckPriorIdentity(prior: Option<Assignment>, req: AtomicRequest, d: Decision, ports: Ports, ans: Answers)
    requires d.Go? && SameIdentity(req, d) && KeepsActor(prior, d)
    ensures var c := CheckPrior(prior, d, ports, ans);
            c.Go? ==> SameIdentity(req, c) && KeepsActor(prior, c) && Resumable(prior, c)
  {
  }

  lemma GatesIdentity(prior: Option<Assignment>, req: AtomicRequest, d: Decision, ports: Ports, ans: Answers, now: Time)
    requires d.Go? && SameIdentity(req, d) && KeepsActor(prior, d) && Resumable(prior, d)
    ensures var p := RunPreflight(prior, d, ports, ans);
            p.Go? ==> SameIdentity(req, p) && KeepsActor(prior, p) && Resumable(prior, p)
                      && (CheckGates(prior, p, ports, ans, now).Go? ==> CheckGates(prior, p, ports, ans, now) == p)
  {
  }

  lemma DecideKeepsIdentity(prior: Option<Assignment>, req: AtomicRequest, ports: Ports, ans: Answers, now: Time)
    requires prior.Some? ==> prior.value.claim.actor != ""
    ensures var d := Decide(prior, req, ports, ans, now);
            d.Go? ==> SameIdentity(req, d) && KeepsActor(prior, d) && Resumable(prior, d)
  {
    hide ChooseActor, RecoverIntent, CheckPrior, RunPreflight, CheckGates;
    ChooseActorIdentity(prior, req);
    var chosen := ChooseActor(prior, req);
    if chosen.Go? {
      RecoverIntentIdentity(prior, req, chosen);
      var recovered := RecoverIntent(prior, chosen);
      if recovered.Go? {
        CheckPriorIdentity(prior, req, recovered, ports, ans);
        var checked := CheckPrior(prior, recovered, ports, ans);
        if checked.Go? {
          GatesIdentity(prior, req, checked, ports, ans, now);
        }
      }
    }
  }

  // A step that only reads.
  lemma ReadOnlyStep(run: Run, row: Option<Assignment>, past: Past, now: Time, n: nat, local: Local)
    requires LocalPre(run, row, past, now)
    requires local.row == row && local.event.None? && SameTask(run, local.run)
    requires RunInv(local.run, row, past, now)
    ensures LocalPost(run, row, past, now, n, local)
  {
    hide RunInv, RowInv;
  }

  // A step that rewrites the row of its own generation and touches no port.
  lemma RewriteStep(run: Run, row: Assignment, past: Past, now: Time, n: nat, local: Local)
    requires LocalPre(run, Some(row), past, now) && !run.pc.Load?
    requires local.row.Some? && local.event.None? && SameTask(run, local.run)
    requires local.row.value.generation == row.generation && local.row.value.intent == row.intent
    requires local.row.value.outbox == row.outbox
    requires IsLive(local.row.value.status) ==> IsLive(row.status)
    requires RowInv(local.row.value, past, now)
    requires RunInv(local.run, local.row, past, now)
    ensures LocalPost(run, Some(row), past, now, n, local)
  {
    hide RunInv, RowInv;
  }

  // A step that calls a port and leaves the row alone.
  lemma PortStep(run: Run, row: Assignment, past: Past, now: Time, n: nat, local: Local, e: Event)
    requires LocalPre(run, Some(row), past, now)
    requires local.row == Some(row) && local.event == Some(e) && e.generation == row.generation && SameTask(run, local.run)
    requires e.DispatchCalled? ==> !past.attempted
    requires RowInv(row, Advance(past, e), now)
    requires RunInv(local.run, Some(row), Advance(past, e), now)
    ensures LocalPost(run, Some(row), past, now, n, local)
  {
    hide RunInv, RowInv;
  }

  lemma LoadKeeps(run: Run, row: Option<Assignment>, blocked: bool, ans: Answers, past: Past, now: Time, n: nat)
    requires LocalPre(run, row, past, now) && run.pc.Load?
    ensures LocalPost(run, row, past, now, n, LoadStep(run, blocked, row, ans, now))
  {
    hide LocalPost, Decide;
    DecideKeepsIdentity(row, run.req, run.ports, ans, now);
    ReadOnlyStep(run, row, past, now, n, LoadStep(run, blocked, row, ans, now));
  }

  lemma BeginReleaseKeeps(run: Run, row: Assignment, ans: Answers, past: Past, now: Time, n: nat)
    requires LocalPre(run, Some(row), past, now) && run.pc.BeginRelease?
    ensures LocalPost(run, Some(row), past, now, n, BeginReleaseStep(run, row, ans))
  {
    hide LocalPost, DispatchTrue, Describes;
    var local := BeginReleaseStep(run, row, ans);
    if local.row == Some(row) {
      ReadOnlyStep(run, Some(row), past, now, n, local);
    } else {
      RewriteStep(run, row, past, now, n, local);
    }
  }

  /** A valid release receipt leaves nothing live outstanding of a row that was sent: such a row names every live lease,
      and the receipt must name every path and ID of the row. */
  lemma ValidReceiptReleasesAll(row: Assignment, past: Past, paths: seq<string>, ids: seq<int>, now: Time)
    requires RowInv(row, past, now) && !Pending(row) && ValidReleaseReceipt(row, paths, ids)
    ensures Lapsed(Advance(past, ReleaseConfirmed(row.generation, Elements(paths), Elements(ids))).outstanding, now)
  {
    hide ValidClaimReceipt, IsPhysicalPane, ValidOutbox;
  }

  lemma WorkingRowWasSent(row: Assignment, past: Past, now: Time)
    requires RowInv(row, past, now) && row.status.StatusWorking?
    ensures !Pending(row)
  {
    hide LeasesTracked, ValidOutbox;
  }

  // Fewer outstanding handles are as well accounted for.
  lemma FewerLeasesKeepRow(row: Assignment, past: Past, fewer: set<Handle>, now: Time)
    requires RowInv(row, past, now) && fewer <= past.outstanding
    ensures RowInv(row, past.(outstanding := fewer), now)
  {
    hide RowShape;
  }

  lemma CallReleaseKeeps(run: Run, row: Assignment, ans: Answers, past: Past, now: Time, n: nat)
    requires LocalPre(run, Some(row), past, now) && run.pc.CallRelease?
    ensures LocalPost(run, Some(row), past, now, n, CallReleaseStep(run, row, ans))
  {
    hide LocalPost, RowInv, Lapsed, ValidReleaseReceipt;
    var local := CallReleaseStep(run, row, ans);
    if local.event.None? {
      ReadOnlyStep(run, Some(row), past, now, n, local);
    } else {
      WorkingRowWasSent(row, past, now);
      ValidReceiptReleasesAll(row, past, ans.release.paths, ans.release.ids, now);
      FewerLeasesKeepRow(row, past, Advance(past, local.event.value).outstanding, now);
      PortStep(run, row, past, now, n, local, local.event.value);
    }
  }

  lemma SettleReleaseKeeps(run: Run, row: Assignment, past: Past, now: Time, n: nat)
    requires LocalPre(run, Some(row), past, now) && run.pc.SettleRelease?
    ensures LocalPost(run, Some(row), past, now, n, SettleReleaseStep(run, row, run.pc.released))
  {
    hide LocalPost, DispatchTrue, Describes;
    var local := SettleReleaseStep(run, row, run.pc.released);
    if local.row == Some(row) {
      ReadOnlyStep(run, Some(row), past, now, n, local);
    } else {
      RewriteStep(run, row, past, now, n, local);
    }
  }

  // A row may be replaced only when none of its lease handles is still live.
  lemma ReplacedRowHasNoLeases(row: Assignment, past: Past, now: Time, req: AtomicRequest, actor: string, n: nat)
    requires RowInv(row, past, now)
    requires row.intent.idempotencyKey != req.idempotencyKey && IntentRecorded(Some(row), req, actor, n).Ok?
    ensures Lapsed(past.outstanding, now)
    ensures row.outbox.eventID == "" || row.status.StatusWorking?
  {
  }

  lemma NewRowInv(req: AtomicRequest, actor: string, n: nat, retryCount: nat, now: Time)
    requires req.idempotencyKey != "" && actor != "" && IsPhysicalPane(req.occupancyKey)
    ensures RowInv(NewRow(req, actor, n, retryCount), NO_PAST, now)
  {
  }

  // An intent recorded under the row's own key keeps the row, its actor and its pane.
  lemma ResumedRow(row: Assignment, past: Past, now: Time, req: AtomicRequest, actor: string, n: nat)
    requires RowInv(row, past, now)
    requires row.intent.idempotencyKey == req.idempotencyKey && IntentRecorded(Some(row), req, actor, n).Ok?
    requires IsPhysicalPane(req.occupancyKey)
    ensures var r := IntentRecorded(Some(row), req, actor, n).value;
            && r == row.(claim := row.claim.(requiresNonTerminal := true)) && RowInv(r, past, now)
            && row.claim.actor == actor && row.intent.occupancyKey == req.occupancyKey && row.clear.state.ClearStateNone?
            && row.intent.reservationRequired == req.requireReservation
    ensures row.intent.beadID == req.beadID && req.intentSHA256 != NoDigest ==> Describes(req, row.intent)
  {
    hide DispatchTrue;
  }

  lemma RecordIntentKeeps(run: Run, row: Option<Assignment>, past: Past, now: Time, n: nat)
    requires LocalPre(run, row, past, now) && run.pc.RecordIntent?
    requires row.Some? ==> row.value.generation < n
    ensures LocalPost(run, row, past, now, n, RecordIntentStep(run, row, n))
  {
    hide RowInv, MatchesIntent;
    var req := PersistedRequest(run);
    var local := RecordIntentStep(run, row, n);
    if IntentRecorded(row, req, run.actor, n).Err? {
      ReadOnlyStep(run, row, past, now, n, local);
    } else if row.Some? && row.value.intent.idempotencyKey == req.idempotencyKey {
      ResumedRow(row.value, past, now, req, run.actor, n);
      RewriteStep(run, row.value, past, now, n, local);
    } else {
      if row.Some? { ReplacedRowHasNoLeases(row.value, past, now, req, run.actor, n); }
      NewRowInv(req, run.actor, n, local.row.value.retryCount, now);
    }
  }

  lemma CheckClaimKeeps(run: Run, row: Assignment, past: Past, now: Time, n: nat)
    requires LocalPre(run, Some(row), past, now) && run.pc.CheckClaim?
    ensures LocalPost(run, Some(row), past, now, n, CheckClaimStep(run, row))
  {
    hide LocalPost, DispatchTrue, Describes;
    ReadOnlyStep(run, Some(row), past, now, n, CheckClaimStep(run, row));
  }

  lemma StartClaimKeeps(run: Run, row: Assignment, past: Past, now: Time, n: nat)
    requires LocalPre(run, Some(row), past, now) && run.pc.StartClaim?
    ensures LocalPost(run, Some(row), past, now, n, Goto(run, CallClaim, Some(ClaimStarted(row))))
  {
    hide LocalPost, DispatchTrue, Describes;
    RewriteStep(run, row, past, now, n, Goto(run, CallClaim, Some(ClaimStarted(row))));
  }

  // A row not yet sent and not being cleared may be given any claim,
  lemma ClaimMayChange(row: Assignment, status: AssignmentStatus, claim: Claim)
    requires RowShape(row) && row.clear.state.ClearStateNone? && Pending(row) && IsLive(row.status)
    requires (claim.actor == row.claim.actor || claim.actor != "") && claim.state != ClaimUnset
    requires status == row.status || status.StatusClaiming? || status.StatusClaimed? || status.StatusFailed?
    ensures RowShape(row.(status := status, claim := claim))
  {
    hide IsPhysicalPane;
  }

  lemma OtherFieldsDoNotTrack(row: Assignment, after: Assignment, outstanding: set<Handle>, now: Time)
    requires LeasesTracked(row, outstanding, now) && after.reservation == row.reservation
    ensures LeasesTracked(after, outstanding, now)
  {
    hide LeaseHandles;
  }

  // and any reservation.
  lemma ReservationMayChange(row: Assignment, reservation: Reservation)
    requires RowShape(row) && row.clear.state.ClearStateNone? && Pending(row) && reservation.state != ReservationUnset
    ensures RowShape(row.(reservation := reservation))
  {
    hide IsPhysicalPane;
  }

  lemma NoHandles(lease: LeaseReceipt)
    ensures !LeaseHasHandles(lease) ==> LeaseHandles(lease) == {}
  {
  }

  lemma UncertainKeepsRow(row: Assignment, error: Error, past: Past, now: Time)
    requires RowInv(row, past, now) && row.clear.state.ClearStateNone? && Pending(row) && IsLive(row.status)
    ensures var after := ClaimUncertain(row, error);
            && RowInv(after, past, now)
            && after.generation == row.generation && after.intent == row.intent && after.outbox == row.outbox
            && (IsLive(after.status) ==> IsLive(row.status))
  {
    hide RowShape, LeasesTracked;
    var after := ClaimUncertain(row, error);
    ClaimMayChange(row, after.status, after.claim);
    OtherFieldsDoNotTrack(row, after, past.outstanding, now);
    assert after == row.(status := after.status, claim := after.claim);
  }

  lemma RefuseClaimKeeps(run: Run, row: Assignment, error: Error, past: Past, now: Time, n: nat)
    requires LocalPre(run, Some(row), past, now) && (run.pc.SettleClaim? || run.pc.SettleClaimInspection?)
    ensures LocalPost(run, Some(row), past, now, n, RefuseClaim(run, row, error))
  {
    hide LocalPost, RowInv, ClaimUncertain;
    UncertainKeepsRow(row, error, past, now);
    RewriteStep(run, row, past, now, n, RefuseClaim(run, row, error));
  }

  lemma AcceptClaimKeeps(run: Run, row: Assignment, receipt: ClaimReceipt, past: Past, now: Time, n: nat)
    requires LocalPre(run, Some(row), past, now) && (run.pc.SettleClaim? || run.pc.SettleClaimInspection?)
    ensures LocalPost(run, Some(row), past, now, n, AcceptClaim(run, row, receipt))
  {
    hide LocalPost, RowShape, LeasesTracked, MatchesIntent, DispatchTrue, Describes;
    var local := AcceptClaim(run, row, receipt);
    if !ValidClaimReceipt(receipt, run.req.beadID, run.actor) {
      RefuseClaimKeeps(run, row, ErrClaimOutcomeUnknown, past, now, n);
    } else if local.row == Some(row) {
      ReadOnlyStep(run, Some(row), past, now, n, local);
    } else {
      ClaimMayChange(row, StatusClaimed, local.row.value.claim);
      OtherFieldsDoNotTrack(row, local.row.value, past.outstanding, now);
      RewriteStep(run, row, past, now, n, local);
    }
  }

  lemma SettleClaimInspectionKeeps(run: Run, row: Assignment, past: Past, now: Time, n: nat)
    requires LocalPre(run, Some(row), past, now) && run.pc.SettleClaimInspection?
    ensures LocalPost(run, Some(row), past, now, n, SettleClaimInspectionStep(run, row, run.pc.claimFound))
  {
    hide LocalPost, RefuseClaim, AcceptClaim, DispatchTrue, Describes;
    match run.pc.claimFound
    case ClaimInspectionFailed => RefuseClaimKeeps(run, row, ErrClaimOutcomeUnknown, past, now, n);
    case ClaimInspectedOwned(receipt) => AcceptClaimKeeps(run, row, receipt, past, now, n);
    case ClaimInspectedConflict => RefuseClaimKeeps(run, row, ErrClaimConflict, past, now, n);
    case ClaimInspectedAbsent => ReadOnlyStep(run, Some(row), past, now, n, Goto(run, StartClaim, Some(row)));
    case ClaimInspectedUnknown => RefuseClaimKeeps(run, row, ErrClaimOutcomeUnknown, past, now, n);
  }

  lemma SettleClaimKeeps(run: Run, row: Assignment, past: Past, now: Time, n: nat)
    requires LocalPre(run, Some(row), past, now) && run.pc.SettleClaim?
    ensures LocalPost(run, Some(row), past, now, n, SettleClaimStep(run, row, run.pc.claimAnswer))
  {
    hide LocalPost, RefuseClaim, AcceptClaim;
    match run.pc.claimAnswer
    case ClaimRefused(error) => RefuseClaimKeeps(run, row, error, past, now, n);
    case ClaimReceived(receipt) => AcceptClaimKeeps(run, row, receipt, past, now, n);
  }

  lemma CheckReservationKeeps(run: Run, row: Assignment, past: Past, now: Time, n: nat)
    requires LocalPre(run, Some(row), past, now) && run.pc.CheckReservation?
    ensures LocalPost(run, Some(row), past, now, n, CheckReservationStep(run, row, now))
  {
    hide LocalPost, ValidRequiredLease, DispatchTrue, Describes;
    var local := CheckReservationStep(run, row, now);
    if local.row == Some(row) {
      ReadOnlyStep(run, Some(row), past, now, n, local);
    } else {
      RewriteStep(run, row, past, now, n, local);
    }
  }

  lemma CheckExpiryKeeps(run: Run, row: Assignment, past: Past, now: Time, n: nat)
    requires LocalPre(run, Some(row), past, now) && run.pc.CheckExpiry?
    ensures LocalPost(run, Some(row), past, now, n, CheckExpiryStep(run, row, run.pc.validatedAt, now))
  {
    hide LocalPost, DispatchTrue, Describes;
    ReadOnlyStep(run, Some(row), past, now, n, CheckExpiryStep(run, row, run.pc.validatedAt, now));
  }

  lemma InspectReservationKeeps(run: Run, row: Assignment, ans: Answers, past: Past, now: Time, n: nat)
    requires LocalPre(run, Some(row), past, now) && run.pc.InspectReservation?
    ensures LocalPost(run, Some(row), past, now, n, InspectReservationStep(run, Some(row), ans))
  {
    hide LocalPost, DispatchTrue, Describes;
    var local := InspectReservationStep(run, Some(row), ans);
    if local.event.None? {
      ReadOnlyStep(run, Some(row), past, now, n, local);
    } else {
      PortStep(run, row, past, now, n, local, local.event.value);
    }
  }

  // A lease whose handles cover everything outstanding may be stored under any outcome.
  lemma SettleLeaseKeeps(run: Run, row: Assignment, lease: LeaseReceipt, past: Past, now: Time, n: nat)
    requires LocalPre(run, Some(row), past, now) && (run.pc.SettleReserve? || run.pc.SettleReserveInspection?)
    requires LapsedOrKnown(past.outstanding, LeaseHandles(lease), now)
    ensures LocalPost(run, Some(row), past, now, n, SettleLease(run, row, lease, now))
  {
    hide LocalPost, ValidLease, RowShape, LeaseHandles, DispatchTrue, Describes;
    var local := SettleLease(run, row, lease, now);
    ReservationMayChange(row, local.row.value.reservation);
    NoHandles(lease);
    RewriteStep(run, row, past, now, n, local);
  }

  lemma SettleReserveInspectionKeeps(run: Run, row: Assignment, past: Past, now: Time, n: nat)
    requires LocalPre(run, Some(row), past, now) && run.pc.SettleReserveInspection?
    ensures LocalPost(run, Some(row), past, now, n, SettleReserveInspectionStep(run, row, run.pc.leaseFound, now))
  {
    hide LocalPost, ValidRequiredLease, SettleLease, DispatchTrue, Describes;
    if run.pc.leaseFound.ReserveInspectedReserved? {
      SettleLeaseKeeps(run, row, run.pc.leaseFound.lease, past, now, n);
    } else {
      RewriteStep(run, row, past, now, n, SettleReserveInspectionStep(run, row, run.pc.leaseFound, now));
    }
  }

  lemma StartReservationKeeps(run: Run, row: Assignment, past: Past, now: Time, n: nat)
    requires LocalPre(run, Some(row), past, now) && run.pc.StartReservation?
    ensures LocalPost(run, Some(row), past, now, n, StartReservationStep(run, row, now))
  {
    hide LocalPost, DispatchTrue, Describes;
    var local := StartReservationStep(run, row, now);
    if local.row == Some(row) {
      ReadOnlyStep(run, Some(row), past, now, n, local);
    } else {
      RewriteStep(run, row, past, now, n, local);
    }
  }

  lemma CallReserveKeeps(run: Run, row: Assignment, ans: Answers, past: Past, now: Time, n: nat)
    requires LocalPre(run, Some(row), past, now) && run.pc.CallReserve?
    ensures LocalPost(run, Some(row), past, now, n, CallReserveStep(run, Some(row), ans))
  {
    hide LocalPost, DispatchTrue, Describes;
    var local := CallReserveStep(run, Some(row), ans);
    PortStep(run, row, past, now, n, local, local.event.value);
  }

  lemma SettleReserveKeeps(run: Run, row: Assignment, past: Past, now: Time, n: nat)
    requires LocalPre(run, Some(row), past, now) && run.pc.SettleReserve?
    ensures LocalPost(run, Some(row), past, now, n, SettleReserveStep(run, row, run.pc.reserveAnswer, now))
  {
    hide LocalPost, ValidRequiredLease, SettleLease, DispatchTrue, Describes;
    if run.pc.reserveAnswer.ReserveGranted? {
      SettleLeaseKeeps(run, row, run.pc.reserveAnswer.lease, past, now, n);
    } else {
      RewriteStep(run, row, past, now, n, SettleReserveStep(run, row, run.pc.reserveAnswer, now));
    }
  }

  lemma StartDispatchKeeps(run: Run, row: Assignment, past: Past, now: Time, n: nat)
    requires LocalPre(run, Some(row), past, now) && run.pc.StartDispatch?
    ensures LocalPost(run, Some(row), past, now, n, StartDispatchStep(run, row, run.pc.validatedAt))
  {
    hide LocalPost, ValidLease, Describes;
    RewriteStep(run, row, past, now, n, StartDispatchStep(run, row, run.pc.validatedAt));
  }

  lemma CallDispatchKeeps(run: Run, row: Assignment, ans: Answers, delivered: bool, past: Past, now: Time, n: nat)
    requires LocalPre(run, Some(row), past, now) && run.pc.CallDispatch?
    requires ans.dispatch.DispatchNotActuated? ==> !delivered
    ensures LocalPost(run, Some(row), past, now, n, CallDispatchStep(run, row, ans, delivered))
  {
    hide LocalPost;
    var local := CallDispatchStep(run, row, ans, delivered);
    PortStep(run, row, past, now, n, local, local.event.value);
  }

  // A delivered send may be recorded with the receipt it was answered,
  lemma SentKeepsRow(row: Assignment, prompt: string, receiptID: string, past: Past, now: Time)
    requires RowInv(row, past, now) && row.dispatch.state.DispatchSending? && row.clear.state.ClearStateNone?
    requires IsLive(row.status) && receiptID != "" && row.intent.promptSHA256 == PromptSHA256(prompt)
    requires past.last.Some? && past.last.value.answer == DispatchReceived(receiptID)
             && Addressed(past.last.value.message, row.intent)
    ensures RowInv(DispatchDelivered(row, prompt, receiptID), past, now)
  {
    hide IsPhysicalPane, Lapsed, LapsedOrKnown;
  }

  // and a harmless one closes the attempt.
  lemma HarmlessKeepsRow(row: Assignment, past: Past, now: Time)
    requires RowInv(row, past, now) && row.dispatch.state.DispatchSending? && past.delivered == 0
    requires !row.status.StatusAssigned? && !row.status.StatusWorking?
    ensures RowInv(DispatchFailed(row), past.(attempted := false), now)
  {
    hide IsPhysicalPane, Lapsed, LapsedOrKnown;
  }

  lemma SendingIsNotSent(row: Assignment, past: Past, now: Time)
    requires RowInv(row, past, now) && row.dispatch.state.DispatchSending?
    ensures !row.status.StatusAssigned? && !row.status.StatusWorking?
  {
    hide LeasesTracked, ValidOutbox;
  }

  lemma SettleDispatchKeeps(run: Run, row: Assignment, past: Past, now: Time, n: nat)
    requires LocalPre(run, Some(row), past, now) && run.pc.SettleDispatch?
    ensures LocalPost(run, Some(row), past, now, n, SettleDispatchStep(run, row, run.pc.dispatchAnswer))
  {
    hide RowInv, DispatchDelivered, DispatchFailed, Advance;
    var local := SettleDispatchStep(run, row, run.pc.dispatchAnswer);
    SendingIsNotSent(row, past, now);
    match run.pc.dispatchAnswer
    case DispatchErrored => ReadOnlyStep(run, Some(row), past, now, n, local);
    case DispatchReceived(receiptID) =>
      if receiptID == "" {
        ReadOnlyStep(run, Some(row), past, now, n, local);
      } else {
        SentKeepsRow(row, run.durablePrompt, receiptID, past, now);
        DeliveredRow(row, run.durablePrompt, receiptID);
        RewriteStep(run, row, past, now, n, local);
      }
    case DispatchNotActuated =>
      HarmlessKeepsRow(row, past, now);
      HarmlessRow(row, past, run.generation);
  }

  lemma DeliveredRow(row: Assignment, prompt: string, receiptID: string)
    ensures var after := DispatchDelivered(row, prompt, receiptID);
            after.generation == row.generation && after.intent == row.intent && after.outbox == row.outbox
  {
  }

  lemma HarmlessRow(row: Assignment, past: Past, g: nat)
    ensures var after := DispatchFailed(row);
            after.generation == row.generation && after.intent == row.intent && after.outbox == row.outbox
                && after.status == row.status
    ensures Advance(past, NoActuationRecorded(g)) == past.(attempted := false)
  {
  }

  // ---------- Every step ----------

  lemma StepOnRowKeeps(run: Run, row: Assignment, ans: Answers, delivered: bool, past: Past, now: Time, n: nat)
    requires LocalPre(run, Some(row), past, now) && AfterIntent(run.pc)
    requires ans.dispatch.DispatchNotActuated? ==> !delivered
    ensures LocalPost(run, Some(row), past, now, n, StepOnRow(run, row, ans, now, delivered))
  {
    hide LocalPost, RowInv, CheckClaimStep, SettleClaimInspectionStep, SettleClaimStep, CheckReservationStep,
      CheckExpiryStep, InspectReservationStep, SettleReserveInspectionStep, StartReservationStep, CallReserveStep,
      SettleReserveStep, StartDispatchStep, CallDispatchStep, SettleDispatchStep, ClaimStarted;
    match run.pc
    case CheckClaim => CheckClaimKeeps(run, row, past, now, n);
    case InspectClaim =>
      ReadOnlyStep(run, Some(row), past, now, n, Goto(run, SettleClaimInspection(ans.claimInspection), Some(row)));
    case SettleClaimInspection(_) => SettleClaimInspectionKeeps(run, row, past, now, n);
    case StartClaim => StartClaimKeeps(run, row, past, now, n);
    case CallClaim => ReadOnlyStep(run, Some(row), past, now, n, Goto(run, SettleClaim(ans.claim), Some(row)));
    case SettleClaim(_) => SettleClaimKeeps(run, row, past, now, n);
    case CheckReservation => CheckReservationKeeps(run, row, past, now, n);
    case CheckExpiry(_) => CheckExpiryKeeps(run, row, past, now, n);
    case InspectReservation => InspectReservationKeeps(run, row, ans, past, now, n);
    case SettleReserveInspection(_) => SettleReserveInspectionKeeps(run, row, past, now, n);
    case StartReservation => StartReservationKeeps(run, row, past, now, n);
    case CallReserve => CallReserveKeeps(run, row, ans, past, now, n);
    case SettleReserve(_) => SettleReserveKeeps(run, row, past, now, n);
    case StartDispatch(_) => StartDispatchKeeps(run, row, past, now, n);
    case CallDispatch(_) => CallDispatchKeeps(run, row, ans, delivered, past, now, n);
    case SettleDispatch(_) => SettleDispatchKeeps(run, row, past, now, n);
  }

  lemma ExecStepKeeps(run: Run, blocked: bool, row: Option<Assignment>, ans: Answers, delivered: bool, past: Past,
                      now: Time, n: nat)
    requires LocalPre(run, row, past, now)
    requires row.Some? ==> row.value.generation < n
    requires ans.dispatch.DispatchNotActuated? ==> !delivered
    ensures LocalPost(run, row, past, now, n, ExecStep(run, blocked, row, ans, now, delivered, n))
  {
    hide LocalPost, RowInv, LoadStep, RecordIntentStep, BeginReleaseStep, CallReleaseStep, SettleReleaseStep, StepOnRow;
    if run.pc.Load? {
      LoadKeeps(run, row, blocked, ans, past, now, n);
    } else if run.pc.RecordIntent? {
      RecordIntentKeeps(run, row, past, now, n);
    } else if run.pc.BeginRelease? && row.None? {
      ReadOnlyStep(run, row, past, now, n, Fail(run, ErrWorkingReplacementNotAllowed, row));
    } else if run.pc.BeginRelease? {
      BeginReleaseKeeps(run, row.value, ans, past, now, n);
    } else if run.pc.CallRelease? {
      CallReleaseKeeps(run, row.value, ans, past, now, n);
    } else if run.pc.SettleRelease? {
      SettleReleaseKeeps(run, row.value, past, now, n);
    } else {
      StepOnRowKeeps(run, row.value, ans, delivered, past, now, n);
    }
  }
}
