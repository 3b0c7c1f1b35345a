/**
 The three-way merge of internal/assignment/store.go: each process saves only what
 it changed since its own snapshot, onto whatever is durable by then.
 */
module Merge {
  import opened Wrappers
  import opened AssignmentTypes
  import opened AssignmentPolicy

  // ---------- One row ----------

  // A field the caller did not change keeps its durable value.
  function Pick<T(==)>(latest: T, baseline: T, current: T): T {
    if current == baseline then latest else current
  }

  function StatusRank(status: AssignmentStatus): nat {
    match status
    case StatusClaiming => 1
    case StatusClaimed => 2
    case StatusAssigned => 3
    case StatusWorking => 4
    case _ => 5
  }

  predicate ShouldApplyStatus(baseline: AssignmentStatus, latest: AssignmentStatus, current: AssignmentStatus) {
    latest == baseline
    || (!IsTerminal(latest) && (IsTerminal(current) || StatusRank(current) > StatusRank(latest)))
  }

  function MergeIntent(l: Intent, b: Intent, c: Intent): Intent {
    Intent(Pick(l.beadID, b.beadID, c.beadID), Pick(l.beadTitle, b.beadTitle, c.beadTitle),
           Pick(l.agentType, b.agentType, c.agentType), Pick(l.agentName, b.agentName, c.agentName),
           Pick(l.idempotencyKey, b.idempotencyKey, c.idempotencyKey),
               Pick(l.dispatchTarget, b.dispatchTarget, c.dispatchTarget),
           Pick(l.occupancyKey, b.occupancyKey, c.occupancyKey), Pick(l.promptSHA256, b.promptSHA256, c.promptSHA256),
           Pick(l.intentSHA256, b.intentSHA256, c.intentSHA256),
           Pick(l.reservationRequired, b.reservationRequired, c.reservationRequired),
           Pick(l.reservationDiscovery, b.reservationDiscovery, c.reservationDiscovery),
           Pick(l.reservationInputPaths, b.reservationInputPaths, c.reservationInputPaths))
  }

  function MergeClaim(l: Claim, b: Claim, c: Claim): Claim {
    Claim(Pick(l.actor, b.actor, c.actor), Pick(l.state, b.state, c.state), Pick(l.status, b.status, c.status),
          Pick(l.attempts, b.attempts, c.attempts), Pick(l.claimedAt, b.claimedAt, c.claimedAt),
          Pick(l.requiresNonTerminal, b.requiresNonTerminal, c.requiresNonTerminal))
  }

  function MergeLease(l: LeaseReceipt, b: LeaseReceipt, c: LeaseReceipt): LeaseReceipt {
    LeaseReceipt(Pick(l.agentName, b.agentName, c.agentName), Pick(l.target, b.target, c.target),
                 Pick(l.requested, b.requested, c.requested), Pick(l.granted, b.granted, c.granted),
                 Pick(l.reservationIDs, b.reservationIDs, c.reservationIDs), Pick(l.expiresAt, b.expiresAt, c.expiresAt))
  }

  function MergeReservation(l: Reservation, b: Reservation, c: Reservation): Reservation {
    Reservation(Pick(l.state, b.state, c.state), Pick(l.attempts, b.attempts, c.attempts),
                Pick(l.completed, b.completed, c.completed), MergeLease(l.lease, b.lease, c.lease),
                Pick(l.failed, b.failed, c.failed))
  }

  function MergeDispatch(l: Dispatch, b: Dispatch, c: Dispatch): Dispatch {
    Dispatch(Pick(l.state, b.state, c.state), Pick(l.attempts, b.attempts, c.attempts),
             Pick(l.pendingPrompt, b.pendingPrompt, c.pendingPrompt), Pick(l.promptSent, b.promptSent, c.promptSent),
             Pick(l.receiptID, b.receiptID, c.receiptID))
  }

  function MergeClear(l: Clear, b: Clear, c: Clear): Clear {
    Clear(Pick(l.state, b.state, c.state), Pick(l.pendingTerminalStatus, b.pendingTerminalStatus, c.pendingTerminalStatus),
          Pick(l.pendingTerminalReason, b.pendingTerminalReason, c.pendingTerminalReason),
          Pick(l.claimReleased, b.claimReleased, c.claimReleased))
  }

  function MergeOutbox(l: Outbox, b: Outbox, c: Outbox): Outbox {
    Outbox(Pick(l.eventID, b.eventID, c.eventID), Pick(l.detectedAt, b.detectedAt, c.detectedAt),
           Pick(l.consumerToken, b.consumerToken, c.consumerToken), Pick(l.leaseExpiresAt, b.leaseExpiresAt, c.leaseExpiresAt))
  }

  /** The caller's changed fields over the durable row. Status and the fields that describe it move
      together: all of them when the caller's status change still applies, none when it is overtaken. */
  function MergeDelta(latest: Assignment, baseline: Assignment, current: Assignment): Assignment {
    var statusChanged := current.status != baseline.status;
    var applies := statusChanged && ShouldApplyStatus(baseline.status, latest.status, current.status);
    Assignment(
      Pick(latest.generation, baseline.generation, current.generation),
      MergeIntent(latest.intent, baseline.intent, current.intent),
      if applies then current.status else latest.status,
      if applies then current.failReason
      else if statusChanged then latest.failReason
      else Pick(latest.failReason, baseline.failReason, current.failReason),
      Pick(latest.retryCount, baseline.retryCount, current.retryCount),
      MergeClaim(latest.claim, baseline.claim, current.claim),
      MergeReservation(latest.reservation, baseline.reservation, current.reservation),
      MergeDispatch(latest.dispatch, baseline.dispatch, current.dispatch),
      MergeClear(latest.clear, baseline.clear, current.clear),
      MergeOutbox(latest.outbox, baseline.outbox, current.outbox))
  }

  lemma MergeIntentLaws(l: Intent, b: Intent, c: Intent)
    ensures MergeIntent(l, b, b) == l && MergeIntent(b, b, c) == c
              && MergeIntent(MergeIntent(l, b, c), b, c) == MergeIntent(l, b, c)
  {
  }

  lemma MergeClaimLaws(l: Claim, b: Claim, c: Claim)
    ensures MergeClaim(l, b, b) == l && MergeClaim(b, b, c) == c && MergeClaim(MergeClaim(l, b, c), b, c) == MergeClaim(l, b, c)
  {
  }

  lemma MergeReservationLaws(l: Reservation, b: Reservation, c: Reservation)
    ensures MergeReservation(l, b, b) == l && MergeReservation(b, b, c) == c
              && MergeReservation(MergeReservation(l, b, c), b, c) == MergeReservation(l, b, c)
  {
  }

  lemma MergeDispatchLaws(l: Dispatch, b: Dispatch, c: Dispatch)
    ensures MergeDispatch(l, b, b) == l && MergeDispatch(b, b, c) == c
              && MergeDispatch(MergeDispatch(l, b, c), b, c) == MergeDispatch(l, b, c)
  {
  }

  lemma MergeClearLaws(l: Clear, b: Clear, c: Clear)
    ensures MergeClear(l, b, b) == l && MergeClear(b, b, c) == c && MergeClear(MergeClear(l, b, c), b, c) == MergeClear(l, b, c)
  {
  }

  lemma MergeOutboxLaws(l: Outbox, b: Outbox, c: Outbox)
    ensures MergeOutbox(l, b, b) == l && MergeOutbox(b, b, c) == c
              && MergeOutbox(MergeOutbox(l, b, c), b, c) == MergeOutbox(l, b, c)
  {
  }

  /** An untouched row keeps its durable value, an unraced change lands exactly, and merging again changes nothing. */
  lemma MergeDeltaLaws(latest: Assignment, baseline: Assignment, current: Assignment)
    ensures MergeDelta(latest, baseline, baseline) == latest
    ensures MergeDelta(baseline, baseline, current) == current
    ensures MergeDelta(MergeDelta(latest, baseline, current), baseline, current) == MergeDelta(latest, baseline, current)
  {
    hide MergeIntent, MergeClaim, MergeReservation, MergeDispatch, MergeClear, MergeOutbox;
    MergeIntentLaws(latest.intent, baseline.intent, current.intent);
    MergeClaimLaws(latest.claim, baseline.claim, current.claim);
    MergeReservationLaws(latest.reservation, baseline.reservation, current.reservation);
    MergeDispatchLaws(latest.dispatch, baseline.dispatch, current.dispatch);
    MergeClearLaws(latest.clear, baseline.clear, current.clear);
    MergeOutboxLaws(latest.outbox, baseline.outbox, current.outbox);
  }

  // One status is further along than another: over, or later on the way from claiming to working.
  predicate Ahead(status: AssignmentStatus, than: AssignmentStatus) {
    || status in {StatusCompleted, StatusFailed, StatusReassigned}
    || (than == StatusClaiming && status in {StatusClaimed, StatusAssigned, StatusWorking})
    || (than == StatusClaimed && status in {StatusAssigned, StatusWorking})
    || (than == StatusAssigned && status == StatusWorking)
  }

  /** A caller's status stands over a durable one that nobody moved meanwhile; over one that was moved it stands only if it
      was changed, the durable one is not terminal, and it is further along. The reason of a failure goes with the status
      that stands. */
  lemma MergedStatus(latest: Assignment, baseline: Assignment, current: Assignment)
    ensures var merged := MergeDelta(latest, baseline, current);
            var stands := latest.status == baseline.status
                || (current.status != baseline.status && Ahead(current.status, latest.status)
                    && latest.status !in {StatusCompleted, StatusFailed, StatusReassigned});
            && merged.status == (if stands then current.status else latest.status)
            && (current.status != baseline.status ==>
                  merged.failReason == if stands then current.failReason else latest.failReason)
  {
  }

  // `whole` is what the later writer made of the base, and what the earlier one did where the later made nothing of it.
  predicate Joins<T(==)>(b: T, earlier: T, later: T, whole: T) {
    whole == if later != b then later else earlier
  }

  // The same, field by field, for two rows that leave the base's status alone.
  predicate JoinsRow(b: Assignment, one: Assignment, two: Assignment, whole: Assignment) {
    && one.status == b.status && two.status == b.status && whole.status == b.status
    && Joins(b.generation, one.generation, two.generation, whole.generation)
    && Joins(b.failReason, one.failReason, two.failReason, whole.failReason)
    && Joins(b.retryCount, one.retryCount, two.retryCount, whole.retryCount)
    && JoinsIntent(b.intent, one.intent, two.intent, whole.intent)
    && JoinsClaim(b.claim, one.claim, two.claim, whole.claim)
    && JoinsReservation(b.reservation, one.reservation, two.reservation, whole.reservation)
    && JoinsDispatch(b.dispatch, one.dispatch, two.dispatch, whole.dispatch)
    && JoinsClear(b.clear, one.clear, two.clear, whole.clear)
    && JoinsOutbox(b.outbox, one.outbox, two.outbox, whole.outbox)
  }

  predicate JoinsIntent(b: Intent, one: Intent, two: Intent, whole: Intent) {
    && Joins(b.beadID, one.beadID, two.beadID, whole.beadID)
    && Joins(b.beadTitle, one.beadTitle, two.beadTitle, whole.beadTitle)
    && Joins(b.agentType, one.agentType, two.agentType, whole.agentType)
    && Joins(b.agentName, one.agentName, two.agentName, whole.agentName)
    && Joins(b.idempotencyKey, one.idempotencyKey, two.idempotencyKey, whole.idempotencyKey)
    && Joins(b.dispatchTarget, one.dispatchTarget, two.dispatchTarget, whole.dispatchTarget)
    && Joins(b.occupancyKey, one.occupancyKey, two.occupancyKey, whole.occupancyKey)
    && Joins(b.promptSHA256, one.promptSHA256, two.promptSHA256, whole.promptSHA256)
    && Joins(b.intentSHA256, one.intentSHA256, two.intentSHA256, whole.intentSHA256)
    && Joins(b.reservationRequired, one.reservationRequired, two.reservationRequired, whole.reservationRequired)
    && Joins(b.reservationDiscovery, one.reservationDiscovery, two.reservationDiscovery, whole.reservationDiscovery)
    && Joins(b.reservationInputPaths, one.reservationInputPaths, two.reservationInputPaths, whole.reservationInputPaths)
  }

  predicate JoinsClaim(b: Claim, one: Claim, two: Claim, whole: Claim) {
    && Joins(b.actor, one.actor, two.actor, whole.actor) && Joins(b.state, one.state, two.state, whole.state)
    && Joins(b.status, one.status, two.status, whole.status) && Joins(b.attempts, one.attempts, two.attempts, whole.attempts)
    && Joins(b.claimedAt, one.claimedAt, two.claimedAt, whole.claimedAt)
    && Joins(b.requiresNonTerminal, one.requiresNonTerminal, two.requiresNonTerminal, whole.requiresNonTerminal)
  }

  predicate JoinsReservation(b: Reservation, one: Reservation, two: Reservation, whole: Reservation) {
    && Joins(b.state, one.state, two.state, whole.state) && Joins(b.attempts, one.attempts, two.attempts, whole.attempts)
    && Joins(b.completed, one.completed, two.completed, whole.completed)
        && Joins(b.failed, one.failed, two.failed, whole.failed)
    && Joins(b.lease.agentName, one.lease.agentName, two.lease.agentName, whole.lease.agentName)
    && Joins(b.lease.target, one.lease.target, two.lease.target, whole.lease.target)
    && Joins(b.lease.requested, one.lease.requested, two.lease.requested, whole.lease.requested)
    && Joins(b.lease.granted, one.lease.granted, two.lease.granted, whole.lease.granted)
    && Joins(b.lease.reservationIDs, one.lease.reservationIDs, two.lease.reservationIDs, whole.lease.reservationIDs)
    && Joins(b.lease.expiresAt, one.lease.expiresAt, two.lease.expiresAt, whole.lease.expiresAt)
  }

  predicate JoinsDispatch(b: Dispatch, one: Dispatch, two: Dispatch, whole: Dispatch) {
    && Joins(b.state, one.state, two.state, whole.state) && Joins(b.attempts, one.attempts, two.attempts, whole.attempts)
    && Joins(b.pendingPrompt, one.pendingPrompt, two.pendingPrompt, whole.pendingPrompt)
    && Joins(b.promptSent, one.promptSent, two.promptSent, whole.promptSent)
    && Joins(b.receiptID, one.receiptID, two.receiptID, whole.receiptID)
  }

  predicate JoinsClear(b: Clear, one: Clear, two: Clear, whole: Clear) {
    && Joins(b.state, one.state, two.state, whole.state)
    && Joins(b.pendingTerminalStatus, one.pendingTerminalStatus, two.pendingTerminalStatus, whole.pendingTerminalStatus)
    && Joins(b.pendingTerminalReason, one.pendingTerminalReason, two.pendingTerminalReason, whole.pendingTerminalReason)
    && Joins(b.claimReleased, one.claimReleased, two.claimReleased, whole.claimReleased)
  }

  predicate JoinsOutbox(b: Outbox, one: Outbox, two: Outbox, whole: Outbox) {
    && Joins(b.eventID, one.eventID, two.eventID, whole.eventID)
    && Joins(b.detectedAt, one.detectedAt, two.detectedAt, whole.detectedAt)
    && Joins(b.consumerToken, one.consumerToken, two.consumerToken, whole.consumerToken)
    && Joins(b.leaseExpiresAt, one.leaseExpiresAt, two.leaseExpiresAt, whole.leaseExpiresAt)
  }

  lemma LaterIntentWins(b: Intent, one: Intent, two: Intent, whole: Intent)
    requires JoinsIntent(b, one, two, whole)
    ensures MergeIntent(one, b, two) == whole
  {
  }

  lemma LaterClaimWins(b: Claim, one: Claim, two: Claim, whole: Claim)
    requires JoinsClaim(b, one, two, whole)
    ensures MergeClaim(one, b, two) == whole
  {
  }

  lemma LaterReservationWins(b: Reservation, one: Reservation, two: Reservation, whole: Reservation)
    requires JoinsReservation(b, one, two, whole)
    ensures MergeReservation(one, b, two) == whole
  {
  }

  lemma LaterDispatchWins(b: Dispatch, one: Dispatch, two: Dispatch, whole: Dispatch)
    requires JoinsDispatch(b, one, two, whole)
    ensures MergeDispatch(one, b, two) == whole
  {
  }

  lemma LaterClearWins(b: Clear, one: Clear, two: Clear, whole: Clear)
    requires JoinsClear(b, one, two, whole)
    ensures MergeClear(one, b, two) == whole
  {
  }

  lemma LaterOutboxWins(b: Outbox, one: Outbox, two: Outbox, whole: Outbox)
    requires JoinsOutbox(b, one, two, whole)
    ensures MergeOutbox(one, b, two) == whole
  {
  }

  /** Field by field, the later of two writers from one base wins where it changed anything, and the earlier one's changes
      stay everywhere else. */
  lemma LaterWriterWins(b: Assignment, one: Assignment, two: Assignment, whole: Assignment)
    requires JoinsRow(b, one, two, whole)
    ensures MergeDelta(one, b, two) == whole
  {
    hide MergeIntent, MergeClaim, MergeReservation, MergeDispatch, MergeClear, MergeOutbox, JoinsIntent, JoinsClaim,
      JoinsReservation, JoinsDispatch, JoinsClear, JoinsOutbox;
    LaterIntentWins(b.intent, one.intent, two.intent, whole.intent);
    LaterClaimWins(b.claim, one.claim, two.claim, whole.claim);
    LaterReservationWins(b.reservation, one.reservation, two.reservation, whole.reservation);
    LaterDispatchWins(b.dispatch, one.dispatch, two.dispatch, whole.dispatch);
    LaterClearWins(b.clear, one.clear, two.clear, whole.clear);
    LaterOutboxWins(b.outbox, one.outbox, two.outbox, whole.outbox);
  }

  /** So two writers from one base that change different fields commute, and both changes survive whichever saves first. */
  lemma DisjointWritersCommute(b: Assignment, one: Assignment, two: Assignment, whole: Assignment)
    requires JoinsRow(b, one, two, whole) && JoinsRow(b, two, one, whole)
    ensures MergeDelta(MergeDelta(b, b, one), b, two) == whole
    ensures MergeDelta(MergeDelta(b, b, two), b, one) == whole
  {
    hide MergeDelta, JoinsRow;
    MergeDeltaLaws(b, b, one);
    MergeDeltaLaws(b, b, two);
    LaterWriterWins(b, one, two, whole);
    LaterWriterWins(b, two, one, whole);
  }

  // ---------- One bead ----------

  datatype Operation = OpRemove | OpCreate | OpReplace | OpUpdateRemoved | OpUpdateSuperseded

  datatype Conflict = Conflict(beadID: string, operation: Operation)

  // The conflict the merge reports for one bead, given its durable, baseline and current rows.
  function CellConflict(l: Option<Assignment>, b: Option<Assignment>, c: Option<Assignment>, replace: bool): Option<Operation> {
    if c.None? then (if b.Some? && l.Some? && l != b then Some(OpRemove) else None)
    else if b.None? then (if l.Some? && l != c then Some(OpCreate) else None)
    else if b == c then None
    else if replace then (if l != b then Some(OpReplace) else None)
    else if l.None? then Some(OpUpdateRemoved)
    else if !SameGeneration(b.value, l.value) then Some(OpUpdateSuperseded)
    else None
  }

  function MergeCell(l: Option<Assignment>, b: Option<Assignment>, c: Option<Assignment>, replace: bool): Option<Assignment> {
    if c.None? then (if b.Some? then None else l)
    else if b.None? then c
    else if b == c then l
    else if replace || l.None? then c
    else Some(MergeDelta(l.value, b.value, c.value))
  }

  /** A save conflicts exactly when both sides changed the bead and their changes cannot be joined: one of them made or
      removed the row and the other did not do just the same, the caller replaced it, or it no longer is the same attempt.
      Whatever only one side changed, or both changed alike, lands as it is. */
  lemma ConflictsExactlyWhen(l: Option<Assignment>, b: Option<Assignment>, c: Option<Assignment>, replace: bool)
    ensures CellConflict(l, b, c, replace).Some? <==>
              && b != c && l != b
              && if b.Some? && c.Some? then
                   || replace || l.None? || b.value.intent.idempotencyKey != l.value.intent.idempotencyKey
                   || (b.value.intent.idempotencyKey == "" && b.value.generation != l.value.generation)
                 else l != c
    ensures CellConflict(l, b, c, replace).None? ==>
              && (b == c ==> MergeCell(l, b, c, replace) == l) && (l == b || l == c ==> MergeCell(l, b, c, replace) == c)
  {
    hide MergeDelta;
    if l.Some? && b.Some? && c.Some? {
      MergeDeltaLaws(l.value, b.value, c.value);
      MergeDeltaLaws(b.value, b.value, c.value);
    }
  }

  /** What the caller left alone stays as it is durably; over an unmoved base the caller's row lands exactly and
      nothing conflicts. Merging the same change twice succeeds exactly when it was not a replacement and did not
      change the row's generation, and then it changes nothing. */
  lemma CellLaws(l: Option<Assignment>, b: Option<Assignment>, c: Option<Assignment>, replace: bool)
    ensures CellConflict(l, b, b, replace).None? && MergeCell(l, b, b, replace) == l
    ensures CellConflict(b, b, c, replace).None? && MergeCell(b, b, c, replace) == c
    ensures CellConflict(l, b, c, replace).None? ==>
              var m := MergeCell(l, b, c, replace);
              && (CellConflict(m, b, c, replace).None? <==>
                    c.None? || b.None? || b == c || (!replace && SameGeneration(b.value, c.value)))
              && (CellConflict(m, b, c, replace).None? ==> MergeCell(m, b, c, replace) == m)
  {
    hide MergeDelta;
    if l.Some? && b.Some? && c.Some? {
      MergeDeltaLaws(l.value, b.value, c.value);
      if SameGeneration(b.value, l.value) { MergedGeneration(l.value, b.value, c.value); }
    }
    if b.Some? && c.Some? {
      MergeDeltaLaws(b.value, b.value, c.value);
    }
  }

  lemma MergedGeneration(l: Assignment, b: Assignment, c: Assignment)
    requires SameGeneration(b, l)
    ensures SameGeneration(b, MergeDelta(l, b, c)) <==> SameGeneration(b, c)
  {
    hide MergeClaim, MergeReservation, MergeDispatch, MergeClear, MergeOutbox;
  }

  // ---------- The whole ledger ----------

  function ConflictAt(latest: Ledger, baseline: Ledger, current: Ledger, replace: set<string>, b: string): Option<Operation> {
    CellConflict(Lookup(latest, b), Lookup(baseline, b), Lookup(current, b), b in replace)
  }

  function MergedAt(latest: Ledger, baseline: Ledger, current: Ledger, replace: set<string>, b: string): Option<Assignment> {
    MergeCell(Lookup(latest, b), Lookup(baseline, b), Lookup(current, b), b in replace)
  }

  ghost predicate Mergeable(latest: Ledger, baseline: Ledger, current: Ledger, replace: set<string>) {
    forall b :: ConflictAt(latest, baseline, current, replace, b).None?
  }

  ghost predicate IsMerge(latest: Ledger, baseline: Ledger, current: Ledger, replace: set<string>, merged: Ledger) {
    forall b :: Lookup(merged, b) == MergedAt(latest, baseline, current, replace, b)
  }

  lemma SameLookups(one: Ledger, two: Ledger)
    requires forall b :: Lookup(one, b) == Lookup(two, b)
    ensures one == two
  {
    forall b
      ensures b in one <==> b in two
      ensures b in one ==> one[b] == two[b]
    {
      assert Lookup(one, b) == Lookup(two, b);
    }
  }

  /** The removals of mergeAssignmentDeltas: beads of the baseline that the caller dropped. */
  method MergeRemovals(latest: Ledger, baseline: Ledger, current: Ledger) returns (r: Result<Ledger, Conflict>)
    ensures r.Ok? <==> forall b :: b in baseline && b !in current && b in latest ==> latest[b] == baseline[b]
    ensures r.Ok? ==> forall b :: Lookup(r.value, b) == if b in baseline && b !in current then None else Lookup(latest, b)
    ensures r.Err? ==> CellConflict(Lookup(latest, r.error.beadID), Lookup(baseline, r.error.beadID),
                                    Lookup(current, r.error.beadID), false) == Some(r.error.operation)
                       && r.error.beadID in baseline && r.error.beadID !in current && r.error.beadID in latest
                       && latest[r.error.beadID] != baseline[r.error.beadID]
  {
    var merged := latest;
    var todo := baseline.Keys;
    while todo != {}
      invariant todo <= baseline.Keys
      invariant forall b :: b in baseline.Keys - todo && b !in current && b in latest ==> latest[b] == baseline[b]
      invariant forall b :: Lookup(merged, b) ==
                  if b in baseline.Keys - todo && b !in current then None else Lookup(latest, b)
      decreases |todo|
    {
      var b :| b in todo;
      todo := todo - {b};
      if b !in current {
        if b in latest && latest[b] != baseline[b] {
          return Err(Conflict(b, OpRemove));
        }
        merged := merged - {b};
      }
    }
    r := Ok(merged);
  }

  /** One bead of the caller's ledger, merged into what is there so far unless it conflicts. */
  method MergeBead(latest: Ledger, baseline: Ledger, current: Ledger, replace: set<string>, b: string, merged: Ledger)
    returns (conflict: Option<Operation>, after: Ledger)
    requires b in current && Lookup(merged, b) == Lookup(latest, b)
    ensures conflict == ConflictAt(latest, baseline, current, replace, b)
    ensures conflict.None? ==> Lookup(after, b) == MergedAt(latest, baseline, current, replace, b)
    ensures forall c :: c != b ==> Lookup(after, c) == Lookup(merged, c)
  {
    hide MergeDelta, SameGeneration;
    conflict, after := None, merged;
    var value := current[b];
    if b !in baseline {
      if b in latest && latest[b] != value {
        return Some(OpCreate), merged;
      }
      after := merged[b := value];
    } else if baseline[b] != value {
      if b in replace {
        if b !in latest || latest[b] != baseline[b] {
          return Some(OpReplace), merged;
        }
        after := merged[b := value];
      } else if b !in latest {
        return Some(OpUpdateRemoved), merged;
      } else if !SameGeneration(baseline[b], latest[b]) {
        return Some(OpUpdateSuperseded), merged;
      } else {
        after := merged[b := MergeDelta(latest[b], baseline[b], value)];
      }
    }
  }

  /** mergeAssignmentDeltas: the removals, then every changed bead. Maps are ranged over in any order, so with several
      conflicts any one of them may be reported; otherwise the merge is exact. */
  method MergeDeltas(latest: Ledger, baseline: Ledger, current: Ledger, replace: set<string>)
    returns (r: Result<Ledger, Conflict>)
    ensures r.Ok? <==> Mergeable(latest, baseline, current, replace)
    ensures r.Ok? ==> IsMerge(latest, baseline, current, replace, r.value)
    ensures r.Err? ==> ConflictAt(latest, baseline, current, replace, r.error.beadID) == Some(r.error.operation)
  {
    var removed := MergeRemovals(latest, baseline, current);
    if removed.Err? {
      assert ConflictAt(latest, baseline, current, replace, removed.error.beadID) == Some(removed.error.operation);
      return removed;
    }
    var merged := removed.value;
    var todo := current.Keys;
    AfterRemovals(latest, baseline, current, replace, merged);
    while todo != {}
      invariant todo <= current.Keys
      invariant forall b :: b !in todo ==> ConflictAt(latest, baseline, current, replace, b).None?
      invariant forall b :: Lookup(merged, b) ==
                  if b in todo then Lookup(latest, b) else MergedAt(latest, baseline, current, replace, b)
      decreases |todo|
    {
      hide Mergeable, IsMerge, ConflictAt, MergedAt;
      var b :| b in todo;
      todo := todo - {b};
      var conflict;
      conflict, merged := MergeBead(latest, baseline, current, replace, b, merged);
      if conflict.Some? {
        Unmergeable(latest, baseline, current, replace, b);
        return Err(Conflict(b, conflict.value));
      }
    }
    r := Ok(merged);
  }

  // With the removals made, what is left to do is the caller's own beads.
  lemma AfterRemovals(latest: Ledger, baseline: Ledger, current: Ledger, replace: set<string>, merged: Ledger)
    requires forall b :: b in baseline && b !in current && b in latest ==> latest[b] == baseline[b]
    requires forall b :: Lookup(merged, b) == if b in baseline && b !in current then None else Lookup(latest, b)
    ensures forall b :: b !in current ==> ConflictAt(latest, baseline, current, replace, b).None?
    ensures forall b :: Lookup(merged, b) ==
              if b in current then Lookup(latest, b) else MergedAt(latest, baseline, current, replace, b)
  {
    hide MergeDelta, SameGeneration;
  }

  lemma Unmergeable(latest: Ledger, baseline: Ledger, current: Ledger, replace: set<string>, b: string)
    requires ConflictAt(latest, baseline, current, replace, b).Some?
    ensures !Mergeable(latest, baseline, current, replace)
  {
  }

  /** A caller that changed only bead `b`, whose durable row is still the one it loaded, saves exactly that change:
      every other bead keeps whatever other processes made of it meanwhile. */
  lemma SingleRowSave(latest: Ledger, baseline: Ledger, current: Ledger, replace: set<string>, b: string, merged: Ledger)
    requires Lookup(latest, b) == Lookup(baseline, b)
    requires forall c :: c != b ==> Lookup(current, c) == Lookup(baseline, c)
    ensures Mergeable(latest, baseline, current, replace)
    ensures IsMerge(latest, baseline, current, replace, merged) <==>
              merged == if b in current then latest[b := current[b]] else latest - {b}
  {
    hide MergeCell, CellConflict;
    forall c
      ensures ConflictAt(latest, baseline, current, replace, c).None?
      ensures MergedAt(latest, baseline, current, replace, c) == if c == b then Lookup(current, b) else Lookup(latest, c)
    {
      CellLaws(Lookup(latest, c), Lookup(baseline, c), Lookup(current, c), c in replace);
      CellLaws(Lookup(latest, c), Lookup(baseline, c), Lookup(baseline, c), c in replace);
    }
    var expected := if b in current then latest[b := current[b]] else latest - {b};
    if IsMerge(latest, baseline, current, replace, merged) {
      forall c
        ensures Lookup(merged, c) == Lookup(expected, c)
      {
        assert Lookup(merged, c) == MergedAt(latest, baseline, current, replace, c);
      }
      SameLookups(merged, expected);
    }
  }

  /** Two writers from one base that touch different beads never conflict, and both saves survive in either order. */
  lemma DisjointBeadsCommute(base: Ledger, one: Ledger, two: Ledger, replaceOne: set<string>, replaceTwo: set<string>,
                             first: Ledger, both: Ledger)
    requires forall b :: Lookup(one, b) == Lookup(base, b) || Lookup(two, b) == Lookup(base, b)
    requires IsMerge(base, base, one, replaceOne, first)
    ensures Mergeable(base, base, one, replaceOne) && Mergeable(first, base, two, replaceTwo)
    ensures IsMerge(first, base, two, replaceTwo, both) ==>
              forall b :: Lookup(both, b) == if Lookup(one, b) != Lookup(base, b) then Lookup(one, b) else Lookup(two, b)
  {
    hide MergeCell, CellConflict;
    forall b
      ensures ConflictAt(base, base, one, replaceOne, b).None? && ConflictAt(first, base, two, replaceTwo, b).None?
      ensures MergedAt(first, base, two, replaceTwo, b)
              == if Lookup(one, b) != Lookup(base, b) then Lookup(one, b) else Lookup(two, b)
    {
      CellLaws(Lookup(base, b), Lookup(base, b), Lookup(one, b), b in replaceOne);
      assert Lookup(first, b) == MergedAt(base, base, one, replaceOne, b);
      CellLaws(Lookup(first, b), Lookup(base, b), Lookup(base, b), b in replaceTwo);
      CellLaws(Lookup(first, b), Lookup(base, b), Lookup(two, b), b in replaceTwo);
    }
  }

  /** Saving the same change a second time, as after a save that published but reported failure, succeeds exactly when
      no bead it changed was replaced or moved to another generation; and then it changes nothing. */
  lemma SecondMerge(latest: Ledger, baseline: Ledger, current: Ledger, replace: set<string>, merged: Ledger)
    requires Mergeable(latest, baseline, current, replace) && IsMerge(latest, baseline, current, replace, merged)
    ensures Mergeable(merged, baseline, current, replace) <==>
              forall b :: b in baseline && b in current && baseline[b] != current[b] ==>
                b !in replace && SameGeneration(baseline[b], current[b])
    ensures Mergeable(merged, baseline, current, replace) ==> IsMerge(merged, baseline, current, replace, merged)
  {
    hide MergeCell, CellConflict, SameGeneration;
    forall b
      ensures ConflictAt(merged, baseline, current, replace, b).None? <==>
                (b in baseline && b in current && baseline[b] != current[b] ==>
                    b !in replace && SameGeneration(baseline[b], current[b]))
      ensures ConflictAt(merged, baseline, current, replace, b).None? ==>
                MergedAt(merged, baseline, current, replace, b) == Lookup(merged, b)
    {
      assert Lookup(merged, b) == MergedAt(latest, baseline, current, replace, b);
      assert ConflictAt(latest, baseline, current, replace, b).None?;
      CellLaws(Lookup(latest, b), Lookup(baseline, b), Lookup(current, b), b in replace);
    }
  }
}
