/**
 Any number of processes sharing one assignment ledger. Every durable write and
 every port call is its own step, a process may stop between any two of them, and
 the external-cleanup, bead and target locks serialise the steps as the source does.
 */
module AtomicProtocol {
  import opened Wrappers
  import opened AssignmentTypes
  import opened AssignmentPolicy
  import opened AssignmentTransitions
  import opened AtomicMachine
  import Release

  // A clearing client, which works under the cleanup lock: it learns which leases to release, and then that they are gone.
  datatype CleanPhase =
    | CleanWaiting | CleanHolding | CleanKnows(generation: nat, lease: LeaseReceipt) | CleanConfirmed(generation: nat)

  datatype Process =
    | Executing(run: Run)
    | Cleaning(beadID: string, phase: CleanPhase)

  // A completion lease some consumer was told it holds and has not yet acknowledged away.
  datatype Grant = Grant(beadID: string, eventID: string, token: string, expiresAt: Time)

  datatype State = State(
    ledger: Ledger,
    processes: map<nat, Process>,
    log: seq<Event>,
    grants: set<Grant>,
    now: Time,
    nextGeneration: nat)

  const INITIAL := State(map[], map[], [], {}, 1, 0)

  // ---------- Locks ----------

  predicate HoldsCleanup(process: Process, beadID: string) {
    match process
    case Executing(run) => run.req.beadID == beadID && !run.pc.WaitCleanup?
    case Cleaning(bead, phase) => bead == beadID && !phase.CleanWaiting?
  }

  predicate HoldsBead(process: Process, beadID: string) {
    process.Executing? && process.run.req.beadID == beadID && !process.run.pc.WaitCleanup? && !process.run.pc.WaitBead?
  }

  predicate HoldsTarget(process: Process, pane: string) {
    process.Executing? && process.run.req.occupancyKey == pane && InCriticalSection(process.run)
  }

  predicate InCriticalSection(run: Run) {
    !run.pc.WaitCleanup? && !run.pc.WaitBead? && !run.pc.WaitTarget?
  }

  predicate CleanupFree(s: State, beadID: string) {
    forall p :: p in s.processes ==> !HoldsCleanup(s.processes[p], beadID)
  }

  predicate BeadFree(s: State, beadID: string) {
    forall p :: p in s.processes ==> !HoldsBead(s.processes[p], beadID)
  }

  predicate TargetFree(s: State, pane: string) {
    forall p :: p in s.processes ==> !HoldsTarget(s.processes[p], pane)
  }

  // ---------- Steps ----------

  // Operations that take the bead lock, reload, check and save once.
  datatype Op =
    | OpTransition(observed: Assignment, to: AssignmentStatus, reason: string)
    | OpBeginClear(expected: set<AssignmentStatus>)
    | OpBeginTerminal(observed: Assignment, status: AssignmentStatus, reason: string, withEvent: bool)
    | OpTerminalClaimReleased
    | OpCompleteTerminal(status: AssignmentStatus, reason: string)
    | OpClaimEvent(eventID: string, token: string, duration: int)
    | OpRenewEvent(eventID: string, token: string, duration: int)
    | OpAcknowledge(eventID: string, token: string)

  function ApplyOp(row: Assignment, op: Op, now: Time): RowResult {
    match op
    case OpTransition(observed, to, reason) => Transition(row, observed, to, reason)
    case OpBeginClear(expected) => BeginClear(row, expected)
    case OpBeginTerminal(observed, status, reason, withEvent) =>
      BeginTerminal(row, observed, status, reason, withEvent, now)
    case OpTerminalClaimReleased => TerminalClaimReleased(row)
    case OpCompleteTerminal(status, reason) => CompleteTerminal(row, status, reason)
    case OpClaimEvent(eventID, token, duration) => ClaimEvent(row, eventID, token, duration, now)
    case OpRenewEvent(eventID, token, duration) => RenewEvent(row, eventID, token, duration, now)
    case OpAcknowledge(eventID, token) => AcknowledgeEvent(row, eventID, token, now)
  }

  // A fresh answer replaces whatever the same consumer was told before.
  function Granted(grants: set<Grant>, beadID: string, eventID: string, token: string, lease: Option<Time>): set<Grant> {
    var others := set g | g in grants && !(g.beadID == beadID && g.eventID == eventID && g.token == token);
    if lease.Some? then others + {Grant(beadID, eventID, token, lease.value)} else others
  }

  function ApplyGrant(grants: set<Grant>, beadID: string, after: Assignment, op: Op): set<Grant> {
    match op
    case OpClaimEvent(eventID, token, _) => Granted(grants, beadID, eventID, token, after.outbox.leaseExpiresAt)
    case OpRenewEvent(eventID, token, _) => Granted(grants, beadID, eventID, token, after.outbox.leaseExpiresAt)
    case OpAcknowledge(eventID, _) => set g | g in grants && !(g.beadID == beadID && g.eventID == eventID)
    case _ => grants
  }

  datatype Action =
    | Start(p: nat, req: AtomicRequest, ports: Ports)
    | Acquire(p: nat)
    | Exec(p: nat, ans: Answers, delivered: bool)
    | Stop(p: nat)
    | StartCleaning(p: nat, beadID: string)
    | AcquireCleaning(p: nat)
    | Survey(p: nat, found: LeaseReceipt)
    | ConfirmRelease(p: nat, b: Release.Binding, listing: seq<Release.Lease>)
    | RecordRelease(p: nat)
    | Guarded(beadID: string, op: Op)
    | CompleteClear(beadID: string)
    | Tick(now: Time)

  /** How a cleaner may come to know that the leases are gone: none were required, or the release it asked for, by the
      IDs and at least the paths of the lease under the row's own barrier, ended as Release.ReleaseExact ends a success. */
  predicate ReleaseSucceeds(row: Assignment, lease: LeaseReceipt, b: Release.Binding, listing: seq<Release.Lease>) {
    || !row.intent.reservationRequired
    || (&& NormalizedIDs(lease.reservationIDs)
        && b.ids == Elements(lease.reservationIDs) && Release.Named(lease.granted) <= b.paths && "" !in b.paths
        && row.clear.state != ClearStateNone && row.intent.beadID != ""
        && b.agent == Release.LeaseHolder(row) && b.agent != "" && b.reason == "bead assignment: " + row.intent.beadID
        && ((b.ids == {} && b.paths == {}) || Release.Confirmed(b, listing)))
  }

  predicate Enabled(s: State, act: Action) {
    match act
    case Start(p, req, _) => p !in s.processes && RequestError(NormalizeRequest(req)).None?
    case Acquire(p) =>
      && p in s.processes && s.processes[p].Executing?
      && var run := s.processes[p].run;
         && (run.pc.WaitCleanup? || run.pc.WaitBead? || run.pc.WaitTarget?)
         && (run.pc.WaitCleanup? ==> CleanupFree(s, run.req.beadID))
         && (run.pc.WaitBead? ==> BeadFree(s, run.req.beadID))
         && (run.pc.WaitTarget? ==> TargetFree(s, run.req.occupancyKey))
    case Exec(p, ans, delivered) =>
      && p in s.processes && s.processes[p].Executing?
      && InCriticalSection(s.processes[p].run) && !s.processes[p].run.pc.Finished?
      // A dispatch adapter that reports no actuation has not delivered.
      && (ans.dispatch.DispatchNotActuated? ==> !delivered)
    case Stop(p) => p in s.processes
    case StartCleaning(p, _) => p !in s.processes
    case AcquireCleaning(p) =>
      && p in s.processes && s.processes[p].Cleaning? && s.processes[p].phase.CleanWaiting?
      && CleanupFree(s, s.processes[p].beadID)
    case Survey(p, _) =>
      && p in s.processes && s.processes[p].Cleaning? && s.processes[p].phase.CleanHolding?
      && s.processes[p].beadID in s.ledger
      && s.ledger[s.processes[p].beadID].clear.state.ClearStateReservationReleasing?
    case ConfirmRelease(p, b, listing) =>
      && p in s.processes && s.processes[p].Cleaning? && s.processes[p].phase.CleanKnows?
      && s.processes[p].beadID in s.ledger
      && ReleaseSucceeds(s.ledger[s.processes[p].beadID], s.processes[p].phase.lease, b, listing)
    case RecordRelease(p) =>
      && p in s.processes && s.processes[p].Cleaning? && s.processes[p].phase.CleanConfirmed?
      && BeadFree(s, s.processes[p].beadID)
    case Guarded(beadID, _) => beadID in s.ledger && BeadFree(s, beadID)
    case CompleteClear(beadID) => beadID in s.ledger && BeadFree(s, beadID) && MayCompleteClear(s.ledger[beadID])
    case Tick(now) => now >= s.now
  }

  function UpdateRow(ledger: Ledger, beadID: string, row: Option<Assignment>): Ledger {
    if row.Some? then ledger[beadID := row.value] else ledger
  }

  function Logged(event: Option<Event>): seq<Event> {
    if event.Some? then [event.value] else []
  }

  function ExecLocal(s: State, run: Run, ans: Answers, delivered: bool): Local {
    ExecStep(run, OccupancyBlocked(s.ledger, run.req.beadID, run.req.occupancyKey),
             Lookup(s.ledger, run.req.beadID), ans, s.now, delivered, s.nextGeneration)
  }

  // Only a row whose own record may be incomplete makes the cleaner ask the service.
  function SurveyEvent(row: Assignment, found: LeaseReceipt): Option<Event> {
    if NeedsReconciliation(row) then
      Some(LeasesListed(row.generation, Release.Named(found.granted), Elements(found.reservationIDs)))
    else None
  }

  function Next(s: State, act: Action): State
    requires Enabled(s, act)
  {
    match act
    case Start(p, req, ports) =>
      s.(processes := s.processes[p := Executing(Run(WaitCleanup, NormalizeRequest(req), ports, "", "", 0))])
    case Acquire(p) =>
      var run := s.processes[p].run;
      var pc := if run.pc.WaitCleanup? then WaitBead else if run.pc.WaitBead? then WaitTarget else Load;
      s.(processes := s.processes[p := Executing(run.(pc := pc))])
    case Exec(p, ans, delivered) =>
      var run := s.processes[p].run;
      var local := ExecLocal(s, run, ans, delivered);
      s.(ledger := UpdateRow(s.ledger, run.req.beadID, local.row),
         processes := s.processes[p := Executing(local.run)],
         log := s.log + Logged(local.event),
         nextGeneration := s.nextGeneration + 1)
    case Stop(p) => s.(processes := s.processes - {p})
    case StartCleaning(p, beadID) => s.(processes := s.processes[p := Cleaning(beadID, CleanWaiting)])
    case AcquireCleaning(p) => s.(processes := s.processes[p := Cleaning(s.processes[p].beadID, CleanHolding)])
    case Survey(p, found) =>
      var row := s.ledger[s.processes[p].beadID];
      var lease := if NeedsReconciliation(row) then found else row.reservation.lease;
      s.(processes := s.processes[p := Cleaning(s.processes[p].beadID, CleanKnows(row.generation, lease))],
         log := s.log + Logged(SurveyEvent(row, found)))
    case ConfirmRelease(p, b, listing) =>
      var generation := s.processes[p].phase.generation;
      s.(processes := s.processes[p := Cleaning(s.processes[p].beadID, CleanConfirmed(generation))],
         log := s.log + [ReleaseConfirmed(generation, Release.GonePaths(b, listing), Release.GoneIDs(b, listing))])
    case RecordRelease(p) =>
      var beadID := s.processes[p].beadID;
      var row := Lookup(s.ledger, beadID);
      s.(ledger := if row.Some? && LeasesReleased(row.value).Ok? then s.ledger[beadID := LeasesReleased(row.value).value]
                   else s.ledger,
         processes := s.processes[p := Cleaning(beadID, CleanHolding)])
    case Guarded(beadID, op) =>
      var result := ApplyOp(s.ledger[beadID], op, s.now);
      if result.Err? then s
      else s.(ledger := s.ledger[beadID := result.value],
              grants := ApplyGrant(s.grants, beadID, result.value, op))
    case CompleteClear(beadID) => s.(ledger := s.ledger - {beadID})
    case Tick(now) => s.(now := now)
  }

  // ---------- Runs of the whole system ----------

  predicate Legal(s: State, acts: seq<Action>)
    decreases |acts|
  {
    acts == [] || (Enabled(s, acts[0]) && Legal(Next(s, acts[0]), acts[1..]))
  }

  function After(s: State, acts: seq<Action>): State
    requires Legal(s, acts)
    decreases |acts|
  {
    if acts == [] then s else After(Next(s, acts[0]), acts[1..])
  }

  // ---------- Reading the history ----------

  // A lease handle the reservation service handed out, and when it lapses on its own.
  datatype Handle = IDHandle(id: int, expiresAt: Option<Time>) | PathHandle(path: string, expiresAt: Option<Time>)

  // A blank path names nothing.
  function LeaseHandles(lease: LeaseReceipt): set<Handle> {
    (set id | id in lease.reservationIDs :: IDHandle(id, lease.expiresAt)) +
    (set path | path in lease.granted && path != "" :: PathHandle(path, lease.expiresAt))
  }

  predicate NamedBy(paths: set<string>, ids: set<int>, h: Handle) {
    match h
    case IDHandle(id, _) => id in ids
    case PathHandle(path, _) => path in paths
  }

  predicate Expired(h: Handle, now: Time) {
    h.expiresAt.Some? && h.expiresAt.value <= now
  }

  /** What the outside world knows of one generation: whether a dispatch attempt is not yet known to
      have been harmless, how many prompts really reached the pane, what the last dispatch call was
      and answered, and which lease handles of a required reservation the service returned that
      nobody has since proved released, absent or superseded. */
  datatype Past = Past(attempted: bool, delivered: nat, last: Option<Call>, outstanding: set<Handle>)

  datatype Call = Call(message: Message, answer: DispatchAnswer)

  const NO_PAST := Past(false, 0, None, {})

  function Advance(past: Past, e: Event): Past {
    match e
    case ReserveReturned(_, required, lease) =>
      past.(outstanding := past.outstanding + if required then LeaseHandles(lease) else {})
    case ReservationInspected(_, required, lease) =>
      past.(outstanding := if required then LeaseHandles(lease) else past.outstanding)
    case LeasesListed(_, paths, ids) => past.(outstanding := set h | h in past.outstanding && NamedBy(paths, ids, h))
    case ReleaseConfirmed(_, paths, ids) => past.(outstanding := set h | h in past.outstanding && !NamedBy(paths, ids, h))
    case DispatchCalled(_, delivered, message, answer) =>
      past.(attempted := true, delivered := past.delivered + (if delivered then 1 else 0), last := Some(Call(message, answer)))
    case NoActuationRecorded(_) => past.(attempted := false)
  }

  function PastOf(log: seq<Event>, g: nat): Past {
    if log == [] then NO_PAST
    else
      var before := PastOf(log[..|log| - 1], g);
      if log[|log| - 1].generation == g then Advance(before, log[|log| - 1]) else before
  }
}
