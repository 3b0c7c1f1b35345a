/**
 Runs of the assignment protocol that end where a plausible promise fails: a lease
 its row does not name, a lease nobody remembers, a finished attempt whose retry is
 refused, and a completion event that is lost.
 */
module AtomicRuns {
  import opened Wrappers
  import opened AssignmentTypes
  import opened AssignmentPolicy
  import opened AssignmentTransitions
  import opened AtomicMachine
  import opened AtomicProtocol
  import opened AtomicInvariant
  import opened AtomicSafety
  import opened AtomicLeases
  import opened AtomicCompletion
  import opened AtomicDelivery
  import Admission
  import Release

  // ---------- One bead, one process ----------

  const PORTS := Ports(true, false, false, false, false, false, false, false)
  const NO_RESERVER := PORTS.(reserver := false)

  // A request Execute takes as it is, for a new attempt.
  predicate Plain(req: AtomicRequest) {
    && NormalizeRequest(req) == req && RequestError(req).None?
    && req.recoveredIntentSHA256 == NoDigest && !req.replaceWorkingAssignment
  }

  // There are such requests, with a reservation and without, and takeovers of their beads.
  lemma PlainRequests(required: bool)
    ensures exists req, takeover :: Plain(req) && req.requireReservation == required && TakesOver(req, takeover)
  {
    var req := AtomicRequest("b", "t", "%1", "%1", "", "", "", "p", "k", Sha256("p"), NoDigest, required, true, [], false);
    assert "%1"[1..] == "1" && "1"[..0] == "";
    assert DigitsValue("") == 0 && DigitsValue("1") == 1;
    assert IsPhysicalPane("%1");
    assert TakesOver(req, req.(idempotencyKey := "l", replaceWorkingAssignment := true));
  }

  // A request that takes a working bead over from an earlier attempt.
  predicate TakesOver(req: AtomicRequest, takeover: AtomicRequest) {
    && NormalizeRequest(takeover) == takeover && RequestError(takeover).None? && takeover.recoveredIntentSHA256 == NoDigest
    && takeover.replaceWorkingAssignment && takeover.beadID == req.beadID && takeover.beadTitle != ""
    && takeover.idempotencyKey != req.idempotencyKey
  }

  function Actor(req: AtomicRequest): string {
    StableClaimActor(req.actor, req.idempotencyKey)
  }

  // Every port grants what it is asked for.
  function AllGoesWell(req: AtomicRequest, lease: LeaseReceipt): Answers {
    Answers(None, None, true, None, ReleaseErrored, ClaimInspectionFailed,
            ClaimReceived(ClaimReceipt(req.beadID, Actor(req), TrackerInProgress, Some(1))),
            ReserveInspectionFailed, ReserveGranted(lease), DispatchReceived("r"))
  }

  function LedgerOf(b: string, row: Option<Assignment>): Ledger {
    if row.Some? then map[b := row.value] else map[]
  }

  function World(b: string, row: Option<Assignment>, processes: map<nat, Process>, log: seq<Event>, n: nat): State {
    State(LedgerOf(b, row), processes, log, {}, 1, n)
  }

  lemma {:induction false} RunsExtend(s: State, acts: seq<Action>, act: Action)
    requires Legal(s, acts) && Enabled(After(s, acts), act)
    ensures Legal(s, acts + [act]) && After(s, acts + [act]) == Next(After(s, acts), act)
    decreases |acts|
  {
    hide Enabled, Next;
    if acts == [] {
      assert [] + [act] == [act] && [act][1..] == [];
      assert Legal(Next(s, act), []);
    } else {
      assert (acts + [act])[1..] == acts[1..] + [act];
      RunsExtend(Next(s, acts[0]), acts[1..], act);
    }
  }

  lemma ReachNext(s: State, act: Action)
    requires Reachable(s) && Enabled(s, act)
    ensures Reachable(Next(s, act))
  {
    hide Enabled, Next;
    var acts :| Legal(INITIAL, acts) && After(INITIAL, acts) == s;
    RunsExtend(INITIAL, acts, act);
  }

  lemma ReachInitial(b: string)
    ensures Reachable(World(b, None, map[], [], 0))
  {
    assert Legal(INITIAL, []) && After(INITIAL, []) == INITIAL;
    assert World(b, None, map[], [], 0) == INITIAL;
  }

  // A lone process starts and takes its three locks.
  lemma StartAlone(row: Option<Assignment>, log: seq<Event>, n: nat, req: AtomicRequest, ports: Ports)
    requires Reachable(World(req.beadID, row, map[], log, n))
    requires NormalizeRequest(req) == req && RequestError(req).None?
    ensures Reachable(World(req.beadID, row, map[0 := Executing(Run(Load, req, ports, "", "", 0))], log, n))
  {
    hide Reachable, NormalizeRequest, RequestError;
    var waiting := Run(WaitCleanup, req, ports, "", "", 0);
    ReachNext(World(req.beadID, row, map[], log, n), Start(0, req, ports));
    assert map[][0 := Executing(waiting)] == map[0 := Executing(waiting)];
    AcquireAlone(row, log, n, waiting, WaitBead);
    AcquireAlone(row, log, n, waiting.(pc := WaitBead), WaitTarget);
    AcquireAlone(row, log, n, waiting.(pc := WaitTarget), Load);
  }

  lemma AcquireAlone(row: Option<Assignment>, log: seq<Event>, n: nat, run: Run, pc: Pc)
    requires Reachable(World(run.req.beadID, row, map[0 := Executing(run)], log, n))
    requires (run.pc.WaitCleanup? && pc.WaitBead?) || (run.pc.WaitBead? && pc.WaitTarget?) || (run.pc.WaitTarget? && pc.Load?)
    ensures Reachable(World(run.req.beadID, row, map[0 := Executing(run.(pc := pc))], log, n))
  {
    hide Reachable;
    var s := World(run.req.beadID, row, map[0 := Executing(run)], log, n);
    ReachNext(s, Acquire(0));
    assert s.processes[0 := Executing(run.(pc := pc))] == map[0 := Executing(run.(pc := pc))];
  }

  // It takes a step, and no other row can block it.
  lemma ExecAlone(row: Option<Assignment>, run: Run, log: seq<Event>, n: nat, ans: Answers, next: Local)
    requires Reachable(World(run.req.beadID, row, map[0 := Executing(run)], log, n))
    requires InCriticalSection(run) && !run.pc.Finished? && !ans.dispatch.DispatchNotActuated?
    requires next == ExecStep(run, false, row, ans, 1, true, n) && (row.Some? ==> next.row.Some?)
    ensures Reachable(World(run.req.beadID, next.row, map[0 := Executing(next.run)], log + Logged(next.event), n + 1))
  {
    hide Reachable, ExecStep;
    var s := World(run.req.beadID, row, map[0 := Executing(run)], log, n);
    assert !OccupancyBlocked(s.ledger, run.req.beadID, run.req.occupancyKey);
    assert Lookup(s.ledger, run.req.beadID) == row;
    ReachNext(s, Exec(0, ans, true));
    assert s.processes[0 := Executing(next.run)] == map[0 := Executing(next.run)];
    assert UpdateRow(s.ledger, run.req.beadID, next.row) == LedgerOf(run.req.beadID, next.row);
  }

  // A step that reaches no port.
  lemma QuietAlone(row: Option<Assignment>, run: Run, log: seq<Event>, n: nat, ans: Answers, next: Local)
    requires Reachable(World(run.req.beadID, row, map[0 := Executing(run)], log, n))
    requires InCriticalSection(run) && !run.pc.Finished? && !ans.dispatch.DispatchNotActuated?
    requires next == ExecStep(run, false, row, ans, 1, true, n) && (row.Some? ==> next.row.Some?) && next.event.None?
    ensures Reachable(World(run.req.beadID, next.row, map[0 := Executing(next.run)], log, n + 1))
  {
    hide Reachable, ExecStep;
    ExecAlone(row, run, log, n, ans, next);
    assert log + Logged(None) == log;
  }

  lemma StopAlone(b: string, row: Option<Assignment>, process: Process, p: nat, log: seq<Event>, n: nat)
    requires Reachable(World(b, row, map[p := process], log, n))
    ensures Reachable(World(b, row, map[], log, n))
  {
    hide Reachable;
    var s := World(b, row, map[p := process], log, n);
    ReachNext(s, Action.Stop(p));
    assert s.processes - {p} == map[];
  }

  // With nobody about, a guarded operation goes through.
  lemma GuardedAlone(b: string, row: Assignment, op: Op, log: seq<Event>, n: nat, after: Assignment)
    requires Reachable(World(b, Some(row), map[], log, n)) && ApplyOp(row, op, 1) == Ok(after)
    requires ApplyGrant({}, b, after, op) == {}
    ensures Reachable(World(b, Some(after), map[], log, n))
  {
    hide Reachable, ApplyOp, ApplyGrant;
    var s := World(b, Some(row), map[], log, n);
    ReachNext(s, Guarded(b, op));
    assert s.ledger[b := after] == LedgerOf(b, Some(after));
  }

  // One move of a lone cleaner.
  lemma CleanerMoves(b: string, row: Assignment, phase: CleanPhase, log: seq<Event>, n: nat, act: Action, after: Assignment,
                     to: CleanPhase, event: Option<Event>)
    requires Reachable(World(b, Some(row), map[1 := Cleaning(b, phase)], log, n))
    requires act.AcquireCleaning? || act.Survey? || act.ConfirmRelease? || act.RecordRelease?
    requires act.p == 1 && Enabled(World(b, Some(row), map[1 := Cleaning(b, phase)], log, n), act)
    requires var t := Next(World(b, Some(row), map[1 := Cleaning(b, phase)], log, n), act);
             && t.ledger[b := after] == t.ledger == LedgerOf(b, Some(after)) && t.processes[1 := Cleaning(b, to)] == t.processes
             && t.log == log + Logged(event)
    ensures Reachable(World(b, Some(after), map[1 := Cleaning(b, to)], log + Logged(event), n))
  {
    hide Reachable, Enabled;
    var s := World(b, Some(row), map[1 := Cleaning(b, phase)], log, n);
    ReachNext(s, act);
    assert map[1 := Cleaning(b, phase)][1 := Cleaning(b, to)] == map[1 := Cleaning(b, to)];
  }

  // A lone cleaner of a row that required no reservation has nothing to release.
  lemma CleanAlone(b: string, row: Assignment, log: seq<Event>, n: nat)
    requires Reachable(World(b, Some(row), map[], log, n))
    requires row.clear.state.ClearStateReservationReleasing? && !row.intent.reservationRequired
    ensures LeasesReleased(row).Ok?
    ensures Reachable(World(b, Some(LeasesReleased(row).value), map[], log + [ReleaseConfirmed(row.generation, {}, {})], n))
  {
    hide Reachable, LeasesReleased, World;
    var released := log + [ReleaseConfirmed(row.generation, {}, {})];
    ReleasingRow(row);
    SurveyAlone(b, row, log, n);
    ConfirmAlone(b, row, log, n);
    assert released + Logged(None) == released;
    RecordAlone(b, row, released, n);
    StopAlone(b, Some(LeasesReleased(row).value), Cleaning(b, CleanHolding), 1, released, n);
  }

  lemma SurveyAlone(b: string, row: Assignment, log: seq<Event>, n: nat)
    requires Reachable(World(b, Some(row), map[], log, n))
    requires row.clear.state.ClearStateReservationReleasing? && !row.intent.reservationRequired
    ensures Reachable(World(b, Some(row), map[1 := Cleaning(b, CleanKnows(row.generation, row.reservation.lease))], log, n))
  {
    hide Reachable, NeedsReconciliation;
    ReleasingRow(row);
    assert log + Logged(None) == log;
    ReachNext(World(b, Some(row), map[], log, n), StartCleaning(1, b));
    CleanerMoves(b, row, CleanWaiting, log, n, AcquireCleaning(1), row, CleanHolding, None);
    CleanerMoves(b, row, CleanHolding, log, n, Survey(1, NO_LEASE), row, CleanKnows(row.generation, row.reservation.lease),
                 None);
  }

  lemma ConfirmAlone(b: string, row: Assignment, log: seq<Event>, n: nat)
    requires Reachable(World(b, Some(row), map[1 := Cleaning(b, CleanKnows(row.generation, row.reservation.lease))], log, n))
    requires !row.intent.reservationRequired
    ensures Reachable(World(b, Some(row), map[1 := Cleaning(b, CleanConfirmed(row.generation))],
                            log + [ReleaseConfirmed(row.generation, {}, {})], n))
  {
    hide Reachable, Release.GonePaths, Release.GoneIDs;
    var binding := Release.Binding(0, "", "", {}, {});
    NothingAskedFor(binding);
    CleanerMoves(b, row, CleanKnows(row.generation, row.reservation.lease), log, n, ConfirmRelease(1, binding, []), row,
                 CleanConfirmed(row.generation), Some(ReleaseConfirmed(row.generation, {}, {})));
  }

  lemma RecordAlone(b: string, row: Assignment, log: seq<Event>, n: nat)
    requires Reachable(World(b, Some(row), map[1 := Cleaning(b, CleanConfirmed(row.generation))], log, n))
    requires LeasesReleased(row).Ok?
    ensures Reachable(World(b, Some(LeasesReleased(row).value), map[1 := Cleaning(b, CleanHolding)], log, n))
  {
    hide Reachable, LeasesReleased;
    assert log + Logged(None) == log;
    CleanerMoves(b, row, CleanConfirmed(row.generation), log, n, RecordRelease(1), LeasesReleased(row).value, CleanHolding,
                 None);
  }

  lemma ReleasingRow(row: Assignment)
    requires row.clear.state.ClearStateReservationReleasing?
    ensures LeasesReleased(row).Ok? && (!row.intent.reservationRequired ==> !NeedsReconciliation(row))
  {
  }

  lemma NothingAskedFor(b: Release.Binding)
    requires b.ids == {} && b.paths == {}
    ensures Release.GonePaths(b, []) == {} && Release.GoneIDs(b, []) == {}
  {
  }

  // ---------- Up to the reservation ----------

  function Claiming(req: AtomicRequest): Assignment {
    NewRow(req, Actor(req), 1, 0)
  }

  function ClaimedRow(req: AtomicRequest): Assignment {
    Claiming(req).(status := StatusClaimed, claim := Claim(Actor(req), ClaimClaimed, TrackerInProgress, 1, Some(1), true))
  }

  function RunAt(pc: Pc, req: AtomicRequest, ports: Ports): Run {
    Run(pc, req, ports, req.prompt, Actor(req), 1)
  }

  lemma ReachIntent(req: AtomicRequest, ports: Ports, ans: Answers)
    requires Plain(req) && (ports == PORTS || (ports == NO_RESERVER && !req.requireReservation)) && ans.eligible
    requires !ans.dispatch.DispatchNotActuated?
    ensures Reachable(World(req.beadID, Some(Claiming(req)), map[0 := Executing(RunAt(CheckClaim, req, ports))], [], 2))
  {
    hide Reachable, NormalizeRequest, RequestError, ExecStep, StableClaimActor, Actor, NewRow, World;
    var before := Run(RecordIntent, req, ports, req.prompt, Actor(req), 0);
    ReachInitial(req.beadID);
    StartAlone(None, [], 0, req, ports);
    FirstSteps(req, ports, ans);
    QuietAlone(None, Run(Load, req, ports, "", "", 0), [], 0, ans, Goto(before, RecordIntent, None));
    QuietAlone(None, before, [], 1, ans, Goto(RunAt(Load, req, ports), CheckClaim, Some(Claiming(req))));
  }

  /** Some run leads a fresh attempt to the reservation with its claim recorded. */
  lemma ReachClaimed(req: AtomicRequest, ports: Ports, lease: LeaseReceipt)
    requires Plain(req) && (ports == PORTS || (ports == NO_RESERVER && !req.requireReservation))
    ensures Reachable(World(req.beadID, Some(ClaimedRow(req)), map[0 := Executing(RunAt(CheckReservation, req, ports))], [], 6))
  {
    hide Reachable, Plain, ExecStep, Actor, World, Claiming, ClaimedRow, ClaimStarted;
    var ans, row, run := AllGoesWell(req, lease), Claiming(req), RunAt(Load, req, ports);
    ReachIntent(req, ports, ans);
    ClaimSteps(req, ports, lease);
    QuietAlone(Some(row), run.(pc := CheckClaim), [], 2, ans, Goto(run, StartClaim, Some(row)));
    QuietAlone(Some(row), run.(pc := StartClaim), [], 3, ans, Goto(run, CallClaim, Some(ClaimStarted(row))));
    QuietAlone(Some(ClaimStarted(row)), run.(pc := CallClaim), [], 4, ans,
               Goto(run, SettleClaim(ans.claim), Some(ClaimStarted(row))));
    QuietAlone(Some(ClaimStarted(row)), run.(pc := SettleClaim(ans.claim)), [], 5, ans,
               Goto(run, CheckReservation, Some(ClaimedRow(req))));
  }

  lemma FirstSteps(req: AtomicRequest, ports: Ports, ans: Answers)
    requires Plain(req) && (ports == PORTS || (ports == NO_RESERVER && !req.requireReservation)) && ans.eligible
    ensures var before := Run(RecordIntent, req, ports, req.prompt, Actor(req), 0);
            && ExecStep(Run(Load, req, ports, "", "", 0), false, None, ans, 1, true, 0) == Goto(before, RecordIntent, None)
            && ExecStep(before, false, None, ans, 1, true, 1)
               == Goto(RunAt(Load, req, ports), CheckClaim, Some(Claiming(req)))
  {
    hide StableClaimActor, NormalizeRequest, RequestError, StepOnRow;
    assert ChooseActor(None, req) == Go(req, req.prompt, Actor(req), false);
  }

  lemma ClaimSteps(req: AtomicRequest, ports: Ports, lease: LeaseReceipt)
    requires Plain(req) && (ports == PORTS || ports == NO_RESERVER)
    ensures var run, row, ans := RunAt(Load, req, ports), Claiming(req), AllGoesWell(req, lease);
            && ExecStep(run.(pc := CheckClaim), false, Some(row), ans, 1, true, 2) == Goto(run, StartClaim, Some(row))
            && ExecStep(run.(pc := StartClaim), false, Some(row), ans, 1, true, 3)
               == Goto(run, CallClaim, Some(ClaimStarted(row)))
            && ExecStep(run.(pc := CallClaim), false, Some(ClaimStarted(row)), ans, 1, true, 4)
               == Goto(run, SettleClaim(ans.claim), Some(ClaimStarted(row)))
            && ExecStep(run.(pc := SettleClaim(ans.claim)), false, Some(ClaimStarted(row)), ans, 1, true, 5)
               == Goto(run, CheckReservation, Some(ClaimedRow(req)))
  {
    hide StableClaimActor, Plain;
    ClaimIsAccepted(req);
  }

  // The receipt of this run's claim is valid, and lands.
  lemma ClaimIsAccepted(req: AtomicRequest)
    requires Plain(req)
    ensures ValidClaimReceipt(ClaimReceipt(req.beadID, Actor(req), TrackerInProgress, Some(1)), req.beadID, Actor(req))
    ensures MatchesIntent(ClaimStarted(Claiming(req)), req)
  {
    hide StableClaimActor, IsPhysicalPane;
  }

  // ---------- A lease its row does not name ----------

  // What is durable, and what happened, when the reservation service has answered and the answer is not yet recorded.
  function ReservingRow(req: AtomicRequest): Assignment {
    ReservationStarted(ClaimedRow(req))
  }

  lemma ReachReserved(req: AtomicRequest, lease: LeaseReceipt)
    requires Plain(req)
    ensures Reachable(World(req.beadID, Some(ReservingRow(req)),
                            map[0 := Executing(RunAt(SettleReserve(ReserveGranted(lease)), req, PORTS))],
                            [ReserveReturned(1, req.requireReservation, lease)], 9))
  {
    hide Reachable, Plain, ExecStep, Actor, World, ClaimedRow, ReservationStarted;
    var ans, row, run := AllGoesWell(req, lease), ClaimedRow(req), RunAt(Load, req, PORTS);
    ReachClaimed(req, PORTS, lease);
    ReserveSteps(req, lease);
    QuietAlone(Some(row), run.(pc := CheckReservation), [], 6, ans, Goto(run, StartReservation, Some(row)));
    QuietAlone(Some(row), run.(pc := StartReservation), [], 7, ans, Goto(run, CallReserve, Some(ReservingRow(req))));
    ExecAlone(Some(ReservingRow(req)), run.(pc := CallReserve), [], 8, ans,
              Local(run.(pc := SettleReserve(ans.reserve)), Some(ReservingRow(req)),
                    Some(ReserveReturned(1, req.requireReservation, lease))));
    assert [] + [ReserveReturned(1, req.requireReservation, lease)] == [ReserveReturned(1, req.requireReservation, lease)];
  }

  lemma ReserveSteps(req: AtomicRequest, lease: LeaseReceipt)
    ensures var run, row, ans := RunAt(Load, req, PORTS), ClaimedRow(req), AllGoesWell(req, lease);
            && ExecStep(run.(pc := CheckReservation), false, Some(row), ans, 1, true, 6)
               == Goto(run, StartReservation, Some(row))
            && ExecStep(run.(pc := StartReservation), false, Some(row), ans, 1, true, 7)
               == Goto(run, CallReserve, Some(ReservingRow(req)))
            && ExecStep(run.(pc := CallReserve), false, Some(ReservingRow(req)), ans, 1, true, 8)
               == Local(run.(pc := SettleReserve(ans.reserve)), Some(ReservingRow(req)),
                        Some(ReserveReturned(1, req.requireReservation, lease)))
  {
    hide StableClaimActor, ValidLease;
  }

  /** Whatever a required reservation asks for and whatever lease it is granted, some run reaches a state in which the
      service has handed the lease out, nothing has proved it gone, and the row does not name it. */
  lemma UnrecordedLease(req: AtomicRequest, lease: LeaseReceipt, h: Handle)
    requires Plain(req) && req.requireReservation && h in LeaseHandles(lease) && !Expired(h, 1)
    ensures exists s :: Reachable(s) && req.beadID in s.ledger && !Expired(h, s.now)
                        && Held(s.log, s.ledger[req.beadID].generation, h, 0)
                        && h !in LeaseHandles(s.ledger[req.beadID].reservation.lease)
  {
    hide Reachable, Plain, Actor;
    ReachReserved(req, lease);
    var s := World(req.beadID, Some(ReservingRow(req)),
                   map[0 := Executing(RunAt(SettleReserve(ReserveGranted(lease)), req, PORTS))],
                   [ReserveReturned(1, req.requireReservation, lease)], 9);
    assert Held(s.log, 1, h, 0);
    assert s.ledger[req.beadID].generation == 1 && LeaseHandles(NO_LEASE) == {};
  }

  // ---------- A lease nobody remembers ----------

  // The attempt is cleared after its process died between the service's answer and recording it.
  lemma ReachCleared(req: AtomicRequest, lease: LeaseReceipt)
    requires Plain(req) && !req.requireReservation
    ensures Reachable(World(req.beadID, None, map[], [ReserveReturned(1, false, lease), ReleaseConfirmed(1, {}, {})], 9))
  {
    hide Reachable, Plain, Actor, ApplyOp, LeasesReleased;
    var b, row, log := req.beadID, ReservingRow(req), [ReserveReturned(1, false, lease)];
    var releasing := row.(clear := row.clear.(state := ClearStateReservationReleasing));
    ReachReserved(req, lease);
    StopAlone(b, Some(row), Executing(RunAt(SettleReserve(ReserveGranted(lease)), req, PORTS)), 0, log, 9);
    ReservingRowMayClear(req);
    GuardedAlone(b, row, OpBeginClear({}), log, 9, releasing);
    CleanAlone(b, releasing, log, 9);
    assert log + [ReleaseConfirmed(1, {}, {})] == [ReserveReturned(1, false, lease), ReleaseConfirmed(1, {}, {})];
    RemoveAlone(b, LeasesReleased(releasing).value, log + [ReleaseConfirmed(1, {}, {})], 9);
  }

  lemma ReservingRowMayClear(req: AtomicRequest)
    ensures var row := ReservingRow(req); var releasing := row.(clear := row.clear.(state := ClearStateReservationReleasing));
            && ApplyOp(row, OpBeginClear({}), 1) == Ok(releasing)
            && LeasesReleased(releasing).Ok? && MayCompleteClear(LeasesReleased(releasing).value)
  {
    hide Actor;
  }

  lemma RemoveAlone(b: string, row: Assignment, log: seq<Event>, n: nat)
    requires Reachable(World(b, Some(row), map[], log, n)) && MayCompleteClear(row)
    ensures Reachable(World(b, None, map[], log, n))
  {
    hide Reachable;
    var s := World(b, Some(row), map[], log, n);
    ReachNext(s, CompleteClear(b));
    assert s.ledger - {b} == map[];
  }

  /** NoLeaseForgotten needs the reservation to be required. Of one that was not, any lease the service still grants can
      be forgotten: some run ends with no row, no process, and the lease neither expired nor proved gone. */
  lemma UnrequiredLeaseForgotten(req: AtomicRequest, lease: LeaseReceipt, h: Handle)
    requires Plain(req) && !req.requireReservation && h in LeaseHandles(lease) && !Expired(h, 1)
    ensures exists s :: Reachable(s) && s.ledger == map[] && s.processes == map[] && !Expired(h, s.now)
                        && s.log != [] && s.log[0] == ReserveReturned(1, false, lease)
                        && forall k :: 0 < k < |s.log| ==> !Resolves(s.log[k], 1, h)
  {
    hide Reachable, Plain;
    ReachCleared(req, lease);
    var s := World(req.beadID, None, map[], [ReserveReturned(1, false, lease), ReleaseConfirmed(1, {}, {})], 9);
    assert s.log[1] == ReleaseConfirmed(1, {}, {});
    assert !Resolves(s.log[1], 1, h);
  }

  // ---------- A finished attempt ----------

  function SendEvent(req: AtomicRequest): Event {
    DispatchCalled(1, true, MessageFor(req), DispatchReceived("r"))
  }

  function SendingRow(req: AtomicRequest): Assignment {
    ClaimedRow(req).(dispatch := Dispatch(DispatchSending, 1, req.prompt, "", ""))
  }

  function SentRow(req: AtomicRequest): Assignment {
    DispatchDelivered(SendingRow(req), req.prompt, "r")
  }

  lemma ReachSent(req: AtomicRequest)
    requires Plain(req) && !req.requireReservation
    ensures Reachable(World(req.beadID, Some(SentRow(req)), map[], [SendEvent(req)], 11))
  {
    hide Reachable, Plain, ExecStep, Actor, World, ClaimedRow, DispatchDelivered;
    var ans, row, run := AllGoesWell(req, NO_LEASE), ClaimedRow(req), RunAt(Load, req, NO_RESERVER);
    var sending, log := SendingRow(req), [SendEvent(req)];
    ReachClaimed(req, NO_RESERVER, NO_LEASE);
    SkipReservation(req);
    SendSteps(req);
    QuietAlone(Some(row), run.(pc := CheckReservation), [], 6, ans, Goto(run, StartReservation, Some(row)));
    QuietAlone(Some(row), run.(pc := StartReservation), [], 7, ans, Goto(run, StartDispatch(1), Some(row)));
    QuietAlone(Some(row), run.(pc := StartDispatch(1)), [], 8, ans, Goto(run, CallDispatch(1), Some(sending)));
    ExecAlone(Some(sending), run.(pc := CallDispatch(1)), [], 9, ans,
              Local(run.(pc := SettleDispatch(ans.dispatch)), Some(sending), Some(SendEvent(req))));
    assert [] + log == log;
    QuietAlone(Some(sending), run.(pc := SettleDispatch(ans.dispatch)), log, 10, ans,
               Goto(run, Finished(Sent("r")), Some(SentRow(req))));
    StopAlone(req.beadID, Some(SentRow(req)), Executing(run.(pc := Finished(Sent("r")))), 0, log, 11);
  }

  lemma SkipReservation(req: AtomicRequest)
    requires !req.requireReservation
    ensures var run, row, ans := RunAt(Load, req, NO_RESERVER), ClaimedRow(req), AllGoesWell(req, NO_LEASE);
            && ExecStep(run.(pc := CheckReservation), false, Some(row), ans, 1, true, 6)
               == Goto(run, StartReservation, Some(row))
            && ExecStep(run.(pc := StartReservation), false, Some(row), ans, 1, true, 7)
               == Goto(run, StartDispatch(1), Some(row))
  {
    hide Actor, ValidLease;
  }

  lemma ClaimedRowIs(req: AtomicRequest)
    ensures var row := ClaimedRow(req);
            row.intent.idempotencyKey == req.idempotencyKey && row.generation == 1
                && row.dispatch == Dispatch(DispatchPending, 0, req.prompt, "", "")
  {
    hide Actor;
  }

  lemma SendSteps(req: AtomicRequest)
    ensures var run, row, ans := RunAt(Load, req, NO_RESERVER), SendingRow(req), AllGoesWell(req, NO_LEASE);
            && ExecStep(run.(pc := StartDispatch(1)), false, Some(ClaimedRow(req)), ans, 1, true, 8)
               == Goto(run, CallDispatch(1), Some(row))
            && ExecStep(run.(pc := CallDispatch(1)), false, Some(row), ans, 1, true, 9)
               == Local(run.(pc := SettleDispatch(ans.dispatch)), Some(row), Some(SendEvent(req)))
            && ExecStep(run.(pc := SettleDispatch(ans.dispatch)), false, Some(row), ans, 1, true, 10)
               == Goto(run, Finished(Sent("r")), Some(SentRow(req)))
  {
    hide Actor, ValidLease, LoadStep, BeginReleaseStep, CheckReservationStep, RecordIntentStep, ClaimedRow,
      CheckClaimStep, SettleClaimStep, SettleReserveStep, SettleReserveInspectionStep, InspectReservationStep,
      StartReservationStep;
    ClaimedRowIs(req);
  }

  /** "Once sent, every retry of that key replays" fails as soon as the work is finished: some run leads any attempt to a
      state in which an exact retry of it, on a pane nobody blocks, is refused although the prompt was sent. */
  lemma FinishedRetryRefused(req: AtomicRequest)
    requires Plain(req) && !req.requireReservation
    ensures exists s :: Reachable(s) && Enabled(s, Exec(0, AllGoesWell(req, NO_LEASE), true))
                        && s.processes[0].run.req == req && s.processes[0].run.pc.Load? && !Blocked(s, s.processes[0].run)
                        && req.beadID in s.ledger && s.ledger[req.beadID].dispatch.state.DispatchSent?
                        && Admission.SameIntent(s.ledger[req.beadID], req)
                        && Next(s, Exec(0, AllGoesWell(req, NO_LEASE), true)).processes[0].run.pc
                           == Finished(Failed(ErrTerminalAssignmentAttempt))
  {
    hide Reachable, NormalizeRequest, RequestError, ApplyOp, Admission.SameIntent, Actor, StepOnRow, RecordIntentStep;
    var b, log, row := req.beadID, [SendEvent(req)], SentRow(req);
    var finished := row.(status := StatusCompleted);
    ReachSent(req);
    SentRowMoves(req);
    GuardedAlone(b, row, OpTransition(row, StatusCompleted, ""), log, 11, finished);
    StartAlone(Some(finished), log, 11, req, NO_RESERVER);
    var s := World(b, Some(finished), map[0 := Executing(Run(Load, req, NO_RESERVER, "", "", 0))], log, 11);
    assert !Blocked(s, s.processes[0].run) && Lookup(s.ledger, b) == Some(finished);
    FinishedDecision(req);
    assert Enabled(s, Exec(0, AllGoesWell(req, NO_LEASE), true));
  }

  lemma SentRowMoves(req: AtomicRequest)
    requires Plain(req)
    ensures var row := SentRow(req);
            && ApplyOp(row, OpTransition(row, StatusCompleted, ""), 1) == Ok(row.(status := StatusCompleted))
            && ApplyOp(row, OpTransition(row, StatusWorking, ""), 1) == Ok(row.(status := StatusWorking))
  {
    hide Actor, IsPhysicalPane;
  }

  lemma FinishedDecision(req: AtomicRequest)
    requires Plain(req)
    ensures var row := SentRow(req).(status := StatusCompleted);
            && Admission.SameIntent(row, req)
            && Decide(Some(row), req, NO_RESERVER, AllGoesWell(req, NO_LEASE), 1)
               == Decision.Stop(ErrTerminalAssignmentAttempt)
  {
    hide StableClaimActor, IsPhysicalPane, RunPreflight, CheckGates;
    var row := SentRow(req).(status := StatusCompleted);
    Admission.SameIntentByChecks(row, req);
    assert ChooseActor(Some(row), req) == Go(req, req.prompt, Actor(req), false);
  }

  // ---------- A completion event ----------

  // The attempt is working, its completion was detected, and its leases are recorded as released.
  function CompletingRow(req: AtomicRequest): Assignment {
    var working := SentRow(req).(status := StatusWorking);
    working.(clear := Clear(ClearStateReservationReleasing, Some(StatusCompleted), "", false),
             outbox := Outbox(CompletionEventID(working, StatusCompleted), Some(1), "", None))
  }

  function ReleasedRow(req: AtomicRequest): Assignment {
    var row := CompletingRow(req);
    row.(clear := row.clear.(state := ClearStateLeasesReleased), reservation := NoLeases(row.reservation))
  }

  lemma ReachCompleting(req: AtomicRequest)
    requires Plain(req) && !req.requireReservation
    ensures exists log :: Reachable(World(req.beadID, Some(ReleasedRow(req)), map[], log, 11))
  {
    hide Reachable, Plain, Actor, ApplyOp, SentRow, CompletionEventID;
    var b, log, row := req.beadID, [SendEvent(req)], SentRow(req);
    ReachSent(req);
    SentRowMoves(req);
    GuardedAlone(b, row, OpTransition(row, StatusWorking, ""), log, 11, row.(status := StatusWorking));
    CompletionBegins(req);
    GuardedAlone(b, row.(status := StatusWorking), OpBeginTerminal(SentRow(req), StatusCompleted, "", true), log, 11,
                 CompletingRow(req));
    CleanAlone(b, CompletingRow(req), log, 11);
  }

  lemma CompletionBegins(req: AtomicRequest)
    requires Plain(req)
    ensures ApplyOp(SentRow(req).(status := StatusWorking), OpBeginTerminal(SentRow(req), StatusCompleted, "", true), 1)
            == Ok(CompletingRow(req))
    ensures CompletingRow(req).intent.reservationRequired == req.requireReservation
    ensures LeasesReleased(CompletingRow(req)) == Ok(ReleasedRow(req))
  {
    hide Actor, IsPhysicalPane, CompletionEventID;
  }

  // The takeover passes every check up to the write that starts its own row.
  lemma TakeoverSteps(req: AtomicRequest, takeover: AtomicRequest)
    requires Plain(req) && TakesOver(req, takeover)
    ensures var ans, row := AllGoesWell(takeover, NO_LEASE), ReleasedRow(req);
            var run := Run(BeginRelease, takeover, PORTS, takeover.prompt, Actor(req), 0);
            && ExecStep(Run(Load, takeover, PORTS, "", "", 0), false, Some(row), ans, 1, true, 11)
               == Goto(run, BeginRelease, Some(row))
            && ExecStep(run, false, Some(row), ans, 1, true, 12) == Goto(run, RecordIntent, Some(row))
            && ReplacementReady(row, takeover)
  {
    hide StableClaimActor, IsPhysicalPane, CompletionEventID, StepOnRow;
    var row := ReleasedRow(req);
    assert ChooseActor(Some(row), takeover) == Go(takeover, takeover.prompt, Actor(req), true);
  }

  /** A completion event can really be lost: after any attempt that required no reservation, and for any takeover of its
      bead, some run leads to a step in which nobody acknowledges the event and yet it leaves its row. */
  lemma CompletionEventLost(req: AtomicRequest, takeover: AtomicRequest)
    requires Plain(req) && !req.requireReservation && TakesOver(req, takeover)
    ensures exists s, act, eventID ::
              && Reachable(s) && Enabled(s, act) && eventID != "" && HasEvent(s.ledger, req.beadID, eventID)
              && !Acknowledges(s, act, req.beadID, eventID) && !HasEvent(Next(s, act).ledger, req.beadID, eventID)
  {
    hide Reachable, Plain, Actor, NormalizeRequest, RequestError, ExecStep, CompletionEventID, ReplacementReady;
    var b, row, ans := req.beadID, ReleasedRow(req), AllGoesWell(takeover, NO_LEASE);
    var run := Run(BeginRelease, takeover, PORTS, takeover.prompt, Actor(req), 0);
    ReachCompleting(req);
    var log :| Reachable(World(b, Some(row), map[], log, 11));
    StartAlone(Some(row), log, 11, takeover, PORTS);
    TakeoverSteps(req, takeover);
    QuietAlone(Some(row), Run(Load, takeover, PORTS, "", "", 0), log, 11, ans, Goto(run, BeginRelease, Some(row)));
    QuietAlone(Some(row), run, log, 12, ans, Goto(run, RecordIntent, Some(row)));
    var s := World(b, Some(row), map[0 := Executing(run.(pc := RecordIntent))], log, 13);
    var act, eventID := Exec(0, ans, true), row.outbox.eventID;
    EventIDIsNotBlank(SentRow(req).(status := StatusWorking), OpBeginTerminal(row, StatusCompleted, "", true));
    assert eventID != "";
    assert OvertakesTerminal(s, act, b);
    EventLeaves(s, act, b, eventID);
  }
}
