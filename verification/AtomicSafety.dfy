/**
 The invariant of the whole system: every reachable state of any number of
 processes, crashing and interleaving between any two steps, satisfies `Inv`.
 */
module AtomicSafety {
  import opened Wrappers
  import opened AssignmentTypes
  import opened AssignmentPolicy
  import opened AssignmentTransitions
  import opened AtomicMachine
  import opened AtomicProtocol
  import opened AtomicInvariant
  import Release

  // ---------- The history ----------

  /** Dispatch is called for a generation only while no earlier attempt of it is unaccounted for. */
  predicate Disciplined(log: seq<Event>) {
    forall i :: 0 <= i < |log| && log[i].DispatchCalled? ==> !PastOf(log[..i], log[i].generation).attempted
  }

  ghost predicate LogInv(log: seq<Event>, nextGeneration: nat) {
    && (forall i :: 0 <= i < |log| ==> log[i].generation < nextGeneration)
    && Disciplined(log)
    && (forall g: nat :: DeliveredOnce(PastOf(log, g)))
  }

  lemma PastAppend(log: seq<Event>, event: Option<Event>, g: nat)
    ensures PastOf(log + Logged(event), g)
            == if event.Some? && event.value.generation == g then Advance(PastOf(log, g), event.value) else PastOf(log, g)
  {
    if event.Some? {
      assert (log + [event.value])[..|log|] == log;
    } else {
      assert log + [] == log;
    }
  }

  lemma {:induction false} UnseenGenerationHasNoPast(log: seq<Event>, g: nat)
    requires forall i :: 0 <= i < |log| ==> log[i].generation < g
    ensures PastOf(log, g) == NO_PAST
  {
    if log != [] {
      UnseenGenerationHasNoPast(log[..|log| - 1], g);
    }
  }

  // ---------- The ledger ----------

  predicate RowsInv(ledger: Ledger, log: seq<Event>, now: Time, nextGeneration: nat) {
    forall b :: b in ledger ==>
      && ledger[b].intent.beadID == b
      && ledger[b].generation < nextGeneration
      && RowInv(ledger[b], PastOf(log, ledger[b].generation), now)
  }

  predicate GenerationsDistinct(ledger: Ledger) {
    forall b, c :: b in ledger && c in ledger && ledger[b].generation == ledger[c].generation ==> b == c
  }

  // No row of another bead is live on this pane.
  predicate PaneFree(ledger: Ledger, beadID: string, pane: string) {
    forall b :: b in ledger && b != beadID && IsLive(ledger[b].status) ==> ledger[b].intent.occupancyKey != pane
  }

  predicate PanesExclusive(ledger: Ledger) {
    forall b :: b in ledger && IsLive(ledger[b].status) ==> PaneFree(ledger, b, ledger[b].intent.occupancyKey)
  }

  predicate Current(ledger: Ledger, g: nat) {
    exists b :: b in ledger && ledger[b].generation == g
  }

  // A generation that lost its row left no live lease behind.
  ghost predicate RetiredLapsed(ledger: Ledger, log: seq<Event>, now: Time) {
    forall g: nat :: Current(ledger, g) || Lapsed(PastOf(log, g).outstanding, now)
  }

  ghost predicate LedgerInv(s: State) {
    && LogInv(s.log, s.nextGeneration)
    && RowsInv(s.ledger, s.log, s.now, s.nextGeneration)
    && GenerationsDistinct(s.ledger)
    && PanesExclusive(s.ledger)
    && RetiredLapsed(s.ledger, s.log, s.now)
  }

  // ---------- Processes ----------

  function BeadOf(process: Process): string {
    if process.Executing? then process.run.req.beadID else process.beadID
  }

  predicate Critical(process: Process) {
    process.Executing? && InCriticalSection(process.run)
  }

  // A cleaner past its first look at the row, which relies on the row still releasing.
  predicate Releasing(process: Process) {
    process.Cleaning? && (process.phase.CleanKnows? || process.phase.CleanConfirmed?)
  }

  predicate Compatible(a: Process, b: Process) {
    && !(BeadOf(a) == BeadOf(b) && HoldsCleanup(a, BeadOf(a)) && HoldsCleanup(b, BeadOf(b)))
    && !(Critical(a) && Critical(b) && a.run.req.occupancyKey == b.run.req.occupancyKey)
  }

  predicate LocksExclusive(processes: map<nat, Process>) {
    forall p, q :: p in processes && q in processes && p != q ==> Compatible(processes[p], processes[q])
  }

  function PastFor(log: seq<Event>, row: Option<Assignment>): Past {
    if row.Some? then PastOf(log, row.value.generation) else NO_PAST
  }

  predicate LapsedOrNamed(handles: set<Handle>, paths: set<string>, ids: set<int>, now: Time) {
    forall h :: h in handles ==> Expired(h, now) || NamedBy(paths, ids, h)
  }

  // The generation a cleaner surveyed is still there, still releasing, and holds no live lease beyond those it learnt of.
  predicate SurveyStands(ledger: Ledger, log: seq<Event>, now: Time, beadID: string, g: nat, lease: LeaseReceipt) {
    && beadID in ledger && ledger[beadID].generation == g
    && ledger[beadID].clear.state.ClearStateReservationReleasing?
    && LapsedOrNamed(PastOf(log, g).outstanding, Release.Named(lease.granted), Elements(lease.reservationIDs), now)
  }

  // The generation a cleaner saw released is still there, still releasing, and holds no live lease.
  predicate ReleaseStands(ledger: Ledger, log: seq<Event>, now: Time, beadID: string, g: nat) {
    && beadID in ledger && ledger[beadID].generation == g
    && ledger[beadID].clear.state.ClearStateReservationReleasing?
    && Lapsed(PastOf(log, g).outstanding, now)
  }

  predicate ProcessInv(ledger: Ledger, log: seq<Event>, now: Time, process: Process) {
    match process
    case Executing(run) =>
      && RequestOk(run)
      && (InCriticalSection(run) ==>
            && RunInv(run, Lookup(ledger, run.req.beadID), PastFor(log, Lookup(ledger, run.req.beadID)), now)
            && (!run.pc.Load? && !run.pc.Finished? ==> PaneFree(ledger, run.req.beadID, run.req.occupancyKey)))
    case Cleaning(beadID, phase) =>
      && (phase.CleanKnows? ==> SurveyStands(ledger, log, now, beadID, phase.generation, phase.lease))
      && (phase.CleanConfirmed? ==> ReleaseStands(ledger, log, now, beadID, phase.generation))
  }

  predicate ProcessesInv(s: State) {
    forall p :: p in s.processes ==> ProcessInv(s.ledger, s.log, s.now, s.processes[p])
  }

  // ---------- Completion leases ----------

  predicate GrantStands(ledger: Ledger, now: Time, g: Grant) {
    || g.expiresAt <= now
    || (g.token != "" && g.beadID in ledger
        && ledger[g.beadID].outbox.eventID == g.eventID
        && ledger[g.beadID].outbox.consumerToken == g.token
        && ledger[g.beadID].outbox.leaseExpiresAt == Some(g.expiresAt))
  }

  predicate GrantsInv(ledger: Ledger, now: Time, grants: set<Grant>) {
    forall g :: g in grants ==> GrantStands(ledger, now, g)
  }

  ghost predicate Inv(s: State) {
    s.now > 0 && LedgerInv(s) && LocksExclusive(s.processes) && ProcessesInv(s) && GrantsInv(s.ledger, s.now, s.grants)
  }

  // ---------- Steps that touch one bead ----------

  function Updated(ledger: Ledger, beadID: string, after: Option<Assignment>): Ledger {
    if after.Some? then ledger[beadID := after.value] else ledger - {beadID}
  }

  /** What every step that touches bead `b` guarantees: at most one event, belonging to the bead's
      current row; a row of a fresh generation or of the old one; nothing live left behind. */
  ghost predicate BeadStep(s: State, t: State, b: string, after: Option<Assignment>, event: Option<Event>) {
    && t.now == s.now && t.log == s.log + Logged(event) && t.nextGeneration >= s.nextGeneration
    && t.ledger == Updated(s.ledger, b, after)
    && (event.Some? ==> b in s.ledger && after.Some?
                        && event.value.generation == s.ledger[b].generation == after.value.generation)
    && (event.Some? && event.value.DispatchCalled? ==> !PastOf(s.log, event.value.generation).attempted)
    && (after.Some? ==>
          && after.value.intent.beadID == b
          && RowInv(after.value, PastOf(t.log, after.value.generation), s.now)
          && (|| (b in s.ledger && after.value.generation == s.ledger[b].generation)
              || s.nextGeneration == after.value.generation < t.nextGeneration)
          && (IsLive(after.value.status) ==> PaneFree(s.ledger, b, after.value.intent.occupancyKey)))
    && (b in s.ledger && (after.None? || after.value.generation != s.ledger[b].generation) ==>
          Lapsed(PastOf(s.log, s.ledger[b].generation).outstanding, s.now))
  }

  lemma BeadStepKeepsLog(s: State, t: State, b: string, after: Option<Assignment>, event: Option<Event>)
    requires LedgerInv(s) && BeadStep(s, t, b, after, event)
    ensures LogInv(t.log, t.nextGeneration)
  {
    hide RowShape, LeasesTracked, PaneFree;
    forall g: nat
      ensures DeliveredOnce(PastOf(t.log, g))
    {
      PastAppend(s.log, event, g);
    }
    forall i | 0 <= i < |t.log| && t.log[i].DispatchCalled?
      ensures !PastOf(t.log[..i], t.log[i].generation).attempted
    {
      assert t.log[..i] == s.log[..i];
      assert i == |s.log| ==> t.log[..i] == s.log;
    }
  }

  lemma BeadStepKeepsRows(s: State, t: State, b: string, after: Option<Assignment>, event: Option<Event>)
    requires LedgerInv(s) && BeadStep(s, t, b, after, event)
    ensures RowsInv(t.ledger, t.log, t.now, t.nextGeneration) && GenerationsDistinct(t.ledger)
  {
    hide RowInv, PaneFree, PanesExclusive, LogInv, RetiredLapsed;
    forall c | c in t.ledger && c != b
      ensures RowInv(t.ledger[c], PastOf(t.log, t.ledger[c].generation), t.now)
    {
      PastAppend(s.log, event, t.ledger[c].generation);
    }
  }

  lemma BeadStepKeepsPanes(s: State, t: State, b: string, after: Option<Assignment>, event: Option<Event>)
    requires LedgerInv(s) && BeadStep(s, t, b, after, event)
    ensures PanesExclusive(t.ledger)
  {
    hide RowInv, LogInv, RetiredLapsed, RowsInv, GenerationsDistinct;
  }

  lemma BeadStepKeepsRetired(s: State, t: State, b: string, after: Option<Assignment>, event: Option<Event>)
    requires LedgerInv(s) && BeadStep(s, t, b, after, event)
    ensures RetiredLapsed(t.ledger, t.log, t.now)
  {
    hide RowInv, RowsInv, PanesExclusive, PaneFree, LogInv, Lapsed;
    forall g: nat
      ensures Current(t.ledger, g) || Lapsed(PastOf(t.log, g).outstanding, t.now)
    {
      PastAppend(s.log, event, g);
      if event.Some? && event.value.generation == g {
        assert b in t.ledger && t.ledger[b].generation == g;
      } else if Current(s.ledger, g) {
        var c :| c in s.ledger && s.ledger[c].generation == g;
        if c != b {
          assert c in t.ledger && t.ledger[c].generation == g;
        } else if after.Some? && after.value.generation == g {
          assert b in t.ledger && t.ledger[b].generation == g;
        }
      } else {
        assert Lapsed(PastOf(s.log, g).outstanding, s.now);
      }
    }
  }

  lemma BeadStepKeepsLedger(s: State, t: State, b: string, after: Option<Assignment>, event: Option<Event>)
    requires LedgerInv(s) && BeadStep(s, t, b, after, event)
    ensures LedgerInv(t)
  {
    BeadStepKeepsLog(s, t, b, after, event);
    BeadStepKeepsRows(s, t, b, after, event);
    BeadStepKeepsPanes(s, t, b, after, event);
    BeadStepKeepsRetired(s, t, b, after, event);
  }

  // A process that is not working on bead `b` does not notice the step.
  lemma BeadStepFrames(s: State, t: State, b: string, after: Option<Assignment>, event: Option<Event>, process: Process)
    requires LedgerInv(s) && BeadStep(s, t, b, after, event)
    requires ProcessInv(s.ledger, s.log, s.now, process)
    requires BeadOf(process) == b ==> !Critical(process) && !Releasing(process)
    requires Critical(process) && after.Some? && IsLive(after.value.status) ==>
      || after.value.intent.occupancyKey != process.run.req.occupancyKey
      || (b in s.ledger && IsLive(s.ledger[b].status)
          && s.ledger[b].intent.occupancyKey == after.value.intent.occupancyKey)
    ensures ProcessInv(t.ledger, t.log, t.now, process)
  {
    hide RowInv, RunInv, Lapsed;
    var c := BeadOf(process);
    if c != b && c in s.ledger {
      PastAppend(s.log, event, s.ledger[c].generation);
    }
  }

  // ---------- A step of Execute ----------

  function Blocked(s: State, run: Run): bool {
    OccupancyBlocked(s.ledger, run.req.beadID, run.req.occupancyKey)
  }

  // The local preservation result, read in the global state.
  lemma ExecLocalPost(s: State, p: nat, ans: Answers, delivered: bool)
    requires Inv(s) && Enabled(s, Exec(p, ans, delivered))
    ensures var run := s.processes[p].run; var row := Lookup(s.ledger, run.req.beadID);
            LocalPost(run, row, PastFor(s.log, row), s.now, s.nextGeneration, ExecLocal(s, run, ans, delivered))
  {
    hide RowInv, RunInv, LocalPost, ExecStep, LogInv, RetiredLapsed, PanesExclusive, GenerationsDistinct;
    var run := s.processes[p].run;
    var row := Lookup(s.ledger, run.req.beadID);
    assert ProcessInv(s.ledger, s.log, s.now, s.processes[p]);
    ExecStepKeeps(run, Blocked(s, run), row, ans, delivered, PastFor(s.log, row), s.now, s.nextGeneration);
  }

  lemma ExecPast(s: State, row: Option<Assignment>, local: Local)
    requires LogInv(s.log, s.nextGeneration)
    requires row.Some? ==> local.row.Some?
    requires local.event.Some? ==> row.Some? && local.event.value.generation == row.value.generation
    requires NewGeneration(row, local) ==> local.row.value.generation == s.nextGeneration && local.event.None?
    ensures PastFor(s.log + Logged(local.event), local.row) == PastAfter(row, PastFor(s.log, row), local)
  {
    if local.row.Some? {
      PastAppend(s.log, local.event, local.row.value.generation);
      if NewGeneration(row, local) {
        UnseenGenerationHasNoPast(s.log, s.nextGeneration);
      }
    }
  }

  // A pane passes the occupancy scan only when no other live row is on it.
  lemma UnblockedPaneIsFree(s: State, b: string, pane: string)
    requires RowsInv(s.ledger, s.log, s.now, s.nextGeneration) && !OccupancyBlocked(s.ledger, b, pane)
    ensures PaneFree(s.ledger, b, pane)
  {
    hide LeasesTracked, DeliveredOnce, ValidOutbox, DigitsValue;
    forall c | c in s.ledger && c != b && IsLive(s.ledger[c].status)
      ensures s.ledger[c].intent.occupancyKey != pane
    {
      assert !Blocks(s.ledger[c], pane);
    }
  }

  lemma ExecPane(s: State, p: nat, ans: Answers, delivered: bool)
    requires Inv(s) && Enabled(s, Exec(p, ans, delivered))
    ensures var run := s.processes[p].run; var local := ExecLocal(s, run, ans, delivered);
            && (local.row.Some? && IsLive(local.row.value.status) ==>
                  PaneFree(s.ledger, run.req.beadID, local.row.value.intent.occupancyKey))
            && (!local.run.pc.Finished? ==> PaneFree(s.ledger, run.req.beadID, run.req.occupancyKey))
  {
    hide RowInv, RunInv, LogInv, RetiredLapsed, Decide, RecordIntentStep, StepOnRow, BeginReleaseStep, CallReleaseStep,
      SettleReleaseStep, PaneFree, OccupancyBlocked;
    var run := s.processes[p].run;
    assert ProcessInv(s.ledger, s.log, s.now, s.processes[p]);
    ExecLocalPost(s, p, ans, delivered);
    if run.pc.Load? && !Blocked(s, run) {
      UnblockedPaneIsFree(s, run.req.beadID, run.req.occupancyKey);
    }
  }

  lemma ExecIsBeadStep(s: State, p: nat, ans: Answers, delivered: bool)
    requires Inv(s) && Enabled(s, Exec(p, ans, delivered))
    ensures var run := s.processes[p].run; var local := ExecLocal(s, run, ans, delivered);
            BeadStep(s, Next(s, Exec(p, ans, delivered)), run.req.beadID, local.row, local.event)
  {
    hide RowInv, RunInv, ExecLocal, RetiredLapsed, PanesExclusive, GenerationsDistinct, OutboxKept, GrantsInv,
      LocksExclusive, ProcessesInv;
    var run := s.processes[p].run;
    var row := Lookup(s.ledger, run.req.beadID);
    var local := ExecLocal(s, run, ans, delivered);
    ExecLocalPost(s, p, ans, delivered);
    ExecPast(s, row, local);
    ExecPane(s, p, ans, delivered);
    assert Next(s, Exec(p, ans, delivered)).ledger == Updated(s.ledger, run.req.beadID, local.row);
  }

  lemma ExecKeepsItsProcess(s: State, p: nat, ans: Answers, delivered: bool)
    requires Inv(s) && Enabled(s, Exec(p, ans, delivered))
    ensures var t := Next(s, Exec(p, ans, delivered));
            ProcessInv(t.ledger, t.log, t.now, Executing(ExecLocal(s, s.processes[p].run, ans, delivered).run))
  {
    hide RowInv, RunInv, ExecLocal, RetiredLapsed, PanesExclusive, GenerationsDistinct, OutboxKept, GrantsInv,
      LocksExclusive, DeliveredOnce;
    var run := s.processes[p].run;
    var row := Lookup(s.ledger, run.req.beadID);
    var local := ExecLocal(s, run, ans, delivered);
    assert ProcessInv(s.ledger, s.log, s.now, s.processes[p]);
    ExecLocalPost(s, p, ans, delivered);
    ExecPast(s, row, local);
    ExecPane(s, p, ans, delivered);
    assert Lookup(Next(s, Exec(p, ans, delivered)).ledger, run.req.beadID) == local.row;
  }

  lemma ExecKeepsGrants(s: State, p: nat, ans: Answers, delivered: bool)
    requires Inv(s) && Enabled(s, Exec(p, ans, delivered))
    ensures var t := Next(s, Exec(p, ans, delivered)); GrantsInv(t.ledger, t.now, t.grants)
  {
    hide RunInv, RowInv, ExecLocal, LogInv, RetiredLapsed, PanesExclusive, GenerationsDistinct, LocksExclusive,
      ProcessesInv;
    ExecLocalPost(s, p, ans, delivered);
    var run := s.processes[p].run;
    var local := ExecLocal(s, run, ans, delivered);
    forall g | g in s.grants
      ensures GrantStands(Next(s, Exec(p, ans, delivered)).ledger, s.now, g)
    {
      assert GrantStands(s.ledger, s.now, g);
      if g.beadID == run.req.beadID && g.beadID in s.ledger {
        RowHasShape(s.ledger[g.beadID], PastOf(s.log, s.ledger[g.beadID].generation), s.now);
        assert OutboxKept(s.ledger[g.beadID], local);
      }
    }
  }

  lemma ExecFramesOthers(s: State, p: nat, ans: Answers, delivered: bool, q: nat)
    requires Inv(s) && Enabled(s, Exec(p, ans, delivered)) && q in s.processes && q != p
    ensures var t := Next(s, Exec(p, ans, delivered)); ProcessInv(t.ledger, t.log, t.now, s.processes[q])
  {
    hide RowInv, RunInv, ExecLocal, LogInv, RetiredLapsed, PanesExclusive, GenerationsDistinct, RowsInv, GrantsInv,
      PaneFree, OutboxKept;
    var run := s.processes[p].run;
    var local := ExecLocal(s, run, ans, delivered);
    ExecLocalPost(s, p, ans, delivered);
    ExecIsBeadStep(s, p, ans, delivered);
    assert Compatible(s.processes[p], s.processes[q]);
    BeadStepFrames(s, Next(s, Exec(p, ans, delivered)), run.req.beadID, local.row, local.event, s.processes[q]);
  }

  // A step of a run keeps what its locks are for.
  lemma ExecKeepsLocks(s: State, p: nat, ans: Answers, delivered: bool)
    requires Inv(s) && Enabled(s, Exec(p, ans, delivered))
    ensures LocksExclusive(Next(s, Exec(p, ans, delivered)).processes)
  {
    hide LedgerInv, GrantsInv, ProcessesInv, ExecLocal, LocalPost;
    var t := Next(s, Exec(p, ans, delivered));
    ExecLocalPost(s, p, ans, delivered);
    SameTaskOf(s, p, ans, delivered);
    forall q, r | q in t.processes && r in t.processes && q != r
      ensures Compatible(t.processes[q], t.processes[r])
    {
      assert Compatible(s.processes[q], s.processes[r]);
    }
  }

  lemma SameTaskOf(s: State, p: nat, ans: Answers, delivered: bool)
    requires Inv(s) && Enabled(s, Exec(p, ans, delivered))
    ensures SameTask(s.processes[p].run, ExecLocal(s, s.processes[p].run, ans, delivered).run)
  {
    hide Inv, ExecLocal, RunInv, RowInv, OutboxKept;
    ExecLocalPost(s, p, ans, delivered);
  }

  lemma ExecKeepsInv(s: State, p: nat, ans: Answers, delivered: bool)
    requires Inv(s) && Enabled(s, Exec(p, ans, delivered))
    ensures Inv(Next(s, Exec(p, ans, delivered)))
  {
    hide LedgerInv, ProcessInv, ExecLocal, LocksExclusive, GrantsInv;
    var b := s.processes[p].run.req.beadID;
    var local := ExecLocal(s, s.processes[p].run, ans, delivered);
    var t := Next(s, Exec(p, ans, delivered));
    ExecIsBeadStep(s, p, ans, delivered);
    ExecKeepsItsProcess(s, p, ans, delivered);
    ExecKeepsGrants(s, p, ans, delivered);
    ExecKeepsLocks(s, p, ans, delivered);
    BeadStepKeepsLedger(s, t, b, local.row, local.event);
    forall q | q in t.processes
      ensures ProcessInv(t.ledger, t.log, t.now, t.processes[q])
    {
      if q != p {
        ExecFramesOthers(s, p, ans, delivered, q);
      }
    }
  }

  // ---------- Guarded single-save operations ----------

  // The same attempt, still at rest for everyone who relied on it being live or releasing.
  predicate SameAttempt(before: Assignment, after: Assignment) {
    && after.generation == before.generation && after.intent == before.intent
    && (IsLive(after.status) ==> IsLive(before.status))
    && (before.clear.state.ClearStateReservationReleasing? ==> after.clear.state.ClearStateReservationReleasing?)
  }

  // What an operation that touches neither reservation, claim, dispatch nor pane has to leave right.
  predicate KeepsRest(before: Assignment, after: Assignment) {
    && after.generation == before.generation && after.intent == before.intent && after.claim == before.claim
    && after.dispatch == before.dispatch
    && (after.reservation == before.reservation || after.reservation == NoLeases(before.reservation))
    && (after.reservation != before.reservation ==> before.clear.state.ClearStateLeasesReleased?)
  }

  lemma RestKeepsRow(before: Assignment, after: Assignment, past: Past, now: Time)
    requires RowInv(before, past, now) && KeepsRest(before, after) && LifecycleShape(after)
    ensures RowInv(after, past, now)
  {
    hide IsPhysicalPane, ValidClaimReceipt, ValidOutbox, LeaseHandles, LifecycleShape;
    if before.clear.state.ClearStateLeasesReleased? {
      ReleasedRowIsEmpty(before);
    }
  }

  lemma ReleasedRowIsEmpty(row: Assignment)
    requires RowShape(row) && row.clear.state.ClearStateLeasesReleased?
    ensures row.reservation.state.ReservationReleased? && !AssignmentHasHandles(row)
  {
  }

  lemma RowHasShape(row: Assignment, past: Past, now: Time)
    requires RowInv(row, past, now)
    ensures LifecycleShape(row)
  {
    hide LifecycleShape;
  }

  // One operation at a time.
  lemma TransitionKeepsShape(row: Assignment, observed: Assignment, to: AssignmentStatus, reason: string)
    requires LifecycleShape(row) && Transition(row, observed, to, reason).Ok?
    ensures var after := Transition(row, observed, to, reason).value;
            LifecycleShape(after) && KeepsRest(row, after) && SameAttempt(row, after)
  {
  }

  lemma BeginClearKeepsShape(row: Assignment, expected: set<AssignmentStatus>)
    requires LifecycleShape(row) && BeginClear(row, expected).Ok?
    ensures var after := BeginClear(row, expected).value;
            LifecycleShape(after) && KeepsRest(row, after) && SameAttempt(row, after)
  {
  }

  lemma BeginTerminalKeepsShape(row: Assignment, observed: Assignment, status: AssignmentStatus, reason: string,
                                withEvent: bool, now: Time)
    requires LifecycleShape(row) && now > 0 && BeginTerminal(row, observed, status, reason, withEvent, now).Ok?
    ensures var after := BeginTerminal(row, observed, status, reason, withEvent, now).value;
            LifecycleShape(after) && KeepsRest(row, after) && SameAttempt(row, after)
  {
    hide CompletionEventID;
    EventIDIsNotBlank(row, OpBeginTerminal(observed, status, reason, withEvent));
  }

  lemma FinishKeepsShape(row: Assignment, op: Op, now: Time)
    requires LifecycleShape(row) && ApplyOp(row, op, now).Ok?
    requires op.OpTerminalClaimReleased? || op.OpCompleteTerminal?
    ensures var after := ApplyOp(row, op, now).value;
            LifecycleShape(after) && KeepsRest(row, after) && SameAttempt(row, after)
  {
  }

  lemma OutboxOpKeepsShape(row: Assignment, op: Op, now: Time)
    requires LifecycleShape(row) && now > 0 && ApplyOp(row, op, now).Ok?
    requires op.OpClaimEvent? || op.OpRenewEvent? || op.OpAcknowledge?
    ensures var after := ApplyOp(row, op, now).value;
            LifecycleShape(after) && KeepsRest(row, after) && SameAttempt(row, after)
  {
  }

  lemma OpKeepsRow(row: Assignment, op: Op, past: Past, now: Time)
    requires RowInv(row, past, now) && now > 0 && ApplyOp(row, op, now).Ok?
    ensures RowInv(ApplyOp(row, op, now).value, past, now)
    ensures SameAttempt(row, ApplyOp(row, op, now).value)
  {
    hide RowInv, LifecycleShape, KeepsRest, SameAttempt, Transition, BeginClear, BeginTerminal, TerminalClaimReleased,
      CompleteTerminal, ClaimEvent, RenewEvent, AcknowledgeEvent;
    assert LifecycleShape(row) by { RowHasShape(row, past, now); }
    match op {
      case OpTransition(observed, to, reason) => TransitionKeepsShape(row, observed, to, reason);
      case OpBeginClear(expected) => BeginClearKeepsShape(row, expected);
      case OpBeginTerminal(observed, status, reason, withEvent) =>
        BeginTerminalKeepsShape(row, observed, status, reason, withEvent, now);
      case OpTerminalClaimReleased => FinishKeepsShape(row, op, now);
      case OpCompleteTerminal(_, _) => FinishKeepsShape(row, op, now);
      case _ => OutboxOpKeepsShape(row, op, now);
    }
    RestKeepsRow(row, ApplyOp(row, op, now).value, past, now);
  }

  lemma EventIDIsNotBlank(row: Assignment, op: Op)
    ensures op.OpBeginTerminal? ==> CompletionEventID(row, op.status) != ""
  {
  }

  // One consumer's answer against the row before and after an operation on that row.
  lemma OpKeepsGrant(ledger: Ledger, b: string, op: Op, now: Time, grants: set<Grant>, g: Grant)
    requires b in ledger && ValidOutbox(ledger[b]) && ApplyOp(ledger[b], op, now).Ok?
    requires g in grants ==> GrantStands(ledger, now, g)
    requires g in ApplyGrant(grants, b, ApplyOp(ledger[b], op, now).value, op)
    ensures GrantStands(ledger[b := ApplyOp(ledger[b], op, now).value], now, g)
  {
    hide CompletionEventID;
  }

  lemma OpKeepsGrants(s: State, b: string, op: Op)
    requires RowsInv(s.ledger, s.log, s.now, s.nextGeneration) && GrantsInv(s.ledger, s.now, s.grants)
    requires b in s.ledger && ApplyOp(s.ledger[b], op, s.now).Ok?
    ensures var after := ApplyOp(s.ledger[b], op, s.now).value;
            GrantsInv(s.ledger[b := after], s.now, ApplyGrant(s.grants, b, after, op))
  {
    hide ApplyOp, ApplyGrant, GrantStands, ValidOutbox, LeasesTracked, DeliveredOnce;
    var after := ApplyOp(s.ledger[b], op, s.now).value;
    assert RowInv(s.ledger[b], PastOf(s.log, s.ledger[b].generation), s.now);
    forall g | g in ApplyGrant(s.grants, b, after, op)
      ensures GrantStands(s.ledger[b := after], s.now, g)
    {
      OpKeepsGrant(s.ledger, b, op, s.now, s.grants, g);
    }
  }

  lemma PaneOfLiveRowIsFree(s: State, b: string)
    requires PanesExclusive(s.ledger) && b in s.ledger && IsLive(s.ledger[b].status)
    ensures PaneFree(s.ledger, b, s.ledger[b].intent.occupancyKey)
  {
  }

  // A step that rewrites one row within its attempt, seen from every process.
  lemma RowRewriteKeepsInv(s: State, t: State, b: string, after: Assignment)
    requires Inv(s) && b in s.ledger
    requires t.now == s.now && t.log == s.log && t.nextGeneration == s.nextGeneration
    requires t.ledger == s.ledger[b := after]
    requires after.generation == s.ledger[b].generation && after.intent == s.ledger[b].intent
    requires IsLive(after.status) ==> IsLive(s.ledger[b].status)
    requires RowInv(after, PastOf(s.log, after.generation), s.now)
    requires LocksExclusive(t.processes) && GrantsInv(t.ledger, t.now, t.grants)
    requires forall q :: q in t.processes ==> || (q in s.processes && t.processes[q] == s.processes[q])
                                              || (t.processes[q].Cleaning? && !Releasing(t.processes[q]))
    requires forall q :: q in t.processes && BeadOf(t.processes[q]) == b ==> !Critical(t.processes[q])
    requires forall q :: q in t.processes && BeadOf(t.processes[q]) == b && Releasing(t.processes[q]) ==>
               after.clear.state.ClearStateReservationReleasing?
    ensures Inv(t)
  {
    hide RowInv, RunInv, LogInv, RetiredLapsed, GenerationsDistinct, GrantStands, LocksExclusive;
    if IsLive(after.status) { PaneOfLiveRowIsFree(s, b); }
    assert s.log + [] == s.log;
    assert BeadStep(s, t, b, Some(after), None);
    BeadStepKeepsLedger(s, t, b, Some(after), None);
    forall q | q in t.processes
      ensures ProcessInv(t.ledger, t.log, t.now, t.processes[q])
    {
      if q in s.processes && t.processes[q] == s.processes[q] {
        assert ProcessInv(s.ledger, s.log, s.now, s.processes[q]);
        if BeadOf(s.processes[q]) == b {
          assert !Critical(s.processes[q]);
        } else {
          BeadStepFrames(s, t, b, Some(after), None, s.processes[q]);
        }
      }
    }
  }

  lemma GuardedKeepsInv(s: State, b: string, op: Op)
    requires Inv(s) && Enabled(s, Guarded(b, op))
    ensures Inv(Next(s, Guarded(b, op)))
  {
    hide RowInv, RunInv, LogInv, RetiredLapsed, PanesExclusive, GenerationsDistinct, ApplyOp, ApplyGrant;
    var t := Next(s, Guarded(b, op));
    if ApplyOp(s.ledger[b], op, s.now).Ok? {
      OpKeepsRow(s.ledger[b], op, PastOf(s.log, s.ledger[b].generation), s.now);
      OpKeepsGrants(s, b, op);
      forall q | q in t.processes && BeadOf(t.processes[q]) == b
        ensures !Critical(t.processes[q])
        ensures Releasing(t.processes[q]) ==>
                  s.ledger[b].clear.state.ClearStateReservationReleasing?
      {
        assert !HoldsBead(s.processes[q], b);
        assert ProcessInv(s.ledger, s.log, s.now, s.processes[q]);
      }
      RowRewriteKeepsInv(s, t, b, ApplyOp(s.ledger[b], op, s.now).value);
    }
  }

  // ---------- The cleaner's steps ----------

  lemma LeasesReleasedKeepsRow(row: Assignment, past: Past, now: Time)
    requires RowInv(row, past, now) && row.clear.state.ClearStateReservationReleasing? && Lapsed(past.outstanding, now)
    ensures LeasesReleased(row).Ok?
    ensures var after := LeasesReleased(row).value;
            RowInv(after, past, now) && after.generation == row.generation && after.intent == row.intent
            && after.status == row.status && after.outbox == row.outbox
  {
  }

  lemma RecordReleaseKeepsLocks(s: State, p: nat)
    requires Inv(s) && Enabled(s, RecordRelease(p))
    ensures var t := Next(s, RecordRelease(p));
            && LocksExclusive(t.processes)
            && forall q :: q in t.processes && BeadOf(t.processes[q]) == s.processes[p].beadID ==>
                 !Critical(t.processes[q]) && !Releasing(t.processes[q])
  {
    hide LedgerInv, ProcessesInv, GrantsInv, LeasesReleased;
    var t := Next(s, RecordRelease(p));
    forall q | q in t.processes && BeadOf(t.processes[q]) == s.processes[p].beadID
      ensures !Critical(t.processes[q]) && !Releasing(t.processes[q])
    {
      assert !HoldsBead(s.processes[q], s.processes[p].beadID);
      assert q != p ==> Compatible(s.processes[p], s.processes[q]);
    }
    forall q, r | q in t.processes && r in t.processes && q != r
      ensures Compatible(t.processes[q], t.processes[r])
    {
      assert Compatible(s.processes[q], s.processes[r]);
    }
  }

  lemma RecordReleaseKeepsInv(s: State, p: nat)
    requires Inv(s) && Enabled(s, RecordRelease(p))
    ensures Inv(Next(s, RecordRelease(p)))
  {
    hide RunInv, RowInv, LogInv, RetiredLapsed, PanesExclusive, GenerationsDistinct, LeasesReleased, LocksExclusive;
    var t := Next(s, RecordRelease(p));
    var b := s.processes[p].beadID;
    assert ProcessInv(s.ledger, s.log, s.now, s.processes[p]);
    LeasesReleasedKeepsRow(s.ledger[b], PastOf(s.log, s.ledger[b].generation), s.now);
    RecordReleaseKeepsLocks(s, p);
    forall g | g in s.grants
      ensures GrantStands(t.ledger, s.now, g)
    {
      assert GrantStands(s.ledger, s.now, g);
    }
    RowRewriteKeepsInv(s, t, b, LeasesReleased(s.ledger[b]).value);
  }

  // A step that only tells a cleaner more about its row's leases.
  lemma CleanerLearnsKeepsInv(s: State, t: State, p: nat, event: Option<Event>, phase: CleanPhase)
    requires Inv(s) && p in s.processes && s.processes[p].Cleaning? && !s.processes[p].phase.CleanWaiting?
    requires var b := s.processes[p].beadID;
             && b in s.ledger && BeadStep(s, t, b, Some(s.ledger[b]), event)
             && t == s.(log := t.log, processes := s.processes[p := Cleaning(b, phase)])
             && ProcessInv(t.ledger, t.log, t.now, t.processes[p])
    requires !phase.CleanWaiting?
    ensures Inv(t)
  {
    hide RunInv, LogInv, RowsInv, RetiredLapsed, PanesExclusive, GenerationsDistinct, GrantsInv, BeadStep;
    var b := s.processes[p].beadID;
    BeadStepKeepsLedger(s, t, b, Some(s.ledger[b]), event);
    forall q | q in t.processes
      ensures ProcessInv(t.ledger, t.log, t.now, t.processes[q])
    {
      if q != p {
        assert Compatible(s.processes[p], s.processes[q]);
        LearningIsQuiet(s, t, b, event);
        BeadStepFrames(s, t, b, Some(s.ledger[b]), event, s.processes[q]);
      }
    }
    forall q, r | q in t.processes && r in t.processes && q != r
      ensures Compatible(t.processes[q], t.processes[r])
    {
      assert Compatible(s.processes[q], s.processes[r]);
    }
  }

  lemma LearningIsQuiet(s: State, t: State, b: string, event: Option<Event>)
    requires b in s.ledger && BeadStep(s, t, b, Some(s.ledger[b]), event) && t.ledger == s.ledger
    ensures t.now == s.now
  {
  }

  lemma LearningIsBeadStep(s: State, t: State, b: string, event: Option<Event>)
    requires Inv(s) && b in s.ledger
    requires t.now == s.now && t.log == s.log + Logged(event) && t.nextGeneration == s.nextGeneration && t.ledger == s.ledger
    requires event.Some? ==> (event.value.LeasesListed? || event.value.ReleaseConfirmed?)
                             && event.value.generation == s.ledger[b].generation
    ensures BeadStep(s, t, b, Some(s.ledger[b]), event)
  {
    hide RunInv, RowInv, LogInv, RetiredLapsed, GenerationsDistinct, GrantsInv, ProcessesInv, LocksExclusive, Lapsed;
    // What a cleaner learns can only shrink what is outstanding.
    var g := s.ledger[b].generation;
    PastAppend(s.log, event, g);
    FewerLeasesKeepRow(s.ledger[b], PastOf(s.log, g), PastOf(t.log, g).outstanding, s.now);
    if IsLive(s.ledger[b].status) { PaneOfLiveRowIsFree(s, b); }
    assert t.ledger == Updated(s.ledger, b, Some(s.ledger[b]));
  }

  // Either the row names everything outstanding, or its cleaner must ask and then knows.
  lemma SurveyCovers(row: Assignment, past: Past, found: LeaseReceipt, now: Time)
    requires RowInv(row, past, now) && row.clear.state.ClearStateReservationReleasing?
    ensures var lease := if NeedsReconciliation(row) then found else row.reservation.lease;
            var event := SurveyEvent(row, found);
            LapsedOrNamed((if event.Some? then Advance(past, event.value) else past).outstanding,
                          Release.Named(lease.granted), Elements(lease.reservationIDs), now)
  {
    hide IsPhysicalPane, ValidClaimReceipt, ValidOutbox;
  }

  lemma SurveyKeepsInv(s: State, p: nat, found: LeaseReceipt)
    requires Inv(s) && Enabled(s, Survey(p, found))
    ensures Inv(Next(s, Survey(p, found)))
  {
    hide RunInv, RowInv, LogInv, RetiredLapsed, PanesExclusive, GenerationsDistinct, GrantsInv, BeadStep,
      LocksExclusive, SurveyEvent, LapsedOrNamed;
    var t := Next(s, Survey(p, found));
    var b := s.processes[p].beadID;
    var event := SurveyEvent(s.ledger[b], found);
    SurveyEventIsListing(s.ledger[b], found);
    LearningIsBeadStep(s, t, b, event);
    PastAppend(s.log, event, s.ledger[b].generation);
    SurveyCovers(s.ledger[b], PastOf(s.log, s.ledger[b].generation), found, s.now);
    CleanerLearnsKeepsInv(s, t, p, event, t.processes[p].phase);
  }

  lemma SurveyEventIsListing(row: Assignment, found: LeaseReceipt)
    ensures SurveyEvent(row, found).Some? ==>
              SurveyEvent(row, found).value.LeasesListed? && SurveyEvent(row, found).value.generation == row.generation
  {
  }

  /** A release that succeeded leaves nothing live of a row whose leases the cleaner knew. */
  lemma ReleasedLeavesNothing(row: Assignment, past: Past, lease: LeaseReceipt, b: Release.Binding, listing: seq<Release.Lease>,
                              now: Time)
    requires RowInv(row, past, now) && ReleaseSucceeds(row, lease, b, listing)
    requires LapsedOrNamed(past.outstanding, Release.Named(lease.granted), Elements(lease.reservationIDs), now)
    ensures Lapsed(Advance(past, ReleaseConfirmed(row.generation, Release.GonePaths(b, listing),
                                                  Release.GoneIDs(b, listing))).outstanding, now)
  {
    hide RowShape, Release.Confirmed;
    if Release.Confirmed(b, listing) {
      Release.ConfirmedMeansGone(b, listing);
    }
  }

  lemma ConfirmReleaseKeepsInv(s: State, p: nat, binding: Release.Binding, listing: seq<Release.Lease>)
    requires Inv(s) && Enabled(s, ConfirmRelease(p, binding, listing))
    ensures Inv(Next(s, ConfirmRelease(p, binding, listing)))
  {
    hide RunInv, RowInv, LogInv, RetiredLapsed, PanesExclusive, GenerationsDistinct, GrantsInv, BeadStep,
      LocksExclusive, LapsedOrNamed, ReleaseSucceeds, Release.GoneIDs, Release.GonePaths, Lapsed;
    var t := Next(s, ConfirmRelease(p, binding, listing));
    var b := s.processes[p].beadID;
    var g := s.ledger[b].generation;
    assert ProcessInv(s.ledger, s.log, s.now, s.processes[p]);
    var event := Some(ReleaseConfirmed(g, Release.GonePaths(binding, listing), Release.GoneIDs(binding, listing)));
    LearningIsBeadStep(s, t, b, event);
    PastAppend(s.log, event, g);
    ReleasedLeavesNothing(s.ledger[b], PastOf(s.log, g), s.processes[p].phase.lease, binding, listing, s.now);
    CleanerLearnsKeepsInv(s, t, p, event, t.processes[p].phase);
  }

  // A row that may be removed has no live lease, no event and no consumer.
  lemma ClearedRow(row: Assignment, past: Past, now: Time)
    requires RowInv(row, past, now) && MayCompleteClear(row)
    ensures Lapsed(past.outstanding, now) && row.outbox.consumerToken == ""
  {
    hide IsPhysicalPane, ValidClaimReceipt, Lapsed, LapsedOrKnown;
  }

  lemma CompleteClearKeepsInv(s: State, b: string)
    requires Inv(s) && Enabled(s, CompleteClear(b))
    ensures Inv(Next(s, CompleteClear(b)))
  {
    hide RunInv, RowInv, LogInv, RetiredLapsed, PanesExclusive, GenerationsDistinct, LocksExclusive, Lapsed;
    var t := Next(s, CompleteClear(b));
    ClearedRow(s.ledger[b], PastOf(s.log, s.ledger[b].generation), s.now);
    assert s.log + [] == s.log;
    BeadStepKeepsLedger(s, t, b, None, None);
    forall q | q in t.processes
      ensures ProcessInv(t.ledger, t.log, t.now, t.processes[q])
    {
      assert !HoldsBead(s.processes[q], b);
      BeadStepFrames(s, t, b, None, None, s.processes[q]);
    }
    forall g | g in s.grants
      ensures GrantStands(t.ledger, s.now, g)
    {
      assert GrantStands(s.ledger, s.now, g);
    }
  }

  // ---------- Time ----------

  lemma TickKeepsRow(row: Assignment, past: Past, now: Time, later: Time)
    requires RowInv(row, past, now) && now <= later
    ensures RowInv(row, past, later)
  {
    hide RowShape;
  }

  lemma TickKeepsRun(run: Run, row: Option<Assignment>, past: Past, now: Time, later: Time)
    requires RunInv(run, row, past, now) && now <= later
    ensures RunInv(run, row, past, later)
  {
    hide ValidLease, ValidClaimReceipt;
  }

  lemma TickKeepsInv(s: State, later: Time)
    requires Inv(s) && Enabled(s, Tick(later))
    ensures Inv(Next(s, Tick(later)))
  {
    hide RunInv, RowInv, LogInv, PanesExclusive, GenerationsDistinct, LocksExclusive;
    var t := Next(s, Tick(later));
    forall b | b in s.ledger
      ensures RowInv(s.ledger[b], PastOf(s.log, s.ledger[b].generation), later)
    {
      TickKeepsRow(s.ledger[b], PastOf(s.log, s.ledger[b].generation), s.now, later);
    }
    forall q | q in s.processes
      ensures ProcessInv(t.ledger, t.log, later, s.processes[q])
    {
      var process := s.processes[q];
      assert ProcessInv(s.ledger, s.log, s.now, process);
      if Critical(process) {
        var row := Lookup(s.ledger, process.run.req.beadID);
        TickKeepsRun(process.run, row, PastFor(s.log, row), s.now, later);
      }
    }
  }

  // ---------- Starting, stopping and taking locks ----------

  lemma ProcessStepKeepsInv(s: State, act: Action)
    requires Inv(s) && Enabled(s, act)
    requires act.Start? || act.Stop? || act.StartCleaning? || act.AcquireCleaning? || act.Acquire?
    ensures Inv(Next(s, act))
  {
    hide RunInv, LogInv, RowsInv, GenerationsDistinct, PanesExclusive, RetiredLapsed, GrantsInv, IsPhysicalPane,
      PaneFree, LocksExclusive;
    var t := Next(s, act);
    ProcessStepKeepsLocks(s, act);
    forall q | q in t.processes
      ensures ProcessInv(t.ledger, t.log, t.now, t.processes[q])
    {
      assert q in s.processes ==> ProcessInv(s.ledger, s.log, s.now, s.processes[q]);
      if act.Acquire? && q == act.p {
        var row := Lookup(s.ledger, BeadOf(t.processes[q]));
        LockedRunInv(t.processes[q].run, row, PastFor(s.log, row), s.now);
      }
    }
  }

  lemma LockedRunInv(run: Run, row: Option<Assignment>, past: Past, now: Time)
    requires run.pc.WaitBead? || run.pc.WaitTarget? || run.pc.Load?
    ensures RunInv(run, row, past, now)
  {
  }

  lemma ProcessStepKeepsLocks(s: State, act: Action)
    requires Inv(s) && Enabled(s, act)
    requires act.Start? || act.Stop? || act.StartCleaning? || act.AcquireCleaning? || act.Acquire?
    ensures LocksExclusive(Next(s, act).processes)
  {
    hide LedgerInv, GrantsInv, ProcessesInv, RequestError, NormalizeRequest;
    var t := Next(s, act);
    forall q, r | q in t.processes && r in t.processes && q != r
      ensures Compatible(t.processes[q], t.processes[r])
    {
      assert q in s.processes && r in s.processes ==> Compatible(s.processes[q], s.processes[r]);
      if act.Acquire? || act.AcquireCleaning? {
        assert s.processes[act.p].Executing? && s.processes[act.p].run.pc.WaitTarget? ==>
          !HoldsTarget(s.processes[q], s.processes[act.p].run.req.occupancyKey)
              && !HoldsTarget(s.processes[r], s.processes[act.p].run.req.occupancyKey);
      }
    }
  }

  // ---------- All runs ----------

  lemma InitInv()
    ensures Inv(INITIAL)
  {
    forall g: nat
      ensures PastOf(INITIAL.log, g) == NO_PAST
    {
    }
  }

  lemma NextKeepsInv(s: State, act: Action)
    requires Inv(s) && Enabled(s, act)
    ensures Inv(Next(s, act))
  {
    hide Inv, Enabled, Next;
    match act
    case Exec(p, ans, delivered) => ExecKeepsInv(s, p, ans, delivered);
    case Survey(p, found) => SurveyKeepsInv(s, p, found);
    case ConfirmRelease(p, b, listing) => ConfirmReleaseKeepsInv(s, p, b, listing);
    case RecordRelease(p) => RecordReleaseKeepsInv(s, p);
    case Guarded(b, op) => GuardedKeepsInv(s, b, op);
    case CompleteClear(b) => CompleteClearKeepsInv(s, b);
    case Tick(later) => TickKeepsInv(s, later);
    case Start(_, _, _) => ProcessStepKeepsInv(s, act);
    case Acquire(_) => ProcessStepKeepsInv(s, act);
    case Stop(_) => ProcessStepKeepsInv(s, act);
    case StartCleaning(_, _) => ProcessStepKeepsInv(s, act);
    case AcquireCleaning(_) => ProcessStepKeepsInv(s, act);
  }

  /** Every state the system can reach satisfies the invariant. */
  lemma {:induction false} RunsKeepInv(s: State, acts: seq<Action>)
    requires Inv(s) && Legal(s, acts)
    ensures Inv(After(s, acts))
    decreases |acts|
  {
    hide Inv, Enabled, Next;
    if acts != [] {
      NextKeepsInv(s, acts[0]);
      RunsKeepInv(Next(s, acts[0]), acts[1..]);
    }
  }

  // Every state some legal run of the whole system leads to.
  ghost predicate Reachable(s: State) {
    exists acts :: Legal(INITIAL, acts) && After(INITIAL, acts) == s
  }

  lemma ReachableInv(s: State)
    requires Reachable(s)
    ensures Inv(s)
  {
    hide Inv, Enabled, Next;
    var acts :| Legal(INITIAL, acts) && After(INITIAL, acts) == s;
    InitInv();
    RunsKeepInv(INITIAL, acts);
  }
}
