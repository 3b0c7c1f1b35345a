/**
 AtomicCoordinator.Execute as the code runs it, against a store on disk that other
 processes write between its steps, proved to take exactly the steps of AtomicMachine;
 a failed save stops it before or after the step it was saving.
 */
module AtomicExecute {
  import opened Wrappers
  import opened AssignmentTypes
  import opened AssignmentPolicy
  import opened AssignmentTransitions
  import opened AtomicMachine
  import opened AtomicSafety
  import opened AtomicCourse
  import opened Admission
  import AtomicProtocol
  import AtomicOutcomes
  import opened Publication
  import opened AssignmentStores
  import opened ReceiptChecks

  // The step of each program point, for a run that owns its row.
  lemma ClaimSteps(c: Config, w: World)
    requires OwnsRow(c)
    ensures var run, row, local := c.run, c.ledger[c.run.req.beadID], StepLocal(c, w);
            && (run.pc.CheckClaim? ==> local == CheckClaimStep(run, row))
            && (run.pc.InspectClaim? ==> local == Goto(run, SettleClaimInspection(w.ans.claimInspection), Some(row)))
            && (run.pc.SettleClaimInspection? ==> local == SettleClaimInspectionStep(run, row, run.pc.claimFound))
            && (run.pc.StartClaim? ==> local == Goto(run, CallClaim, Some(ClaimStarted(row))))
            && (run.pc.CallClaim? ==> local == Goto(run, SettleClaim(w.ans.claim), Some(row)))
            && (run.pc.SettleClaim? ==> local == SettleClaimStep(run, row, run.pc.claimAnswer))
  {
    hide LoadStep, RecordIntentStep, BeginReleaseStep, CallReleaseStep, SettleReleaseStep, CheckClaimStep, ClaimStarted,
      SettleClaimInspectionStep, SettleClaimStep;
  }

  // The first step, which decides everything that is decided without a write.
  lemma LoadingStep(c: Config, w: World)
    requires c.run.pc.Load?
    ensures StepLocal(c, w) == LoadStep(c.run, OccupancyBlocked(c.ledger, c.run.req.beadID, c.run.req.occupancyKey),
                                        Lookup(c.ledger, c.run.req.beadID), w.ans, w.times(c.step))
  {
    hide LoadStep, StepOnRow, RecordIntentStep, BeginReleaseStep, CallReleaseStep, SettleReleaseStep, OccupancyBlocked;
  }

  lemma ReservationSteps(c: Config, w: World)
    requires OwnsRow(c)
    ensures var run, row, local, now := c.run, c.ledger[c.run.req.beadID], StepLocal(c, w), w.times(c.step);
            && (run.pc.CheckReservation? ==> local == CheckReservationStep(run, row, now))
            && (run.pc.CheckExpiry? ==> local == CheckExpiryStep(run, row, run.pc.validatedAt, now))
            && (run.pc.InspectReservation? ==> local == InspectReservationStep(run, Some(row), w.ans))
            && (run.pc.SettleReserveInspection? ==> local == SettleReserveInspectionStep(run, row, run.pc.leaseFound, now))
            && (run.pc.StartReservation? ==> local == StartReservationStep(run, row, now))
            && (run.pc.CallReserve? ==> local == CallReserveStep(run, Some(row), w.ans))
            && (run.pc.SettleReserve? ==> local == SettleReserveStep(run, row, run.pc.reserveAnswer, now))
  {
    hide LoadStep, RecordIntentStep, BeginReleaseStep, CallReleaseStep, SettleReleaseStep, CheckReservationStep,
      CheckExpiryStep, InspectReservationStep, SettleReserveInspectionStep, StartReservationStep, CallReserveStep,
          SettleReserveStep;
  }

  lemma DispatchSteps(c: Config, w: World)
    requires OwnsRow(c)
    ensures var run, row, local := c.run, c.ledger[c.run.req.beadID], StepLocal(c, w);
            && (run.pc.StartDispatch? ==> local == StartDispatchStep(run, row, run.pc.validatedAt))
            && (run.pc.CallDispatch? ==> local == CallDispatchStep(run, row, w.ans, w.delivered))
            && (run.pc.SettleDispatch? ==> local == SettleDispatchStep(run, row, run.pc.dispatchAnswer))
  {
    hide LoadStep, RecordIntentStep, BeginReleaseStep, CallReleaseStep, SettleReleaseStep, StartDispatchStep,
      CallDispatchStep, SettleDispatchStep;
  }

  /** A step of Execute is a step of the shared protocol, and what happens between steps leaves the run, its row and the
      history alone. */
  lemma StepIsProtocolStep(s: AtomicProtocol.State, p: nat, w: World, c: Config)
    requires AtomicProtocol.Enabled(s, AtomicProtocol.Exec(p, w.ans, w.delivered))
    requires c.run == s.processes[p].run && c.ledger == s.ledger && c.log == s.log
    requires w.times(c.step) == s.now && w.generation == s.nextGeneration
    ensures var t := AtomicProtocol.Next(s, AtomicProtocol.Exec(p, w.ans, w.delivered));
            && t.ledger == OwnStep(c, w).ledger && t.log == Step(c, w).log
            && t.processes[p] == AtomicProtocol.Executing(Step(c, w).run)
            && Lookup(Step(c, w).ledger, c.run.req.beadID) == Lookup(t.ledger, c.run.req.beadID)
  {
    hide Steps, ExecStep;
  }

  predicate SameTask(before: Run, after: Run) {
    after.req.beadID == before.req.beadID && after.ports == before.ports
  }

  lemma LoadKeepsTask(run: Run, row: Option<Assignment>, blocked: bool, ans: Answers, now: Time)
    ensures SameTask(run, LoadStep(run, blocked, row, ans, now).run)
  {
    hide Decide;
    ReplacementHasPrior(row, run.req, run.ports, ans, now);
  }

  // A run never changes its bead or its ports.
  lemma StepKeepsTask(c: Config, w: World)
    ensures SameTask(c.run, Step(c, w).run)
  {
    hide Around, ExecStep, OccupancyBlocked;
    var row, now := Lookup(c.ledger, c.run.req.beadID), w.times(c.step);
    var blocked := OccupancyBlocked(c.ledger, c.run.req.beadID, c.run.req.occupancyKey);
    if c.run.pc.Load? {
      LoadingStep(c, w);
      LoadKeepsTask(c.run, row, blocked, w.ans, now);
    } else if !c.run.pc.Finished? {
      AtomicOutcomes.StepKeepsDecision(c.run, blocked, row, w.ans, now, w.delivered, w.generation);
    } else {
      FinishedStays(c.run, blocked, row, w.ans, now, w.delivered, w.generation);
    }
  }

  // Whether the caller goes on, or returns with an error.
  datatype Progress = Continue | Done(error: Error)

  class AtomicCoordinator {
    const store: AssignmentStore
    const ports: Ports
    const world: World
    var clock: nat
    var bead: string
    ghost var start: Config
    ghost var at: Config
    ghost var sound: bool

    constructor (store: AssignmentStore, ports: Ports, world: World)
      ensures this.store == store && this.ports == ports && this.world == world
    {
      this.store, this.ports, this.world, this.clock, this.bead := store, ports, world, 0, "";
      new;
      start := Config(Run(Load, AtomicRequest("", "", "", "", "", "", "", "", "", NoDigest, NoDigest, false, false, [], false),
                          ports, "", "", 0), map[], [], 0);
      at, sound := start, true;
    }

    // The durable ledger is the one the machine has after `at.step` steps; once a save has failed, for this bead.
    ghost predicate OnTrack()
      reads this, store, store.disk
    {
      && Consistent(store.disk.files)
      && at == Steps(start, world, at.step) && start.step == 0
      && Lookup(store.Durable(), bead) == Lookup(at.ledger, bead) && (sound ==> store.Durable() == at.ledger)
      && store.EmptyIfUnpublished() && bead == at.run.req.beadID
      && (!sound ==> Unreliable())
    }

    // Some save this call made has failed, or the generation counter is exhausted.
    ghost predicate Unreliable()
      reads this, store, store.disk
    {
      (exists k: nat :: k < clock && world.faults(k) != NoFault) || store.Full()
    }

    // Between two steps of a healthy run: nothing unsaved, and the clock and ports are the machine's.
    ghost predicate InStep()
      reads this, store, store.disk
    {
      OnTrack() && store.Durable() == at.ledger && store.Ready(bead) && clock == at.step && at.run.ports == ports
    }

    // The bead's row belongs to the run's key.
    ghost predicate Owned()
      reads this
    {
      OwnsRow(at)
    }

    // What other processes save before the next step: other beads' rows, as they like.
    method Interfere()
      requires Consistent(store.disk.files)
      modifies store.disk
      ensures Consistent(store.disk.files)
      ensures store.Durable() == Around(world.others(clock), bead, old(store.Durable()))
      ensures old(store.Ready(bead)) ==> store.Ready(bead)
      ensures old(store.Full()) ==> store.Full()
      ensures old(store.disk.files).backup.Some? ==> store.disk.files.backup.Some?
    {
      var latest := Latest(store.disk.files);
      var others := Around(world.others(clock), bead, latest.assignments);
      if latest.assignments != others {
        var generation := if latest.generation < MAX_GENERATION then latest.generation + 1 else MAX_GENERATION;
        var saved := Snapshot(generation, others, latest.cleared);
        store.disk.files := Files(Some(saved), Some(saved));
      }
    }

    // The machine takes the step whose row is durable by now, and other processes act before the next.
    method Advance()
      requires at == Steps(start, world, at.step) && start.step == 0 && clock == at.step && Consistent(store.disk.files)
      requires bead == at.run.req.beadID && at.run.ports == ports && store.EmptyIfUnpublished()
      requires store.Durable() == OwnStep(at, world).ledger
      modifies this`clock, this`at, store.disk
      ensures at == old(Step(at, world)) == Steps(start, world, at.step) && clock == at.step == old(clock) + 1
      ensures Consistent(store.disk.files) && store.Durable() == at.ledger && store.EmptyIfUnpublished()
      ensures bead == at.run.req.beadID && at.run.ports == ports
      ensures (old(store.Ready(bead)) ==> store.Ready(bead)) && (old(store.Full()) ==> store.Full())
    {
      hide StepLocal, Consistent, Around, Steps;
      NextStep(start, world, at);
      StepKeepsTask(at, world);
      Interfere();
      clock := clock + 1;
      at := Step(at, world);
    }

    // A step that writes nothing.
    method Took()
      requires InStep() && OwnStep(at, world).ledger == at.ledger
      modifies this`clock, this`at, store.disk
      ensures at == old(Step(at, world)) && InStep()
    {
      hide Step, OwnStep, StepLocal, Consistent, Steps;
      Advance();
    }

    /** A step that saved through the store. A save that failed leaves the machine before or after the step, whichever
        the disk shows. */
    method Saved(error: Option<Error>, reliable: bool)
      requires at == Steps(start, world, at.step) && start.step == 0 && clock == at.step && Consistent(store.disk.files)
      requires bead == at.run.req.beadID && at.run.ports == ports && store.EmptyIfUnpublished()
      requires store.Durable() == at.ledger || store.Durable() == OwnStep(at, world).ledger
      requires error.None? || reliable ==> store.Durable() == OwnStep(at, world).ledger
      requires error.None? ==> store.Ready(bead)
      requires !sound ==> Unreliable()
      requires !reliable ==> world.faults(clock) != NoFault || store.Full()
      modifies this`clock, this`at, this`sound, store.disk
      ensures OnTrack() && sound == (old(sound) && reliable)
      ensures error.None? || reliable ==> at == old(Step(at, world))
      ensures error.None? ==> InStep()
    {
      hide StepLocal, Consistent, Step, OwnStep, Steps;
      ghost var failed := world.faults(clock) != NoFault;
      if error.None? || reliable {
        Advance();
      } else {
        if store.Durable() == OwnStep(at, world).ledger {
          RowAfterStep(at, world);
          NextStep(start, world, at);
          StepKeepsTask(at, world);
          at := Step(at, world);
        }
        clock := clock + 1;
      }
      assert failed ==> world.faults(clock - 1) != NoFault;
      sound := sound && reliable;
    }

    // The row the store has loaded for the run's bead.
    method CurrentRow(beadID: string) returns (row: Assignment)
      requires InStep() && Owned() && beadID == at.run.req.beadID
      ensures Some(row) == Lookup(at.ledger, beadID)
    {
      assert Lookup(store.assignments, beadID) == Lookup(at.ledger, beadID);
      row := store.assignments[beadID];
    }

    // How a part of Execute may end: on to a later program point of the same run, or finished with an outcome.
    twostate predicate Proceeds(p: Progress)
      reads this, store, store.disk
    {
      && OnTrack() && (sound ==> old(sound))
      && (p.Continue? ==> InStep() && Owned() && at.run == old(at.run).(pc := at.run.pc))
      && (p.Done? && sound ==> at.run.pc == Finished(Failed(p.error)))
    }

    // ---------- ensureClaim ----------

    /** Records an error of the claim call and ends the run with it. */
    method RefuseClaim(req: AtomicRequest, claimError: Error) returns (p: Progress)
      requires InStep() && Owned() && req == PersistedRequest(at.run)
      requires StepLocal(at, world) == AtomicMachine.RefuseClaim(at.run, at.ledger[at.run.req.beadID], claimError)
      modifies this`clock, this`at, this`sound, store, store.disk
      ensures Proceeds(p) && p.Done?
    {
      hide Steps, StepLocal, Step;
      RowAfterStep(at, world);
      var reliable := Reliable(world.faults(clock), store.disk.files);
      var error := store.RecordAtomicClaimUncertain(req.beadID, req.idempotencyKey, claimError, world.faults(clock));
      Saved(error, reliable);
      p := Done(if error.Some? then error.value else claimError);
    }

    /** Records a receipt, from the claim call or its reconciliation, once it is proved valid. */
    method AcceptClaim(req: AtomicRequest, actor: string, receipt: ClaimReceipt) returns (p: Progress)
      requires InStep() && Owned() && req == PersistedRequest(at.run) && actor == at.run.actor
      requires StepLocal(at, world) == AtomicMachine.AcceptClaim(at.run, at.ledger[at.run.req.beadID], receipt)
      modifies this`clock, this`at, this`sound, store, store.disk
      ensures Proceeds(p) && (p.Continue? ==> at.run.pc == CheckReservation)
    {
      hide Steps, ExecStep, MatchesIntent;
      if !ValidClaimReceipt(receipt, req.beadID, actor) {
        p := RefuseClaim(req, ErrClaimOutcomeUnknown);
        return;
      }
      var reliable := Reliable(world.faults(clock), store.disk.files);
      var error := store.RecordAtomicClaim(req, receipt, world.faults(clock));
      Saved(error, reliable);
      p := if error.Some? then Done(error.value) else Continue;
    }

    /** An earlier claim whose outcome is open is looked up, where the tracker port can do that. */
    method ReconcileClaim(req: AtomicRequest, actor: string) returns (p: Progress, absent: bool)
      requires InStep() && Owned() && req == PersistedRequest(at.run) && actor == at.run.actor && at.run.pc == InspectClaim
      modifies this`clock, this`at, this`sound, store, store.disk
      ensures Proceeds(p) && (p.Continue? ==> at.run.pc == if absent then StartClaim else CheckReservation)
    {
      hide Steps, StepLocal, AtomicMachine.AcceptClaim, AtomicMachine.RefuseClaim;
      ClaimSteps(at, world);
      var found := world.ans.claimInspection;
      Took();
      ClaimSteps(at, world);
      absent := found.ClaimInspectedAbsent?;
      if absent {
        Took();
        p := Continue;
      } else if found.ClaimInspectedOwned? {
        p := AcceptClaim(req, actor, found.receipt);
      } else if found.ClaimInspectedConflict? {
        p := RefuseClaim(req, ErrClaimConflict);
      } else {
        p := RefuseClaim(req, ErrClaimOutcomeUnknown);
      }
    }

    // The barrier before the tracker is called.
    method MarkClaiming(req: AtomicRequest) returns (p: Progress)
      requires InStep() && Owned() && req == PersistedRequest(at.run) && at.run.pc == StartClaim
      modifies this`clock, this`at, this`sound, store, store.disk
      ensures Proceeds(p) && (p.Continue? ==> at.run.pc == AtomicMachine.CallClaim)
    {
      hide Steps, StepLocal;
      ClaimSteps(at, world);
      var reliable := Reliable(world.faults(clock), store.disk.files);
      var error := store.RecordAtomicClaimStarted(req.beadID, req.idempotencyKey, world.faults(clock));
      Saved(error, reliable);
      p := if error.Some? then Done(error.value) else Continue;
    }

    method CallClaim(req: AtomicRequest, actor: string) returns (p: Progress)
      requires InStep() && Owned() && req == PersistedRequest(at.run) && actor == at.run.actor
                && at.run.pc == AtomicMachine.CallClaim
      modifies this`clock, this`at, this`sound, store, store.disk
      ensures Proceeds(p) && (p.Continue? ==> at.run.pc == CheckReservation)
    {
      hide Steps, StepLocal, AtomicMachine.AcceptClaim, AtomicMachine.RefuseClaim;
      ClaimSteps(at, world);
      var answer := world.ans.claim;
      Took();
      ClaimSteps(at, world);
      match answer {
        case ClaimRefused(claimError) => p := RefuseClaim(req, claimError);
        case ClaimReceived(receipt) => p := AcceptClaim(req, actor, receipt);
      }
    }

    method ClaimFresh(req: AtomicRequest, actor: string) returns (p: Progress)
      requires InStep() && Owned() && req == PersistedRequest(at.run) && actor == at.run.actor && at.run.pc == StartClaim
      modifies this`clock, this`at, this`sound, store, store.disk
      ensures Proceeds(p) && (p.Continue? ==> at.run.pc == CheckReservation)
    {
      hide Steps, StepLocal;
      p := MarkClaiming(req);
      if p.Continue? {
        p := CallClaim(req, actor);
      }
    }

    /** What the durable row already says of the claim: proved, refused, or open, and if open whether an earlier attempt
        may have succeeded. */
    method RecordedClaim(req: AtomicRequest, actor: string) returns (p: Progress, open: bool, ambiguous: bool)
      requires InStep() && Owned() && req == PersistedRequest(at.run) && actor == at.run.actor && at.run.pc == CheckClaim
      modifies this`clock, this`at, this`sound, store, store.disk
      ensures Proceeds(p)
      ensures p.Continue? ==> at.run.pc == if !open then CheckReservation else if ambiguous then InspectClaim else StartClaim
    {
      hide Steps, StepLocal, ClaimStarted, SettleClaimInspectionStep, SettleClaimStep, ValidClaimReceipt,
        EffectiveClaimState;
      var recorded := CurrentRow(req.beadID);
      var state := EffectiveClaimState(recorded);
      ClaimSteps(at, world);
      Took();
      open, ambiguous := false, (state.ClaimClaiming? || state.ClaimUnknown?) && ports.claimReconciler;
      if state.ClaimClaimed? {
        p := if ValidClaimReceipt(ClaimFromAssignment(recorded), req.beadID, actor) then Continue
             else Done(ErrClaimOutcomeUnknown);
      } else if state.ClaimFailed? {
        p := Done(ErrClaimConflict);
      } else if state.ClaimIneligible? {
        p := Done(ErrClaimIneligible);
      } else {
        p, open := Continue, true;
      }
    }

    method EnsureClaim(req: AtomicRequest, actor: string) returns (p: Progress)
      requires InStep() && Owned() && req == PersistedRequest(at.run) && actor == at.run.actor && at.run.pc == CheckClaim
      modifies this`clock, this`at, this`sound, store, store.disk
      ensures Proceeds(p) && (p.Continue? ==> at.run.pc == CheckReservation)
    {
      hide Steps, StepLocal;
      var open, ambiguous;
      p, open, ambiguous := RecordedClaim(req, actor);
      if p.Continue? && open && ambiguous {
        p, open := ReconcileClaim(req, actor);
      }
      if p.Continue? && open {
        p := ClaimFresh(req, actor);
      }
    }

    // ---------- ensureReservation ----------

    /** Records the outcome of a reservation call, and ends the run when it ends in an error. */
    method SettleReservation(req: AtomicRequest, state: ReservationState, lease: LeaseReceipt, fault: Option<ReservationFault>,
                             outcome: Progress) returns (p: Progress)
      requires InStep() && Owned() && req == at.run.req
      requires var local := StepLocal(at, world);
               && local.row == Some(ReservationRecorded(at.ledger[req.beadID], state, lease, fault))
               && local.run == at.run.(pc := local.run.pc) && local.event.None?
               && (outcome.Done? ==> local.run.pc == Finished(Failed(outcome.error)))
      modifies this`clock, this`at, this`sound, store, store.disk
      ensures Proceeds(p) && (p.Continue? ==> outcome.Continue? && at.run.pc == old(StepLocal(at, world)).run.pc)
    {
      hide Steps, StepLocal;
      var reliable := Reliable(world.faults(clock), store.disk.files);
      var error := store.RecordAtomicReservation(req.beadID, req.idempotencyKey, state, lease, fault, world.faults(clock));
      Saved(error, reliable);
      p := if error.Some? then Done(error.value) else outcome;
    }

    // validateLeaseReceipt, then validateRequiredLease when a reservation is required.
    method CheckLease(req: AtomicRequest, lease: LeaseReceipt, now: Time) returns (ok: bool)
      ensures ok <==> ValidLease(req, lease, now)
    {
      hide ValidRequiredLease;
      ok := ValidLeaseBinding(req.agentName, req.occupancyKey, lease);
      if ok && req.requireReservation {
        ok := ValidateRequiredLease(req, lease, now);
      }
    }

    /** A lease just returned or found is stored whatever it proves, and only a valid one lets the run go on. */
    method AcceptLease(req: AtomicRequest, lease: LeaseReceipt) returns (p: Progress)
      requires InStep() && Owned() && req == at.run.req
      requires StepLocal(at, world) == SettleLease(at.run, at.ledger[req.beadID], lease, world.times(at.step))
      modifies this`clock, this`at, this`sound, store, store.disk
      ensures Proceeds(p) && (p.Continue? ==> at.run.pc.StartDispatch?)
    {
      hide Steps, StepLocal, ValidLease;
      var valid := CheckLease(req, lease, world.times(clock));
      var (state, fault) := ClassifyValidatedReservation(lease, valid);
      p := SettleReservation(req, state, lease, fault, if valid then Continue else Done(FaultError(fault)));
    }

    /** A reservation whose outcome is open is looked up; only a proof of absence lets the run reserve again. */
    method ReconcileReservation(req: AtomicRequest) returns (p: Progress, absent: bool)
      requires InStep() && Owned() && req == at.run.req && at.run.pc == InspectReservation
      modifies this`clock, this`at, this`sound, store, store.disk
      ensures Proceeds(p) && (p.Continue? ==> if absent then at.run.pc == StartReservation else at.run.pc.StartDispatch?)
    {
      hide Steps, StepLocal, SettleLease;
      var recorded := CurrentRow(req.beadID);
      ReservationSteps(at, world);
      var found := world.ans.reserveInspection;
      Took();
      ReservationSteps(at, world);
      absent := found.ReserveInspectedAbsent?;
      if found.ReserveInspectedReserved? {
        p := AcceptLease(req, found.lease);
      } else if absent {
        p := SettleReservation(req, ReservationFailed, NO_LEASE, None, Continue);
      } else {
        var lease := if found.ReserveInspectedUnknown? && LeaseHasHandles(found.lease) then found.lease
            else recorded.reservation.lease;
        p := SettleReservation(req, ReservationUnknown, lease, Some(FaultPlain), Done(ErrReservationOutcomeUnknown));
      }
    }

    // The barrier before the reservation service is called.
    method MarkReserving(req: AtomicRequest) returns (p: Progress)
      requires InStep() && Owned() && req == at.run.req && at.run.pc == StartReservation && ports.reserver
      modifies this`clock, this`at, this`sound, store, store.disk
      ensures Proceeds(p) && (p.Continue? ==> at.run.pc == CallReserve)
    {
      hide Steps, StepLocal;
      ReservationSteps(at, world);
      var reliable := Reliable(world.faults(clock), store.disk.files);
      var error := store.RecordAtomicReservationStarted(req.beadID, req.idempotencyKey, world.faults(clock));
      Saved(error, reliable);
      p := if error.Some? then Done(error.value) else Continue;
    }

    method CallReserver(req: AtomicRequest) returns (p: Progress)
      requires InStep() && Owned() && req == at.run.req && at.run.pc == CallReserve
      modifies this`clock, this`at, this`sound, store, store.disk
      ensures Proceeds(p) && (p.Continue? ==> at.run.pc.StartDispatch?)
    {
      hide Steps, StepLocal, SettleLease, SettleReserveStep, Around, Consistent;
      ReservationSteps(at, world);
      var answer := world.ans.reserve;
      Took();
      ReservationSteps(at, world);
      p := SettleReserveAnswer(req, answer);
    }

    method SettleReserveAnswer(req: AtomicRequest, answer: ReserveAnswer) returns (p: Progress)
      requires InStep() && Owned() && req == at.run.req
      requires StepLocal(at, world) == SettleReserveStep(at.run, at.ledger[req.beadID], answer, world.times(at.step))
      modifies this`clock, this`at, this`sound, store, store.disk
      ensures Proceeds(p) && (p.Continue? ==> at.run.pc.StartDispatch?)
    {
      hide Steps, StepLocal, Step, OwnStep, SettleLease, ClassifyReservationFailure, Around, Consistent;
      if answer.ReserveFailed? {
        var (state, error) := ClassifyReservationFailure(answer.lease, answer.fault);
        p := SettleReservation(req, state, answer.lease, Some(error), Done(FaultError(Some(error))));
      } else {
        p := AcceptLease(req, answer.lease);
      }
    }

    method ReserveFresh(req: AtomicRequest) returns (p: Progress)
      requires InStep() && Owned() && req == at.run.req && at.run.pc == StartReservation
      modifies this`clock, this`at, this`sound, store, store.disk
      ensures Proceeds(p) && (p.Continue? ==> at.run.pc.StartDispatch?)
    {
      hide Steps, StepLocal;
      if !ports.reserver {
        ReservationSteps(at, world);
        Took();
        return if req.requireReservation then Done(ErrReservationRequired) else Continue;
      }
      p := MarkReserving(req);
      if p.Continue? {
        p := CallReserver(req);
      }
    }

    /** A stored lease is validated again; a valid, unexpired one is used as it is. */
    method ReuseReservation(req: AtomicRequest, recorded: Assignment) returns (p: Progress, expired: bool)
      requires InStep() && Owned() && req == at.run.req && at.run.pc == CheckReservation
      requires Some(recorded) == Lookup(at.ledger, req.beadID) && EffectiveReservationState(recorded).ReservationReserved?
      modifies this`clock, this`at, this`sound, store, store.disk
      ensures Proceeds(p) && (p.Continue? ==> if expired then at.run.pc == StartReservation else at.run.pc.StartDispatch?)
    {
      hide Steps, StepLocal, ValidLease, EffectiveReservationState;
      ReservationSteps(at, world);
      expired := false;
      if recorded.reservation.failed {
        Took();
        return Done(ErrReservationReleaseRequired), expired;
      }
      var lease := recorded.reservation.lease;
      var valid := CheckLease(req, lease, world.times(clock));
      if !valid {
        var (state, fault) := ClassifyValidatedReservation(lease, false);
        p := SettleReservation(req, state, lease, fault, Done(FaultError(fault)));
        return;
      }
      Took();
      ReservationSteps(at, world);
      expired := ReservationExpired(recorded, world.times(clock));
      Took();
      p := Continue;
    }

    /** What the durable row already says of the reservation: ready, failed, or to be made. */
    method ReviewReservation(req: AtomicRequest) returns (p: Progress, again: bool)
      requires InStep() && Owned() && req == at.run.req && at.run.pc == CheckReservation
      modifies this`clock, this`at, this`sound, store, store.disk
      ensures Proceeds(p) && (p.Continue? ==> if again then at.run.pc == StartReservation else at.run.pc.StartDispatch?)
    {
      hide Steps, StepLocal, EffectiveReservationState, SettleLease, Around, Consistent, ValidLease;
      var recorded := CurrentRow(req.beadID);
      var state := EffectiveReservationState(recorded);
      if state.ReservationReserved? {
        p, again := ReuseReservation(req, recorded);
        return;
      }
      again := true;
      ReservationSteps(at, world);
      Took();
      p := Continue;
      if state.ReservationReserving? || state.ReservationUnknown? {
        if !(ports.reserver && ports.reservationReconciler) {
          return Done(ErrReservationOutcomeUnknown), false;
        }
        p, again := ReconcileReservation(req);
      }
    }

    method EnsureReservation(req: AtomicRequest) returns (p: Progress)
      requires InStep() && Owned() && req == at.run.req && at.run.pc == CheckReservation
      modifies this`clock, this`at, this`sound, store, store.disk
      ensures Proceeds(p) && (p.Continue? ==> at.run.pc.StartDispatch?)
    {
      hide Steps, StepLocal, Step, OwnStep, Around, Consistent;
      var again;
      p, again := ReviewReservation(req);
      if p.Continue? && again {
        p := ReserveFresh(req);
      }
    }

    // ---------- Dispatch ----------

    // The barrier before transport.
    method MarkSending(req: AtomicRequest) returns (p: Progress)
      requires InStep() && Owned() && req == at.run.req && at.run.pc.StartDispatch?
      modifies this`clock, this`at, this`sound, store, store.disk
      ensures Proceeds(p) && (p.Continue? ==> at.run.pc.CallDispatch?)
    {
      hide Steps, StepLocal;
      DispatchSteps(at, world);
      var reliable := Reliable(world.faults(clock), store.disk.files);
      var error := store.RecordAtomicDispatchStarted(req.beadID, req.idempotencyKey, world.faults(clock));
      Saved(error, reliable);
      p := if error.Some? then Done(error.value) else Continue;
    }

    method RecordNoActuation(req: AtomicRequest) returns (outcome: Outcome)
      requires InStep() && Owned() && req == at.run.req && at.run.pc == SettleDispatch(DispatchNotActuated)
      modifies this`clock, this`at, this`sound, store, store.disk
      ensures Ends(outcome) && outcome.Failed?
    {
      hide Steps, StepLocal;
      DispatchSteps(at, world);
      var reliable := Reliable(world.faults(clock), store.disk.files);
      var error := store.RecordAtomicDispatchFailed(req.beadID, req.idempotencyKey, world.faults(clock));
      Saved(error, reliable);
      outcome := Failed(if error.Some? then error.value else ErrDispatchFailed);
    }

    // How Execute ends.
    twostate predicate Ends(outcome: Outcome)
      reads this, store, store.disk
    {
      OnTrack() && (sound ==> old(sound)) && (sound ==> at.run.pc == Finished(outcome))
    }

    // The bead's durable row is assigned and stores this receipt and prompt.
    ghost predicate StoredAsSent(prompt: string, receiptID: string)
      reads this, store, store.disk
    {
      && bead in store.Durable()
      && var row := store.Durable()[bead];
         && row.status.StatusAssigned? && row.dispatch.state.DispatchSent?
         && row.dispatch.receiptID == receiptID && row.dispatch.promptSent == prompt && row.dispatch.pendingPrompt == ""
    }

    // A reported receipt is the one transport answered, and is durable.
    ghost predicate TrueOutcome(outcome: Outcome, prompt: string)
      reads this, store, store.disk
    {
      outcome.Sent? ==> world.ans.dispatch == DispatchReceived(outcome.receiptID) && StoredAsSent(prompt, outcome.receiptID)
    }

    method RecordSent(req: AtomicRequest, durablePrompt: string, receiptID: string) returns (outcome: Outcome)
      requires InStep() && Owned() && req == at.run.req && durablePrompt == at.run.durablePrompt && receiptID != ""
      requires at.run.pc == SettleDispatch(DispatchReceived(receiptID))
      modifies this`clock, this`at, this`sound, store, store.disk
      ensures Ends(outcome) && !outcome.Replayed?
      ensures outcome.Sent? ==> outcome.receiptID == receiptID && StoredAsSent(durablePrompt, receiptID)
    {
      hide Steps, StepLocal;
      DispatchSteps(at, world);
      RowAfterStep(at, world);
      var reliable := Reliable(world.faults(clock), store.disk.files);
      var error := store.RecordAtomicDispatchSent(req.beadID, req.idempotencyKey, durablePrompt, receiptID,
          world.faults(clock));
      Saved(error, reliable);
      outcome := if error.Some? then Failed(error.value) else Sent(receiptID);
    }

    method SendPrompt(req: AtomicRequest, durablePrompt: string) returns (outcome: Outcome)
      requires InStep() && Owned() && req == at.run.req && durablePrompt == at.run.durablePrompt && at.run.pc.StartDispatch?
      modifies this`clock, this`at, this`sound, store, store.disk
      ensures Ends(outcome) && TrueOutcome(outcome, durablePrompt) && !outcome.Replayed?
    {
      hide Steps, StepLocal, StoredAsSent;
      var p := MarkSending(req);
      if p.Done? {
        return Failed(p.error);
      }
      DispatchSteps(at, world);
      var answer := world.ans.dispatch;
      Took();
      DispatchSteps(at, world);
      if answer.DispatchNotActuated? {
        outcome := RecordNoActuation(req);
      } else if answer.DispatchErrored? || answer.receiptID == "" {
        Took();
        outcome := Failed(ErrDispatchOutcomeUnknown);
      } else {
        outcome := RecordSent(req, durablePrompt, answer.receiptID);
      }
    }

    // ---------- Intent ----------

    method RecordIntent(req: AtomicRequest, actor: string) returns (p: Progress)
      requires InStep() && req == PersistedRequest(at.run) && actor == at.run.actor && at.run.pc == AtomicMachine.RecordIntent
      modifies this`clock, this`at, this`sound, store, store.disk
      ensures OnTrack() && (sound ==> old(sound))
      ensures p.Continue? ==> InStep() && Owned() && at.run == old(at.run).(pc := CheckClaim, generation := at.run.generation)
      ensures p.Done? && sound ==> at.run.pc == Finished(Failed(p.error))
    {
      hide Steps, StepOnRow, IntentRecorded, Around, Consistent;
      RowAfterStep(at, world);
      IntentOwnsRow(Lookup(at.ledger, req.beadID), req, actor, world.generation);
      var reliable := Reliable(world.faults(clock), store.disk.files);
      var error := store.RecordAtomicIntent(req, actor, world.generation, world.faults(clock));
      Saved(error, reliable);
      p := if error.Some? then Done(error.value) else Continue;
    }

    // ---------- releaseWorkingReplacementWithOperationLocks ----------

    method ReleaseBarrier(req: AtomicRequest, prior: Assignment) returns (p: Progress)
      requires InStep() && req == at.run.req && Some(prior) == Lookup(at.ledger, req.beadID)
      requires prior.clear.state.ClearStateNone?
      requires StepLocal(at, world) == match AssignmentTransitions.BeginClear(prior, {StatusWorking})
                 case Ok(clearing) => Goto(at.run, CallRelease, Some(clearing))
                 case Err(error) => Fail(at.run, error, Some(prior))
      modifies this`clock, this`at, this`sound, store, store.disk
      ensures Releases(p) && (p.Continue? ==> at.run.pc == CallRelease)
    {
      hide Steps, StepLocal;
      var reliable := Reliable(world.faults(clock), store.disk.files);
      var error := store.BeginClear(req.beadID, {StatusWorking}, world.faults(clock));
      Saved(error, reliable);
      p := if error.Some? then Done(error.value) else Continue;
    }

    // As Proceeds, while the row still belongs to the generation being replaced.
    twostate predicate Releases(p: Progress)
      reads this, store, store.disk
    {
      && OnTrack() && (sound ==> old(sound))
      && (p.Continue? ==> InStep() && at.run == old(at.run).(pc := at.run.pc) && at.run.req.beadID in at.ledger)
      && (p.Done? && sound ==> at.run.pc == Finished(Failed(p.error)))
    }

    method RecordReleased(req: AtomicRequest) returns (p: Progress)
      requires InStep() && req == at.run.req && req.beadID in at.ledger && at.run.pc == SettleRelease(true)
      modifies this`clock, this`at, this`sound, store, store.disk
      ensures Releases(p) && (p.Continue? ==> at.run.pc == AtomicMachine.RecordIntent)
    {
      hide Steps, StepOnRow, ReplacementReady, Around, Consistent, LoadStep, RecordIntentStep, BeginReleaseStep,
        CallReleaseStep;
      RowAfterStep(at, world);
      var reliable := Reliable(world.faults(clock), store.disk.files);
      var error := store.RecordClearLeasesReleased(req.beadID, world.faults(clock));
      Saved(error, reliable);
      if error.Some? {
        return Done(error.value);
      }
      assert Lookup(store.assignments, req.beadID) == Lookup(at.ledger, req.beadID);
      var released := store.assignments[req.beadID];
      p := if ReplacementReady(released, req) then Continue else Done(ErrWorkingReplacementNotAllowed);
    }

    method CallReleaser(req: AtomicRequest) returns (p: Progress)
      requires InStep() && req == at.run.req && req.beadID in at.ledger && at.run.pc == CallRelease
      modifies this`clock, this`at, this`sound, store, store.disk
      ensures Releases(p) && (p.Continue? ==> at.run.pc == AtomicMachine.RecordIntent)
    {
      hide Steps, StepOnRow, ReplacementReady, ValidReleaseReceipt, Around, Consistent;
      assert Lookup(store.assignments, req.beadID) == Lookup(at.ledger, req.beadID);
      var current := store.assignments[req.beadID];
      var answer := world.ans.release;
      var released := false;
      if answer.ReleaseReported? {
        released := ValidateReleaseReceipt(current, answer.paths, answer.ids);
      }
      Took();
      if !released {
        Took();
        return Done(ErrOther);
      }
      p := RecordReleased(req);
    }

    method ReleaseWorkingReplacement(req: AtomicRequest) returns (p: Progress)
      requires InStep() && req == at.run.req && req.beadID in at.ledger && at.run.pc == BeginRelease
      modifies this`clock, this`at, this`sound, store, store.disk
      ensures Releases(p) && (p.Continue? ==> at.run.pc == AtomicMachine.RecordIntent)
    {
      hide Steps, StepOnRow, ReplacementReady, ReplacementCandidate, AssignmentTransitions.BeginClear;
      assert Lookup(store.assignments, req.beadID) == Lookup(at.ledger, req.beadID);
      var prior := store.assignments[req.beadID];
      if !ReplacementCandidate(prior, req) {
        Took();
        return Done(ErrWorkingReplacementNotAllowed);
      }
      if prior.clear.state.ClearStateLeasesReleased? {
        Took();
        return if ReplacementReady(prior, req) then Continue else Done(ErrWorkingReplacementNotAllowed);
      }
      if !ports.releaser || !ports.replaceAuth || prior.claim.actor == ""
         || world.ans.replaceOwner != Some((TrackerInProgress, prior.claim.actor)) {
        Took();
        return Done(ErrWorkingReplacementNotAllowed);
      }
      if prior.clear.state.ClearStateNone? {
        p := ReleaseBarrier(req, prior);
        if p.Done? {
          return;
        }
      } else {
        Took();
      }
      p := CallReleaser(req);
    }

    // ---------- Execute ----------

    // Actor, replacement flag and title for this attempt.
    method AdmitActor(prior: Option<Assignment>, request: AtomicRequest) returns (d: Decision)
      ensures d == ChooseActor(prior, request)
    {
      var req := request;
      var sameKey := prior.Some? && prior.value.intent.idempotencyKey == req.idempotencyKey;
      if prior.Some? && IsTerminal(prior.value.status) && !sameKey && prior.value.outbox.eventID != "" {
        return Stop(ErrCompletionEventPending);
      }
      var actor := StableClaimActor(req.actor, req.idempotencyKey);
      if sameKey && prior.value.claim.actor != "" {
        actor := prior.value.claim.actor;
      }
      var replacementStart := false;
      if req.replaceWorkingAssignment {
        if prior.None? {
          return Stop(ErrWorkingReplacementNotAllowed);
        }
        if !sameKey {
          if !ReplacementCandidate(prior.value, req) || prior.value.claim.actor == "" {
            return Stop(ErrWorkingReplacementNotAllowed);
          }
          actor, replacementStart := prior.value.claim.actor, true;
          if req.beadTitle == "" {
            req := req.(beadTitle := prior.value.intent.beadTitle);
          }
        }
      }
      d := Go(req, req.prompt, actor, replacementStart);
    }

    // The stored prompt, when the caller recovers an attempt by its checksum.
    method AdmitRecovery(prior: Option<Assignment>, chosen: Decision) returns (d: Decision)
      requires chosen.Go?
      ensures d == RecoverIntent(prior, chosen)
    {
      d := chosen;
      if d.req.recoveredIntentSHA256 != NoDigest {
        if prior.None? || prior.value.intent.idempotencyKey != d.req.idempotencyKey {
          return Stop(ErrRecoveredIntent);
        }
        var row := prior.value;
        var stored := row.intent.intentSHA256;
        if stored == NoDigest {
          stored := row.intent.promptSHA256;
        }
        if stored == NoDigest || stored != d.req.recoveredIntentSHA256 {
          return Stop(ErrRecoveredIntent);
        }
        d := d.(req := d.req.(intentSHA256 := stored));
        if !row.dispatch.state.DispatchSent? && !row.dispatch.state.DispatchSending? {
          if row.dispatch.pendingPrompt == "" {
            return Stop(ErrRecoveredIntent);
          }
          d := d.(durablePrompt := row.dispatch.pendingPrompt);
          d := d.(req := d.req.(prompt := row.dispatch.pendingPrompt, beadTitle := row.intent.beadTitle));
        }
      }
    }

    // Replays, conflicts and terminal rows.
    method AdmitOverPrior(prior: Option<Assignment>, recovered: Decision) returns (d: Decision)
      requires recovered.Go?
      ensures d == CheckPrior(prior, recovered, ports, world.ans)
    {
      hide MatchesRawIntent, HasUnresolvedReservation;
      d := recovered;
      if prior.None? {
        return;
      }
      var row := prior.value;
      var sameKey := row.intent.idempotencyKey == d.req.idempotencyKey;
      if row.clear.state != ClearStateNone && !d.replacementStart {
        return Stop(ErrClaimConflict);
      }
      if sameKey && row.claim.actor == d.actor {
        match EffectiveClaimState(row) {
          case ClaimIneligible => return Stop(ErrClaimIneligible);
          case ClaimFailed => return Stop(ErrClaimConflict);
          case _ =>
        }
        if IsTerminal(row.status) {
          return Stop(ErrTerminalAssignmentAttempt);
        }
        if !MatchesRawIntent(row, d.req) {
          return Stop(ErrIntentMismatch);
        }
        match row.dispatch.state {
          case DispatchSent =>
            return if row.dispatch.receiptID == "" then Stop(ErrDispatchOutcomeUnknown) else Replay(row.dispatch.receiptID);
          case DispatchSending => return Stop(ErrDispatchOutcomeUnknown);
          case DispatchPending =>
        }
      } else if row.intent.idempotencyKey != "" && !d.replacementStart && IsLive(row.status) {
        return Stop(ErrClaimConflict);
      }
      if IsTerminal(row.status) && !sameKey {
        if HasUnresolvedReservation(row) {
          return Stop(ErrReservationReleaseRequired);
        }
        if !ports.workStatus {
          return Stop(ErrTerminalAssignmentAttempt);
        }
        if world.ans.trackerStatus != Some(TrackerOpen) && world.ans.trackerStatus != Some(TrackerInProgress) {
          return Stop(ErrTerminalAssignmentAttempt);
        }
        if row.claim.actor != "" {
          d := d.(actor := row.claim.actor);
        }
      }
    }

    // What is dispatched, and what of it is stored.
    method AdmitPrompt(prior: Option<Assignment>, checked: Decision) returns (d: Decision)
      requires checked.Go?
      ensures d == RunPreflight(prior, checked, ports, world.ans)
    {
      d := checked;
      var durablePrompt, durableTitle := d.durablePrompt, d.req.beadTitle;
      if ports.preflight {
        var answer := world.ans.preflight;
        if answer.None? || answer.value.dispatchPrompt == "" || answer.value.durablePrompt == "" {
          return Stop(ErrPreflight);
        }
        d := d.(req := d.req.(prompt := answer.value.dispatchPrompt));
        durablePrompt := answer.value.durablePrompt;
        if answer.value.durableTitle != "" {
          durableTitle := answer.value.durableTitle;
        }
      }
      if d.req.recoveredIntentSHA256 != NoDigest && prior.Some? {
        if prior.value.dispatch.pendingPrompt != "" {
          durablePrompt := prior.value.dispatch.pendingPrompt;
        }
        durableTitle := prior.value.intent.beadTitle;
      }
      d := d.(req := d.req.(beadTitle := durableTitle));
      d := d.(durablePrompt := durablePrompt);
    }

    // Durable intent, reservation port, eligibility.
    method AdmitGates(prior: Option<Assignment>, ready: Decision, now: Time) returns (d: Decision)
      requires ready.Go?
      ensures d == CheckGates(prior, ready, ports, world.ans, now)
      ensures ports.eligibility && !world.ans.eligible ==> d.Stop?
    {
      hide MatchesIntent, ReservationOutcomeAmbiguous, ReservationNeedsRefresh;
      var sameKey := prior.Some? && prior.value.intent.idempotencyKey == ready.req.idempotencyKey;
      if sameKey && prior.value.claim.actor == ready.actor && !MatchesIntent(prior.value, Persisted(ready)) {
        return Stop(ErrIntentMismatch);
      }
      if ready.req.requireReservation && !ports.reserver {
        if sameKey && ReservationOutcomeAmbiguous(prior.value) {
          return Stop(ErrReservationOutcomeUnknown);
        }
        if !sameKey || ReservationNeedsRefresh(prior.value, now) {
          return Stop(ErrReservationRequired);
        }
      }
      if ports.eligibility && !world.ans.eligible {
        return Stop(ErrNotAuthorized);
      }
      d := ready;
    }

    /** The read-only half of Execute, in the order the code checks things: everything it decides before it mutates the
        ledger or calls a mutating port. An attempt the authorizer refuses never goes on; over a keyed row an attempt goes
        on exactly when it may start, and carries exactly what it should. */
    method Admit(prior: Option<Assignment>, request: AtomicRequest, now: Time) returns (d: Decision)
      ensures d == Decide(prior, request, ports, world.ans, now)
      ensures ports.eligibility && !world.ans.eligible ==> !d.Go?
      ensures WellKeyed(prior, request) ==> (d.Go? <==> MayStart(prior, request, ports, world.ans, now))
      ensures WellKeyed(prior, request) && d.Go? ==> CarriesOn(d, prior, request, ports, world.ans)
    {
      hide ChooseActor, RecoverIntent, CheckPrior, RunPreflight, CheckGates, MayStart, CarriesOn, WellKeyed;
      if WellKeyed(prior, request) {
        GoesExactlyWhen(prior, request, ports, world.ans, now);
      }
      d := AdmitActor(prior, request);
      if d.Go? {
        d := AdmitRecovery(prior, d);
      }
      if d.Go? {
        d := AdmitOverPrior(prior, d);
      }
      if d.Go? {
        d := AdmitPrompt(prior, d);
      }
      if d.Go? {
        d := AdmitGates(prior, d, now);
      }
    }

    // Loads the store once the locks are held, and sets the machine going.
    method Begin(req: AtomicRequest)
      requires Consistent(store.disk.files) && store.EmptyIfUnpublished()
      modifies this`clock, this`bead, this`start, this`at, this`sound, store, store.disk
      ensures start == at == Config(Run(Load, req, ports, "", "", 0), old(store.Durable()), [], 0)
      ensures InStep() && sound && store.assignments == at.ledger
    {
      hide Steps;
      var _ := store.LoadStrict();
      clock, bead := 0, req.beadID;
      start := Config(Run(Load, req, ports, "", "", 0), store.Durable(), [], 0);
      at, sound := start, true;
      NoSteps(start, world);
    }

    /** One call of Execute, while other processes save other beads' rows between any two of its steps. Unless one of its
        own saves fails it ends exactly where the machine ends, with the same durable ledger and the same outcome; if one
        does, it ends where the machine was just before or just after it. An invalid request changes nothing, and neither
        does an attempt that must stop: nothing is called for it and its row stays as it is. A receipt it reports is the one
        transport answered, durable with the prompt kept for the ledger. Over a keyed row, or none, the prompt is sent
        exactly when the attempt gets all it needs, unless a save fails. */
    method Execute(request: AtomicRequest) returns (outcome: Outcome)
      requires Consistent(store.disk.files) && store.EmptyIfUnpublished()
      modifies this`clock, this`bead, this`start, this`at, this`sound, store, store.disk
      ensures store.EmptyIfUnpublished()
      ensures RequestError(NormalizeRequest(request)).Some? ==>
                outcome == Failed(RequestError(NormalizeRequest(request)).value) && store.disk.files == old(store.disk.files)
      ensures RequestError(NormalizeRequest(request)).None? ==>
                && start == Config(Run(Load, NormalizeRequest(request), ports, "", "", 0), old(store.Durable()), [], 0)
                && OnTrack()
                && (at.run.pc == Finished(outcome) || Unreliable())
      ensures var req := NormalizeRequest(request);
              RequestError(req).None? && old(MustStop(store.Durable(), req)) ==>
                !outcome.Sent? && at.log == []
                    && Lookup(store.Durable(), req.beadID) == old(Lookup(store.Durable(), req.beadID))
      ensures var req := NormalizeRequest(request);
              RequestError(req).None? && WellKeyed(old(Lookup(store.Durable(), req.beadID)), req) ==>
                (outcome.Sent? <==> Succeeds(old(store.Durable()), req, ports, world)) || Unreliable()
      ensures var req := NormalizeRequest(request); var prior := old(Lookup(store.Durable(), req.beadID));
              RequestError(req).None? && WellKeyed(prior, req) ==> TrueOutcome(outcome, Durable(prior, req, ports, world.ans))
    {
      hide Steps, Step, OwnStep, StepLocal, Around, Decide, MayStart, WellKeyed, Delivered, DurableTitle, TakesOver,
        NormalizeRequest, RequestError, StoredAsSent, OccupancyBlocked, Succeeds;
      var req := NormalizeRequest(request);
      var invalid := RequestError(req);
      if invalid.Some? {
        return Failed(invalid.value);
      }
      Begin(req);
      var d := Start(req);
      match d {
        case Stop(error) => outcome := Failed(error);
        case Replay(receiptID) => outcome := Replayed(receiptID);
        case Go(_, _, _, _) => outcome := Carry(d);
      }
      if at.run.pc == Finished(outcome) && WellKeyed(Lookup(start.ledger, req.beadID), req) {
        ValidRequests(request);
        SendsExactlyWhen(start, world, req, ports, at.step);
      }
    }

    // The attempt has to stop at its first step: its pane is taken, the authorizer refuses it, or it may not start.
    ghost predicate MustStop(ledger: Ledger, req: AtomicRequest)
      reads this
    {
      || OccupancyBlocked(ledger, req.beadID, req.occupancyKey)
      || (ports.eligibility && !world.ans.eligible)
      || (WellKeyed(Lookup(ledger, req.beadID), req)
          && !MayStart(Lookup(ledger, req.beadID), req, ports, world.ans, world.times(0)))
    }

    /** The first step: the occupancy scan and the read-only half. Neither writes this bead's row. */
    method Start(req: AtomicRequest) returns (d: Decision)
      requires InStep() && sound && store.assignments == at.ledger
      requires at.run == Run(Load, req, ports, "", "", 0) && at.step == 0 && at.log == []
      modifies this`clock, this`at, store.disk
      ensures InStep() && at.log == [] && Lookup(store.Durable(), req.beadID) == old(Lookup(store.Durable(), req.beadID))
      ensures old(MustStop(at.ledger, req)) ==> !d.Go?
      ensures d.Go? && WellKeyed(old(Lookup(store.Durable(), req.beadID)), req) ==>
                CarriesOn(d, old(Lookup(store.Durable(), req.beadID)), req, ports, world.ans)
      ensures match d
              case Stop(error) => at.run.pc == Finished(Failed(error))
              case Replay(receiptID) => at.run.pc == Finished(Replayed(receiptID))
              case Go(goes, durablePrompt, actor, replacementStart) =>
                && at.run.req == goes && at.run.durablePrompt == durablePrompt && at.run.actor == actor
                && at.run.pc == (if replacementStart then BeginRelease else AtomicMachine.RecordIntent)
                && (replacementStart ==> goes.beadID in at.ledger)
    {
      hide Steps, StepLocal, Decide, OccupancyBlocked, Consistent, MayStart, CarriesOn, WellKeyed;
      LoadingStep(at, world);
      RowAfterStep(at, world);
      var blocker := ActiveAssignmentForTarget(store.assignments, req.beadID, req.occupancyKey);
      if blocker.Some? {
        Took();
        return Stop(ErrTargetOccupied);
      }
      var prior := Lookup(store.assignments, req.beadID);
      d := Admit(prior, req, world.times(clock));
      ReplacementHasPrior(prior, req, ports, world.ans, world.times(clock));
      Took();
    }

    /** The mutating half of Execute. */
    method Carry(d: Decision) returns (outcome: Outcome)
      requires d.Go? && InStep() && at.run.req == d.req && at.run.durablePrompt == d.durablePrompt && at.run.actor == d.actor
      requires at.run.pc == if d.replacementStart then BeginRelease else AtomicMachine.RecordIntent
      requires d.replacementStart ==> d.req.beadID in at.ledger
      modifies this`clock, this`at, this`sound, store, store.disk
      ensures Ends(outcome) && TrueOutcome(outcome, d.durablePrompt) && !outcome.Replayed?
    {
      hide Steps, Step, StepLocal, StoredAsSent;
      var p: Progress := Continue;
      if d.replacementStart {
        p := ReleaseWorkingReplacement(d.req);
      }
      if p.Continue? {
        p := RecordIntent(d.req.(prompt := d.durablePrompt), d.actor);
      }
      if p.Continue? {
        p := EnsureClaim(d.req.(prompt := d.durablePrompt), d.actor);
      }
      if p.Continue? {
        p := EnsureReservation(d.req);
      }
      if p.Continue? {
        outcome := SendPrompt(d.req, d.durablePrompt);
      } else {
        outcome := Failed(p.error);
      }
    }
  }

  predicate SameStart(d: Decision, e: Decision) {
    d.Go? && e.Go? ==> e.req.beadID == d.req.beadID && e.replacementStart == d.replacementStart
  }

  lemma LaterStagesKeepStart(prior: Option<Assignment>, d: Decision, ports: Ports, ans: Answers, now: Time)
    requires d.Go?
    ensures SameStart(d, RecoverIntent(prior, d)) && SameStart(d, CheckPrior(prior, d, ports, ans))
    ensures SameStart(d, RunPreflight(prior, d, ports, ans)) && SameStart(d, CheckGates(prior, d, ports, ans, now))
  {
  }

  // A replacement is only ever started over a stored row of the bead.
  lemma ReplacementHasPrior(prior: Option<Assignment>, req: AtomicRequest, ports: Ports, ans: Answers, now: Time)
    ensures var d := Decide(prior, req, ports, ans, now);
            d.Go? ==> d.req.beadID == req.beadID && (d.replacementStart ==> prior.Some?)
  {
    hide RecoverIntent, CheckPrior, RunPreflight, CheckGates;
    var d := ChooseActor(prior, req);
    if d.Go? {
      LaterStagesKeepStart(prior, d, ports, ans, now);
      d := RecoverIntent(prior, d);
    }
    if d.Go? {
      LaterStagesKeepStart(prior, d, ports, ans, now);
      d := CheckPrior(prior, d, ports, ans);
    }
    if d.Go? {
      LaterStagesKeepStart(prior, d, ports, ans, now);
      d := RunPreflight(prior, d, ports, ans);
    }
    if d.Go? {
      LaterStagesKeepStart(prior, d, ports, ans, now);
    }
  }

  lemma IntentOwnsRow(row: Option<Assignment>, req: AtomicRequest, actor: string, n: nat)
    ensures var r := IntentRecorded(row, req, actor, n); r.Ok? ==> r.value.intent.idempotencyKey == req.idempotencyKey
  {
  }
}
