/**
 internal/assignment/store.go and the Record methods of atomic.go: a process's
 copy of the ledger, and how each operation changes the durable one. A caller
 holds the bead's operation lock, so the bead's durable row is the one it loaded;
 all other beads may have been rewritten by other processes since.
 */
module AssignmentStores {
  import opened Wrappers
  import opened AssignmentTypes
  import opened AssignmentPolicy
  import opened AssignmentTransitions
  import opened Merge
  import opened Publication

  // Where a save fails, if it does. A failure after the backup rename has already published the snapshot.
  datatype SaveFault = NoFault | FailsBeforeBackup | FailsAfterBackup

  function Count(counts: map<string, nat>, b: string): nat {
    if b in counts then counts[b] else 0
  }

  function Max(x: nat, y: nat): nat {
    if x > y then x else y
  }

  /** mergeClearedGenerations: per bead, the larger count. A stale saver never takes a clear back. */
  method MergeClearedGenerations(latest: map<string, nat>, current: map<string, nat>) returns (merged: map<string, nat>)
    ensures forall b :: Count(merged, b) == Max(Count(latest, b), Count(current, b))
  {
    merged := latest;
    var todo := current.Keys;
    while todo != {}
      invariant todo <= current.Keys
      invariant forall b ::
                  Count(merged, b) == if b in todo then Count(latest, b) else Max(Count(latest, b), Count(current, b))
      decreases |todo|
    {
      var b :| b in todo;
      todo := todo - {b};
      if current[b] > Count(merged, b) {
        merged := merged[b := current[b]];
      }
    }
  }

  // The ledger with bead `b` set to the row, or removed.
  function With(ledger: Ledger, b: string, row: Option<Assignment>): Ledger {
    if row.Some? then ledger[b := row.value] else ledger - {b}
  }

  // The lifecycle moves a guarded transition may make.
  const LIFECYCLE := {(StatusClaimed, StatusFailed), (StatusAssigned, StatusWorking), (StatusAssigned, StatusCompleted),
                      (StatusAssigned, StatusFailed), (StatusWorking, StatusCompleted), (StatusWorking, StatusFailed)}

  // When an attempt may be recorded: over no row; over its own, unless that describes another intent, acts as somebody
  // else or is being cleared; taking over a working row already released; or over a row whose attempt is over.
  predicate MayRecord(existing: Option<Assignment>, req: AtomicRequest, actor: string) {
    match existing
    case None => !req.replaceWorkingAssignment
    case Some(a) =>
      if a.intent.idempotencyKey == req.idempotencyKey then
        a.clear.state == ClearStateNone && a.claim.actor in {"", actor} && MatchesIntent(a, req)
      else if req.replaceWorkingAssignment then
        && a.intent.beadID == req.beadID && a.status == StatusWorking && a.dispatch.state != DispatchSending
        && a.clear.state == ClearStateLeasesReleased && !HasUnresolvedReservation(a)
        && actor != "" && actor == a.claim.actor
      else
        && a.clear.state == ClearStateNone && (IsTerminal(a.status) ==> a.outbox.eventID == "")
        && (a.intent.idempotencyKey != "" ==> IsTerminal(a.status) && !HasUnresolvedReservation(a))
  }

  // How consumers know the outcome of an attempt.
  function EventOf(a: Assignment, status: AssignmentStatus): string {
    a.intent.beadID + "/" + (if a.intent.idempotencyKey == "" then Decimal(a.generation) else a.intent.idempotencyKey)
    + (if status == StatusCompleted then "/completed" else "/failed")
  }

  lemma EventIsNamed(a: Assignment, status: AssignmentStatus)
    requires status == StatusCompleted || status == StatusFailed
    ensures CompletionEventID(a, status) == EventOf(a, status)
  {
    hide Decimal;
  }

  // The row an observer saw is still the bead's attempt: by its key, and without keys by its creation.
  predicate CurrentAttempt(observed: Assignment, a: Assignment) {
    && observed.intent.idempotencyKey == a.intent.idempotencyKey
    && (a.intent.idempotencyKey == "" ==> observed.generation == a.generation)
  }

  // The two ledger files, shared by every process.
  class LedgerFiles {
    var files: Files

    constructor ()
      ensures files == Files(None, None)
    {
      files := Files(None, None);
    }
  }

  predicate Reliable(fault: SaveFault, files: Files) {
    fault.NoFault? && Latest(files).generation < MAX_GENERATION
  }

  /** What one operation on bead `b` did to the durable ledger: on success exactly `result`; on a refusal nothing; on a
      failed save, which a reliable disk rules out, nothing or exactly `result`, as if the process had died just before
      or just after the write. */
  predicate Wrote(before: Ledger, after: Ledger, b: string, result: Result<Option<Assignment>, Error>, error: Option<Error>,
                  reliable: bool) {
    match result
    case Err(e) => after == before && error == Some(e)
    case Ok(row) =>
      if error.None? then after == With(before, b, row)
      else !reliable && error == Some(ErrPersistence) && (after == before || after == With(before, b, row))
  }

  // The operations that first check that the key still owns the row.
  function Keyed(ledger: Ledger, b: string, key: string, f: Assignment -> RowResult): Result<Option<Assignment>, Error> {
    if b !in ledger then Err(ErrAssignmentMissing)
    else if ledger[b].intent.idempotencyKey != key then Err(ErrClaimConflict)
    else Written(f(ledger[b]))
  }

  // The operations that only need the row to exist.
  function Present(ledger: Ledger, b: string, f: Assignment -> RowResult): Result<Option<Assignment>, Error> {
    if b !in ledger then Err(ErrAssignmentMissing) else Written(f(ledger[b]))
  }

  function Written(r: RowResult): Result<Option<Assignment>, Error> {
    match r
    case Ok(row) => Ok(Some(row))
    case Err(e) => Err(e)
  }

  class AssignmentStore {
    const disk: LedgerFiles
    var assignments: Ledger
    var clearedGenerations: map<string, nat>
    var persistenceGeneration: nat
    var baseline: Ledger
    var replace: set<string>

    constructor (disk: LedgerFiles)
      ensures this.disk == disk && assignments == map[] && baseline == map[] && replace == {} && clearedGenerations == map[]
    {
      this.disk := disk;
      assignments, clearedGenerations, persistenceGeneration, baseline, replace := map[], map[], 0, map[], {};
    }

    ghost function Durable(): Ledger
      reads disk
    {
      Latest(disk.files).assignments
    }

    ghost function Cleared(b: string): nat
      reads disk
    {
      Count(Latest(disk.files).cleared, b)
    }

    // Nothing unsaved, and the durable row of this bead is the loaded one.
    ghost predicate Ready(b: string)
      reads this, disk
    {
      && Consistent(disk.files) && assignments == baseline && replace == {}
      && Lookup(baseline, b) == Lookup(Durable(), b)
    }

    // The generation counter is exhausted, so nothing can be saved any more.
    ghost predicate Full()
      reads disk
    {
      Latest(disk.files).generation >= MAX_GENERATION
    }

    // Over a directory without a ledger, a store holds nothing that could be lost.
    ghost predicate EmptyIfUnpublished()
      reads this, disk
    {
      disk.files.backup.None? ==> assignments == baseline == map[] && replace == {}
    }

    // This process knows of no clear that is not durable.
    ghost predicate CountsKnown()
      reads this, disk
    {
      forall c :: Count(clearedGenerations, c) <= Cleared(c)
    }

    // Selects the newest durable snapshot, and promotes a backup that a crash left ahead of the primary.
    method ReadState() returns (r: Result<Snapshot, Error>)
      requires Consistent(disk.files)
      modifies disk
      ensures r == Ok(old(Latest(disk.files))) && Consistent(disk.files)
      ensures disk.files == Files(old(disk.files).backup, old(disk.files).backup)
    {
      var selection := Select(disk.files);
      if selection.Err? {
        return Err(ErrPersistence);
      }
      if selection.value.Some? && selection.value.value.promote {
        disk.files := disk.files.(primary := Some(selection.value.value.snapshot));
      }
      return Ok(Selected(selection.value));
    }

    /** Takes over the newest durable snapshot, and promotes a backup a crash left ahead. Over a directory without a ledger
        the store stays as it is. */
    method LoadStrict() returns (error: Option<Error>)
      requires Consistent(disk.files)
      modifies this, disk
      ensures error.None? && Consistent(disk.files) && Latest(disk.files) == old(Latest(disk.files))
      ensures old(disk.files).backup.None? ==>
                && disk.files == old(disk.files) && assignments == old(assignments) && baseline == old(baseline)
                && replace == old(replace) && clearedGenerations == old(clearedGenerations)
      ensures old(disk.files).backup.Some? ==>
                && disk.files.primary == disk.files.backup == old(disk.files).backup
                && assignments == Durable() && (forall b :: Ready(b) && Count(clearedGenerations, b) == Cleared(b))
    {
      var selection := Select(disk.files);
      if selection.Err? {
        return Some(ErrPersistence);
      }
      if selection.value.None? {
        return None;
      }
      if selection.value.value.promote {
        disk.files := disk.files.(primary := Some(selection.value.value.snapshot));
      }
      var loaded := selection.value.value.snapshot;
      assignments, clearedGenerations, persistenceGeneration := loaded.assignments, loaded.cleared, loaded.generation;
      baseline, replace := assignments, {};
      return None;
    }

    // The two renames: the backup first, then the primary.
    method Publish(snapshot: Snapshot, fault: SaveFault) returns (error: Option<Error>)
      requires Consistent(disk.files) && disk.files.primary == disk.files.backup
      requires snapshot.generation == Latest(disk.files).generation + 1
      modifies disk
      ensures Consistent(disk.files) && (error.Some? ==> error == Some(ErrPersistence) && fault != NoFault)
      ensures error.None? ==> disk.files == Files(Some(snapshot), Some(snapshot))
      ensures Latest(disk.files) == snapshot || (error.Some? && Latest(disk.files) == old(Latest(disk.files)))
      ensures fault.FailsAfterBackup? ==> error.Some? && Latest(disk.files) == snapshot
      ensures old(disk.files).backup.Some? || error.None? ==> disk.files.backup.Some?
    {
      if fault.FailsBeforeBackup? {
        return Some(ErrPersistence);
      }
      disk.files := disk.files.(backup := Some(snapshot));
      if fault.FailsAfterBackup? {
        return Some(ErrPersistence);
      }
      disk.files := disk.files.(primary := Some(snapshot));
      return None;
    }

    /** saveLocked: merges this process's changes onto the newest durable snapshot and publishes the result as the next
        generation, backup before primary. */
    method SaveLocked(fault: SaveFault) returns (error: Option<Error>)
      requires Consistent(disk.files)
      modifies this, disk
      ensures Consistent(disk.files)
      ensures error.Some? ==> error == Some(ErrPersistence)
      ensures error.None? ==>
                && disk.files.primary == disk.files.backup
                && Latest(disk.files).generation == old(Latest(disk.files).generation) + 1
                && IsMerge(old(Durable()), old(baseline), old(assignments), old(replace), Durable())
                && (forall b :: Cleared(b) == Max(old(Cleared(b)), old(Count(clearedGenerations, b))))
                && assignments == Durable() && CountsKnown() && (forall b :: Ready(b))
      ensures error.Some? ==>
                || Latest(disk.files) == old(Latest(disk.files))
                || (IsMerge(old(Durable()), old(baseline), old(assignments), old(replace), Durable())
                    && (forall b :: Cleared(b) == Max(old(Cleared(b)), old(Count(clearedGenerations, b)))))
      ensures Reliable(fault, old(disk.files)) && Mergeable(old(Durable()), old(baseline), old(assignments), old(replace)) ==>
                error.None?
      ensures old(Full()) ==> Full() && Durable() == old(Durable())
      ensures old(disk.files).backup.Some? || error.None? ==> disk.files.backup.Some?
      ensures error.Some? && Mergeable(old(Durable()), old(baseline), old(assignments), old(replace)) ==>
                assignments == old(assignments) && baseline == old(baseline) && replace == old(replace)
      ensures fault.FailsAfterBackup? && !old(Full())
                && Mergeable(old(Durable()), old(baseline), old(assignments), old(replace)) ==>
                error.Some? && IsMerge(old(Durable()), old(baseline), old(assignments), old(replace), Durable())
      ensures !Mergeable(old(Durable()), old(baseline), old(assignments), old(replace)) ==>
                error.Some? && assignments == baseline == Durable() && replace == {} && Durable() == old(Durable())
    {
      hide IsMerge, Mergeable;
      var read := ReadState();
      if read.Err? {
        return Some(ErrPersistence);
      }
      var latest := read.value;
      var merged := MergeDeltas(latest.assignments, baseline, assignments, replace);
      if merged.Err? {
        assignments, clearedGenerations, persistenceGeneration := latest.assignments, latest.cleared, latest.generation;
        baseline, replace := latest.assignments, {};
        return Some(ErrPersistence);
      }
      var counts := MergeClearedGenerations(latest.cleared, clearedGenerations);
      if latest.generation >= MAX_GENERATION {
        return Some(ErrPersistence);
      }
      var snapshot := Snapshot(latest.generation + 1, merged.value, counts);
      error := Publish(snapshot, fault);
      if error.Some? {
        return;
      }
      assignments, clearedGenerations := merged.value, counts;
      baseline, replace, persistenceGeneration := merged.value, {}, snapshot.generation;
      return None;
    }

    /** Saves one changed, created or removed bead: the durable ledger changes at that bead only, whatever other
        processes have done to the others. */
    method SaveRow(b: string, row: Option<Assignment>, whole: bool, fault: SaveFault) returns (error: Option<Error>)
      requires Ready(b)
      modifies this, disk
      ensures Consistent(disk.files)
      ensures Wrote(old(Durable()), Durable(), b, Ok(row), error, Reliable(fault, old(disk.files)))
      ensures old(Full()) ==> Full() && Durable() == old(Durable())
      ensures old(disk.files).backup.Some? || error.None? ==> disk.files.backup.Some?
      ensures error.Some? ==> baseline == old(baseline) && assignments == With(old(assignments), b, row)
                              && replace == old(replace) + if whole then {b} else {}
      ensures error.None? ==> assignments == Durable() && CountsKnown() && forall c :: Ready(c)
      ensures (error.Some? && Latest(disk.files) == old(Latest(disk.files)))
              || (Durable() == With(old(Durable()), b, row)
                  && forall c :: Cleared(c) == Max(old(Cleared(c)), old(Count(clearedGenerations, c))))
    {
      hide IsMerge, Mergeable, Consistent;
      ghost var before, loaded := Durable(), baseline;
      if row.Some? {
        assignments := assignments[b := row.value];
      } else {
        assignments := assignments - {b};
      }
      if whole {
        replace := replace + {b};
      }
      ghost var current, replaced := assignments, replace;
      SingleRowSave(before, loaded, current, replaced, b, With(before, b, row));
      error := SaveLocked(fault);
      SingleRowSave(before, loaded, current, replaced, b, Durable());
    }

    // The durable row of the bead is now this one.
    ghost predicate Holds(b: string, row: Assignment)
      reads disk
    {
      Lookup(Durable(), b) == Some(row)
    }

    // Whether the bead's durable row belongs to this attempt.
    ghost predicate OwnedBy(b: string, idempotencyKey: string)
      reads disk
    {
      b in Durable() && Durable()[b].intent.idempotencyKey == idempotencyKey
    }

    // atomicAssignmentLocked
    method AtomicAssignment(beadID: string, idempotencyKey: string) returns (r: RowResult)
      ensures r == if beadID !in assignments then Err(ErrAssignmentMissing)
                   else if assignments[beadID].intent.idempotencyKey != idempotencyKey then Err(ErrClaimConflict)
                   else Ok(assignments[beadID])
    {
      if beadID !in assignments {
        return Err(ErrAssignmentMissing);
      }
      if assignments[beadID].intent.idempotencyKey != idempotencyKey {
        return Err(ErrClaimConflict);
      }
      return Ok(assignments[beadID]);
    }

    // ---------- Atomic intent, claim, reservation, dispatch ----------

    /** `generation` labels the row this call creates; the source tells generations apart by identity. */
    method RecordAtomicIntent(req: AtomicRequest, actor: string, generation: nat, fault: SaveFault)
      returns (error: Option<Error>)
      requires Ready(req.beadID)
      modifies this, disk
      ensures Consistent(disk.files)
      ensures Wrote(old(Durable()), Durable(), req.beadID,
                    Written(IntentRecorded(Lookup(old(Durable()), req.beadID), req, actor, generation)), error,
                    Reliable(fault, old(disk.files)))
      ensures error.None? && Lookup(old(Durable()), req.beadID).None? ==>
                Holds(req.beadID,
                      Assignment(generation,
                                 Intent(req.beadID, req.beadTitle, req.agentType, req.agentName, req.idempotencyKey,
                                        req.target, if req.occupancyKey == "" then req.target else req.occupancyKey,
                                        PromptSHA256(req.prompt), req.intentSHA256, req.requireReservation,
                                        req.allowReservationDiscovery, req.requestedPaths),
                                 StatusClaiming, "", 0, Claim(actor, ClaimPending, TrackerUnset, 0, None, true),
                                 Reservation(ReservationPending, 0, false, NO_LEASE, false),
                                 Dispatch(DispatchPending, 0, req.prompt, "", ""), NO_CLEAR, NO_EVENT))
      ensures error.None? && req.beadID in old(Durable()) ==>
                var a := old(Durable())[req.beadID];
                Holds(req.beadID, if a.intent.idempotencyKey == req.idempotencyKey then
                                    a.(claim := a.claim.(requiresNonTerminal := true))
                                  else if req.replaceWorkingAssignment then
                                    NewRow(req, actor, generation, 0).(retryCount := a.retryCount)
                                  else NewRow(req, actor, generation, 0))
      ensures error.None? ==> MayRecord(Lookup(old(Durable()), req.beadID), req, actor)
      ensures Reliable(fault, old(disk.files)) && MayRecord(Lookup(old(Durable()), req.beadID), req, actor) ==> error.None?
      ensures error.None? ==> Ready(req.beadID)
      ensures old(CountsKnown()) ==> forall b :: Cleared(b) == old(Cleared(b))
      ensures old(Full()) ==> Full() && Durable() == old(Durable())
      ensures old(EmptyIfUnpublished()) ==> EmptyIfUnpublished()
    {
      hide MatchesIntent, HasUnresolvedReservation, PromptSHA256;
      var existing := Lookup(assignments, req.beadID);
      if existing.Some? && IsTerminal(existing.value.status) && existing.value.intent.idempotencyKey != req.idempotencyKey
         && existing.value.outbox.eventID != "" {
        return Some(ErrCompletionEventPending);
      }
      var replacementStart := req.replaceWorkingAssignment && existing.Some?
          && existing.value.intent.idempotencyKey != req.idempotencyKey;
      if req.replaceWorkingAssignment && existing.None? {
        return Some(ErrWorkingReplacementNotAllowed);
      }
      if replacementStart {
        if !ReplacementReady(existing.value, req) || existing.value.claim.actor == "" {
          return Some(ErrWorkingReplacementNotAllowed);
        }
        if actor != existing.value.claim.actor {
          return Some(ErrClaimConflict);
        }
      }
      if existing.Some? && existing.value.clear.state != ClearStateNone && !replacementStart {
        return Some(ErrClaimConflict);
      }
      if existing.Some? && existing.value.intent.idempotencyKey != ""
          && existing.value.intent.idempotencyKey != req.idempotencyKey
         && !replacementStart {
        if IsLive(existing.value.status) {
          return Some(ErrClaimConflict);
        }
        if IsTerminal(existing.value.status) && HasUnresolvedReservation(existing.value) {
          return Some(ErrReservationReleaseRequired);
        }
      }
      if existing.Some? && existing.value.intent.idempotencyKey == req.idempotencyKey {
        var row := existing.value;
        if row.claim.actor != "" && row.claim.actor != actor {
          return Some(ErrClaimConflict);
        }
        if !MatchesIntent(row, req) {
          return Some(ErrIntentMismatch);
        }
        if !row.claim.requiresNonTerminal {
          row := row.(claim := row.claim.(requiresNonTerminal := true));
          error := SaveRow(req.beadID, Some(row), false, fault);
          return;
        }
        return None;
      }
      var assignment := NewRow(req, actor, generation, 0);
      if replacementStart {
        assignment := assignment.(retryCount := existing.value.retryCount);
      }
      error := StartRow(req.beadID, assignment, fault);
    }

    // Saves the first row of a generation, and takes it out of memory again if that fails.
    method StartRow(beadID: string, assignment: Assignment, fault: SaveFault) returns (error: Option<Error>)
      requires Ready(beadID)
      modifies this, disk
      ensures Consistent(disk.files)
      ensures Wrote(old(Durable()), Durable(), beadID, Ok(Some(assignment)), error, Reliable(fault, old(disk.files)))
      ensures error.None? ==> Ready(beadID)
      ensures error.Some? ==> assignments == old(assignments) && baseline == old(baseline) && replace == old(replace)
      ensures old(CountsKnown()) ==> forall b :: Cleared(b) == old(Cleared(b))
      ensures old(Full()) ==> Full() && Durable() == old(Durable())
      ensures old(EmptyIfUnpublished()) ==> EmptyIfUnpublished()
    {
      hide Consistent, Wrote;
      var existing := Lookup(assignments, beadID);
      error := SaveRow(beadID, Some(assignment), existing.Some?, fault);
      if error.Some? {
        if existing.Some? {
          assignments := assignments[beadID := existing.value];
        } else {
          assignments := assignments - {beadID};
        }
        replace := replace - {beadID};
        assert assignments == old(assignments) && replace == old(replace);
      }
    }

    method RecordAtomicClaimStarted(beadID: string, idempotencyKey: string, fault: SaveFault)
      returns (error: Option<Error>)
      requires Ready(beadID)
      modifies this, disk
      ensures Consistent(disk.files)
      ensures Wrote(old(Durable()), Durable(), beadID,
                Keyed(old(Durable()), beadID, idempotencyKey, a => Ok(ClaimStarted(a))), error,
                    Reliable(fault, old(disk.files)))
      ensures error.None? ==>
                && old(OwnedBy(beadID, idempotencyKey))
                && var a := old(Durable())[beadID];
                   if EffectiveClaimState(a).ClaimClaimed? then Holds(beadID, a)
                   else Holds(beadID, a.(status := StatusClaiming,
                                         claim := a.claim.(state := ClaimClaiming, attempts := a.claim.attempts + 1)))
      ensures old(OwnedBy(beadID, idempotencyKey)) && Reliable(fault, old(disk.files)) ==> error.None?
      ensures error.None? ==> Ready(beadID)
      ensures old(CountsKnown()) ==> forall b :: Cleared(b) == old(Cleared(b))
      ensures old(Full()) ==> Full() && Durable() == old(Durable())
      ensures old(EmptyIfUnpublished()) ==> EmptyIfUnpublished()
    {
      var r := AtomicAssignment(beadID, idempotencyKey);
      if r.Err? {
        return Some(r.error);
      }
      var a := r.value;
      if EffectiveClaimState(a).ClaimClaimed? {
        return None;
      }
      a := a.(status := StatusClaiming);
      a := a.(claim := a.claim.(state := ClaimClaiming));
      a := a.(claim := a.claim.(attempts := a.claim.attempts + 1));
      error := SaveRow(beadID, Some(a), false, fault);
    }

    method RecordAtomicClaim(req: AtomicRequest, claim: ClaimReceipt, fault: SaveFault) returns (error: Option<Error>)
      requires Ready(req.beadID)
      modifies this, disk
      ensures Consistent(disk.files)
      ensures Wrote(old(Durable()), Durable(), req.beadID,
                    if req.beadID !in old(Durable()) then Err(ErrAssignmentMissing)
                    else Written(Claimed(old(Durable())[req.beadID], req, claim)), error, Reliable(fault, old(disk.files)))
      ensures error.None? ==>
                && old(OwnedBy(req.beadID, req.idempotencyKey))
                && var a := old(Durable())[req.beadID];
                   (a.claim.actor == "" || a.claim.actor == claim.actor) && MatchesIntent(a, req)
                   && Holds(req.beadID, a.(status := StatusClaimed,
                                           claim := Claim(claim.actor, ClaimClaimed, claim.status, a.claim.attempts,
                                                          claim.claimedAt, a.claim.requiresNonTerminal)))
      ensures old(OwnedBy(req.beadID, req.idempotencyKey)) && Reliable(fault, old(disk.files))
              && old(Durable()[req.beadID].claim.actor in {"", claim.actor} && MatchesIntent(Durable()[req.beadID], req)) ==>
                error.None?
      ensures error.None? ==> Ready(req.beadID)
      ensures old(CountsKnown()) ==> forall b :: Cleared(b) == old(Cleared(b))
      ensures old(Full()) ==> Full() && Durable() == old(Durable())
      ensures old(EmptyIfUnpublished()) ==> EmptyIfUnpublished()
    {
      if req.beadID !in assignments {
        return Some(ErrAssignmentMissing);
      }
      var existing := assignments[req.beadID];
      if existing.intent.idempotencyKey != req.idempotencyKey {
        return Some(ErrClaimConflict);
      }
      if existing.claim.actor != "" && existing.claim.actor != claim.actor {
        return Some(ErrClaimConflict);
      }
      if !MatchesIntent(existing, req) {
        return Some(ErrIntentMismatch);
      }
      existing := existing.(status := StatusClaimed);
      existing := existing.(claim := existing.claim.(actor := claim.actor));
      existing := existing.(claim := existing.claim.(state := ClaimClaimed));
      existing := existing.(claim := existing.claim.(status := claim.status));
      existing := existing.(claim := existing.claim.(claimedAt := claim.claimedAt));
      error := SaveRow(req.beadID, Some(existing), false, fault);
    }

    method RecordAtomicClaimUncertain(beadID: string, idempotencyKey: string, claimError: Error, fault: SaveFault)
      returns (error: Option<Error>)
      requires Ready(beadID)
      modifies this, disk
      ensures Consistent(disk.files)
      ensures Wrote(old(Durable()), Durable(), beadID,
                Keyed(old(Durable()), beadID, idempotencyKey, a => Ok(ClaimUncertain(a, claimError))), error,
                    Reliable(fault, old(disk.files)))
      ensures error.None? ==>
                && old(OwnedBy(beadID, idempotencyKey))
                && var a := old(Durable())[beadID];
                   if claimError == ErrClaimIneligible then
                     Holds(beadID, a.(status := StatusFailed, claim := a.claim.(state := ClaimIneligible)))
                   else if claimError == ErrClaimConflict then
                     Holds(beadID, a.(status := StatusFailed, claim := a.claim.(state := ClaimFailed)))
                   else Holds(beadID, a.(claim := a.claim.(state := ClaimUnknown)))
      ensures old(OwnedBy(beadID, idempotencyKey)) && Reliable(fault, old(disk.files)) ==> error.None?
      ensures error.None? ==> Ready(beadID)
      ensures old(CountsKnown()) ==> forall b :: Cleared(b) == old(Cleared(b))
      ensures old(Full()) ==> Full() && Durable() == old(Durable())
      ensures old(EmptyIfUnpublished()) ==> EmptyIfUnpublished()
    {
      var r := AtomicAssignment(beadID, idempotencyKey);
      if r.Err? {
        return Some(r.error);
      }
      var a := r.value;
      a := a.(claim := a.claim.(state := ClaimUnknown));
      if claimError.ErrClaimIneligible? {
        a := a.(claim := a.claim.(state := ClaimIneligible), status := StatusFailed);
      } else if claimError.ErrClaimConflict? {
        a := a.(claim := a.claim.(state := ClaimFailed), status := StatusFailed);
      }
      error := SaveRow(beadID, Some(a), false, fault);
    }

    method RecordAtomicReservationStarted(beadID: string, idempotencyKey: string, fault: SaveFault)
      returns (error: Option<Error>)
      requires Ready(beadID)
      modifies this, disk
      ensures Consistent(disk.files)
      ensures Wrote(old(Durable()), Durable(), beadID,
                Keyed(old(Durable()), beadID, idempotencyKey, a => Ok(ReservationStarted(a))), error,
                    Reliable(fault, old(disk.files)))
      ensures error.None? ==>
                && old(OwnedBy(beadID, idempotencyKey))
                && var a := old(Durable())[beadID];
                   Holds(beadID, a.(reservation := Reservation(ReservationReserving, a.reservation.attempts + 1,
                                                               a.reservation.completed, a.reservation.lease, false)))
      ensures old(OwnedBy(beadID, idempotencyKey)) && Reliable(fault, old(disk.files)) ==> error.None?
      ensures error.None? ==> Ready(beadID)
      ensures old(CountsKnown()) ==> forall b :: Cleared(b) == old(Cleared(b))
      ensures old(Full()) ==> Full() && Durable() == old(Durable())
      ensures old(EmptyIfUnpublished()) ==> EmptyIfUnpublished()
    {
      var r := AtomicAssignment(beadID, idempotencyKey);
      if r.Err? {
        return Some(r.error);
      }
      var a := r.value;
      a := a.(reservation := a.reservation.(state := ReservationReserving));
      a := a.(reservation := a.reservation.(attempts := a.reservation.attempts + 1));
      a := a.(reservation := a.reservation.(failed := false));
      error := SaveRow(beadID, Some(a), false, fault);
    }

    // A reported outcome never forgets a handle: an error that leaves any, or that demands a release, is kept as a
    // reservation still to be released.
    method SettledOutcome(outcome: ReservationState, lease: LeaseReceipt, outcomeError: Option<ReservationFault>)
      returns (state: ReservationState, reservationError: Option<ReservationFault>)
      ensures (state, reservationError) == SettleReservation(outcome, lease, outcomeError)
      ensures var handles := lease.reservationIDs != [] || lease.granted != [];
              var unsettled := (outcome == ReservationFailed && handles)
                  || (outcome == ReservationReserved && outcomeError.Some?
                      && (handles || outcomeError.value == FaultReleaseRequired));
              && state == (if unsettled then ReservationReserved
                           else if outcome == ReservationReserved && outcomeError.Some? then ReservationFailed else outcome)
              && (reservationError.Some? <==> unsettled || outcomeError.Some? || outcome == ReservationUnknown)
    {
      state, reservationError := outcome, outcomeError;
      if state.ReservationFailed? && LeaseHasHandles(lease) {
        state, reservationError := ReservationReserved, Some(FaultReleaseRequired);
      }
      if state.ReservationReserved? && reservationError.Some? {
        if LeaseHasHandles(lease) || reservationError.value.FaultReleaseRequired? {
          reservationError := Some(FaultReleaseRequired);
        } else {
          state, reservationError := ReservationFailed, Some(FaultGuaranteedNone);
        }
      }
      if state.ReservationUnknown? && reservationError.None? {
        reservationError := Some(FaultPlain);
      }
    }

    method RecordAtomicReservation(beadID: string, idempotencyKey: string, outcome: ReservationState, lease: LeaseReceipt,
        outcomeError: Option<ReservationFault>, fault: SaveFault)
      returns (error: Option<Error>)
      requires Ready(beadID)
      modifies this, disk
      ensures Consistent(disk.files)
      ensures Wrote(old(Durable()), Durable(), beadID,
                Keyed(old(Durable()), beadID, idempotencyKey, a => Ok(ReservationRecorded(a, outcome, lease, outcomeError))),
                    error,
                    Reliable(fault, old(disk.files)))
      ensures error.None? ==>
                && old(OwnedBy(beadID, idempotencyKey))
                && var a := old(Durable())[beadID];
                   var handles := lease.reservationIDs != [] || lease.granted != [];
                   var unsettled := (outcome == ReservationFailed && handles)
                       || (outcome == ReservationReserved && outcomeError.Some?
                           && (handles || outcomeError.value == FaultReleaseRequired));
                   var state := if unsettled then ReservationReserved
                                else if outcome == ReservationReserved && outcomeError.Some? then ReservationFailed
                                else outcome;
                   var failed := unsettled || outcomeError.Some? || outcome == ReservationUnknown;
                   Holds(beadID, a.(reservation := Reservation(state, a.reservation.attempts,
                                                               state == ReservationReserved && !failed, lease, failed)))
      ensures old(OwnedBy(beadID, idempotencyKey)) && Reliable(fault, old(disk.files)) ==> error.None?
      ensures error.None? ==> Ready(beadID)
      ensures old(CountsKnown()) ==> forall b :: Cleared(b) == old(Cleared(b))
      ensures old(Full()) ==> Full() && Durable() == old(Durable())
      ensures old(EmptyIfUnpublished()) ==> EmptyIfUnpublished()
    {
      hide SettleReservation, LeaseHasHandles;
      var r := AtomicAssignment(beadID, idempotencyKey);
      if r.Err? {
        return Some(r.error);
      }
      var a := r.value;
      var state, reservationError := SettledOutcome(outcome, lease, outcomeError);
      a := a.(reservation := a.reservation.(lease := lease));
      a := a.(reservation := a.reservation.(state := state));
      a := a.(reservation := a.reservation.(completed := state.ReservationReserved? && reservationError.None?));
      a := a.(reservation := a.reservation.(failed := reservationError.Some?));
      error := SaveRow(beadID, Some(a), false, fault);
    }

    method RecordAtomicDispatchStarted(beadID: string, idempotencyKey: string, fault: SaveFault)
      returns (error: Option<Error>)
      requires Ready(beadID)
      modifies this, disk
      ensures Consistent(disk.files)
      ensures Wrote(old(Durable()), Durable(), beadID, Keyed(old(Durable()), beadID, idempotencyKey, DispatchStarted), error,
                    Reliable(fault, old(disk.files)))
      ensures error.None? ==>
                && old(OwnedBy(beadID, idempotencyKey)) && old(Durable())[beadID].dispatch.state != DispatchSending
                && var a := old(Durable())[beadID];
                   if a.dispatch.state == DispatchSent then Holds(beadID, a)
                   else Holds(beadID, a.(dispatch := a.dispatch.(state := DispatchSending,
                                                                 attempts := a.dispatch.attempts + 1)))
      ensures old(OwnedBy(beadID, idempotencyKey) && Durable()[beadID].dispatch.state == DispatchSending) ==>
                error == Some(ErrDispatchOutcomeUnknown)
      ensures Reliable(fault, old(disk.files)) ==>
                old(OwnedBy(beadID, idempotencyKey) && Durable()[beadID].dispatch.state != DispatchSending) ==> error.None?
      ensures error.None? ==> Ready(beadID)
      ensures old(CountsKnown()) ==> forall b :: Cleared(b) == old(Cleared(b))
      ensures old(Full()) ==> Full() && Durable() == old(Durable())
      ensures old(EmptyIfUnpublished()) ==> EmptyIfUnpublished()
    {
      var r := AtomicAssignment(beadID, idempotencyKey);
      if r.Err? {
        return Some(r.error);
      }
      var a := r.value;
      if a.dispatch.state.DispatchSent? {
        return None;
      }
      if a.dispatch.state.DispatchSending? {
        return Some(ErrDispatchOutcomeUnknown);
      }
      a := a.(dispatch := a.dispatch.(state := DispatchSending));
      a := a.(dispatch := a.dispatch.(attempts := a.dispatch.attempts + 1));
      error := SaveRow(beadID, Some(a), false, fault);
    }

    method RecordAtomicDispatchFailed(beadID: string, idempotencyKey: string, fault: SaveFault)
      returns (error: Option<Error>)
      requires Ready(beadID)
      modifies this, disk
      ensures Consistent(disk.files)
      ensures Wrote(old(Durable()), Durable(), beadID,
                Keyed(old(Durable()), beadID, idempotencyKey, a => Ok(DispatchFailed(a))), error,
                    Reliable(fault, old(disk.files)))
      ensures error.None? ==>
                && old(OwnedBy(beadID, idempotencyKey))
                && var a := old(Durable())[beadID];
                   Holds(beadID, a.(dispatch := a.dispatch.(state := DispatchPending)))
      ensures old(OwnedBy(beadID, idempotencyKey)) && Reliable(fault, old(disk.files)) ==> error.None?
      ensures error.None? ==> Ready(beadID)
      ensures old(CountsKnown()) ==> forall b :: Cleared(b) == old(Cleared(b))
      ensures old(Full()) ==> Full() && Durable() == old(Durable())
      ensures old(EmptyIfUnpublished()) ==> EmptyIfUnpublished()
    {
      var r := AtomicAssignment(beadID, idempotencyKey);
      if r.Err? {
        return Some(r.error);
      }
      var a := r.value;
      a := a.(dispatch := a.dispatch.(state := DispatchPending));
      error := SaveRow(beadID, Some(a), false, fault);
    }

    method RecordAtomicDispatchSent(beadID: string, idempotencyKey: string, prompt: string, receiptID: string,
        fault: SaveFault)
      returns (error: Option<Error>)
      requires Ready(beadID)
      modifies this, disk
      ensures Consistent(disk.files)
      ensures Wrote(old(Durable()), Durable(), beadID,
                Keyed(old(Durable()), beadID, idempotencyKey, a => if receiptID == "" then Err(ErrDispatchOutcomeUnknown)
                    else Ok(DispatchDelivered(a, prompt, receiptID))), error,
                    Reliable(fault, old(disk.files)))
      ensures error.None? ==>
                && old(OwnedBy(beadID, idempotencyKey)) && receiptID != ""
                && var a := old(Durable())[beadID];
                   Holds(beadID, a.(status := StatusAssigned,
                                    dispatch := Dispatch(DispatchSent, a.dispatch.attempts, "", prompt, receiptID)))
      ensures old(OwnedBy(beadID, idempotencyKey)) && receiptID != "" && Reliable(fault, old(disk.files)) ==> error.None?
      ensures error.None? ==> Ready(beadID)
      ensures old(CountsKnown()) ==> forall b :: Cleared(b) == old(Cleared(b))
      ensures old(Full()) ==> Full() && Durable() == old(Durable())
      ensures old(EmptyIfUnpublished()) ==> EmptyIfUnpublished()
    {
      var r := AtomicAssignment(beadID, idempotencyKey);
      if r.Err? {
        return Some(r.error);
      }
      var a := r.value;
      if receiptID == "" {
        return Some(ErrDispatchOutcomeUnknown);
      }
      a := a.(status := StatusAssigned);
      a := a.(dispatch := a.dispatch.(promptSent := prompt));
      a := a.(dispatch := a.dispatch.(pendingPrompt := ""));
      a := a.(dispatch := a.dispatch.(state := DispatchSent));
      a := a.(dispatch := a.dispatch.(receiptID := receiptID));
      error := SaveRow(beadID, Some(a), false, fault);
    }

    // ---------- Lifecycle, clearing and terminal reconciliation ----------

    method TransitionIfCurrent(beadID: string, observed: Assignment, to: AssignmentStatus, reason: string, fault: SaveFault)
      returns (error: Option<Error>)
      requires Ready(beadID)
      modifies this, disk
      ensures Consistent(disk.files)
      ensures Wrote(old(Durable()), Durable(), beadID,
                Present(old(Durable()), beadID, a => Transition(a, observed, to, reason)), error,
                    Reliable(fault, old(disk.files)))
      ensures error.None? ==>
                && beadID in old(Durable())
                && var a := old(Durable())[beadID];
                   && a.clear.state.ClearStateNone? && CurrentAttempt(observed, a) && (a.status, to) in LIFECYCLE
                   && Holds(beadID, a.(status := to, failReason := if to == StatusFailed then reason else a.failReason))
      ensures Reliable(fault, old(disk.files)) && beadID in old(Durable()) ==>
                var a := old(Durable())[beadID];
                a.clear.state.ClearStateNone? && CurrentAttempt(observed, a) && (a.status, to) in LIFECYCLE ==> error.None?
      ensures error.None? ==> Ready(beadID)
      ensures old(CountsKnown()) ==> forall b :: Cleared(b) == old(Cleared(b))
      ensures old(Full()) ==> Full() && Durable() == old(Durable())
      ensures old(EmptyIfUnpublished()) ==> EmptyIfUnpublished()
    {
      if beadID !in assignments {
        return Some(ErrAssignmentMissing);
      }
      var a := assignments[beadID];
      if !SameGeneration(observed, a) || a.clear.state != ClearStateNone
         || !ValidTransition(a.status, to) {
        return Some(ErrAssignmentStatusMismatch);
      }
      a := a.(status := to);
      match to {
        case StatusWorking =>
        case StatusCompleted =>
        case StatusFailed => a := a.(failReason := reason);
        case _ => return Some(ErrOther);
      }
      error := SaveRow(beadID, Some(a), true, fault);
    }

    method BeginClear(beadID: string, expected: set<AssignmentStatus>, fault: SaveFault) returns (error: Option<Error>)
      requires Ready(beadID)
      modifies this, disk
      ensures Consistent(disk.files)
      ensures Wrote(old(Durable()), Durable(), beadID,
                Present(old(Durable()), beadID, a => AssignmentTransitions.BeginClear(a, expected)), error,
                    Reliable(fault, old(disk.files)))
      ensures error.None? ==>
                && beadID in old(Durable())
                && var a := old(Durable())[beadID];
                   && (expected == {} || a.status in expected) && a.dispatch.state != DispatchSending
                   && a.outbox.eventID == ""
                   && Holds(beadID, if a.clear.state != ClearStateNone then a
                                    else a.(clear := a.clear.(state := ClearStateReservationReleasing)))
      ensures Reliable(fault, old(disk.files)) && beadID in old(Durable()) ==>
                var a := old(Durable())[beadID];
                (expected == {} || a.status in expected) && a.dispatch.state != DispatchSending && a.outbox.eventID == "" ==>
                  error.None?
      ensures error.None? ==> Ready(beadID)
      ensures old(CountsKnown()) ==> forall b :: Cleared(b) == old(Cleared(b))
      ensures old(Full()) ==> Full() && Durable() == old(Durable())
      ensures old(EmptyIfUnpublished()) ==> EmptyIfUnpublished()
    {
      if beadID !in assignments {
        return Some(ErrAssignmentMissing);
      }
      var a := assignments[beadID];
      if expected != {} && a.status !in expected {
        return Some(ErrAssignmentStatusMismatch);
      }
      if a.dispatch.state.DispatchSending? {
        return Some(ErrDispatchOutcomeUnknown);
      }
      if a.outbox.eventID != "" {
        return Some(ErrCompletionEventPending);
      }
      if a.clear.state != ClearStateNone {
        return None;
      }
      a := a.(clear := a.clear.(state := ClearStateReservationReleasing));
      error := SaveRow(beadID, Some(a), true, fault);
    }

    method RecordClearLeasesReleased(beadID: string, fault: SaveFault) returns (error: Option<Error>)
      requires Ready(beadID)
      modifies this, disk
      ensures Consistent(disk.files)
      ensures Wrote(old(Durable()), Durable(), beadID, Present(old(Durable()), beadID, LeasesReleased), error,
                    Reliable(fault, old(disk.files)))
      ensures error.None? ==>
                && beadID in old(Durable())
                && var a := old(Durable())[beadID];
                   if a.clear.state == ClearStateLeasesReleased then Holds(beadID, a)
                   else
                     && a.clear.state == ClearStateReservationReleasing
                     && Holds(beadID,
                              a.(clear := a.clear.(state := ClearStateLeasesReleased),
                                 reservation := Reservation(ReservationReleased, a.reservation.attempts, false,
                                                            LeaseReceipt(a.reservation.lease.agentName,
                                                                         a.reservation.lease.target,
                                                                         a.reservation.lease.requested, [], [], None),
                                                            false)))
      ensures Reliable(fault, old(disk.files)) ==>
                beadID in old(Durable()) && old(Durable())[beadID].clear.state != ClearStateNone ==> error.None?
      ensures error.None? ==> Ready(beadID)
      ensures old(CountsKnown()) ==> forall b :: Cleared(b) == old(Cleared(b))
      ensures old(Full()) ==> Full() && Durable() == old(Durable())
      ensures old(EmptyIfUnpublished()) ==> EmptyIfUnpublished()
    {
      if beadID !in assignments {
        return Some(ErrAssignmentMissing);
      }
      var a := assignments[beadID];
      if a.clear.state.ClearStateLeasesReleased? {
        return None;
      }
      if !a.clear.state.ClearStateReservationReleasing? {
        return Some(ErrOther);
      }
      a := a.(clear := a.clear.(state := ClearStateLeasesReleased));
      a := a.(reservation := a.reservation.(state := ReservationReleased, completed := false, failed := false));
      a := a.(reservation := a.reservation.(lease := a.reservation.lease.(granted := [], reservationIDs := [],
          expiresAt := None)));
      error := SaveRow(beadID, Some(a), true, fault);
    }

    method BeginTerminalReconciliation(beadID: string, observed: Assignment, status: AssignmentStatus, reason: string,
        withEvent: bool, now: Time, fault: SaveFault) returns (error: Option<Error>)
      requires Ready(beadID)
      modifies this, disk
      ensures Consistent(disk.files)
      ensures Wrote(old(Durable()), Durable(), beadID,
                Present(old(Durable()), beadID, a => BeginTerminal(a, observed, status, reason, withEvent, now)), error,
                    Reliable(fault, old(disk.files)))
      ensures error.None? ==>
                && beadID in old(Durable()) && (status == StatusCompleted || status == StatusFailed)
                && var a := old(Durable())[beadID];
                   var event := Outbox(EventOf(a, status), Some(now), "", None);
                   var outbox := if withEvent && a.outbox.eventID == "" then event else a.outbox;
                   && CurrentAttempt(observed, a) && a.dispatch.state != DispatchSending
                   && if a.clear.state != ClearStateNone then
                        && a.clear.pendingTerminalStatus == Some(status) && a.clear.pendingTerminalReason == reason
                        && Holds(beadID, a.(outbox := outbox))
                      else if withEvent && a.status == status then
                        (status == StatusFailed ==> a.failReason == reason) && Holds(beadID, a.(outbox := outbox))
                      else
                        && IsLive(a.status)
                        && Holds(beadID, a.(clear := Clear(ClearStateReservationReleasing, Some(status), reason, false),
                                            outbox := if withEvent then event else NO_EVENT))
      ensures Reliable(fault, old(disk.files)) && beadID in old(Durable()) ==>
                var a := old(Durable())[beadID];
                && (status == StatusCompleted || status == StatusFailed)
                && CurrentAttempt(observed, a) && a.dispatch.state != DispatchSending
                && a.clear.state == ClearStateNone && IsLive(a.status) ==>
                  error.None?
      ensures error.None? ==> Ready(beadID)
      ensures old(CountsKnown()) ==> forall b :: Cleared(b) == old(Cleared(b))
      ensures old(Full()) ==> Full() && Durable() == old(Durable())
      ensures old(EmptyIfUnpublished()) ==> EmptyIfUnpublished()
    {
      hide CompletionEventID, EventOf;
      if beadID in assignments && (status.StatusCompleted? || status.StatusFailed?) {
        EventIsNamed(assignments[beadID], status);
      }
      if beadID !in assignments {
        return Some(ErrAssignmentMissing);
      }
      var a := assignments[beadID];
      if !status.StatusCompleted? && !status.StatusFailed? {
        return Some(ErrOther);
      }
      if !SameGeneration(observed, a) {
        return Some(ErrAssignmentStatusMismatch);
      }
      if a.dispatch.state.DispatchSending? {
        return Some(ErrDispatchOutcomeUnknown);
      }
      var pending := a.clear.state != ClearStateNone;
      if pending && !(a.clear.pendingTerminalStatus == Some(status) && a.clear.pendingTerminalReason == reason) {
        return Some(ErrAssignmentStatusMismatch);
      }
      if pending || (withEvent && a.status == status) {
        if !pending && status.StatusFailed? && a.failReason != reason {
          return Some(ErrAssignmentStatusMismatch);
        }
        if !withEvent || a.outbox.eventID != "" {
          return None;
        }
        a := a.(outbox := Outbox(CompletionEventID(a, status), Some(now), "", None));
        error := SaveRow(beadID, Some(a), true, fault);
        return;
      }
      if !IsLive(a.status) {
        return Some(ErrAssignmentStatusMismatch);
      }
      var eventID := CompletionEventID(a, status);
      a := a.(clear := Clear(ClearStateReservationReleasing, Some(status), reason, false));
      a := a.(outbox := NO_EVENT);
      if withEvent {
        a := a.(outbox := a.outbox.(eventID := eventID, detectedAt := Some(now)));
      }
      error := SaveRow(beadID, Some(a), true, fault);
    }

    method RecordTerminalClaimReleased(beadID: string, fault: SaveFault) returns (error: Option<Error>)
      requires Ready(beadID)
      modifies this, disk
      ensures Consistent(disk.files)
      ensures Wrote(old(Durable()), Durable(), beadID, Present(old(Durable()), beadID, TerminalClaimReleased), error,
                    Reliable(fault, old(disk.files)))
      ensures error.None? ==>
                && beadID in old(Durable())
                && var a := old(Durable())[beadID];
                   && a.clear.pendingTerminalStatus in {Some(StatusCompleted), Some(StatusFailed)}
                   && a.clear.state == ClearStateLeasesReleased
                   && Holds(beadID, a.(clear := a.clear.(claimReleased := true)))
      ensures Reliable(fault, old(disk.files)) && beadID in old(Durable()) ==>
                var a := old(Durable())[beadID];
                a.clear.pendingTerminalStatus in {Some(StatusCompleted), Some(StatusFailed)}
                && a.clear.state == ClearStateLeasesReleased ==>
                  error.None?
      ensures error.None? ==> Ready(beadID)
      ensures old(CountsKnown()) ==> forall b :: Cleared(b) == old(Cleared(b))
      ensures old(Full()) ==> Full() && Durable() == old(Durable())
      ensures old(EmptyIfUnpublished()) ==> EmptyIfUnpublished()
    {
      if beadID !in assignments {
        return Some(ErrAssignmentMissing);
      }
      var a := assignments[beadID];
      if a.clear.pendingTerminalStatus != Some(StatusCompleted) && a.clear.pendingTerminalStatus != Some(StatusFailed) {
        return Some(ErrOther);
      }
      if a.clear.state != ClearStateLeasesReleased {
        return Some(ErrOther);
      }
      if a.clear.claimReleased {
        return None;
      }
      a := a.(clear := a.clear.(claimReleased := true));
      error := SaveRow(beadID, Some(a), true, fault);
    }

    /** Retires a row whose leases and claim were both recorded as released; a missing row is already retired. */
    method CompleteTerminalReconciliation(beadID: string, status: AssignmentStatus, reason: string, fault: SaveFault)
      returns (error: Option<Error>)
      requires Ready(beadID)
      modifies this, disk
      ensures Consistent(disk.files)
      ensures Wrote(old(Durable()), Durable(), beadID,
                    if !status.StatusCompleted? && !status.StatusFailed? then Err(ErrOther)
                    else if beadID !in old(Durable()) then Ok(None)
                    else Written(CompleteTerminal(old(Durable())[beadID], status, reason)), error,
                        Reliable(fault, old(disk.files)))
      ensures error.None? && beadID in old(Durable()) ==>
                var a := old(Durable())[beadID];
                && (status == StatusCompleted || status == StatusFailed)
                && a.clear == Clear(ClearStateLeasesReleased, Some(status), reason, true)
                && a.dispatch.state != DispatchSending
                && Holds(beadID, a.(status := status, clear := NO_CLEAR, failReason := if status == StatusFailed then reason
                                                                                      else "",
                                    reservation := Reservation(ReservationReleased, a.reservation.attempts, false,
                                                               LeaseReceipt(a.reservation.lease.agentName,
                                                                            a.reservation.lease.target,
                                                                            a.reservation.lease.requested, [], [], None),
                                                               false)))
      ensures Reliable(fault, old(disk.files)) && (status == StatusCompleted || status == StatusFailed) ==>
                (beadID in old(Durable()) ==>
                   var a := old(Durable())[beadID];
                   && a.clear == Clear(ClearStateLeasesReleased, Some(status), reason, true)
                   && a.dispatch.state != DispatchSending) ==>
                  error.None?
      ensures error.None? ==> Ready(beadID)
      ensures old(CountsKnown()) ==> forall b :: Cleared(b) == old(Cleared(b))
      ensures old(Full()) ==> Full() && Durable() == old(Durable())
      ensures old(EmptyIfUnpublished()) ==> EmptyIfUnpublished()
    {
      if !status.StatusCompleted? && !status.StatusFailed? {
        return Some(ErrOther);
      }
      if beadID !in assignments {
        return None;
      }
      var a := assignments[beadID];
      if a.clear.state != ClearStateLeasesReleased {
        return Some(ErrOther);
      }
      if a.clear.pendingTerminalStatus != Some(status) || a.clear.pendingTerminalReason != reason {
        return Some(ErrOther);
      }
      if !a.clear.claimReleased {
        return Some(ErrOther);
      }
      if a.dispatch.state.DispatchSending? {
        return Some(ErrDispatchOutcomeUnknown);
      }
      a := a.(status := status, failReason := "");
      a := a.(reservation := NoLeases(a.reservation));
      a := a.(clear := NO_CLEAR);
      if status.StatusFailed? {
        a := a.(failReason := reason);
      }
      error := SaveRow(beadID, Some(a), false, fault);
    }

    /** Removes a row whose leases are released and counts the clear: the bead's durable count grows by exactly one, and
        no other bead's count changes, however stale the other processes saving meanwhile are. */
    method CompleteClear(beadID: string, fault: SaveFault) returns (error: Option<Error>)
      requires Ready(beadID) && CountsKnown()
      requires Count(clearedGenerations, beadID) == Cleared(beadID)
      modifies this, disk
      ensures Consistent(disk.files)
      ensures Wrote(old(Durable()), Durable(), beadID,
                    if beadID !in old(Durable()) then Ok(None)
                    else if old(Durable())[beadID].outbox.eventID != "" then Err(ErrCompletionEventPending)
                    else if !MayCompleteClear(old(Durable())[beadID]) then Err(ErrOther)
                    else Ok(None), error, Reliable(fault, old(disk.files)))
      ensures forall b ::
                Cleared(b) == old(Cleared(b)) + if b == beadID && b in old(Durable()) && b !in Durable() then 1 else 0
    {
      if beadID !in assignments {
        return None;
      }
      var a := assignments[beadID];
      if a.outbox.eventID != "" {
        return Some(ErrCompletionEventPending);
      }
      if a.clear.state != ClearStateLeasesReleased {
        return Some(ErrOther);
      }
      clearedGenerations := clearedGenerations[beadID := Count(clearedGenerations, beadID) + 1];
      error := SaveRow(beadID, None, false, fault);
    }

    // ---------- Completion outbox ----------

    method ClaimPendingCompletionEvent(beadID: string, eventID: string, token: string, duration: int, now: Time,
        fault: SaveFault) returns (error: Option<Error>)
      requires Ready(beadID)
      modifies this, disk
      ensures Consistent(disk.files)
      ensures Wrote(old(Durable()), Durable(), beadID,
                Present(old(Durable()), beadID, a => ClaimEvent(a, eventID, token, duration, now)), error,
                    Reliable(fault, old(disk.files)))
      ensures error.None? ==>
                && beadID in old(Durable()) && eventID != "" && token != "" && duration > 0 && now > 0
                && var a := old(Durable())[beadID];
                   && a.outbox.eventID == eventID && a.status in {StatusCompleted, StatusFailed}
                   && if a.outbox.consumerToken != "" && a.outbox.leaseExpiresAt.Some? && now < a.outbox.leaseExpiresAt.value
                      then a.outbox.consumerToken == token && Holds(beadID, a)
                      else Holds(beadID, a.(outbox := Outbox(eventID, a.outbox.detectedAt, token, Some(now + duration))))
      ensures Reliable(fault, old(disk.files)) && beadID in old(Durable()) ==>
                var a := old(Durable())[beadID];
                && eventID != "" && token != "" && duration > 0 && now > 0
                && a.outbox.eventID == eventID && a.status in {StatusCompleted, StatusFailed}
                && ((a.outbox.consumerToken == "" && a.outbox.leaseExpiresAt.None?)
                    || (a.outbox.consumerToken != "" && a.outbox.leaseExpiresAt.Some?
                        && (a.outbox.consumerToken == token || a.outbox.leaseExpiresAt.value <= now))) ==>
                  error.None?
      ensures error.None? ==> Ready(beadID)
      ensures old(CountsKnown()) ==> forall b :: Cleared(b) == old(Cleared(b))
      ensures old(Full()) ==> Full() && Durable() == old(Durable())
      ensures old(EmptyIfUnpublished()) ==> EmptyIfUnpublished()
    {
      if beadID !in assignments {
        return Some(ErrAssignmentMissing);
      }
      var a := assignments[beadID];
      if eventID == "" || token == "" || duration <= 0 || now <= 0 {
        return Some(ErrOther);
      }
      if a.outbox.eventID != eventID {
        return Some(ErrAssignmentStatusMismatch);
      }
      if !a.status.StatusCompleted? && !a.status.StatusFailed? {
        return Some(ErrOther);
      }
      if (a.outbox.consumerToken == "") != a.outbox.leaseExpiresAt.None? {
        return Some(ErrOther);
      }
      if a.outbox.consumerToken != "" && now < a.outbox.leaseExpiresAt.value {
        if a.outbox.consumerToken != token {
          return Some(ErrAssignmentStatusMismatch);
        }
        return None;
      }
      a := a.(outbox := a.outbox.(consumerToken := token));
      a := a.(outbox := a.outbox.(leaseExpiresAt := Some(now + duration)));
      error := SaveRow(beadID, Some(a), true, fault);
    }

    method RenewPendingCompletionEventLease(beadID: string, eventID: string, token: string, duration: int, now: Time,
        fault: SaveFault) returns (error: Option<Error>)
      requires Ready(beadID)
      modifies this, disk
      ensures Consistent(disk.files)
      ensures Wrote(old(Durable()), Durable(), beadID,
                Present(old(Durable()), beadID, a => RenewEvent(a, eventID, token, duration, now)), error,
                    Reliable(fault, old(disk.files)))
      ensures error.None? ==>
                && beadID in old(Durable()) && eventID != "" && token != "" && duration > 0 && now > 0
                && var a := old(Durable())[beadID];
                   && a.outbox.eventID == eventID && a.outbox.consumerToken == token
                   && a.outbox.leaseExpiresAt.Some? && now < a.outbox.leaseExpiresAt.value
                   && Holds(beadID, a.(outbox := Outbox(eventID, a.outbox.detectedAt, token, Some(now + duration))))
      ensures Reliable(fault, old(disk.files)) && beadID in old(Durable()) ==>
                var a := old(Durable())[beadID];
                && eventID != "" && token != "" && duration > 0 && now > 0
                && a.outbox.eventID == eventID && a.outbox.consumerToken == token
                && a.outbox.leaseExpiresAt.Some? && now < a.outbox.leaseExpiresAt.value ==>
                  error.None?
      ensures error.None? ==> Ready(beadID)
      ensures old(CountsKnown()) ==> forall b :: Cleared(b) == old(Cleared(b))
      ensures old(Full()) ==> Full() && Durable() == old(Durable())
      ensures old(EmptyIfUnpublished()) ==> EmptyIfUnpublished()
    {
      if beadID !in assignments {
        return Some(ErrAssignmentMissing);
      }
      var a := assignments[beadID];
      if eventID == "" || token == "" || duration <= 0 || now <= 0 {
        return Some(ErrOther);
      }
      if a.outbox.eventID != eventID || a.outbox.consumerToken != token {
        return Some(ErrAssignmentStatusMismatch);
      }
      if a.outbox.leaseExpiresAt.None? {
        return Some(ErrOther);
      }
      if now >= a.outbox.leaseExpiresAt.value {
        return Some(ErrAssignmentStatusMismatch);
      }
      a := a.(outbox := a.outbox.(leaseExpiresAt := Some(now + duration)));
      error := SaveRow(beadID, Some(a), true, fault);
    }

    method AcknowledgeCompletionEvent(beadID: string, eventID: string, token: string, now: Time, fault: SaveFault)
      returns (error: Option<Error>)
      requires Ready(beadID)
      modifies this, disk
      ensures Consistent(disk.files)
      ensures Wrote(old(Durable()), Durable(), beadID,
                Present(old(Durable()), beadID, a => AcknowledgeEvent(a, eventID, token, now)), error,
                    Reliable(fault, old(disk.files)))
      ensures error.None? ==>
                && beadID in old(Durable()) && eventID != "" && token != "" && now > 0
                && var a := old(Durable())[beadID];
                   && a.outbox.eventID == eventID && a.outbox.consumerToken == token
                   && a.outbox.leaseExpiresAt.Some? && now < a.outbox.leaseExpiresAt.value
                   && a.status in {StatusCompleted, StatusFailed} && Holds(beadID, a.(outbox := NO_EVENT))
      ensures Reliable(fault, old(disk.files)) && beadID in old(Durable()) ==>
                var a := old(Durable())[beadID];
                && eventID != "" && token != "" && now > 0 && a.outbox.eventID == eventID && a.outbox.consumerToken == token
                && a.outbox.leaseExpiresAt.Some? && now < a.outbox.leaseExpiresAt.value
                && a.status in {StatusCompleted, StatusFailed} ==>
                  error.None?
      ensures error.None? ==> Ready(beadID)
      ensures old(CountsKnown()) ==> forall b :: Cleared(b) == old(Cleared(b))
      ensures old(Full()) ==> Full() && Durable() == old(Durable())
      ensures old(EmptyIfUnpublished()) ==> EmptyIfUnpublished()
    {
      if beadID !in assignments {
        return Some(ErrAssignmentMissing);
      }
      var a := assignments[beadID];
      if eventID == "" || token == "" || now <= 0 {
        return Some(ErrOther);
      }
      if !OwnsLiveLease(a, eventID, token, now) {
        return Some(ErrAssignmentStatusMismatch);
      }
      if !a.status.StatusCompleted? && !a.status.StatusFailed? {
        return Some(ErrOther);
      }
      a := a.(outbox := a.outbox.(eventID := "", detectedAt := None));
      a := a.(outbox := a.outbox.(consumerToken := "", leaseExpiresAt := None));
      error := SaveRow(beadID, Some(a), true, fault);
    }
  }

  /** A save that fails after its backup rename has published its change; saved again, the change conflicts with itself if
      it replaced a row. The store then drops its own copy, so nothing is lost but the report of success. */
  method ReplayedReplacement(b: string, before: Assignment, after: Assignment)
    returns (first: Option<Error>, second: Option<Error>, store: AssignmentStore)
    requires before != after
    ensures fresh(store) && fresh(store.disk)
    ensures first == second == Some(ErrPersistence)
    ensures store.Durable() == map[b := after] && store.assignments == store.baseline == store.Durable() && store.replace == {}
  {
    hide IsMerge, Mergeable;
    var disk := new LedgerFiles();
    store := new AssignmentStore(disk);
    FirstRowMerges(b, before);
    store.assignments := map[b := before];
    var saved := store.SaveLocked(NoFault);
    assert store.Ready(b) && store.baseline == store.Durable() == map[b := before];
    store.assignments := map[b := after];
    store.replace := {b};
    ReplacementMerges(b, before, after);
    first := store.SaveLocked(FailsAfterBackup);
    assert store.Durable() == map[b := after];
    second := store.SaveLocked(NoFault);
  }

  lemma FirstRowMerges(b: string, row: Assignment)
    ensures Mergeable(map[], map[], map[b := row], {})
    ensures forall merged :: IsMerge(map[], map[], map[b := row], {}, merged) ==> merged == map[b := row]
  {
    hide MergeCell, CellConflict, IsMerge, Mergeable;
    var empty: Ledger, changed: Ledger := map[], map[b := row];
    forall merged | IsMerge(empty, empty, changed, {}, merged)
      ensures merged == changed
    {
      SingleRowSave(empty, empty, changed, {}, b, merged);
    }
    SingleRowSave(empty, empty, changed, {}, b, changed);
  }

  lemma ReplacementMerges(b: string, before: Assignment, after: Assignment)
    requires before != after
    ensures var base, changed := map[b := before], map[b := after];
            && Mergeable(base, base, changed, {b}) && !Mergeable(changed, base, changed, {b})
            && forall merged :: IsMerge(base, base, changed, {b}, merged) ==> merged == changed
  {
    var base: Ledger, changed: Ledger := map[b := before], map[b := after];
    hide MergeCell, CellConflict;
    forall merged | IsMerge(base, base, changed, {b}, merged)
      ensures merged == changed
    {
      SingleRowSave(base, base, changed, {b}, b, merged);
    }
    SingleRowSave(base, base, changed, {b}, b, changed);
    SecondMerge(base, base, changed, {b}, changed);
  }
}
