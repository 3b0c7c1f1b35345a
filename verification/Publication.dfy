/**
 Crash-safe publication of the assignment ledger: every save writes the backup
 first and the primary second, under an exclusive file lock, and a load recovers
 from a crash between the two. Renames are atomic and encoding is lossless.
 */
module Publication {
  import opened Wrappers
  import opened AssignmentTypes

  // The persistence generation is a 64-bit counter.
  const MAX_GENERATION: nat := 0xFFFF_FFFF_FFFF_FFFF

  datatype Snapshot = Snapshot(generation: nat, assignments: Ledger, cleared: map<string, nat>)

  const NO_SNAPSHOT := Snapshot(0, map[], map[])

  datatype Files = Files(primary: Option<Snapshot>, backup: Option<Snapshot>)

  datatype Selection = Selection(snapshot: Snapshot, promote: bool)

  datatype SelectError = BackupWithoutPrimary | GenerationGap | Diverged

  // selectAssignmentSnapshotPair: both files exist.
  function SelectPair(primary: Snapshot, backup: Snapshot): Result<Option<Selection>, SelectError> {
    if backup.generation > primary.generation then
      if backup.generation - primary.generation != 1 then Err(GenerationGap) else Ok(Some(Selection(backup, true)))
    else if backup.generation < primary.generation then Ok(Some(Selection(primary, false)))
    else if primary != backup then Err(Diverged)
    else Ok(Some(Selection(primary, false)))
  }

  // The strict selection of selectAssignmentSnapshot.
  function Select(files: Files): Result<Option<Selection>, SelectError> {
    if files.primary.None? then
      if files.backup.None? then Ok(None)
      else if files.backup.value.generation != 1 then Err(BackupWithoutPrimary)
      else Ok(Some(Selection(files.backup.value, true)))
    else if files.backup.None? then Ok(Some(Selection(files.primary.value, false)))
    else SelectPair(files.primary.value, files.backup.value)
  }

  /** What a strict load makes of any two files: it takes the newer generation and promotes it if it is the backup's. A
      backup may only be ahead by one, and only generation one may lack its primary; of two files of one generation both
      must be the same. Anything else is refused. */
  lemma SelectsExactly(files: Files)
    ensures Select(files).Ok? <==>
              || files.backup.None?
              || files.backup.value.generation == 1 + Generation(files.primary)
              || (files.primary.Some?
                  && (files.backup.value.generation < files.primary.value.generation || files.backup == files.primary))
    ensures Select(files).Ok? ==>
              var selection := Select(files).value;
              && (selection.None? <==> files.primary.None? && files.backup.None?)
              && (selection.Some? ==>
                    && (selection.value.promote <==> Generation(files.backup) > Generation(files.primary)
                                                     || (files.primary.None? && files.backup.Some?))
                    && Some(selection.value.snapshot) == if selection.value.promote then files.backup else files.primary)
  {
  }

  // What a load hands to the store: an empty directory is generation zero.
  function Selected(selection: Option<Selection>): Snapshot {
    if selection.Some? then selection.value.snapshot else NO_SNAPSHOT
  }

  function Promoted(files: Files, selection: Option<Selection>): Files {
    if selection.Some? && selection.value.promote then files.(primary := Some(selection.value.snapshot)) else files
  }

  function Generation(file: Option<Snapshot>): nat {
    if file.None? then 0 else file.value.generation
  }

  // What every crash leaves behind: equal files, or a backup one generation ahead.
  predicate Consistent(files: Files) {
    && (files.primary.Some? ==> files.primary.value.generation > 0)
    && (files.primary == files.backup
        || (files.backup.Some? && files.backup.value.generation == Generation(files.primary) + 1))
  }

  function Latest(files: Files): Snapshot {
    if files.backup.Some? then files.backup.value else NO_SNAPSHOT
  }

  // ---------- The protocol ----------

  // What the lock holder has done so far.
  datatype Phase = Locked | Refreshed(latest: Snapshot) | BackedUp(next: Snapshot) | Published(next: Snapshot)

  datatype Reader = SawPrimary(primary: Option<Snapshot>) | SawBoth(primary: Option<Snapshot>, backup: Option<Snapshot>)

  /** `history` lists every snapshot a save ever put into the backup file, oldest first; `reported` is the highest
      generation whose save returned success. */
  datatype State = State(files: Files, holder: Option<Phase>, history: seq<Snapshot>, reported: nat, readers: map<nat, Reader>)

  const EMPTY := State(Files(None, None), None, [], 0, map[])

  datatype Action =
    | Lock
    | Refresh
    | PublishBackup(assignments: Ledger, cleared: map<string, nat>)
    | PublishPrimary
    | Report
    | Unlock
    | ReadPrimary(reader: nat)
    | ReadBackup(reader: nat)

  predicate Enabled(s: State, act: Action) {
    match act
    case Lock => s.holder.None?
    case Refresh => s.holder == Some(Locked) && Select(s.files).Ok?
    case PublishBackup(_, _) => s.holder.Some? && s.holder.value.Refreshed? && s.holder.value.latest.generation < MAX_GENERATION
    case PublishPrimary => s.holder.Some? && s.holder.value.BackedUp?
    case Report => s.holder.Some? && s.holder.value.Published?
    // A crash or an error return, at any point.
    case Unlock => s.holder.Some?
    case ReadPrimary(_) => true
    case ReadBackup(reader) => reader in s.readers && s.readers[reader].SawPrimary?
  }

  function Next(s: State, act: Action): State
    requires Enabled(s, act)
  {
    match act
    case Lock => s.(holder := Some(Locked))
    case Refresh =>
      s.(files := Promoted(s.files, Select(s.files).value), holder := Some(Refreshed(Selected(Select(s.files).value))))
    case PublishBackup(assignments, cleared) =>
      var next := Snapshot(s.holder.value.latest.generation + 1, assignments, cleared);
      s.(files := s.files.(backup := Some(next)), holder := Some(BackedUp(next)), history := s.history + [next])
    case PublishPrimary =>
      s.(files := s.files.(primary := Some(s.holder.value.next)), holder := Some(Published(s.holder.value.next)))
    case Report => s.(holder := None, reported := s.holder.value.next.generation)
    case Unlock => s.(holder := None)
    case ReadPrimary(reader) => s.(readers := s.readers[reader := SawPrimary(s.files.primary)])
    case ReadBackup(reader) =>
      s.(readers := s.readers[reader := SawBoth(s.readers[reader].primary, s.files.backup)])
  }

  predicate Legal(s: State, acts: seq<Action>)
    decreases |acts|
  {
    acts == [] || (Enabled(s, acts[0]) && Legal(Next(s, acts[0]), acts[1..]))
  }

  function After(s: State, acts: seq<Action>): State
    requires Legal(s, acts)
    decreases |acts|
  {
    if acts == [] then s else After(Next(s, acts[0]), acts[1..])
  }

  ghost predicate Reachable(s: State) {
    exists acts :: Legal(EMPTY, acts) && After(EMPTY, acts) == s
  }

  // ---------- Invariant ----------

  // The k-th published snapshot; the zeroth is the empty directory.
  function At(history: seq<Snapshot>, k: nat): Option<Snapshot>
    requires k <= |history|
  {
    if k == 0 then None else Some(history[k - 1])
  }

  // The file holds one of the published snapshots.
  predicate IsPublished(history: seq<Snapshot>, file: Option<Snapshot>) {
    Generation(file) <= |history| && file == At(history, Generation(file))
  }

  predicate Inv(s: State) {
    && (forall i :: 0 <= i < |s.history| ==> s.history[i].generation == i + 1)
    && |s.history| <= MAX_GENERATION
    && s.files.backup == At(s.history, |s.history|)
    && IsPublished(s.history, s.files.primary) && |s.history| <= Generation(s.files.primary) + 1
    && s.reported <= Generation(s.files.primary)
    && (s.holder.Some? ==> match s.holder.value
         case Locked => true
         case Refreshed(latest) => s.files.primary == s.files.backup && latest == Newest(s)
         case BackedUp(next) => s.history != [] && next == Newest(s)
         case Published(next) => s.history != [] && next == Newest(s) && s.files.primary == s.files.backup)
    && (forall r :: r in s.readers ==> ReaderInv(s, s.readers[r]))
  }

  predicate ReaderInv(s: State, reader: Reader) {
    && IsPublished(s.history, reader.primary)
    && match reader
       case SawPrimary(primary) => Generation(primary) <= Generation(s.files.primary)
       case SawBoth(primary, backup) => IsPublished(s.history, backup) && Generation(primary) <= Generation(backup)
  }

  function Newest(s: State): Snapshot {
    if s.history == [] then NO_SNAPSHOT else s.history[|s.history| - 1]
  }

  lemma NextKeepsReaders(s: State, act: Action)
    requires Inv(s) && Enabled(s, act)
    ensures forall r :: r in Next(s, act).readers ==> ReaderInv(Next(s, act), Next(s, act).readers[r])
  {
    var t := Next(s, act);
    assert s.history <= t.history;
    forall r | r in t.readers
      ensures ReaderInv(t, t.readers[r])
    {
      assert r in s.readers ==> ReaderInv(s, s.readers[r]);
    }
  }

  lemma NextKeepsInv(s: State, act: Action)
    requires Inv(s) && Enabled(s, act)
    ensures Inv(Next(s, act))
  {
    NextKeepsReaders(s, act);
    hide ReaderInv;
  }

  lemma {:induction false} RunsKeepInv(s: State, acts: seq<Action>)
    requires Inv(s) && Legal(s, acts)
    ensures Inv(After(s, acts))
    decreases |acts|
  {
    hide Inv, Enabled, Next;
    if acts != [] {
      NextKeepsInv(s, acts[0]);
      RunsKeepInv(Next(s, acts[0]), acts[1..]);
    }
  }

  lemma ReachableInv(s: State)
    requires Reachable(s)
    ensures Inv(s)
  {
    hide Inv, Enabled, Next;
    var acts :| Legal(EMPTY, acts) && After(EMPTY, acts) == s;
    assert Inv(EMPTY) by { EmptyInv(); }
    RunsKeepInv(EMPTY, acts);
  }

  lemma EmptyInv()
    ensures Inv(EMPTY)
  {
  }

  // ---------- Guarantees ----------

  /** The two files are equal, or the backup is exactly one generation ahead, generation 1 when there is no primary. */
  lemma FilesAgree(s: State)
    requires Reachable(s)
    ensures Consistent(s.files)
    ensures s.files.primary.None? && s.files.backup.Some? ==> s.files.backup.value.generation == 1
  {
    ReachableInv(s);
  }

  /** A strict load never fails, in whatever state a crash left the files; it returns the highest generation ever
      published, which is no older than any save that reported success, and leaves both files equal. */
  lemma StrictLoadRecovers(s: State)
    requires Reachable(s)
    ensures Select(s.files).Ok?
    ensures Selected(Select(s.files).value) == Newest(s)
    ensures forall i :: 0 <= i < |s.history| ==> s.history[i].generation <= Newest(s).generation
    ensures s.reported <= Newest(s).generation == |s.history|
    ensures var after := Promoted(s.files, Select(s.files).value);
            after.primary == after.backup && after.backup == s.files.backup
  {
    ReachableInv(s);
  }

  /** A save builds on the newest published snapshot and extends the history by the next generation: none is lost,
      replaced or published twice. */
  lemma SavesFormOneHistory(s: State, act: Action)
    requires Reachable(s) && Enabled(s, act)
    ensures s.history <= Next(s, act).history
    ensures act.PublishBackup? ==>
              && s.holder == Some(Refreshed(Newest(s)))
              && Next(s, act).history == s.history + [Snapshot(|s.history| + 1, act.assignments, act.cleared)]
    ensures !act.PublishBackup? ==> Next(s, act).history == s.history
    ensures act.Report? ==> s.files.primary == s.files.backup == Some(Newest(s)) && Next(s, act).reported == |s.history|
    ensures s.reported <= Next(s, act).reported
  {
    ReachableInv(s);
    NextKeepsInv(s, act);
  }

  /** A read-only load takes no lock and reads the primary before the backup. It succeeds exactly when the backup it
      reads is at most one generation ahead of the primary it read, and then returns what a strict load would have
      returned at the second read. */
  lemma ReadOnlyLoad(s: State, r: nat)
    requires Reachable(s) && r in s.readers && s.readers[r].SawBoth?
    ensures var seen := Files(s.readers[r].primary, s.readers[r].backup);
            && (Select(seen).Ok? <==> Generation(seen.backup) <= Generation(seen.primary) + 1)
            && (Select(seen).Ok? ==>
                  Selected(Select(seen).value) == if seen.backup.Some? then seen.backup.value else NO_SNAPSHOT)
  {
    ReachableInv(s);
  }

  /** With nothing published between its two reads, it never fails and agrees with the strict load. */
  lemma QuietReadOnlyLoad(s: State, r: nat)
    requires Reachable(s)
    ensures var t := Next(Next(s, ReadPrimary(r)), ReadBackup(r));
            Select(Files(t.readers[r].primary, t.readers[r].backup)) == Select(s.files) && Select(s.files).Ok?
  {
    ReachableInv(s);
  }

  lemma {:induction false} RunsExtend(s: State, acts: seq<Action>, act: Action)
    requires Legal(s, acts) && Enabled(After(s, acts), act)
    ensures Legal(s, acts + [act]) && After(s, acts + [act]) == Next(After(s, acts), act)
    decreases |acts|
  {
    hide Enabled, Next;
    if acts == [] {
      assert acts + [act] == [act] && [act][1..] == [];
      assert Legal(Next(s, act), []);
    } else {
      assert (acts + [act])[1..] == acts[1..] + [act];
      RunsExtend(Next(s, acts[0]), acts[1..], act);
    }
  }

  lemma ReachNext(s: State, act: Action)
    requires Reachable(s) && Enabled(s, act)
    ensures Reachable(Next(s, act))
  {
    hide Enabled, Next;
    var acts :| Legal(EMPTY, acts) && After(EMPTY, acts) == s;
    RunsExtend(EMPTY, acts, act);
  }

  // One uninterrupted save of an empty ledger from a state at rest.
  lemma FullSave(s: State, next: Snapshot)
    requires Reachable(s)
    requires s.holder.None? && s.files.primary == s.files.backup && Generation(s.files.primary) < MAX_GENERATION
    requires next == Snapshot(Generation(s.files.primary) + 1, map[], map[])
    ensures Reachable(s.(files := Files(Some(next), Some(next)), history := s.history + [next], reported := next.generation))
  {
    hide Reachable;
    var latest := if s.files.primary.Some? then s.files.primary.value else NO_SNAPSHOT;
    ReachNext(s, Lock);
    ReachNext(s.(holder := Some(Locked)), Refresh);
    ReachNext(s.(holder := Some(Refreshed(latest))), PublishBackup(map[], map[]));
    var c := s.(holder := Some(BackedUp(next)), files := s.files.(backup := Some(next)), history := s.history + [next]);
    ReachNext(c, PublishPrimary);
    ReachNext(c.(holder := Some(Published(next)), files := Files(Some(next), Some(next))), Report);
  }

  /** It can fail: two saves that complete between its reads leave it with generations 0 and 2. */
  lemma ReadOnlyLoadCanFail()
    ensures exists s :: Reachable(s) && 0 in s.readers && s.readers[0].SawBoth?
                        && Select(Files(s.readers[0].primary, s.readers[0].backup)) == Err(BackupWithoutPrimary)
  {
    hide Reachable;
    var one := Snapshot(1, map[], map[]);
    var two := Snapshot(2, map[], map[]);
    EmptyIsReachable();
    ReachNext(EMPTY, ReadPrimary(0));
    var s0 := EMPTY.(readers := EMPTY.readers[0 := SawPrimary(None)]);
    FullSave(s0, one);
    var s1 := s0.(files := Files(Some(one), Some(one)), history := s0.history + [one], reported := 1);
    FullSave(s1, two);
    var s2 := s1.(files := Files(Some(two), Some(two)), history := s1.history + [two], reported := 2);
    ReachNext(s2, ReadBackup(0));
    assert Reachable(s2.(readers := s2.readers[0 := SawBoth(None, Some(two))]));
  }

  lemma EmptyIsReachable()
    ensures Reachable(EMPTY)
  {
    assert Legal(EMPTY, []) && After(EMPTY, []) == EMPTY;
  }
}
