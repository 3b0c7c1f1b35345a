/**
 The count of completed clears per bead, over any number of processes that save from
 snapshots of any age: each save merges the larger count per bead, and only a clear
 raises one.
 */
module ClearedCounts {
  import opened Wrappers
  import opened AssignmentStores

  type Counts = map<string, nat>

  // A process's own snapshot, and the bead it is clearing while it holds that bead's lock.
  datatype Process = Process(counts: Counts, clearing: Option<string>)

  // `completed` is how many clears of each bead were published.
  datatype State = State(durable: Counts, completed: Counts, processes: map<nat, Process>)

  const INITIAL := State(map[], map[], map[])

  datatype Action =
    | Load(p: nat)
    | Save(p: nat)
    | BeginClear(p: nat, b: string)
    | FinishClear(p: nat)
    | Die(p: nat)

  // What mergeClearedGenerations leaves, as MergeClearedGenerations is proved to compute.
  function Larger(one: Counts, two: Counts): (r: Counts)
    ensures forall b :: Count(r, b) == Max(Count(one, b), Count(two, b))
  {
    map b | b in one.Keys + two.Keys :: Max(Count(one, b), Count(two, b))
  }

  function Raised(counts: Counts, b: string): Counts {
    counts[b := Count(counts, b) + 1]
  }

  predicate Enabled(s: State, act: Action) {
    match act
    case Load(p) => p in s.processes ==> s.processes[p].clearing.None?
    case Save(p) => p in s.processes && s.processes[p].clearing.None?
    // Under the bead's operation lock, after a reload.
    case BeginClear(p, b) =>
      && (p in s.processes ==> s.processes[p].clearing.None?)
      && forall q :: q in s.processes ==> s.processes[q].clearing != Some(b)
    case FinishClear(p) => p in s.processes && s.processes[p].clearing.Some?
    case Die(p) => p in s.processes
  }

  function Next(s: State, act: Action): State
    requires Enabled(s, act)
  {
    match act
    case Load(p) => s.(processes := s.processes[p := Process(s.durable, None)])
    case Save(p) =>
      var merged := Larger(s.durable, s.processes[p].counts);
      s.(durable := merged, processes := s.processes[p := Process(merged, None)])
    case BeginClear(p, b) => s.(processes := s.processes[p := Process(Raised(s.durable, b), Some(b))])
    case FinishClear(p) =>
      var merged := Larger(s.durable, s.processes[p].counts);
      State(merged, Raised(s.completed, s.processes[p].clearing.value), s.processes[p := Process(merged, None)])
    case Die(p) => s.(processes := s.processes - {p})
  }

  predicate Legal(s: State, acts: seq<Action>)
    decreases |acts|
  {
    acts == [] || (Enabled(s, acts[0]) && Legal(Next(s, acts[0]), acts[1..]))
  }

  function After(s: State, acts: seq<Action>): State
    requires Legal(s, acts)
    decreases |acts|
  {
    if acts == [] then s else After(Next(s, acts[0]), acts[1..])
  }

  // A snapshot knows no clear that is not durable, except the one its process is in the middle of.
  ghost predicate SnapshotInv(durable: Counts, process: Process) {
    forall b :: if process.clearing == Some(b) then Count(process.counts, b) == Count(durable, b) + 1
                else Count(process.counts, b) <= Count(durable, b)
  }

  ghost predicate Inv(s: State) {
    && (forall b :: Count(s.durable, b) == Count(s.completed, b))
    && (forall p :: p in s.processes ==> SnapshotInv(s.durable, s.processes[p]))
    && (forall p, q :: p in s.processes && q in s.processes && p != q && s.processes[p].clearing.Some? ==>
          s.processes[p].clearing != s.processes[q].clearing)
  }

  // A save by a process that is not clearing changes no count; a clear changes one.
  lemma MergedCounts(durable: Counts, process: Process)
    requires SnapshotInv(durable, process)
    ensures forall b :: Count(Larger(durable, process.counts), b)
                        == Count(durable, b) + if process.clearing == Some(b) then 1 else 0
  {
  }

  lemma NextKeepsInv(s: State, act: Action)
    requires Inv(s) && Enabled(s, act)
    ensures Inv(Next(s, act))
    ensures forall b :: Count(Next(s, act).durable, b)
                        == Count(s.durable, b) + if act.FinishClear? && s.processes[act.p].clearing == Some(b) then 1 else 0
  {
    hide Larger;
    var t := Next(s, act);
    if act.Save? || act.FinishClear? {
      MergedCounts(s.durable, s.processes[act.p]);
    }
    forall q | q in t.processes
      ensures SnapshotInv(t.durable, t.processes[q])
    {
      assert q in s.processes ==> SnapshotInv(s.durable, s.processes[q]);
    }
  }

  lemma {:induction false} RunsKeepInv(s: State, acts: seq<Action>)
    requires Inv(s) && Legal(s, acts)
    ensures Inv(After(s, acts))
    ensures forall b :: Count(s.durable, b) <= Count(After(s, acts).durable, b)
    decreases |acts|
  {
    hide Enabled, Next;
    if acts != [] {
      NextKeepsInv(s, acts[0]);
      RunsKeepInv(Next(s, acts[0]), acts[1..]);
    }
  }

  lemma InitialInv()
    ensures Inv(INITIAL)
  {
  }

  ghost predicate Reachable(s: State) {
    exists acts :: Legal(INITIAL, acts) && After(INITIAL, acts) == s
  }

  /** In every state the processes can reach from an empty ledger, with savers however stale, a bead's durable count is the
      number of its completed clears; and from there on it never decreases, and grows only with a clear, by one. */
  lemma ClearsAreCounted(s: State, acts: seq<Action>, act: Action)
    requires Reachable(s) && Legal(s, acts) && Enabled(After(s, acts), act)
    ensures forall b :: Count(s.durable, b) == Count(s.completed, b)
    ensures forall b :: Count(s.durable, b) <= Count(After(s, acts).durable, b)
    ensures var t := After(s, acts);
            forall b :: Count(Next(t, act).durable, b)
                        == Count(t.durable, b) + if act.FinishClear? && t.processes[act.p].clearing == Some(b) then 1 else 0
  {
    hide Enabled, Next;
    var before :| Legal(INITIAL, before) && After(INITIAL, before) == s;
    InitialInv();
    RunsKeepInv(INITIAL, before);
    RunsKeepInv(s, acts);
    NextKeepsInv(After(s, acts), act);
  }
}
