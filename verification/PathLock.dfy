/**
 The in-process path lock of internal/assignment/store_lock.go: a table of entries,
 each a one-token channel and a reference count. An entry is deleted with its last
 reference and recreated on demand, while callers keep pointing at the entry they
 entered with. Table changes happen under a mutex, so each is one step, as is each
 channel operation.
 */
module PathLock {
  // `refs` is the counter the code keeps; `tokens` is what is in the channel.
  datatype Entry = Entry(path: string, tokens: nat, refs: int)

  // Entered, holding the token but cancellation not yet looked at, holding the lock, token returned or never won.
  datatype Phase = Waiting | Won | Holding | Leaving

  // `cancelled` is whether the caller's context has been cancelled by now.
  datatype Caller = Caller(entry: nat, phase: Phase, cancelled: bool)

  /** `heap` keeps every entry ever made, by identity; `table` is the map the code looks paths up in. */
  datatype State = State(heap: seq<Entry>, table: map<string, nat>, callers: map<nat, Caller>)

  const INITIAL := State([], map[], map[])

  datatype Action =
    | Enter(c: nat, path: string)
    | ContextDone(c: nat)
    | Take(c: nat)
    | Cancel(c: nat)
    | Confirm(c: nat)
    | GiveBack(c: nat)
    | Unref(c: nat)

  predicate InPhase(s: State, c: nat, phase: Phase) {
    c in s.callers && s.callers[c].phase == phase && s.callers[c].entry < |s.heap|
  }

  // Who could take the step, the channel apart.
  predicate Wants(s: State, act: Action) {
    match act
    case Enter(c, path) => c !in s.callers && (path in s.table ==> s.table[path] < |s.heap|)
    case ContextDone(c) => c in s.callers
    // With the token there and the context done, the select may take either branch.
    case Take(c) => InPhase(s, c, Waiting)
    case Cancel(c) => InPhase(s, c, Waiting) && s.callers[c].cancelled
    // The second look at the context, after winning the token.
    case Confirm(c) => InPhase(s, c, Won) && !s.callers[c].cancelled
    case GiveBack(c) => (InPhase(s, c, Won) && s.callers[c].cancelled) || InPhase(s, c, Holding)
    case Unref(c) => InPhase(s, c, Leaving)
  }

  // Receiving needs a token; sending needs room for one.
  predicate Enabled(s: State, act: Action) {
    && Wants(s, act)
    && (act.Take? ==> s.heap[s.callers[act.c].entry].tokens > 0)
    && (act.GiveBack? ==> s.heap[s.callers[act.c].entry].tokens == 0)
  }

  function Moved(callers: map<nat, Caller>, c: nat, phase: Phase): map<nat, Caller>
    requires c in callers
  {
    callers[c := callers[c].(phase := phase)]
  }

  function Next(s: State, act: Action): State
    requires Enabled(s, act)
  {
    match act
    case Enter(c, path) =>
      if path in s.table then
        var e := s.table[path];
        s.(heap := s.heap[e := s.heap[e].(refs := s.heap[e].refs + 1)], callers := s.callers[c := Caller(e, Waiting, false)])
      else
        var e := |s.heap|;
        State(s.heap + [Entry(path, 1, 1)], s.table[path := e], s.callers[c := Caller(e, Waiting, false)])
    case ContextDone(c) => s.(callers := s.callers[c := s.callers[c].(cancelled := true)])
    case Take(c) =>
      var e := s.callers[c].entry;
      s.(heap := s.heap[e := s.heap[e].(tokens := s.heap[e].tokens - 1)], callers := Moved(s.callers, c, Won))
    case Cancel(c) => s.(callers := Moved(s.callers, c, Leaving))
    case Confirm(c) => s.(callers := Moved(s.callers, c, Holding))
    case GiveBack(c) =>
      var e := s.callers[c].entry;
      s.(heap := s.heap[e := s.heap[e].(tokens := s.heap[e].tokens + 1)], callers := Moved(s.callers, c, Leaving))
    case Unref(c) =>
      var e := s.callers[c].entry;
      var entry := s.heap[e].(refs := s.heap[e].refs - 1);
      State(s.heap[e := entry], if entry.refs == 0 then s.table - {entry.path} else s.table, s.callers - {c})
  }

  predicate Legal(s: State, acts: seq<Action>)
    decreases |acts|
  {
    acts == [] || (Enabled(s, acts[0]) && Legal(Next(s, acts[0]), acts[1..]))
  }

  function After(s: State, acts: seq<Action>): State
    requires Legal(s, acts)
    decreases |acts|
  {
    if acts == [] then s else After(Next(s, acts[0]), acts[1..])
  }

  ghost predicate Reachable(s: State) {
    exists acts :: Legal(INITIAL, acts) && After(INITIAL, acts) == s
  }

  // ---------- Invariant ----------

  function Members(callers: map<nat, Caller>, e: nat): set<nat> {
    set c | c in callers && callers[c].entry == e
  }

  // Those who took the entry's token and have not returned it.
  function Owners(callers: map<nat, Caller>, e: nat): set<nat> {
    set c | c in callers && callers[c].entry == e && (callers[c].phase.Won? || callers[c].phase.Holding?)
  }

  predicate Inv(s: State) {
    && (forall c :: c in s.callers ==> s.callers[c].entry < |s.heap|)
    && (forall path :: path in s.table ==>
          s.table[path] < |s.heap| && s.heap[s.table[path]].path == path && s.heap[s.table[path]].refs > 0)
    && (forall e :: 0 <= e < |s.heap| ==> EntryInv(s, e))
  }

  predicate EntryInv(s: State, e: nat)
    requires e < |s.heap|
  {
    && s.heap[e].refs == |Members(s.callers, e)|
    && s.heap[e].tokens + |Owners(s.callers, e)| == 1
    && (s.heap[e].refs > 0 ==> s.heap[e].path in s.table && s.table[s.heap[e].path] == e)
  }

  lemma SizeMoves(a: set<nat>, b: set<nat>, c: nat)
    requires forall d :: d != c ==> (d in a <==> d in b)
    ensures |b| == |a| - (if c in a then 1 else 0) + (if c in b then 1 else 0)
  {
    assert a - {c} == b - {c};
    assert |a| == |a - {c}| + if c in a then 1 else 0;
    assert |b| == |b - {c}| + if c in b then 1 else 0;
  }

  // How one caller's entering, leaving or changing phase moves the two sets of every entry.
  lemma CallerMoves(callers: map<nat, Caller>, after: map<nat, Caller>, c: nat, e: nat)
    requires forall d :: d != c ==> (d in callers <==> d in after) && (d in callers ==> callers[d] == after[d])
    ensures |Members(after, e)| == |Members(callers, e)| - (if c in Members(callers, e) then 1 else 0)
                                   + (if c in Members(after, e) then 1 else 0)
    ensures |Owners(after, e)| == |Owners(callers, e)| - (if c in Owners(callers, e) then 1 else 0)
                                  + (if c in Owners(after, e) then 1 else 0)
  {
    SizeMoves(Members(callers, e), Members(after, e), c);
    SizeMoves(Owners(callers, e), Owners(after, e), c);
  }

  // One entry, seen across a step by one caller.
  lemma EntryAfter(s: State, act: Action, e: nat)
    requires Inv(s) && Enabled(s, act) && e < |Next(s, act).heap|
    ensures EntryInv(Next(s, act), e)
  {
    hide Members, Owners;
    var t := Next(s, act);
    InvOf(s, e);
    if !act.Enter? { InvOf(s, s.callers[act.c].entry); }
    CallerMoves(s.callers, t.callers, act.c, e);
    MembersOf(s.callers, act.c, e);
    MembersOf(t.callers, act.c, e);
  }

  lemma InvOf(s: State, e: nat)
    requires Inv(s) && e <= |s.heap|
    ensures e < |s.heap| ==> EntryInv(s, e)
    ensures e == |s.heap| ==> Members(s.callers, e) == {} && Owners(s.callers, e) == {}
  {
  }

  lemma NextKeepsInv(s: State, act: Action)
    requires Inv(s) && Enabled(s, act)
    ensures Inv(Next(s, act))
  {
    hide EntryInv;
    var t := Next(s, act);
    forall e | 0 <= e < |t.heap|
      ensures EntryInv(t, e)
    {
      EntryAfter(s, act, e);
    }
    assert forall path :: path in t.table ==>
          t.table[path] < |t.heap| && t.heap[t.table[path]].path == path && t.heap[t.table[path]].refs > 0;
  }

  lemma MembersOf(callers: map<nat, Caller>, c: nat, e: nat)
    ensures c in Members(callers, e) <==> c in callers && callers[c].entry == e
    ensures c in Owners(callers, e) <==>
              c in callers && callers[c].entry == e && (callers[c].phase.Won? || callers[c].phase.Holding?)
  {
  }

  lemma {:induction false} RunsKeepInv(s: State, acts: seq<Action>)
    requires Inv(s) && Legal(s, acts)
    ensures Inv(After(s, acts))
    decreases |acts|
  {
    hide Inv, Enabled, Next;
    if acts != [] {
      NextKeepsInv(s, acts[0]);
      RunsKeepInv(Next(s, acts[0]), acts[1..]);
    }
  }

  lemma ReachableInv(s: State)
    requires Reachable(s)
    ensures Inv(s)
  {
    hide Enabled, Next;
    var acts :| Legal(INITIAL, acts) && After(INITIAL, acts) == s;
    RunsKeepInv(INITIAL, acts);
  }

  // ---------- Guarantees ----------

  /** At most one caller holds a path, even while its entry is deleted and recreated; one that has merely won the token
      counts too. */
  lemma MutualExclusion(s: State, c: nat, d: nat)
    requires Reachable(s) && c in s.callers && d in s.callers
    requires s.callers[c].phase.Won? || s.callers[c].phase.Holding?
    requires s.callers[d].phase.Won? || s.callers[d].phase.Holding?
    requires s.callers[c].entry < |s.heap| && s.callers[d].entry < |s.heap|
             && s.heap[s.callers[c].entry].path == s.heap[s.callers[d].entry].path
    ensures c == d
  {
    ReachableInv(s);
    var e, f := s.callers[c].entry, s.callers[d].entry;
    assert c in Members(s.callers, e) && d in Members(s.callers, f);
    assert EntryInv(s, e) && EntryInv(s, f) && e == f;
    if c != d {
      assert Owners(s.callers, e) == {c, d} + Owners(s.callers, e);
      assert {c, d} <= Owners(s.callers, e);
      SubsetSize({c, d}, Owners(s.callers, e));
    }
  }

  lemma SubsetSize(a: set<nat>, b: set<nat>)
    requires a <= b
    ensures |a| <= |b|
  {
    assert a + (b - a) == b;
  }

  /** In every reachable state an entry's token is in its channel or with exactly one caller; its reference count is the
      number of callers on it; and its path leads to it for as long as there is one. */
  lemma TokenAndReferences(s: State, e: nat)
    requires Reachable(s) && e < |s.heap|
    ensures s.heap[e].tokens + |Owners(s.callers, e)| == 1
    ensures s.heap[e].refs == |Members(s.callers, e)|
    ensures Members(s.callers, e) != {} ==> s.heap[e].path in s.table && s.table[s.heap[e].path] == e
    ensures Members(s.callers, e) == {} ==> s.heap[e].path !in s.table || s.table[s.heap[e].path] != e
  {
    ReachableInv(s);
    assert EntryInv(s, e);
  }

  /** Nobody ever blocks giving the token back, so a cancelled winner and a releasing holder always finish, and leave the
      token behind. */
  lemma GiveBackNeverBlocks(s: State, c: nat)
    requires Reachable(s) && Wants(s, GiveBack(c))
    ensures Enabled(s, GiveBack(c))
    ensures var t := Next(s, GiveBack(c)); t.heap[t.callers[c].entry].tokens == 1 && t.callers[c].phase.Leaving?
  {
    ReachableInv(s);
    WinnerCanGiveBack(s, c);
  }

  // What is left to a caller that was cancelled before it held the lock.
  predicate BeyondHolding(s: State, c: nat) {
    c in s.callers ==> s.callers[c].phase.Leaving? || (s.callers[c].cancelled && !s.callers[c].phase.Holding?)
  }

  /** A caller whose context is done before it holds the lock never comes to hold it, even if it wins the token: it leaves
      with the token returned. (`c` is one call; it does not enter again.) */
  lemma {:induction false} CancelledNeverHolds(s: State, acts: seq<Action>, c: nat)
    requires Legal(s, acts) && BeyondHolding(s, c)
    requires forall i :: 0 <= i < |acts| && acts[i].Enter? ==> acts[i].c != c
    ensures c in After(s, acts).callers ==> !After(s, acts).callers[c].phase.Holding?
    decreases |acts|
  {
    if acts != [] {
      CancelledNeverHolds(Next(s, acts[0]), acts[1..], c);
    }
  }

  /** A waiter can take the token whenever nobody owns it: a free lock is never lost. */
  lemma FreeLockCanBeTaken(s: State, c: nat)
    requires Reachable(s) && InPhase(s, c, Waiting) && Owners(s.callers, s.callers[c].entry) == {}
    ensures Enabled(s, Take(c))
  {
    ReachableInv(s);
    assert EntryInv(s, s.callers[c].entry);
  }

  // ---------- The code ----------

  /** The lock table as the code changes it, one critical section or channel operation at a time. */
  class PathLocks {
    var heap: seq<Entry>
    var entries: map<string, nat>
    ghost var callers: map<nat, Caller>

    constructor ()
      ensures Abstract() == INITIAL
    {
      heap, entries, callers := [], map[], map[];
    }

    ghost function Abstract(): State
      reads this
    {
      State(heap, entries, callers)
    }

    // The section under the table mutex that finds or creates the entry and counts the reference.
    method EnterPath(ghost c: nat, path: string) returns (entry: nat)
      requires Enabled(Abstract(), Enter(c, path))
      modifies this
      ensures Abstract() == Next(old(Abstract()), Enter(c, path)) && callers[c] == Caller(entry, Waiting, false)
    {
      if path in entries {
        entry := entries[path];
      } else {
        entry := |heap|;
        heap := heap + [Entry(path, 0, 0)];
        heap := heap[entry := heap[entry].(tokens := 1)];
        entries := entries[path := entry];
      }
      heap := heap[entry := heap[entry].(refs := heap[entry].refs + 1)];
      callers := callers[c := Caller(entry, Waiting, false)];
    }

    // Receiving from the channel.
    method Receive(ghost c: nat, entry: nat)
      requires Enabled(Abstract(), Take(c)) && callers[c].entry == entry
      modifies this
      ensures Abstract() == Next(old(Abstract()), Take(c))
    {
      heap := heap[entry := heap[entry].(tokens := heap[entry].tokens - 1)];
      callers := Moved(callers, c, Won);
    }

    // Sending to the channel.
    method Send(ghost c: nat, entry: nat)
      requires Enabled(Abstract(), GiveBack(c)) && callers[c].entry == entry
      modifies this
      ensures Abstract() == Next(old(Abstract()), GiveBack(c))
    {
      heap := heap[entry := heap[entry].(tokens := heap[entry].tokens + 1)];
      callers := Moved(callers, c, Leaving);
    }

    // releaseRef
    method ReleaseRef(ghost c: nat, entry: nat)
      requires Enabled(Abstract(), Unref(c)) && callers[c].entry == entry
      modifies this
      ensures Abstract() == Next(old(Abstract()), Unref(c))
    {
      heap := heap[entry := heap[entry].(refs := heap[entry].refs - 1)];
      if heap[entry].refs == 0 {
        entries := entries - {heap[entry].path};
      }
      callers := callers - {c};
    }

    // Returning the token and the reference: what a holder is handed to let go with, and what a cancelled winner does.
    method GiveUp(ghost c: nat, entry: nat)
      requires Inv(Abstract()) && Wants(Abstract(), GiveBack(c)) && callers[c].entry == entry
      modifies this
      ensures Reaches(old(Abstract()), [GiveBack(c), Unref(c)], Abstract())
    {
      hide Inv;
      ghost var start := Abstract();
      WinnerCanGiveBack(start, c);
      Send(c, entry);
      ghost var gave := Abstract();
      ReleaseRef(c, entry);
      TwoSteps(start, GiveBack(c), gave, Unref(c));
    }

    /** The rest of lockAssignmentPathLocally after its table section: the select, in which with the token there and the
        context done either branch may be taken (`takesToken`), and the second look at the context, which is done by then
        or not (`done`). A caller whose context is done leaves with the token and its reference returned. */
    method AwaitPath(ghost c: nat, entry: nat, takesToken: bool, done: bool) returns (held: bool)
      requires Inv(Abstract()) && InPhase(Abstract(), c, Waiting) && callers[c].entry == entry
      requires callers[c].cancelled ==> done
      requires if takesToken then Enabled(Abstract(), Take(c)) else callers[c].cancelled
      modifies this
      ensures held == (takesToken && !done)
      ensures Reaches(old(Abstract()), AwaitSteps(c, takesToken, done, old(callers[c].cancelled)), Abstract())
    {
      hide Inv, Reaches;
      ghost var start := Abstract();
      if !takesToken {
        callers := Moved(callers, c, Leaving);
        ghost var left := Abstract();
        ReleaseRef(c, entry);
        TwoSteps(start, Cancel(c), left, Unref(c));
        return false;
      }
      Receive(c, entry);
      ghost var won := Abstract();
      NextKeepsInv(start, Take(c));
      if !done {
        callers := Moved(callers, c, Holding);
        TwoSteps(start, Take(c), won, Confirm(c));
        return true;
      }
      CancelWinner(c);
      GiveUp(c, entry);
      if old(callers[c].cancelled) {
        Prepend(start, Take(c), [GiveBack(c), Unref(c)], Abstract());
        assert [Take(c)] + [] + [GiveBack(c), Unref(c)] == [Take(c)] + [GiveBack(c), Unref(c)];
      } else {
        Prepend(won, ContextDone(c), [GiveBack(c), Unref(c)], Abstract());
        Prepend(start, Take(c), [ContextDone(c)] + [GiveBack(c), Unref(c)], Abstract());
        assert [Take(c)] + ([ContextDone(c)] + [GiveBack(c), Unref(c)])
            == [Take(c)] + [ContextDone(c)] + [GiveBack(c), Unref(c)];
      }
      return false;
    }

    // The context was done already, or is done now.
    ghost method CancelWinner(c: nat)
      requires Inv(Abstract()) && InPhase(Abstract(), c, Won)
      modifies this`callers
      ensures Inv(Abstract()) && callers == old(callers)[c := old(callers[c]).(cancelled := true)]
      ensures if old(callers[c].cancelled) then Abstract() == old(Abstract())
              else Abstract() == Next(old(Abstract()), ContextDone(c))
    {
      if !callers[c].cancelled {
        NextKeepsInv(Abstract(), ContextDone(c));
        callers := callers[c := callers[c].(cancelled := true)];
      }
    }
  }

  ghost predicate Reaches(s: State, acts: seq<Action>, t: State) {
    Legal(s, acts) && After(s, acts) == t
  }

  function AwaitSteps(c: nat, takesToken: bool, done: bool, cancelled: bool): seq<Action> {
    if !takesToken then [Cancel(c), Unref(c)]
    else if !done then [Take(c), Confirm(c)]
    else [Take(c)] + (if cancelled then [] else [ContextDone(c)]) + [GiveBack(c), Unref(c)]
  }

  lemma Prepend(s: State, act: Action, acts: seq<Action>, last: State)
    requires Enabled(s, act) && Reaches(Next(s, act), acts, last)
    ensures Reaches(s, [act] + acts, last)
  {
    assert ([act] + acts)[1..] == acts;
  }

  lemma TwoSteps(s: State, first: Action, t: State, second: Action)
    requires Enabled(s, first) && t == Next(s, first) && Enabled(t, second)
    ensures Reaches(s, [first, second], Next(t, second))
  {
    hide Enabled, Next;
    assert Reaches(Next(t, second), [], Next(t, second));
    Prepend(t, second, [], Next(t, second));
    Prepend(s, first, [second], Next(t, second));
    assert [second] + [] == [second] && [first] + [second] == [first, second];
  }

  // Whoever owns the token finds the channel empty.
  lemma WinnerCanGiveBack(s: State, c: nat)
    requires Inv(s) && Wants(s, GiveBack(c))
    ensures Enabled(s, GiveBack(c))
  {
    var e := s.callers[c].entry;
    assert EntryInv(s, e) && c in Owners(s.callers, e);
    SubsetSize({c}, Owners(s.callers, e));
  }
}
