/**
 The pane-identity registry of a session (internal/agentmail/session.go): which agent
 name a pane title and a physical pane ID stand for, and when a pane may reuse one.
 */
module Registry {
  import opened Wrappers

  /** `titles` maps a pane title to an agent name, `panes` a pane ID to one, `pids` a pane ID to the process seen
      there. */
  datatype Names = Names(titles: map<string, string>, panes: map<string, string>, pids: map<string, int>)

  const EMPTY := Names(map[], map[], map[])

  // What the caller can observe about a pane and the process recorded for it.
  datatype Oracle = Unobservable | Liveness(live: (string, int) -> bool)

  function PanePID(r: Names, pane: string): int {
    if pane in r.pids then r.pids[pane] else 0
  }

  // A holder whose liveness cannot be observed counts as live.
  predicate BindingLive(r: Names, pane: string, oracle: Oracle) {
    pane != "" && (oracle.Unobservable? || oracle.live(pane, PanePID(r, pane)))
  }

  // No name is bound to two panes or to two titles.
  predicate Exclusive(names: map<string, string>) {
    forall a, b :: a in names && b in names && names[a] == names[b] ==> a == b
  }

  predicate Inv(r: Names) {
    Exclusive(r.titles) && Exclusive(r.panes)
  }

  // Pane `q` holds the name.
  predicate Holds(r: Names, q: string, name: string) {
    q in r.panes && r.panes[q] == name
  }

  // ---------- AddAgent ----------

  // The map with every other binding of the value dropped and the key bound to it.
  function Rebind(names: map<string, string>, key: string, name: string): map<string, string> {
    (map k | k in names && (names[k] != name || k == key) :: names[k])[key := name]
  }

  function Added(r: Names, title: string, pane: string, name: string): Names {
    Names(if title == "" then r.titles else Rebind(r.titles, title, name),
          if pane == "" then r.panes else Rebind(r.panes, pane, name),
          if pane == "" then r.pids
          else map q | q in r.pids && !(q in r.panes && r.panes[q] == name && q != pane) :: r.pids[q])
  }

  /** Adding a binding leaves every name with at most one pane and one title, binds this pane and title to this name,
      and touches no binding of another name except this pane's and this title's own. */
  lemma AddedLaws(r: Names, title: string, pane: string, name: string)
    requires Inv(r)
    ensures var t := Added(r, title, pane, name);
            && Inv(t)
            && (title != "" ==> title in t.titles && t.titles[title] == name)
            && (pane != "" ==> Holds(t, pane, name))
            && (forall q :: q != pane && q in r.panes && r.panes[q] != name ==> q in t.panes && t.panes[q] == r.panes[q])
            && (forall q :: q in t.panes && q != pane ==> q in r.panes && t.panes[q] == r.panes[q])
            && (forall k :: k != title && k in r.titles && (r.titles[k] != name || title == "") ==>
                  k in t.titles && t.titles[k] == r.titles[k])
            && (forall k :: k in t.titles && k != title ==> k in r.titles && t.titles[k] == r.titles[k])
            && (forall q :: q in t.pids <==> q in r.pids && (q in r.panes && q != pane ==> q in t.panes))
            && (forall q :: q in t.pids ==> t.pids[q] == r.pids[q])
            && (pane == "" ==> t.panes == r.panes) && (title == "" ==> t.titles == r.titles)
  {
  }

  // ---------- ResolveForPane ----------

  datatype Resolution = Resolution(name: string, recoveredFrom: string, ok: bool)

  const NO_REUSE := Resolution("", "", false)

  ghost predicate Bound(r: Names, name: string) {
    exists q :: Holds(r, q, name)
  }

  /** What a resolution may say, whichever holder the map iteration meets first. */
  ghost predicate Resolves(r: Names, title: string, pane: string, oracle: Oracle, res: Resolution) {
    if pane != "" && pane in r.panes && r.panes[pane] != "" then res == Resolution(r.panes[pane], "", true)
    else if title == "" || title !in r.titles || r.titles[title] == "" then res == NO_REUSE
    else
      var name := r.titles[title];
      if !Bound(r, name) then res == Resolution(name, "", true)
      else exists holder :: Holds(r, holder, name) && res ==
             if holder == "" || holder == pane then Resolution(name, "", true)
             else if BindingLive(r, holder, oracle) then NO_REUSE
             else Resolution(name, holder, true)
  }

  /** A reuse never hands a pane a name that another pane holds alive, and with no way to observe liveness a title whose
      name another pane holds never triggers reuse at all. */
  lemma ResolveIsSafe(r: Names, title: string, pane: string, oracle: Oracle, res: Resolution, q: string)
    requires Inv(r) && Resolves(r, title, pane, oracle, res) && res.ok
    requires q != pane && q != "" && Holds(r, q, res.name)
    ensures !BindingLive(r, q, oracle) && oracle.Liveness? && res.recoveredFrom == q
  {
  }

  // Another pane, alive or not observably dead, holds the name.
  ghost predicate TakenElsewhere(r: Names, pane: string, name: string, oracle: Oracle) {
    exists q :: && q in r.panes && r.panes[q] == name && q != pane && q != ""
                && (oracle.Unobservable? || oracle.live(q, if q in r.pids then r.pids[q] else 0))
  }

  /** Exactly what a pane resolves to: its own name, if it has one; else its title's name, unless another pane holds that
      and is not known to be gone; and which pane the name was recovered from. */
  lemma ResolvesExactlyTo(r: Names, title: string, pane: string, oracle: Oracle, res: Resolution)
    requires Inv(r) && Resolves(r, title, pane, oracle, res)
    ensures var own := if pane != "" && pane in r.panes then r.panes[pane] else "";
            var titled := if title != "" && title in r.titles then r.titles[title] else "";
            if own != "" then res == Resolution(own, "", true)
            else if titled == "" || TakenElsewhere(r, pane, titled, oracle) then !res.ok
            else
              && res.ok && res.name == titled
              && (res.recoveredFrom == "" <==> forall q :: q in r.panes && r.panes[q] == titled ==> q == "" || q == pane)
              && (res.recoveredFrom != "" ==> res.recoveredFrom in r.panes && r.panes[res.recoveredFrom] == titled)
  {
    var own := if pane != "" && pane in r.panes then r.panes[pane] else "";
    if own == "" && title != "" && title in r.titles && r.titles[title] != "" {
      var name := r.titles[title];
      if Bound(r, name) {
        var holder :| Holds(r, holder, name);
        assert forall q :: Holds(r, q, name) ==> q == holder;
        assert TakenElsewhere(r, pane, name, oracle) <==> holder != "" && holder != pane && BindingLive(r, holder, oracle);
      } else {
        assert forall q :: q in r.panes && r.panes[q] == name ==> Holds(r, q, name);
      }
    }
  }

  // ---------- Runs ----------

  // A pane joins: it reuses what resolves, or is given a name nobody has.
  datatype Join = Join(title: string, pane: string, oracle: Oracle, minted: string)

  predicate Unused(r: Names, name: string) {
    name != "" && name !in r.titles.Values && name !in r.panes.Values
  }

  function NameFor(res: Resolution, minted: string): string {
    if res.ok then res.name else minted
  }

  ghost predicate Step(r: Names, join: Join, t: Names) {
    Unused(r, join.minted) && exists res :: Resolves(r, join.title, join.pane, join.oracle, res)
                                         && t == Added(r, join.title, join.pane, NameFor(res, join.minted))
  }

  // A history of joins, from the empty registry; process IDs may be recorded in between.
  ghost predicate Run(states: seq<Names>, joins: seq<Join>) {
    && |states| == |joins| + 1 && states[0] == EMPTY
    && forall i :: 0 <= i < |joins| ==> exists pids :: Step(states[i].(pids := pids), joins[i], states[i + 1])
  }

  lemma StepKeepsInv(r: Names, join: Join, t: Names)
    requires Inv(r) && Step(r, join, t)
    ensures Inv(t)
  {
    var res :| Resolves(r, join.title, join.pane, join.oracle, res)
        && t == Added(r, join.title, join.pane, NameFor(res, join.minted));
    AddedLaws(r, join.title, join.pane, NameFor(res, join.minted));
  }

  lemma {:induction false} RunKeepsInv(states: seq<Names>, joins: seq<Join>, i: nat)
    requires Run(states, joins) && i < |states|
    ensures Inv(states[i])
  {
    if i > 0 {
      RunKeepsInv(states, joins, i - 1);
      var k := i - 1;
      var pids :| Step(states[k].(pids := pids), joins[k], states[k + 1]);
      StepKeepsInv(states[k].(pids := pids), joins[k], states[k + 1]);
    }
  }

  lemma JoinSpares(r: Names, join: Join, t: Names, q: string)
    requires Inv(r) && Step(r, join, t) && q != join.pane && q in r.panes && BindingLive(r, q, join.oracle)
    ensures Holds(t, q, r.panes[q])
  {
    var res :| Resolves(r, join.title, join.pane, join.oracle, res)
        && t == Added(r, join.title, join.pane, NameFor(res, join.minted));
    AddedLaws(r, join.title, join.pane, NameFor(res, join.minted));
    assert r.panes[q] in r.panes.Values;
    if res.ok && res.name == r.panes[q] {
      ResolveIsSafe(r, join.title, join.pane, join.oracle, res, q);
    }
  }

  /** Over every run of resolving and adding: each name is bound to at most one pane and one title, and a join never
      takes a name away from another pane that is alive, or whose liveness cannot be observed. */
  lemma NamesAreNeverShared(states: seq<Names>, joins: seq<Join>, i: nat, pids: map<string, int>, q: string)
    requires Run(states, joins) && i < |joins|
    requires Step(states[i].(pids := pids), joins[i], states[i + 1])
    requires q != joins[i].pane && q in states[i].panes && BindingLive(states[i].(pids := pids), q, joins[i].oracle)
    ensures Inv(states[i + 1]) && Holds(states[i + 1], q, states[i].panes[q])
  {
    RunKeepsInv(states, joins, i);
    RunKeepsInv(states, joins, i + 1);
    JoinSpares(states[i].(pids := pids), joins[i], states[i + 1], q);
  }

  // ---------- The code ----------

  class SessionAgentRegistry {
    var agents: map<string, string>
    var paneIDMap: map<string, string>
    var panePIDs: map<string, int>

    constructor ()
      ensures Abstract() == EMPTY
    {
      agents, paneIDMap, panePIDs := map[], map[], map[];
    }

    ghost function Abstract(): Names
      reads this
    {
      Names(agents, paneIDMap, panePIDs)
    }

    // Drops every other title bound to the name.
    method RetireTitles(title: string, name: string)
      modifies this`agents
      ensures agents == map k | k in old(agents) && (old(agents)[k] != name || k == title) :: old(agents)[k]
    {
      var todo := agents.Keys;
      while todo != {}
        invariant todo <= old(agents).Keys
        invariant forall k :: k in agents <==> k in old(agents) && (k in todo || old(agents)[k] != name || k == title)
        invariant forall k :: k in agents ==> agents[k] == old(agents)[k]
        decreases |todo|
      {
        var existing :| existing in todo;
        todo := todo - {existing};
        if agents[existing] == name && existing != title {
          agents := agents - {existing};
        }
      }
    }

    // Drops every other pane bound to the name, with the process recorded for it.
    method RetirePanes(pane: string, name: string)
      modifies this`paneIDMap, this`panePIDs
      ensures paneIDMap == map k | k in old(paneIDMap) && (old(paneIDMap)[k] != name || k == pane) :: old(paneIDMap)[k]
      ensures panePIDs == map q | q in old(panePIDs)
                            && !(q in old(paneIDMap) && old(paneIDMap)[q] == name && q != pane) :: old(panePIDs)[q]
    {
      var todo := paneIDMap.Keys;
      while todo != {}
        invariant todo <= old(paneIDMap).Keys
        invariant forall k :: k in paneIDMap <==> k in old(paneIDMap) && (k in todo || old(paneIDMap)[k] != name || k == pane)
        invariant forall k :: k in paneIDMap ==> paneIDMap[k] == old(paneIDMap)[k]
        invariant forall q :: q in panePIDs <==>
                    (q in old(panePIDs) && !(q in old(paneIDMap) && q !in todo && old(paneIDMap)[q] == name && q != pane))
        invariant forall q :: q in panePIDs ==> panePIDs[q] == old(panePIDs)[q]
        decreases |todo|
      {
        var existing :| existing in todo;
        todo := todo - {existing};
        if paneIDMap[existing] == name && existing != pane {
          paneIDMap := paneIDMap - {existing};
          panePIDs := panePIDs - {existing};
        }
      }
    }

    method AddAgent(title: string, pane: string, name: string)
      modifies this
      ensures Abstract() == Added(old(Abstract()), title, pane, name)
    {
      if title != "" {
        RetireTitles(title, name);
        agents := agents[title := name];
      }
      if pane != "" {
        RetirePanes(pane, name);
        paneIDMap := paneIDMap[pane := name];
      }
    }

    // What happens between the joins of a Run: only process IDs change.
    method SetPanePID(pane: string, pid: int)
      modifies this`panePIDs
      ensures Abstract() == old(Abstract()).(pids := panePIDs)
      ensures panePIDs == if pane == "" then old(panePIDs) else if pid <= 0 then old(panePIDs) - {pane}
                else old(panePIDs)[pane := pid]
    {
      if pane == "" {
        return;
      }
      if pid <= 0 {
        panePIDs := panePIDs - {pane};
        return;
      }
      panePIDs := panePIDs[pane := pid];
    }

    method PaneIDForAgent(name: string) returns (holder: Option<string>)
      ensures name == "" ==> holder.None?
      ensures holder.Some? ==> Holds(Abstract(), holder.value, name)
      ensures holder.None? && name != "" ==> !Bound(Abstract(), name)
    {
      if name == "" {
        return None;
      }
      var todo := paneIDMap.Keys;
      while todo != {}
        invariant todo <= paneIDMap.Keys
        invariant forall q :: q in paneIDMap.Keys - todo ==> paneIDMap[q] != name
        decreases |todo|
      {
        var pane :| pane in todo;
        todo := todo - {pane};
        if paneIDMap[pane] == name {
          return Some(pane);
        }
      }
      return None;
    }

    method PaneBindingLive(pane: string, oracle: Oracle) returns (live: bool)
      ensures live == BindingLive(Abstract(), pane, oracle)
    {
      if pane == "" {
        return false;
      }
      if oracle.Unobservable? {
        return true;
      }
      live := oracle.live(pane, if pane in panePIDs then panePIDs[pane] else 0);
    }

    method ResolveForPane(title: string, pane: string, oracle: Oracle) returns (res: Resolution)
      ensures Resolves(Abstract(), title, pane, oracle, res)
    {
      if pane != "" && pane in paneIDMap && paneIDMap[pane] != "" {
        return Resolution(paneIDMap[pane], "", true);
      }
      if title == "" || title !in agents || agents[title] == "" {
        return NO_REUSE;
      }
      var name := agents[title];
      var holder := PaneIDForAgent(name);
      if holder.None? || holder.value == "" || holder.value == pane {
        return Resolution(name, "", true);
      }
      var live := PaneBindingLive(holder.value, oracle);
      res := if live then NO_REUSE else Resolution(name, holder.value, true);
    }

    /** The titles whose name some pane holds alive; the order of the listing is left out. */
    method OccupiedTitles(oracle: Oracle) returns (titles: set<string>)
      requires Inv(Abstract())
      ensures forall title :: title in titles <==>
                title in agents && agents[title] != "" && HeldAlive(Abstract(), agents[title], oracle)
    {
      hide HeldAlive, Inv, BindingLive;
      titles := {};
      var todo := agents.Keys;
      while todo != {}
        invariant todo <= agents.Keys
        invariant forall title :: title in titles <==>
                    title in agents.Keys - todo && agents[title] != "" && HeldAlive(Abstract(), agents[title], oracle)
        decreases |todo|
      {
        var title :| title in todo;
        todo := todo - {title};
        var holder := PaneIDForAgent(agents[title]);
        if holder.Some? {
          var live := PaneBindingLive(holder.value, oracle);
          SoleHolder(Abstract(), agents[title], holder.value, oracle);
          if live {
            titles := titles + {title};
          }
        } else {
          NoHolder(Abstract(), agents[title], oracle);
        }
      }
    }
  }

  ghost predicate HeldAlive(r: Names, name: string, oracle: Oracle) {
    exists q :: Holds(r, q, name) && BindingLive(r, q, oracle)
  }

  lemma SoleHolder(r: Names, name: string, q: string, oracle: Oracle)
    requires Inv(r) && Holds(r, q, name)
    ensures HeldAlive(r, name, oracle) <==> BindingLive(r, q, oracle)
  {
  }

  lemma NoHolder(r: Names, name: string, oracle: Oracle)
    requires !Bound(r, name) || name == ""
    ensures name != "" ==> !HeldAlive(r, name, oracle)
  {
  }
}
