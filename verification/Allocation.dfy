/**
 The greedy bead-to-agent planner of internal/assign/allocation.go. Scores are
 rounded to thousandths by the source and kept as whole thousandths here.
 */
module Allocation {
  import opened Wrappers

  datatype ReadyBead = ReadyBead(id: string, priority: int, taskType: string, preferredTypes: set<string>, unblocks: nat,
                                 graphScore: real, pageRank: real, betweenness: real, criticalPath: bool,
                                 resourceCost: real)

  datatype Agent = Agent(id: string, session: string, agentType: string, idle: bool, contextUsage: real, active: int,
                         limit: int, headroom: real)

  datatype Session = Session(active: int, limit: int, headroom: real)

  datatype Pressure = Pressure(available: bool, level: string, agentHeadroom: int)

  // What agents and sessions were lately given, and which of them go short.
  datatype History = History(agentRecent: map<string, int>, sessionRecent: map<string, int>, starvedAgents: set<string>,
                             starvedSessions: set<string>)

  /** `capability` is the matrix: the score of an agent type for a task type. */
  datatype Input = Input(beads: seq<ReadyBead>, agents: seq<Agent>, sessions: map<string, Session>, pressure: Pressure,
                         bvAvailable: bool, maxRecommendations: int, alternativesPerBead: int, minScore: int,
                         capability: (string, string) -> real, history: History)

  datatype Candidate = Candidate(beadID: string, agentID: string, priority: int, score: nat)

  datatype Decision = Recommend | Alternative | Reject | Defer | NoReadyWork | NoCapacity

  datatype Recommendation = Recommendation(candidate: Candidate, alternatives: seq<Candidate>)

  datatype Plan = Plan(decision: Decision, recommendations: seq<Recommendation>, unassigned: seq<string>)

  const DEFAULT_MIN_SCORE := 250
  const DEFAULT_ALTERNATIVES := 3

  // ---------- Scoring ----------

  function Clamp(s: real): (r: real)
    ensures 0.0 <= r <= 1.0
    ensures 0.0 <= s <= 1.0 ==> r == s
  {
    if s < 0.0 then 0.0 else if s > 1.0 then 1.0 else s
  }

  function Round(score: real): int {
    (score * 1000.0 + 0.5).Floor
  }

  function SessionOf(input: Input, worker: Agent): Session {
    if worker.session in input.sessions then input.sessions[worker.session] else Session(0, 0, 0.0)
  }

  predicate LimitReached(active: int, limit: int) {
    limit > 0 && active >= limit
  }

  // Whether a pair is a candidate at all, before its score is looked at.
  function Screen(input: Input, worker: Agent): Decision {
    if !worker.idle then Reject
    else if worker.contextUsage >= 0.95 then Reject
    else if LimitReached(worker.active, worker.limit)
            || LimitReached(SessionOf(input, worker).active, SessionOf(input, worker).limit) then Reject
    else if input.pressure.available && input.pressure.level == "critical" && input.pressure.agentHeadroom <= 0 then Defer
    else Alternative
  }

  function UnblockShare(bead: ReadyBead): real {
    if bead.unblocks >= 5 then 1.0 else bead.unblocks as real / 5.0
  }

  function GraphValue(input: Input, bead: ReadyBead): real {
    if !input.bvAvailable then 0.5
    else
      var given := Clamp(bead.graphScore);
      var score := if given == 0.0 then Clamp(bead.pageRank * 0.55 + bead.betweenness * 0.3 + UnblockShare(bead) * 0.15)
          else given;
      if bead.criticalPath && score < 0.8 then 0.8 else score
  }

  function PriorityValue(priority: int): real {
    if priority <= 0 then 1.0 else if priority == 1 then 0.85 else if priority == 2 then 0.6
    else if priority == 3 then 0.35 else 0.15
  }

  function UnblockImpact(bead: ReadyBead): real {
    if bead.criticalPath && UnblockShare(bead) < 0.75 then 0.75 else UnblockShare(bead)
  }

  function PressureFactor(level: string): real {
    if level == "low" then 1.0 else if level == "normal" || level == "" then 0.95 else if level == "elevated" then 0.78
    else if level == "high" then 0.55 else if level == "critical" then 0.2 else 0.85
  }

  function ResourceFit(input: Input, bead: ReadyBead, worker: Agent): real {
    var headroom := if worker.headroom > 0.0 then Clamp(worker.headroom)
                    else if SessionOf(input, worker).headroom > 0.0 then Clamp(SessionOf(input, worker).headroom)
                    else if worker.contextUsage > 0.0 then Clamp(1.0 - worker.contextUsage)
                    else 0.65;
    if !input.pressure.available then Clamp((headroom + 0.65) / 2.0)
    else
      var factor := PressureFactor(input.pressure.level);
      var cost := if bead.resourceCost <= 0.0 then 0.5 else bead.resourceCost;
      var fit := headroom * factor - (if cost > 0.5 then (cost - 0.5) * 0.35 else 0.0);
      Clamp(if input.pressure.agentHeadroom == 0 && factor <= 0.55 then fit * 0.5 else fit)
  }

  // Go's division by two, towards zero.
  function Half(n: int): int {
    if n < 0 then -(-n / 2) else n / 2
  }

  function Counted(counts: map<string, int>, name: string): int {
    if name in counts then counts[name] else 0
  }

  function Recent(input: Input, worker: Agent): int {
    worker.active + Counted(input.history.agentRecent, worker.id)
    + Half(Counted(input.history.sessionRecent, worker.session)) + Half(SessionOf(input, worker).active)
  }

  function Fairness(input: Input, worker: Agent): real {
    Clamp(1.0 / (1.0 + (if Recent(input, worker) > 0 then Recent(input, worker) else 0) as real))
  }

  function Starvation(input: Input, worker: Agent): real {
    if worker.id in input.history.starvedAgents || worker.session in input.history.starvedSessions then 1.0 else 0.0
  }

  function Capability(input: Input, bead: ReadyBead, worker: Agent): real {
    var score := input.capability(worker.agentType, if bead.taskType == "" then "task" else bead.taskType);
    Clamp(if bead.preferredTypes != {} && worker.agentType !in bead.preferredTypes then score * 0.35 else score)
  }

  function WeightedSum(input: Input, bead: ReadyBead, worker: Agent): real {
    GraphValue(input, bead) * 0.24 + PriorityValue(bead.priority) * 0.22 + UnblockImpact(bead) * 0.1
    + ResourceFit(input, bead, worker) * 0.18 + Capability(input, bead, worker) * 0.14
    + Fairness(input, worker) * 0.06 + Starvation(input, worker) * 0.06
  }

  function ScorePair(input: Input, bead: ReadyBead, worker: Agent): (score: nat)
    ensures score <= 1000
  {
    Round(Clamp(WeightedSum(input, bead, worker)))
  }

  lemma ComponentsInRange(input: Input, bead: ReadyBead, worker: Agent)
    ensures 0.0 <= GraphValue(input, bead) <= 1.0 && 0.0 <= PriorityValue(bead.priority) <= 1.0
    ensures 0.0 <= UnblockImpact(bead) <= 1.0 && 0.0 <= Starvation(input, worker) <= 1.0
    ensures 0.0 <= ResourceFit(input, bead, worker) <= 1.0 && 0.0 <= Fairness(input, worker) <= 1.0
    ensures 0.0 <= Capability(input, bead, worker) <= 1.0
  {
  }

  /** The weights add up to one and every component lies in [0, 1], so the clamp of the total never bites. */
  lemma ScoreIsWeightedSum(input: Input, bead: ReadyBead, worker: Agent)
    ensures 0.0 <= WeightedSum(input, bead, worker) <= 1.0
    ensures ScorePair(input, bead, worker) == Round(WeightedSum(input, bead, worker))
    ensures WeightedSum(input, bead, worker)
            == 0.24 * GraphValue(input, bead) + 0.22 * PriorityValue(bead.priority) + 0.1 * UnblockImpact(bead)
               + 0.18 * ResourceFit(input, bead, worker) + 0.14 * Capability(input, bead, worker)
               + 0.06 * Fairness(input, worker) + 0.06 * Starvation(input, worker)
  {
    hide GraphValue, PriorityValue, UnblockImpact, ResourceFit, Fairness, Starvation, Capability;
    ComponentsInRange(input, bead, worker);
  }

  // One pair is at least as good as another in every component.
  predicate NoWorse(input: Input, bead: ReadyBead, worker: Agent, than: Input, other: ReadyBead, agent: Agent) {
    && GraphValue(input, bead) >= GraphValue(than, other)
    && PriorityValue(bead.priority) >= PriorityValue(other.priority)
    && UnblockImpact(bead) >= UnblockImpact(other)
    && ResourceFit(input, bead, worker) >= ResourceFit(than, other, agent)
    && Capability(input, bead, worker) >= Capability(than, other, agent)
    && Fairness(input, worker) >= Fairness(than, agent)
    && Starvation(input, worker) >= Starvation(than, agent)
  }

  // Then it scores no less.
  lemma NoWorseScoresNoLess(input: Input, bead: ReadyBead, worker: Agent, than: Input, other: ReadyBead, agent: Agent)
    requires NoWorse(input, bead, worker, than, other, agent)
    ensures ScorePair(input, bead, worker) >= ScorePair(than, other, agent)
  {
    hide GraphValue, PriorityValue, UnblockImpact, ResourceFit, Fairness, Starvation, Capability;
    ScoreIsWeightedSum(input, bead, worker);
    ScoreIsWeightedSum(than, other, agent);
    assert WeightedSum(input, bead, worker) >= WeightedSum(than, other, agent);
  }

  /** What never lowers a bead's score for an agent: a more urgent priority, more beads unblocked, being on the critical
      path. */
  lemma BetterBeadScoresNoLess(input: Input, bead: ReadyBead, worker: Agent, priority: int, unblocks: nat, critical: bool)
    requires priority <= bead.priority && unblocks >= bead.unblocks && (bead.criticalPath ==> critical)
    ensures ScorePair(input, bead.(priority := priority, unblocks := unblocks, criticalPath := critical), worker)
            >= ScorePair(input, bead, worker)
  {
    hide ResourceFit, Fairness, Starvation, Capability, WeightedSum;
    var better := bead.(priority := priority, unblocks := unblocks, criticalPath := critical);
    assert ResourceFit(input, better, worker) == ResourceFit(input, bead, worker)
           && Capability(input, better, worker) == Capability(input, bead, worker) by {
      FitIgnoresWorth(input, bead, better, worker);
    }
    NoWorseScoresNoLess(input, better, worker, input, bead, worker);
  }

  lemma FitIgnoresWorth(input: Input, bead: ReadyBead, better: ReadyBead, worker: Agent)
    requires better.resourceCost == bead.resourceCost && better.taskType == bead.taskType
    requires better.preferredTypes == bead.preferredTypes
    ensures ResourceFit(input, better, worker) == ResourceFit(input, bead, worker)
    ensures Capability(input, better, worker) == Capability(input, bead, worker)
  {
  }

  /** What never raises it: a costlier bead, a busier recent history of the agent or its session. */
  lemma CostlierPairScoresNoMore(input: Input, bead: ReadyBead, worker: Agent, cost: real, history: History)
    requires cost >= bead.resourceCost > 0.0
    requires Counted(history.agentRecent, worker.id) >= Counted(input.history.agentRecent, worker.id)
    requires Counted(history.sessionRecent, worker.session) >= Counted(input.history.sessionRecent, worker.session)
    requires history.starvedAgents == input.history.starvedAgents && history.starvedSessions == input.history.starvedSessions
    ensures ScorePair(input.(history := history), bead.(resourceCost := cost), worker) <= ScorePair(input, bead, worker)
  {
    hide GraphValue, PriorityValue, UnblockImpact, ResourceFit, Fairness, Starvation, Capability, WeightedSum;
    var later, costly := input.(history := history), bead.(resourceCost := cost);
    assert GraphValue(input, bead) == GraphValue(later, costly) by { ValueIgnoresCost(input, bead, history, cost); }
    assert UnblockImpact(bead) == UnblockImpact(costly) by { ValueIgnoresCost(input, bead, history, cost); }
    FairnessFalls(input, bead, worker, cost, history);
    FitFalls(input, bead, worker, cost, history);
    NoWorseScoresNoLess(input, bead, worker, later, costly, worker);
  }

  lemma ValueIgnoresCost(input: Input, bead: ReadyBead, history: History, cost: real)
    ensures GraphValue(input, bead) == GraphValue(input.(history := history), bead.(resourceCost := cost))
    ensures UnblockImpact(bead) == UnblockImpact(bead.(resourceCost := cost))
  {
  }

  lemma FairnessFalls(input: Input, bead: ReadyBead, worker: Agent, cost: real, history: History)
    requires Counted(history.agentRecent, worker.id) >= Counted(input.history.agentRecent, worker.id)
    requires Counted(history.sessionRecent, worker.session) >= Counted(input.history.sessionRecent, worker.session)
    requires history.starvedAgents == input.history.starvedAgents && history.starvedSessions == input.history.starvedSessions
    ensures Fairness(input, worker) >= Fairness(input.(history := history), worker)
    ensures Starvation(input, worker) == Starvation(input.(history := history), worker)
    ensures Capability(input, bead, worker) == Capability(input.(history := history), bead.(resourceCost := cost), worker)
  {
    var before, after := Recent(input, worker), Recent(input.(history := history), worker);
    assert before <= after;
    ShareFalls(if before > 0 then before else 0, if after > 0 then after else 0);
  }

  lemma ShareFalls(few: nat, many: nat)
    requires few <= many
    ensures 1.0 / (1.0 + few as real) >= 1.0 / (1.0 + many as real)
  {
  }

  lemma FitFalls(input: Input, bead: ReadyBead, worker: Agent, cost: real, history: History)
    requires cost >= bead.resourceCost > 0.0
    ensures ResourceFit(input, bead, worker) >= ResourceFit(input.(history := history), bead.(resourceCost := cost), worker)
  {
  }

  // ---------- The order of sortAllocationCandidates ----------

  // Go's string order: byte-wise, a proper prefix first.
  predicate Less(a: string, b: string) {
    if b == "" then false
    else if a == "" then true
    else a[0] < b[0] || (a[0] == b[0] && Less(a[1..], b[1..]))
  }

  lemma {:induction false} LessOrder(a: string, b: string, c: string)
    ensures Less(a, b) && Less(b, c) ==> Less(a, c)
    ensures !Less(a, a)
    ensures Less(a, b) || Less(b, a) || a == b
  {
    if a != "" && b != "" && c != "" {
      LessOrder(a[1..], b[1..], c[1..]);
      assert a == [a[0]] + a[1..] && b == [b[0]] + b[1..];
    } else if a != "" && b != "" {
      LessOrder(a[1..], b[1..], "");
      assert a == [a[0]] + a[1..] && b == [b[0]] + b[1..];
    } else if a != "" {
      LessOrder(a[1..], "", "");
    }
  }

  predicate Precedes(a: Candidate, b: Candidate) {
    if a.score != b.score then a.score > b.score
    else if a.priority != b.priority then a.priority < b.priority
    else if a.beadID != b.beadID then Less(a.beadID, b.beadID)
    else Less(a.agentID, b.agentID)
  }

  // The sort is stable, so an element only moves before ones it strictly precedes.
  function Insert(c: Candidate, sorted: seq<Candidate>): seq<Candidate> {
    if sorted == [] || !Precedes(sorted[0], c) then [c] + sorted else [sorted[0]] + Insert(c, sorted[1..])
  }

  function Sort(cs: seq<Candidate>): seq<Candidate> {
    if cs == [] then [] else Insert(cs[0], Sort(cs[1..]))
  }

  predicate Ordered(cs: seq<Candidate>) {
    forall i, j :: 0 <= i < j < |cs| ==> !Precedes(cs[j], cs[i])
  }

  lemma PrecedesOrder(a: Candidate, b: Candidate, c: Candidate)
    ensures Precedes(a, b) ==> !Precedes(b, a)
    ensures !Precedes(a, b) && !Precedes(b, c) ==> !Precedes(a, c)
  {
    LessOrder(a.beadID, b.beadID, c.beadID);
    LessOrder(c.beadID, b.beadID, a.beadID);
    LessOrder(b.beadID, a.beadID, b.beadID);
    LessOrder(b.beadID, c.beadID, b.beadID);
    LessOrder(a.beadID, c.beadID, b.beadID);
    LessOrder(a.agentID, b.agentID, c.agentID);
    LessOrder(a.agentID, c.agentID, b.agentID);
    LessOrder(b.agentID, a.agentID, b.agentID);
    LessOrder(c.agentID, b.agentID, a.agentID);
  }

  lemma {:induction false} InsertKeeps(c: Candidate, sorted: seq<Candidate>)
    ensures multiset(Insert(c, sorted)) == multiset(sorted) + multiset{c}
  {
    if sorted != [] && Precedes(sorted[0], c) {
      InsertKeeps(c, sorted[1..]);
      assert sorted == [sorted[0]] + sorted[1..];
    }
  }

  lemma {:induction false} InsertOrdered(c: Candidate, sorted: seq<Candidate>)
    requires Ordered(sorted)
    ensures Ordered(Insert(c, sorted))
  {
    hide Precedes;
    if sorted == [] || !Precedes(sorted[0], c) {
      forall j | 0 <= j < |sorted|
        ensures !Precedes(sorted[j], c)
      {
        if j > 0 { PrecedesOrder(sorted[j], sorted[0], c); }
      }
    } else {
      InsertOrdered(c, sorted[1..]);
      PrecedesOrder(sorted[0], c, c);
      var rest := Insert(c, sorted[1..]);
      InsertKeeps(c, sorted[1..]);
      forall j | 0 <= j < |rest|
        ensures !Precedes(rest[j], sorted[0])
      {
        assert rest[j] in multiset(rest);
      }
    }
  }

  lemma {:induction false} SortOrdered(cs: seq<Candidate>)
    ensures Ordered(Sort(cs)) && multiset(Sort(cs)) == multiset(cs)
  {
    if cs != [] {
      SortOrdered(cs[1..]);
      InsertOrdered(cs[0], Sort(cs[1..]));
      InsertKeeps(cs[0], Sort(cs[1..]));
      assert cs == [cs[0]] + cs[1..];
    }
  }

  // ---------- Greedy selection ----------

  function Greedy(cs: seq<Candidate>, usedBeads: set<string>, usedAgents: set<string>, room: nat): seq<Candidate> {
    if cs == [] || room == 0 then []
    else if cs[0].beadID in usedBeads || cs[0].agentID in usedAgents then Greedy(cs[1..], usedBeads, usedAgents, room)
    else [cs[0]] + Greedy(cs[1..], usedBeads + {cs[0].beadID}, usedAgents + {cs[0].agentID}, room - 1)
  }

  function Total(cs: seq<Candidate>): nat {
    if cs == [] then 0 else cs[0].score + Total(cs[1..])
  }

  // No bead and no agent appears twice.
  predicate Matching(cs: seq<Candidate>) {
    forall i, j :: 0 <= i < j < |cs| ==> cs[i].beadID != cs[j].beadID && cs[i].agentID != cs[j].agentID
  }

  predicate Free(c: Candidate, usedBeads: set<string>, usedAgents: set<string>) {
    c.beadID !in usedBeads && c.agentID !in usedAgents
  }

  lemma {:induction false} GreedyMatches(cs: seq<Candidate>, usedBeads: set<string>, usedAgents: set<string>, room: nat)
    ensures var g := Greedy(cs, usedBeads, usedAgents, room);
            && Matching(g) && |g| <= room
            && forall j :: 0 <= j < |g| ==> g[j] in cs && Free(g[j], usedBeads, usedAgents)
  {
    if cs != [] && room != 0 {
      if cs[0].beadID in usedBeads || cs[0].agentID in usedAgents {
        GreedyMatches(cs[1..], usedBeads, usedAgents, room);
      } else {
        GreedyMatches(cs[1..], usedBeads + {cs[0].beadID}, usedAgents + {cs[0].agentID}, room - 1);
      }
    }
  }

  predicate Clashes(a: Candidate, b: Candidate) {
    a.beadID == b.beadID || a.agentID == b.agentID
  }

  // The order a plan goes by, said the other way round: nothing about `b` puts it before `a`.
  predicate NotBehind(a: Candidate, b: Candidate) {
    || a.score > b.score
    || (a.score == b.score && a.priority < b.priority)
    || (a.score == b.score && a.priority == b.priority && Less(a.beadID, b.beadID))
    || (a.score == b.score && a.priority == b.priority && a.beadID == b.beadID && !Less(b.agentID, a.agentID))
  }

  lemma NotBehindIsOrder(a: Candidate, b: Candidate)
    ensures NotBehind(a, b) <==> !Precedes(b, a)
  {
    LessOrder(a.beadID, b.beadID, a.beadID);
    LessOrder(b.beadID, a.beadID, b.beadID);
  }

  // A pair that was passed over: something chosen before it took its bead or its agent, or the room ran out before it.
  ghost predicate PassedOver(chosen: seq<Candidate>, room: nat, c: Candidate) {
    || (exists r :: r in chosen && Clashes(r, c) && NotBehind(r, c))
    || (|chosen| == room && forall r :: r in chosen ==> NotBehind(r, c))
  }

  lemma {:induction false} GreedyIsStable(cs: seq<Candidate>, usedBeads: set<string>, usedAgents: set<string>, room: nat,
                                          c: Candidate)
    requires Ordered(cs) && c in cs && Free(c, usedBeads, usedAgents)
    ensures var g := Greedy(cs, usedBeads, usedAgents, room); c in g || PassedOver(g, room, c)
  {
    hide NotBehind, Precedes;
    if room != 0 {
      var head, rest := cs[0], cs[1..];
      var i :| 0 <= i < |cs| && cs[i] == c;
      PrecedesOrder(head, head, head);
      assert !Precedes(c, head);
      NotBehindIsOrder(head, c);
      if head.beadID in usedBeads || head.agentID in usedAgents {
        GreedyIsStable(rest, usedBeads, usedAgents, room, c);
      } else {
        var g := Greedy(rest, usedBeads + {head.beadID}, usedAgents + {head.agentID}, room - 1);
        assert head in [head] + g;
        if !Clashes(head, c) {
          GreedyIsStable(rest, usedBeads + {head.beadID}, usedAgents + {head.agentID}, room - 1, c);
          assert forall r :: r in g ==> r in [head] + g;
        }
      }
    }
  }

  // Room that was not needed changes nothing.
  lemma {:induction false} SpareRoom(cs: seq<Candidate>, usedBeads: set<string>, usedAgents: set<string>, room: nat, more: nat)
    requires |Greedy(cs, usedBeads, usedAgents, room)| < room <= more
    ensures Greedy(cs, usedBeads, usedAgents, more) == Greedy(cs, usedBeads, usedAgents, room)
  {
    if cs != [] {
      if cs[0].beadID in usedBeads || cs[0].agentID in usedAgents {
        SpareRoom(cs[1..], usedBeads, usedAgents, room, more);
      } else {
        SpareRoom(cs[1..], usedBeads + {cs[0].beadID}, usedAgents + {cs[0].agentID}, room - 1, more - 1);
      }
    }
  }

  // The walk chooses in its own order.
  lemma {:induction false} GreedyIsOrdered(cs: seq<Candidate>, usedBeads: set<string>, usedAgents: set<string>, room: nat)
    requires Ordered(cs)
    ensures Ordered(Greedy(cs, usedBeads, usedAgents, room))
  {
    hide Precedes;
    if cs != [] && room != 0 {
      if cs[0].beadID in usedBeads || cs[0].agentID in usedAgents {
        GreedyIsOrdered(cs[1..], usedBeads, usedAgents, room);
      } else {
        var g := Greedy(cs[1..], usedBeads + {cs[0].beadID}, usedAgents + {cs[0].agentID}, room - 1);
        GreedyIsOrdered(cs[1..], usedBeads + {cs[0].beadID}, usedAgents + {cs[0].agentID}, room - 1);
        GreedyMatches(cs[1..], usedBeads + {cs[0].beadID}, usedAgents + {cs[0].agentID}, room - 1);
        forall j | 0 <= j < |g|
          ensures !Precedes(g[j], cs[0])
        {
          var k :| 0 <= k < |cs[1..]| && cs[1..][k] == g[j];
          assert cs[k + 1] == g[j];
        }
      }
    }
  }

  // ---------- At least half of the best ----------

  ghost function Weight(m: set<Candidate>): nat {
    if m == {} then 0 else var c :| c in m; c.score + Weight(m - {c})
  }

  lemma {:induction false} WeightWithout(m: set<Candidate>, c: Candidate)
    requires c in m
    ensures Weight(m) == c.score + Weight(m - {c})
    decreases |m|
  {
    var d :| d in m && Weight(m) == d.score + Weight(m - {d});
    if d != c {
      WeightWithout(m - {d}, c);
      WeightWithout(m - {c}, d);
      assert m - {d} - {c} == m - {c} - {d};
    }
  }

  predicate IsMatching(m: set<Candidate>) {
    forall a, b :: a in m && b in m && a != b ==> !Clashes(a, b)
  }

  lemma {:induction false} WeightSplit(m: set<Candidate>, d: set<Candidate>)
    requires d <= m
    ensures Weight(m) == Weight(m - d) + Weight(d)
    decreases |d|
  {
    if d == {} {
      assert m - d == m;
    } else {
      hide Weight;
      var x :| x in d;
      WeightWithout(m, x);
      WeightWithout(d, x);
      WeightSplit(m - {x}, d - {x});
      assert m - {x} - (d - {x}) == m - d;
    }
  }

  lemma WeightOfTwo(d: set<Candidate>, bound: nat)
    requires |d| <= 2 && forall x :: x in d ==> x.score <= bound
    ensures Weight(d) <= 2 * bound
  {
    if x :| x in d {
      WeightWithout(d, x);
      var rest := d - {x};
      if y :| y in rest {
        WeightWithout(rest, y);
        assert |rest - {y}| == 0;
      }
    }
  }

  lemma {:induction false} AtMostOne(d: set<Candidate>)
    requires forall a, b :: a in d && b in d ==> a == b
    ensures |d| <= 1
  {
    if d != {} {
      var x :| x in d;
      assert d == {x};
    }
  }

  // A matching has at most one rival for the bead and one for the agent.
  lemma FewRivals(m: set<Candidate>, c: Candidate)
    requires IsMatching(m)
    ensures |set x | x in m && Clashes(x, c)| <= 2
  {
    var forBead := set x | x in m && x.beadID == c.beadID;
    var forAgent := set x | x in m && x.agentID == c.agentID;
    forall a, b | a in forBead && b in forBead
      ensures a == b
    {
      assert a != b ==> !Clashes(a, b);
    }
    forall a, b | a in forAgent && b in forAgent
      ensures a == b
    {
      assert a != b ==> !Clashes(a, b);
    }
    AtMostOne(forBead);
    AtMostOne(forAgent);
    assert (set x | x in m && Clashes(x, c)) == forBead + forAgent;
  }

  lemma {:induction false} Pad(m: set<Candidate>, d: set<Candidate>, n: nat) returns (more: set<Candidate>)
    requires d <= m && |d| <= n
    ensures d <= more <= m && |more| <= n && (|more| == n || more == m)
    decreases n - |d|
  {
    more := d;
    if |d| < n && d != m {
      assert !(m <= d);
      var x :| x in m && x !in d;
      assert |d + {x}| == |d| + 1;
      more := Pad(m, d + {x}, n);
    }
  }

  // Takes away two candidates, the rivals of `c` first, at a cost of at most twice its score.
  lemma DropRivals(m: set<Candidate>, c: Candidate) returns (rest: set<Candidate>)
    requires IsMatching(m) && forall x :: x in m ==> x.score <= c.score
    ensures rest <= m && forall x :: x in rest ==> !Clashes(x, c)
    ensures |rest| + 2 <= |m| || rest == {}
    ensures Weight(m) <= Weight(rest) + 2 * c.score
  {
    FewRivals(m, c);
    var dropped := Pad(m, set x | x in m && Clashes(x, c), 2);
    rest := m - dropped;
    WeightSplit(m, dropped);
    WeightOfTwo(dropped, c.score);
    assert |m - dropped| == |m| - |dropped|;
  }

  lemma OrderedScores(cs: seq<Candidate>, c: Candidate)
    requires Ordered(cs) && c in cs
    ensures c.score <= cs[0].score
  {
    var j :| 0 <= j < |cs| && cs[j] == c;
    assert j > 0 ==> !Precedes(cs[j], cs[0]);
  }

  // What a matching keeps beside a newly chosen candidate is still free, and still ahead.
  lemma RestIsFree(cs: seq<Candidate>, usedBeads: set<string>, usedAgents: set<string>, m: set<Candidate>,
                   rest: set<Candidate>)
    requires cs != [] && rest <= m && forall x :: x in rest ==> !Clashes(x, cs[0])
    requires forall c :: c in m ==> c in cs && Free(c, usedBeads, usedAgents)
    ensures forall c :: c in rest ==> c in cs[1..] && Free(c, usedBeads + {cs[0].beadID}, usedAgents + {cs[0].agentID})
  {
    assert cs == [cs[0]] + cs[1..];
  }

  /** However a matching is chosen among the candidates, up to twice as many pairs as there is room for, the greedy choice
      is worth at least half of it. */
  lemma {:induction false} GreedyIsHalfOptimal(cs: seq<Candidate>, usedBeads: set<string>, usedAgents: set<string>, room: nat,
                                               m: set<Candidate>)
    requires Ordered(cs) && IsMatching(m) && |m| <= 2 * room
    requires forall c :: c in m ==> c in cs && Free(c, usedBeads, usedAgents)
    ensures Weight(m) <= 2 * Total(Greedy(cs, usedBeads, usedAgents, room))
  {
    hide Ordered, Weight, Greedy, Total, IsMatching, Clashes;
    if m == {} {
      NoWeight();
      return;
    }
    assert |m| > 0 && room > 0;
    var c :| c in m;
    var head, rest := cs[0], cs[1..];
    OrderedParts(cs);
    GreedyStep(cs, usedBeads, usedAgents, room);
    if !Free(head, usedBeads, usedAgents) {
      assert forall x :: x in m ==> x in rest;
      GreedyIsHalfOptimal(rest, usedBeads, usedAgents, room, m);
    } else {
      var left := DropRivals(m, head);
      RestIsFree(cs, usedBeads, usedAgents, m, left);
      FewerStillMatch(m, left);
      GreedyIsHalfOptimal(rest, usedBeads + {head.beadID}, usedAgents + {head.agentID}, room - 1, left);
    }
  }

  lemma NoWeight()
    ensures Weight({}) == 0
  {
  }

  lemma FewerStillMatch(m: set<Candidate>, left: set<Candidate>)
    requires IsMatching(m) && left <= m
    ensures IsMatching(left)
  {
  }

  lemma OrderedParts(cs: seq<Candidate>)
    requires Ordered(cs) && cs != []
    ensures Ordered(cs[1..]) && (forall x :: x in cs ==> x.score <= cs[0].score)
    ensures forall x :: x in cs ==> x == cs[0] || x in cs[1..]
  {
    hide Precedes;
    forall x | x in cs
      ensures x.score <= cs[0].score
    {
      OrderedScores(cs, x);
    }
    assert cs == [cs[0]] + cs[1..];
  }

  lemma GreedyStep(cs: seq<Candidate>, usedBeads: set<string>, usedAgents: set<string>, room: nat)
    requires cs != [] && room > 0
    ensures !Free(cs[0], usedBeads, usedAgents) ==>
              Greedy(cs, usedBeads, usedAgents, room) == Greedy(cs[1..], usedBeads, usedAgents, room)
    ensures Free(cs[0], usedBeads, usedAgents) ==>
              Total(Greedy(cs, usedBeads, usedAgents, room))
              == cs[0].score + Total(Greedy(cs[1..], usedBeads + {cs[0].beadID}, usedAgents + {cs[0].agentID}, room - 1))
  {
  }

  // ---------- Plan ----------

  function MinScore(input: Input): int {
    if input.minScore <= 0 then DEFAULT_MIN_SCORE else input.minScore
  }

  function Room(input: Input): nat {
    if input.maxRecommendations <= 0 || input.maxRecommendations > |input.beads| then |input.beads|
        else input.maxRecommendations
  }

  /** An agent that may be given work: idle, with context to spare, below its own limit and its session's, and not while
      the pressure is critical and nothing is left. */
  predicate MayWork(input: Input, worker: Agent) {
    && worker.idle && worker.contextUsage < 0.95
    && (worker.limit <= 0 || worker.active < worker.limit)
    && (worker.session in input.sessions ==>
          var session := input.sessions[worker.session]; session.limit <= 0 || session.active < session.limit)
    && !(input.pressure.available && input.pressure.level == "critical" && input.pressure.agentHeadroom <= 0)
  }

  // Bead `i` and agent `j` make this candidate: the agent may work and their score reaches the threshold.
  predicate Scored(input: Input, i: nat, j: nat, c: Candidate)
    requires i < |input.beads| && j < |input.agents|
  {
    var bead, worker := input.beads[i], input.agents[j];
    && MayWork(input, worker)
    && c.beadID == bead.id && c.agentID == worker.id && c.priority == bead.priority
    && c.score == ScorePair(input, bead, worker) && c.score >= if input.minScore > 0 then input.minScore else 250
  }

  ghost predicate Eligible(input: Input, c: Candidate) {
    exists i, j :: 0 <= i < |input.beads| && 0 <= j < |input.agents| && Scored(input, i, j, c)
  }

  function Chosen(recommendations: seq<Recommendation>): seq<Candidate> {
    seq(|recommendations|, i requires 0 <= i < |recommendations| => recommendations[i].candidate)
  }

  function BeadIDs(cs: seq<Candidate>): set<string> {
    set c | c in cs :: c.beadID
  }

  lemma ScreenPasses(input: Input, worker: Agent)
    ensures Screen(input, worker).Alternative? <==> MayWork(input, worker)
  {
  }

  /** Every eligible pair, in the order the nested loops score them. */
  method ScoreAll(input: Input) returns (all: seq<Candidate>)
    ensures forall c :: c in all <==> Eligible(input, c)
  {
    hide ScorePair, Screen, MayWork;
    all := [];
    for i := 0 to |input.beads|
      invariant forall c :: c in all <==> exists k, j :: 0 <= k < i && 0 <= j < |input.agents| && Scored(input, k, j, c)
    {
      ghost var before := all;
      for j := 0 to |input.agents|
        invariant forall c :: c in all <==> c in before || exists l :: 0 <= l < j && Scored(input, i, l, c)
      {
        var bead, worker := input.beads[i], input.agents[j];
        ScreenPasses(input, worker);
        var candidate := Candidate(bead.id, worker.id, bead.priority, ScorePair(input, bead, worker));
        if Screen(input, worker).Alternative? && candidate.score >= MinScore(input) {
          assert Scored(input, i, j, candidate);
          all := all + [candidate];
        }
      }
    }
  }

  /** The selected bead's next-best candidates for other agents, best first, up to the limit. */
  method Alternatives(candidates: seq<Candidate>, selectedAgent: string, limit: int) returns (alternatives: seq<Candidate>)
    requires Ordered(candidates) && limit > 0
    ensures Ordered(alternatives) && |alternatives| <= limit
    ensures forall a :: a in alternatives ==> a in candidates && a.agentID != selectedAgent
    ensures forall c :: c in candidates && c.agentID != selectedAgent && c !in alternatives ==>
              |alternatives| == limit && forall a :: a in alternatives ==> !Precedes(c, a)
  {
    alternatives := [];
    for i := 0 to |candidates|
      invariant |alternatives| < limit
      invariant forall k :: 0 <= k < |alternatives| ==>
                alternatives[k] in candidates[..i] && alternatives[k].agentID != selectedAgent
      invariant forall k :: 0 <= k < i && candidates[k].agentID != selectedAgent ==> candidates[k] in alternatives
      invariant Ordered(alternatives)
      invariant forall k, l :: 0 <= k < |alternatives| && i <= l < |candidates| ==> !Precedes(candidates[l], alternatives[k])
    {
      if candidates[i].agentID != selectedAgent {
        alternatives := alternatives + [candidates[i]];
        if |alternatives| >= limit {
          return;
        }
      }
    }
  }

  predicate Used(chosen: seq<Candidate>, beadID: string) {
    exists c :: c in chosen && c.beadID == beadID
  }

  // The best of the other agents' candidates for the recommended bead, best first, up to the limit.
  ghost predicate RealAlternatives(r: Recommendation, sorted: seq<Candidate>, limit: int) {
    && Ordered(r.alternatives) && |r.alternatives| <= limit
    && (forall a :: a in r.alternatives ==>
          a in sorted && a.beadID == r.candidate.beadID && a.agentID != r.candidate.agentID)
    && (forall c :: c in sorted && c.beadID == r.candidate.beadID && c.agentID != r.candidate.agentID
                    && c !in r.alternatives ==>
          |r.alternatives| == limit && forall a :: a in r.alternatives ==> !Precedes(c, a))
  }

  /** The greedy loop: walks the sorted candidates and takes every one whose bead and agent are still free. */
  method Select(sorted: seq<Candidate>, room: nat, alternativeLimit: int) returns (recommendations: seq<Recommendation>)
    requires Ordered(sorted) && alternativeLimit > 0
    ensures Chosen(recommendations) == Greedy(sorted, {}, {}, room)
    ensures forall r :: r in recommendations ==> RealAlternatives(r, sorted, alternativeLimit)
  {
    hide Precedes;
    recommendations := [];
    var usedBeads: set<string>, usedAgents: set<string> := {}, {};
    var i := 0;
    while i < |sorted| && |recommendations| < room
      invariant 0 <= i <= |sorted| && |recommendations| <= room
      invariant Greedy(sorted, {}, {}, room)
                == Chosen(recommendations) + Greedy(sorted[i..], usedBeads, usedAgents, room - |recommendations|)
      invariant forall r :: r in recommendations ==> RealAlternatives(r, sorted, alternativeLimit)
    {
      var candidate := sorted[i];
      ghost var before := recommendations;
      if candidate.beadID !in usedBeads && candidate.agentID !in usedAgents {
        var forBead := OfBead(sorted, candidate.beadID);
        var alternatives := Alternatives(forBead, candidate.agentID, alternativeLimit);
        recommendations := recommendations + [Recommendation(candidate, alternatives)];
        usedBeads := usedBeads + {candidate.beadID};
        usedAgents := usedAgents + {candidate.agentID};
        assert Chosen(recommendations) == Chosen(before) + [candidate];
      }
      i := i + 1;
    }
  }

  // The sorted candidates of one bead.
  method OfBead(sorted: seq<Candidate>, beadID: string) returns (own: seq<Candidate>)
    requires Ordered(sorted)
    ensures Ordered(own) && forall c :: c in own <==> c in sorted && c.beadID == beadID
  {
    hide Precedes;
    own := [];
    for i := 0 to |sorted|
      invariant forall k :: 0 <= k < |own| ==> own[k] in sorted[..i] && own[k].beadID == beadID
      invariant forall k :: 0 <= k < i && sorted[k].beadID == beadID ==> sorted[k] in own
      invariant Ordered(own)
      invariant forall k, l :: 0 <= k < |own| && i <= l < |sorted| ==> !Precedes(sorted[l], own[k])
    {
      if sorted[i].beadID == beadID {
        own := own + [sorted[i]];
      }
    }
  }

  function ReadyIDs(beads: seq<ReadyBead>): set<string> {
    set b | b in beads :: b.id
  }

  lemma {:induction false} FewReadyIDs(beads: seq<ReadyBead>)
    ensures |ReadyIDs(beads)| <= |beads|
  {
    if beads != [] {
      FewReadyIDs(beads[1..]);
      assert ReadyIDs(beads) == {beads[0].id} + ReadyIDs(beads[1..]);
    }
  }

  lemma {:induction false} DistinctBeads(m: set<Candidate>, ids: set<string>)
    requires IsMatching(m) && forall c :: c in m ==> c.beadID in ids
    ensures |m| <= |ids|
    decreases |m|
  {
    if m != {} {
      var c :| c in m;
      forall x | x in m - {c}
        ensures x.beadID in ids - {c.beadID}
      {
        assert !Clashes(x, c);
      }
      DistinctBeads(m - {c}, ids - {c.beadID});
    }
  }

  lemma EligibleIsReady(input: Input, c: Candidate)
    requires Eligible(input, c)
    ensures c.beadID in ReadyIDs(input.beads)
  {
  }

  // No matching of eligible pairs has more pairs than there are ready beads.
  lemma MatchingFits(input: Input, m: set<Candidate>)
    requires IsMatching(m) && forall c :: c in m ==> Eligible(input, c)
    ensures |m| <= |input.beads|
  {
    FewReadyIDs(input.beads);
    forall c | c in m
      ensures c.beadID in ReadyIDs(input.beads)
    {
      EligibleIsReady(input, c);
    }
    DistinctBeads(m, ReadyIDs(input.beads));
  }

  lemma {:induction false} DistinctCandidates(cs: seq<Candidate>)
    requires Matching(cs)
    ensures |BeadIDs(cs)| == |cs|
  {
    if cs != [] {
      DistinctCandidates(cs[1..]);
      assert BeadIDs(cs) == {cs[0].beadID} + BeadIDs(cs[1..]);
    }
  }

  lemma SameSizeSubset(a: set<string>, b: set<string>)
    requires a <= b && |b| <= |a|
    ensures a == b
  {
    assert a + (b - a) == b && |a + (b - a)| == |a| + |b - a|;
  }

  // A plan as long as the list of ready beads leaves no bead out.
  lemma FullPlanUsesEveryBead(input: Input, chosen: seq<Candidate>, c: Candidate)
    requires Matching(chosen) && |chosen| == |input.beads| && Eligible(input, c)
    requires forall r :: r in chosen ==> Eligible(input, r)
    ensures exists r :: r in chosen && Clashes(r, c)
  {
    DistinctCandidates(chosen);
    FewReadyIDs(input.beads);
    EligibleIsReady(input, c);
    assert BeadIDs(chosen) <= ReadyIDs(input.beads) by {
      forall r | r in chosen
        ensures r.beadID in ReadyIDs(input.beads)
      {
        EligibleIsReady(input, r);
      }
    }
    SameSizeSubset(BeadIDs(chosen), ReadyIDs(input.beads));
    assert c.beadID in BeadIDs(chosen);
  }

  // As many recommendations as were asked for.
  predicate CapReached(input: Input, n: nat) {
    0 < input.maxRecommendations <= n
  }

  // A matching of eligible pairs within the cap, best first.
  ghost predicate IsSound(input: Input, chosen: seq<Candidate>) {
    && Matching(chosen) && (forall c :: c in chosen ==> Eligible(input, c))
    && (input.maxRecommendations > 0 ==> |chosen| <= input.maxRecommendations)
    && forall i, j :: 0 <= i < j < |chosen| ==> NotBehind(chosen[i], chosen[j])
  }

  /** No eligible pair that was left out has cause to complain: one chosen before it has its bead or its agent, or the cap
      was reached with pairs chosen before it. */
  ghost predicate IsStable(input: Input, chosen: seq<Candidate>) {
    forall c :: Eligible(input, c) && c !in chosen ==>
      || (exists r :: r in chosen && Clashes(r, c) && NotBehind(r, c))
      || (CapReached(input, |chosen|) && forall r :: r in chosen ==> NotBehind(r, c))
  }

  /** Worth at least half of every matching of eligible pairs, if the cap was reached of up to twice the cap's number. */
  ghost predicate IsHalfOptimal(input: Input, chosen: seq<Candidate>) {
    forall m: set<Candidate> ::
      IsMatching(m) && (forall c :: c in m ==> Eligible(input, c))
      && (CapReached(input, |chosen|) ==> |m| <= 2 * input.maxRecommendations) ==>
        Weight(m) <= 2 * Total(chosen)
  }

  // The best of the other agents' candidates for the recommended bead, best first, three unless the input says otherwise.
  ghost predicate HasBestAlternatives(input: Input, r: Recommendation) {
    var limit := if input.alternativesPerBead > 0 then input.alternativesPerBead else 3;
    && |r.alternatives| <= limit
    && (forall i, j :: 0 <= i < j < |r.alternatives| ==> NotBehind(r.alternatives[i], r.alternatives[j]))
    && (forall a :: a in r.alternatives ==>
          Eligible(input, a) && a.beadID == r.candidate.beadID && a.agentID != r.candidate.agentID)
    && (forall c :: Eligible(input, c) && c.beadID == r.candidate.beadID && c.agentID != r.candidate.agentID
                    && c !in r.alternatives ==>
          |r.alternatives| == limit && forall a :: a in r.alternatives ==> NotBehind(a, c))
  }

  // The unassigned beads are exactly the ready ones that were not chosen.
  ghost predicate Partitions(input: Input, chosen: seq<Candidate>, unassigned: seq<string>) {
    forall id :: id in unassigned <==> !Used(chosen, id) && exists i :: 0 <= i < |input.beads| && input.beads[i].id == id
  }

  lemma ChoiceIsSound(input: Input, sorted: seq<Candidate>, chosen: seq<Candidate>)
    requires Ordered(sorted) && (forall c :: c in sorted <==> Eligible(input, c))
    requires chosen == Greedy(sorted, {}, {}, Room(input))
    ensures IsSound(input, chosen) && |chosen| <= Room(input)
  {
    hide Greedy, Eligible, Precedes, NotBehind;
    GreedyMatches(sorted, {}, {}, Room(input));
    GreedyIsOrdered(sorted, {}, {}, Room(input));
    forall i, j | 0 <= i < j < |chosen|
      ensures NotBehind(chosen[i], chosen[j])
    {
      NotBehindIsOrder(chosen[i], chosen[j]);
    }
  }

  lemma ChoiceIsStable(input: Input, sorted: seq<Candidate>, chosen: seq<Candidate>)
    requires Ordered(sorted) && (forall c :: c in sorted <==> Eligible(input, c)) && IsSound(input, chosen)
    requires chosen == Greedy(sorted, {}, {}, Room(input))
    ensures IsStable(input, chosen)
  {
    hide Greedy, Eligible, Precedes, NotBehind;
    forall c | Eligible(input, c) && c !in chosen
      ensures || (exists r :: r in chosen && Clashes(r, c) && NotBehind(r, c))
              || (CapReached(input, |chosen|) && forall r :: r in chosen ==> NotBehind(r, c))
    {
      GreedyIsStable(sorted, {}, {}, Room(input), c);
      if |chosen| == Room(input) && !CapReached(input, |chosen|) && forall r :: r in chosen ==> NotBehind(r, c) {
        FullPlanUsesEveryBead(input, chosen, c);
      }
    }
  }

  lemma ChoiceIsHalfOptimal(input: Input, sorted: seq<Candidate>, chosen: seq<Candidate>)
    requires Ordered(sorted) && (forall c :: c in sorted <==> Eligible(input, c)) && |chosen| <= Room(input)
    requires chosen == Greedy(sorted, {}, {}, Room(input))
    ensures IsHalfOptimal(input, chosen)
  {
    hide Greedy, Eligible, Precedes, Weight, Total, IsMatching;
    var room := Room(input);
    forall m: set<Candidate> | IsMatching(m) && (forall c :: c in m ==> Eligible(input, c))
                               && (CapReached(input, |chosen|) ==> |m| <= 2 * input.maxRecommendations)
      ensures Weight(m) <= 2 * Total(chosen)
    {
      if |chosen| < room {
        SpareRoom(sorted, {}, {}, room, room + |m|);
        GreedyIsHalfOptimal(sorted, {}, {}, room + |m|, m);
      } else {
        if !CapReached(input, |chosen|) {
          MatchingFits(input, m);
        }
        GreedyIsHalfOptimal(sorted, {}, {}, room, m);
      }
    }
  }

  lemma AlternativesAreBest(input: Input, sorted: seq<Candidate>, r: Recommendation)
    requires forall c :: c in sorted <==> Eligible(input, c)
    requires RealAlternatives(r, sorted, if input.alternativesPerBead > 0 then input.alternativesPerBead else 3)
    ensures HasBestAlternatives(input, r)
  {
    hide Eligible, Precedes, NotBehind;
    forall a, c | a in r.alternatives && !Precedes(c, a)
      ensures NotBehind(a, c)
    {
      NotBehindIsOrder(a, c);
    }
  }

  /** The plan's promises, whatever the input: an ordered matching of eligible pairs within the cap; nobody left out has
      cause to complain; it is worth at least half of every matching of eligible pairs, or of every one of up to twice the
      cap's number if the cap was reached; each recommendation carries the best alternatives; every ready bead is exactly
      one of recommended and unassigned; and the decision says why there is no recommendation. */
  method MakePlan(input: Input) returns (plan: Plan)
    ensures IsSound(input, Chosen(plan.recommendations)) && IsStable(input, Chosen(plan.recommendations))
    ensures IsHalfOptimal(input, Chosen(plan.recommendations))
    ensures forall r :: r in plan.recommendations ==> HasBestAlternatives(input, r)
    ensures Partitions(input, Chosen(plan.recommendations), plan.unassigned)
    ensures plan.decision in {NoReadyWork, Recommend, Defer, NoCapacity}
    ensures plan.decision == NoReadyWork <==> input.beads == []
    ensures plan.decision == Recommend <==> plan.recommendations != []
    ensures plan.decision == Defer <==>
              && input.beads != [] && input.agents != [] && (forall c :: !Eligible(input, c))
              && input.pressure.available && input.pressure.level == "critical"
  {
    hide Eligible, Precedes, Greedy, IsSound, IsStable, IsHalfOptimal, HasBestAlternatives, RealAlternatives, Used;
    var all := [];
    if input.agents != [] {
      all := ScoreAll(input);
    } else {
      NobodyIsEligible(input);
    }
    SortOrdered(all);
    SortKeeps(all);
    var sorted := Sort(all);
    var recommendations := Select(sorted, Room(input), if input.alternativesPerBead <= 0 then DEFAULT_ALTERNATIVES
                                                       else input.alternativesPerBead);
    var chosen := Chosen(recommendations);
    ChoiceIsSound(input, sorted, chosen);
    ChoiceIsStable(input, sorted, chosen);
    ChoiceIsHalfOptimal(input, sorted, chosen);
    SomethingIsChosen(input, chosen);
    forall r | r in recommendations
      ensures HasBestAlternatives(input, r)
    {
      AlternativesAreBest(input, sorted, r);
    }
    var unassigned := [];
    for i := 0 to |input.beads|
      invariant forall id :: id in unassigned <==> !Used(chosen, id) && exists k :: 0 <= k < i && input.beads[k].id == id
    {
      var id := input.beads[i].id;
      var used := IsUsed(recommendations, id);
      if !used {
        unassigned := unassigned + [id];
      }
    }
    var critical := input.pressure.available && input.pressure.level == "critical";
    var decision := if input.beads == [] then NoReadyWork
                    else if recommendations != [] then Recommend
                    else if input.agents != [] && all == [] && critical then Defer
                    else NoCapacity;
    assert all == [] <==> forall c :: !Eligible(input, c) by {
      if all != [] {
        assert all[0] in all;
      }
    }
    plan := Plan(decision, recommendations, unassigned);
  }

  // Nothing is recommended just when nothing is eligible, and nothing is eligible without a ready bead.
  lemma SomethingIsChosen(input: Input, chosen: seq<Candidate>)
    requires IsSound(input, chosen) && IsStable(input, chosen)
    ensures chosen == [] <==> forall c :: !Eligible(input, c)
    ensures input.beads == [] ==> forall c :: !Eligible(input, c)
  {
    hide NotBehind;
    if chosen != [] {
      assert chosen[0] in chosen;
    }
  }

  lemma NobodyIsEligible(input: Input)
    requires input.agents == []
    ensures forall c :: !Eligible(input, c)
  {
  }

  method IsUsed(recommendations: seq<Recommendation>, beadID: string) returns (used: bool)
    ensures used <==> Used(Chosen(recommendations), beadID)
  {
    used := false;
    for i := 0 to |recommendations|
      invariant used <==> exists k :: 0 <= k < i && recommendations[k].candidate.beadID == beadID
    {
      assert Chosen(recommendations)[i] == recommendations[i].candidate;
      if recommendations[i].candidate.beadID == beadID {
        used := true;
      }
    }
    if used {
      var k :| 0 <= k < |recommendations| && recommendations[k].candidate.beadID == beadID;
      assert Chosen(recommendations)[k] in Chosen(recommendations);
    }
  }

  lemma SortKeeps(cs: seq<Candidate>)
    ensures forall c :: c in Sort(cs) <==> c in cs
  {
    SortOrdered(cs);
    assert forall c :: c in Sort(cs) <==> c in multiset(Sort(cs));
    assert forall c :: c in cs <==> c in multiset(cs);
  }
}
