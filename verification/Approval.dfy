/**
 Approvals decided and spent by racing processes (internal/approval/engine.go). Each
 operation reads a record, checks its own copy, and writes back with a guarded
 update that applies only while the stored status is still the one it expects.
 */
module Approval {
  import opened Wrappers

  type Time = int

  datatype Status = Pending | Approved | Denied | Expired | Consumed

  datatype Record = Record(requestedBy: string, twoPerson: bool, expiresAt: Time, status: Status,
                           approvedBy: string, approvedAt: Option<Time>, deniedReason: string)

  type Table = map<string, Record>

  // `approvers` is the deciding process's own list; empty means anyone may approve.
  datatype Op =
    | OpApprove(approver: string, approvers: seq<string>)
    | OpDeny(approver: string, reason: string)
    | OpConsume
    | OpCheck

  datatype Error =
    | ErrNotFound | ErrNotPending | ErrExpired | ErrNotAuthorized | ErrSelfApproval | ErrNotApproved | ErrConcurrent

  /** What an operation does with the record it read: refuse, leave it, or try the guarded write of `record`, which
      succeeds only from status `from`. `result` is what it reports if the write lands. */
  datatype Intent =
    | Refuse(error: Error)
    | Leave
    | Write(record: Record, from: Status, result: Option<Error>)

  // Marks a pending record past its deadline as expired; anything else about it stays.
  function ExpireIntent(copy: Record, result: Option<Error>): Intent {
    Write(copy.(status := Expired), Pending, result)
  }

  function Check(op: Op, copy: Record, now: Time): Intent {
    match op
    case OpApprove(approver, approvers) =>
      if copy.status != Pending then Refuse(ErrNotPending)
      else if now > copy.expiresAt then ExpireIntent(copy, Some(ErrExpired))
      else if approvers != [] && approver !in approvers then Refuse(ErrNotAuthorized)
      else if copy.twoPerson && approver == copy.requestedBy then Refuse(ErrSelfApproval)
      else Write(copy.(status := Approved, approvedBy := approver, approvedAt := Some(now)), Pending, None)
    case OpDeny(approver, reason) =>
      if copy.status != Pending then Refuse(ErrNotPending)
      else if now > copy.expiresAt then ExpireIntent(copy, Some(ErrExpired))
      else
        Write(copy.(status := Denied, approvedBy := approver, approvedAt := Some(now), deniedReason := reason), Pending, None)
    case OpConsume =>
      if copy.status != Approved then Refuse(ErrNotApproved)
      else if now > copy.expiresAt then Refuse(ErrExpired)
      else Write(copy.(status := Consumed), Approved, None)
    case OpCheck =>
      if copy.status == Pending && now > copy.expiresAt then ExpireIntent(copy, None) else Leave
  }

  // The columns a guarded update writes; consuming writes the status alone.
  function Stored(row: Record, intent: Intent): Record
    requires intent.Write?
  {
    if intent.from == Approved then row.(status := Consumed)
    else row.(status := intent.record.status, approvedBy := intent.record.approvedBy, approvedAt := intent.record.approvedAt,
              deniedReason := intent.record.deniedReason)
  }

  predicate Lands(table: Table, id: string, intent: Intent) {
    intent.Write? && id in table && table[id].status == intent.from
  }

  // ---------- Racing processes ----------

  // An operation between its read, its check, and its write.
  datatype Process = Read(id: string, op: Op, copy: Record) | Checked(id: string, op: Op, copy: Record, checkedAt: Time)

  // A write that landed.
  datatype Event = Landed(id: string, op: Op, status: Status, checkedAt: Time)

  datatype State = State(table: Table, processes: map<nat, Process>, log: seq<Event>, now: Time)

  datatype Action =
    | Request(id: string, requestedBy: string, twoPerson: bool, expiresAt: Time)
    | ReadRecord(p: nat, id: string, op: Op)
    | CheckCopy(p: nat)
    | WriteBack(p: nat)
    | Die(p: nat)
    | Tick(now: Time)

  predicate Enabled(s: State, act: Action) {
    match act
    case Request(id, _, _, _) => id !in s.table
    case ReadRecord(p, id, _) => p !in s.processes && id in s.table
    case CheckCopy(p) => p in s.processes && s.processes[p].Read?
    case WriteBack(p) => p in s.processes && s.processes[p].Checked?
    case Die(p) => p in s.processes
    case Tick(now) => now >= s.now
  }

  function Next(s: State, act: Action): State
    requires Enabled(s, act)
  {
    match act
    case Request(id, requestedBy, twoPerson, expiresAt) =>
      s.(table := s.table[id := Record(requestedBy, twoPerson, expiresAt, Pending, "", None, "")])
    case ReadRecord(p, id, op) => s.(processes := s.processes[p := Read(id, op, s.table[id])])
    case CheckCopy(p) =>
      var read := s.processes[p];
      s.(processes := s.processes[p := Checked(read.id, read.op, read.copy, s.now)])
    case WriteBack(p) =>
      var w := s.processes[p];
      var intent := Check(w.op, w.copy, w.checkedAt);
      var done := s.(processes := s.processes - {p});
      if !Lands(s.table, w.id, intent) then done
      else done.(table := s.table[w.id := Stored(s.table[w.id], intent)],
                 log := s.log + [Landed(w.id, w.op, Stored(s.table[w.id], intent).status, w.checkedAt)])
    case Die(p) => s.(processes := s.processes - {p})
    case Tick(now) => s.(now := now)
  }

  predicate Legal(s: State, acts: seq<Action>)
    decreases |acts|
  {
    acts == [] || (Enabled(s, acts[0]) && Legal(Next(s, acts[0]), acts[1..]))
  }

  function After(s: State, acts: seq<Action>): State
    requires Legal(s, acts)
    decreases |acts|
  {
    if acts == [] then s else After(Next(s, acts[0]), acts[1..])
  }

  ghost predicate Reachable(s: State) {
    exists start: State, acts :: start.table == map[] && start.processes == map[] && start.log == []
                                 && Legal(start, acts) && After(start, acts) == s
  }

  // ---------- Invariant ----------

  function Events(log: seq<Event>, id: string): seq<Event> {
    if log == [] then []
    else Events(log[..|log| - 1], id) + (if log[|log| - 1].id == id then [log[|log| - 1]] else [])
  }

  // The record's identity never changes, so any copy agrees with the table on it.
  predicate SameRequest(a: Record, b: Record) {
    a.requestedBy == b.requestedBy && a.twoPerson == b.twoPerson && a.expiresAt == b.expiresAt
  }

  // A decision that was allowed when it was checked.
  predicate SoundDecision(row: Record, e: Event) {
    match e.op
    case OpApprove(approver, approvers) =>
      if e.status == Approved then
        && e.checkedAt <= row.expiresAt && row.approvedBy == approver && row.approvedAt == Some(e.checkedAt)
        && (approvers != [] ==> approver in approvers)
        && (row.twoPerson ==> approver != row.requestedBy)
      else e.status == Expired && e.checkedAt > row.expiresAt
    case OpDeny(approver, reason) =>
      if e.status == Denied then
        && e.checkedAt <= row.expiresAt && row.approvedBy == approver && row.approvedAt == Some(e.checkedAt)
        && row.deniedReason == reason
      else e.status == Expired && e.checkedAt > row.expiresAt
    case OpConsume => false
    case OpCheck => e.status == Expired && e.checkedAt > row.expiresAt
  }

  predicate SoundSpending(row: Record, e: Event) {
    e.op.OpConsume? && e.status == Consumed && e.checkedAt <= row.expiresAt
  }

  // What the log says about a record is what the table says: nothing, one decision, or an approval and one spending.
  predicate RowInv(row: Record, events: seq<Event>) {
    match row.status
    case Pending => events == [] && row.approvedBy == "" && row.approvedAt == None && row.deniedReason == ""
    case Consumed =>
      |events| == 2 && events[0].status == Approved && SoundDecision(row, events[0]) && SoundSpending(row, events[1])
    case _ => |events| == 1 && events[0].status == row.status && SoundDecision(row, events[0])
  }

  // A process's copy is of the same request; one read while pending still carries no decision, and of a pending record
  // there are no other copies.
  predicate ProcessInv(table: Table, process: Process) {
    && process.id in table && SameRequest(process.copy, table[process.id])
    && (table[process.id].status == Pending ==> process.copy.status == Pending)
    && (process.copy.status == Pending ==>
          process.copy.approvedBy == "" && process.copy.approvedAt == None && process.copy.deniedReason == "")
  }

  ghost predicate Inv(s: State) {
    && (forall i :: 0 <= i < |s.log| ==> s.log[i].id in s.table)
    && (forall id :: id in s.table ==> RowInv(s.table[id], Events(s.log, id)))
    && (forall p :: p in s.processes ==> ProcessInv(s.table, s.processes[p]))
  }

  lemma EventsAppend(log: seq<Event>, e: Event, id: string)
    ensures Events(log + [e], id) == Events(log, id) + if e.id == id then [e] else []
  {
    assert (log + [e])[..|log|] == log;
  }

  lemma {:induction false} NoEvents(log: seq<Event>, id: string)
    requires forall i :: 0 <= i < |log| ==> log[i].id != id
    ensures Events(log, id) == []
  {
    if log != [] {
      NoEvents(log[..|log| - 1], id);
    }
  }

  // A guarded write that lands on a sound record leaves it sound, with its own event.
  lemma LandedKeepsRow(row: Record, events: seq<Event>, op: Op, copy: Record, checkedAt: Time, id: string)
    requires RowInv(row, events) && SameRequest(copy, row)
    requires copy.status == Pending ==> copy.approvedBy == "" && copy.approvedAt == None && copy.deniedReason == ""
    requires var intent := Check(op, copy, checkedAt); intent.Write? && row.status == intent.from
    ensures var intent := Check(op, copy, checkedAt);
            RowInv(Stored(row, intent), events + [Landed(id, op, Stored(row, intent).status, checkedAt)])
            && SameRequest(copy, Stored(row, intent))
  {
  }

  lemma WriteBackKeepsInv(s: State, p: nat)
    requires Inv(s) && Enabled(s, WriteBack(p))
    ensures Inv(Next(s, WriteBack(p)))
  {
    hide Check, RowInv, Stored, Events;
    var w, t := s.processes[p], Next(s, WriteBack(p));
    var intent := Check(w.op, w.copy, w.checkedAt);
    assert ProcessInv(s.table, w);
    if Lands(s.table, w.id, intent) {
      var e := Landed(w.id, w.op, Stored(s.table[w.id], intent).status, w.checkedAt);
      LandedKeepsRow(s.table[w.id], Events(s.log, w.id), w.op, w.copy, w.checkedAt, w.id);
      forall id | id in t.table
        ensures RowInv(t.table[id], Events(t.log, id))
      {
        EventsAppend(s.log, e, id);
        assert t.log == s.log + [e] && Events(s.log, id) + [] == Events(s.log, id);
        assert RowInv(s.table[id], Events(s.log, id));
      }
    }
  }

  lemma NextKeepsInv(s: State, act: Action)
    requires Inv(s) && Enabled(s, act)
    ensures Inv(Next(s, act))
  {
    if act.WriteBack? {
      WriteBackKeepsInv(s, act.p);
    } else {
      hide Check, SoundDecision;
      if act.Request? {
        NoEvents(s.log, act.id);
      }
      if act.ReadRecord? {
        assert RowInv(s.table[act.id], Events(s.log, act.id));
      }
    }
  }

  lemma {:induction false} RunsKeepInv(s: State, acts: seq<Action>)
    requires Inv(s) && Legal(s, acts)
    ensures Inv(After(s, acts))
    decreases |acts|
  {
    hide Inv, Enabled, Next;
    if acts != [] {
      NextKeepsInv(s, acts[0]);
      RunsKeepInv(Next(s, acts[0]), acts[1..]);
    }
  }

  lemma ReachableInv(s: State)
    requires Reachable(s)
    ensures Inv(s)
  {
    hide Enabled, Next;
    var start: State, acts :| start.table == map[] && start.processes == map[] && start.log == []
                              && Legal(start, acts) && After(start, acts) == s;
    RunsKeepInv(start, acts);
  }

  // ---------- Guarantees ----------

  // How a record may change: a pending one is decided, an approved one is spent, and nothing else is ever rewritten.
  predicate Evolves(before: Record, after: Record) {
    && SameRequest(before, after)
    && match before.status
       case Pending => true
       case Approved => after == before || after == before.(status := Consumed)
       case _ => after == before
  }

  lemma {:induction false} RunsEvolve(s: State, acts: seq<Action>, id: string)
    requires Inv(s) && Legal(s, acts) && id in s.table
    ensures id in After(s, acts).table && Evolves(s.table[id], After(s, acts).table[id])
    decreases |acts|
  {
    hide Inv;
    if acts != [] {
      NextKeepsInv(s, acts[0]);
      StepEvolves(s, acts[0], id);
      RunsEvolve(Next(s, acts[0]), acts[1..], id);
    }
  }

  /** The first decision is final: in every run, whatever the interleaving, a record that was decided keeps its
      decision, its decider, its time and its reason; the only later change is an approval being spent. */
  lemma FirstDecisionIsFinal(s: State, acts: seq<Action>, id: string)
    requires Reachable(s) && Legal(s, acts) && id in s.table
    ensures id in After(s, acts).table && Evolves(s.table[id], After(s, acts).table[id])
  {
    ReachableInv(s);
    RunsEvolve(s, acts, id);
  }

  lemma StepEvolves(s: State, act: Action, id: string)
    requires Inv(s) && Enabled(s, act) && id in s.table
    ensures id in Next(s, act).table && Evolves(s.table[id], Next(s, act).table[id])
  {
    hide RowInv, Events;
    if act.WriteBack? {
      assert ProcessInv(s.table, s.processes[act.p]);
    }
  }

  /** A record is spent at most once, only after it was approved, and never by a consumer whose check saw it expired. */
  lemma SpentAtMostOnce(s: State, id: string, i: nat, j: nat)
    requires Reachable(s) && id in s.table && i < |Events(s.log, id)| && j < |Events(s.log, id)|
    requires Events(s.log, id)[i].status == Consumed && Events(s.log, id)[j].status == Consumed
    ensures i == j == 1 && Events(s.log, id)[0].status == Approved
    ensures Events(s.log, id)[i].checkedAt <= s.table[id].expiresAt
    ensures s.table[id].status == Consumed
  {
    hide Events;
    ReachableInv(s);
    assert RowInv(s.table[id], Events(s.log, id));
  }

  /** Whatever processes raced, an approved or spent record was approved before its deadline by its recorded approver,
      who is not the requester where two people are needed, and is on the deciding process's list where it has one. */
  lemma ApprovalWasAllowed(s: State, id: string)
    requires Reachable(s) && id in s.table && (s.table[id].status == Approved || s.table[id].status == Consumed)
    ensures Events(s.log, id) != [] && Events(s.log, id)[0].op.OpApprove?
    ensures var row, op := s.table[id], Events(s.log, id)[0].op;
            && row.approvedBy == op.approver
            && (op.approvers != [] ==> row.approvedBy in op.approvers)
            && (row.twoPerson ==> row.approvedBy != row.requestedBy)
            && row.approvedAt.Some? && row.approvedAt.value <= row.expiresAt
  {
    hide Events;
    ReachableInv(s);
    assert RowInv(s.table[id], Events(s.log, id));
  }

  /** What a write makes of its record, whatever raced with it: an allowed approval or a denial decides a record that is
      still pending, spending uses up one that was approved when it was read and still is, and anybody but a spender marks
      a pending record expired after its deadline. Nothing else changes anything. */
  lemma WritesDoExactlyThis(s: State, p: nat)
    requires Reachable(s) && Enabled(s, WriteBack(p))
    ensures var w, t := s.processes[p], Next(s, WriteBack(p));
            && w.id in s.table
            && var row := s.table[w.id];
               var decidable := row.status == Pending && w.checkedAt <= row.expiresAt;
               t.table == s.table[w.id :=
                 match w.op
                 case OpApprove(approver, approvers) =>
                   if decidable && (approvers == [] || approver in approvers)
                      && !(row.twoPerson && approver == row.requestedBy)
                   then row.(status := Approved, approvedBy := approver, approvedAt := Some(w.checkedAt))
                   else if row.status == Pending && w.checkedAt > row.expiresAt then row.(status := Expired)
                   else row
                 case OpDeny(approver, reason) =>
                   if decidable then
                     row.(status := Denied, approvedBy := approver, approvedAt := Some(w.checkedAt), deniedReason := reason)
                   else if row.status == Pending && w.checkedAt > row.expiresAt then row.(status := Expired)
                   else row
                 case OpConsume =>
                   if row.status == Approved && w.copy.status == Approved && w.checkedAt <= row.expiresAt
                   then row.(status := Consumed)
                   else row
                 case OpCheck =>
                   if row.status == Pending && w.checkedAt > row.expiresAt then row.(status := Expired) else row]
  {
    hide RowInv, Events;
    ReachableInv(s);
    var w := s.processes[p];
    assert ProcessInv(s.table, w);
    if s.table[w.id].status == Pending {
      PendingIsBlank(s, w.id);
    }
    assert s.table == s.table[w.id := s.table[w.id]];
  }

  lemma PendingIsBlank(s: State, id: string)
    requires Inv(s) && id in s.table && s.table[id].status == Pending
    ensures s.table[id].approvedBy == "" && s.table[id].approvedAt == None && s.table[id].deniedReason == ""
  {
    assert RowInv(s.table[id], Events(s.log, id));
  }

  /** Every decision of the table has exactly one landed write behind it, and an undecided record has none. */
  lemma OneDecisionEach(s: State, id: string)
    requires Reachable(s) && id in s.table
    ensures s.table[id].status == Pending <==> Events(s.log, id) == []
    ensures s.table[id].status != Pending ==> |Events(s.log, id)| == if s.table[id].status == Consumed then 2 else 1
  {
    hide Events;
    ReachableInv(s);
    assert RowInv(s.table[id], Events(s.log, id));
  }

  // ---------- The code ----------

  /** The approvals table, with the two guarded updates every decision goes through. */
  class ApprovalStore {
    var approvals: Table

    constructor ()
      ensures approvals == map[]
    {
      approvals := map[];
    }

    method UpdateApprovalFrom(id: string, record: Record, from: Status) returns (ok: bool)
      modifies this
      ensures ok == (id in old(approvals) && old(approvals)[id].status == from)
      ensures approvals == if ok then old(approvals)[id := old(approvals)[id].(status := record.status,
                                  approvedBy := record.approvedBy, approvedAt := record.approvedAt,
                                      deniedReason := record.deniedReason)]
                           else old(approvals)
    {
      ok := id in approvals && approvals[id].status == from;
      if ok {
        var row := approvals[id];
        row := row.(status := record.status, approvedBy := record.approvedBy);
        row := row.(approvedAt := record.approvedAt, deniedReason := record.deniedReason);
        approvals := approvals[id := row];
      }
    }

    method ConsumeApproval(id: string) returns (ok: bool)
      modifies this
      ensures ok == (id in old(approvals) && old(approvals)[id].status == Approved)
      ensures approvals == if ok then old(approvals)[id := old(approvals)[id].(status := Consumed)] else old(approvals)
    {
      ok := id in approvals && approvals[id].status == Approved;
      if ok {
        approvals := approvals[id := approvals[id].(status := Consumed)];
      }
    }
  }

  // What the table is after an operation that read `copy` and found `meanwhile` when it wrote.
  function TableAfter(meanwhile: Table, id: string, intent: Intent): Table {
    if Lands(meanwhile, id, intent) then meanwhile[id := Stored(meanwhile[id], intent)] else meanwhile
  }

  function ErrorAfter(meanwhile: Table, id: string, intent: Intent): Option<Error> {
    match intent
    case Refuse(error) => Some(error)
    case Leave => None
    case Write(record, _, result) =>
      // A lost race to expire is not an error of its own.
      if record.status == Expired || Lands(meanwhile, id, intent) then result else Some(ErrConcurrent)
  }

  // The record is still undecided when the write comes.
  predicate StillIn(meanwhile: Table, id: string, status: Status) {
    id in meanwhile && meanwhile[id].status == status
  }

  // The table with this decision on the record, if that is still pending.
  function Marked(meanwhile: Table, id: string, decided: Record): Table {
    if id in meanwhile && meanwhile[id].status == Pending then
      meanwhile[id := meanwhile[id].(status := decided.status, approvedBy := decided.approvedBy,
                                     approvedAt := decided.approvedAt, deniedReason := decided.deniedReason)]
    else meanwhile
  }

  /** One process's engine. `meanwhile` is the table other processes have made of it by the time this one writes. */
  class Engine {
    const store: ApprovalStore
    const approvers: seq<string>

    constructor (store: ApprovalStore, approvers: seq<string>)
      ensures this.store == store && this.approvers == approvers
    {
      this.store, this.approvers := store, approvers;
    }

    // expireApproval
    method Expire(id: string, copy: Record)
      modifies store
      ensures store.approvals == TableAfter(old(store.approvals), id, ExpireIntent(copy, None))
    {
      var expired := copy.(status := Expired);
      var _ := store.UpdateApprovalFrom(id, expired, Pending);
    }

    method Approve(id: string, approver: string, now: Time, meanwhile: Table) returns (error: Option<Error>)
      modifies store
      ensures id !in old(store.approvals) ==> error == Some(ErrNotFound) && store.approvals == old(store.approvals)
      ensures id in old(store.approvals) ==>
                var intent := Check(OpApprove(approver, approvers), old(store.approvals)[id], now);
                && error == ErrorAfter(meanwhile, id, intent)
                && store.approvals == if intent.Write? then TableAfter(meanwhile, id, intent) else old(store.approvals)
      ensures id in old(store.approvals) ==>
                var a := old(store.approvals)[id];
                if a.status != Pending then error == Some(ErrNotPending) && store.approvals == old(store.approvals)
                else if now > a.expiresAt then
                  && error == Some(ErrExpired)
                  && store.approvals == Marked(meanwhile, id, a.(status := Expired))
                else if approvers != [] && approver !in approvers then
                  error == Some(ErrNotAuthorized) && store.approvals == old(store.approvals)
                else if a.twoPerson && approver == a.requestedBy then
                  error == Some(ErrSelfApproval) && store.approvals == old(store.approvals)
                else
                  && error == (if StillIn(meanwhile, id, Pending) then None else Some(ErrConcurrent))
                  && store.approvals == Marked(meanwhile, id,
                                               a.(status := Approved, approvedBy := approver, approvedAt := Some(now)))
    {
      if id !in store.approvals {
        return Some(ErrNotFound);
      }
      var approval := store.approvals[id];
      if approval.status != Pending {
        return Some(ErrNotPending);
      }
      if now > approval.expiresAt {
        store.approvals := meanwhile;
        Expire(id, approval);
        return Some(ErrExpired);
      }
      if |approvers| > 0 && approver !in approvers {
        return Some(ErrNotAuthorized);
      }
      if approval.twoPerson && approver == approval.requestedBy {
        return Some(ErrSelfApproval);
      }
      approval := approval.(status := Approved);
      approval := approval.(approvedBy := approver);
      approval := approval.(approvedAt := Some(now));
      store.approvals := meanwhile;
      var ok := store.UpdateApprovalFrom(id, approval, Pending);
      error := if ok then None else Some(ErrConcurrent);
    }

    method Deny(id: string, approver: string, reason: string, now: Time, meanwhile: Table) returns (error: Option<Error>)
      modifies store
      ensures id !in old(store.approvals) ==> error == Some(ErrNotFound) && store.approvals == old(store.approvals)
      ensures id in old(store.approvals) ==>
                var intent := Check(OpDeny(approver, reason), old(store.approvals)[id], now);
                && error == ErrorAfter(meanwhile, id, intent)
                && store.approvals == if intent.Write? then TableAfter(meanwhile, id, intent) else old(store.approvals)
      ensures id in old(store.approvals) ==>
                var a := old(store.approvals)[id];
                if a.status != Pending then error == Some(ErrNotPending) && store.approvals == old(store.approvals)
                else if now > a.expiresAt then
                  && error == Some(ErrExpired)
                  && store.approvals == Marked(meanwhile, id, a.(status := Expired))
                else
                  && error == (if StillIn(meanwhile, id, Pending) then None else Some(ErrConcurrent))
                  && store.approvals == Marked(meanwhile, id, a.(status := Denied, approvedBy := approver,
                                                                 approvedAt := Some(now), deniedReason := reason))
    {
      if id !in store.approvals {
        return Some(ErrNotFound);
      }
      var approval := store.approvals[id];
      if approval.status != Pending {
        return Some(ErrNotPending);
      }
      if now > approval.expiresAt {
        store.approvals := meanwhile;
        Expire(id, approval);
        return Some(ErrExpired);
      }
      approval := approval.(status := Denied);
      approval := approval.(approvedBy := approver);
      approval := approval.(approvedAt := Some(now));
      approval := approval.(deniedReason := reason);
      store.approvals := meanwhile;
      var ok := store.UpdateApprovalFrom(id, approval, Pending);
      error := if ok then None else Some(ErrConcurrent);
    }

    method Consume(id: string, now: Time, meanwhile: Table) returns (error: Option<Error>)
      modifies store
      ensures id !in old(store.approvals) ==> error == Some(ErrNotFound) && store.approvals == old(store.approvals)
      ensures id in old(store.approvals) ==>
                var intent := Check(OpConsume, old(store.approvals)[id], now);
                && error == ErrorAfter(meanwhile, id, intent)
                && store.approvals == if intent.Write? then TableAfter(meanwhile, id, intent) else old(store.approvals)
      ensures id in old(store.approvals) ==>
                var a := old(store.approvals)[id];
                if a.status != Approved then error == Some(ErrNotApproved) && store.approvals == old(store.approvals)
                else if now > a.expiresAt then error == Some(ErrExpired) && store.approvals == old(store.approvals)
                else if StillIn(meanwhile, id, Approved) then
                  error.None? && store.approvals == meanwhile[id := meanwhile[id].(status := Consumed)]
                else error == Some(ErrConcurrent) && store.approvals == meanwhile
    {
      if id !in store.approvals {
        return Some(ErrNotFound);
      }
      var approval := store.approvals[id];
      if approval.status != Approved {
        return Some(ErrNotApproved);
      }
      if now > approval.expiresAt {
        return Some(ErrExpired);
      }
      store.approvals := meanwhile;
      var ok := store.ConsumeApproval(id);
      error := if ok then None else Some(ErrConcurrent);
    }

    /** Marks every pending record past its deadline as expired and lists the others. */
    method ListPending(now: Time) returns (pending: set<string>)
      modifies store
      ensures forall id :: id in pending <==> id in old(store.approvals) && old(store.approvals)[id].status == Pending
                                               && now <= old(store.approvals)[id].expiresAt
      ensures store.approvals.Keys == old(store.approvals).Keys
      ensures forall id :: id in store.approvals ==>
                var row := old(store.approvals)[id];
                store.approvals[id] == if row.status == Pending && now > row.expiresAt then row.(status := Expired) else row
    {
      pending := {};
      var listed := store.approvals;
      var todo := listed.Keys;
      while todo != {}
        invariant todo <= listed.Keys && store.approvals.Keys == listed.Keys
        invariant forall id :: id in pending <==>
                  id in listed.Keys - todo && listed[id].status == Pending && now <= listed[id].expiresAt
        invariant forall id :: id in store.approvals ==>
                    store.approvals[id] == if id !in todo && listed[id].status == Pending && now > listed[id].expiresAt
                                           then listed[id].(status := Expired) else listed[id]
        decreases |todo|
      {
        var id :| id in todo;
        todo := todo - {id};
        var a := listed[id];
        if a.status == Pending && now > a.expiresAt {
          Expire(id, a);
        } else if a.status == Pending {
          pending := pending + {id};
        }
      }
    }
  }
}
