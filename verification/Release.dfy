/**
 Exact lease release by repeated reconciliation (internal/assign/reservation.go),
 against a server that may lose or ignore release calls: its listings are whatever
 they are, and only they are believed.
 */
module Release {
  import opened Wrappers
  import opened AssignmentTypes

  datatype Lease = Lease(id: int, path: string, projectID: int, agent: string, reason: string, released: bool)

  // What the caller's durable barrier and arguments pin down.
  datatype Binding = Binding(projectID: int, agent: string, reason: string, ids: set<int>, paths: set<string>)

  datatype ReleaseError =
    | NoBarrier | NoProject | InvalidID | ListingFailed | NotBound | PathNotBound | NoDurableID | AmbiguousPath | DuplicateID
    | StillActive

  predicate BoundExceptID(b: Binding, l: Lease) {
    l.projectID == b.projectID && l.agent == b.agent && l.reason == b.reason
  }

  // A live lease that is authoritatively this bead's.
  predicate Bound(b: Binding, l: Lease) {
    !l.released && l.id > 0 && BoundExceptID(b, l)
  }

  // With paths given a lease is asked for by its path, otherwise by its ID.
  predicate Wanted(b: Binding, l: Lease) {
    Bound(b, l) && (if b.paths != {} then l.path in b.paths else l.id in b.ids)
  }

  // A single listed lease that makes the listing unusable.
  predicate Suspicious(b: Binding, l: Lease) {
    && !l.released
    && (|| (l.id in b.ids && !Bound(b, l))
        || (l.id in b.ids && b.paths != {} && l.path !in b.paths)
        || (l.path in b.paths && BoundExceptID(b, l) && l.id <= 0))
  }

  // Two listed leases that cannot both be this bead's, so that neither may be released.
  predicate Ambiguous(b: Binding, active: seq<Lease>, i: nat, j: nat)
    requires i < j < |active|
  {
    && b.paths != {} && Wanted(b, active[i]) && Wanted(b, active[j])
    && (active[i].path == active[j].path || active[i].id == active[j].id)
  }

  predicate Usable(b: Binding, active: seq<Lease>) {
    && (forall i :: 0 <= i < |active| ==> !Suspicious(b, active[i]))
    && (forall i, j :: 0 <= i < j < |active| ==> !Ambiguous(b, active, i, j))
  }

  function WantedIDs(b: Binding, active: seq<Lease>): set<int> {
    set l | l in active && Wanted(b, l) :: l.id
  }

  function WantedPaths(b: Binding, active: seq<Lease>): set<string> {
    set l | l in active && Wanted(b, l) && l.path != "" :: l.path
  }

  // The listing shows nothing live that was asked for, beyond doubt.
  predicate Confirmed(b: Binding, listing: seq<Lease>) {
    Usable(b, listing) && forall l :: l in listing ==> !Wanted(b, l)
  }

  // What was asked for and a listing shows nothing live of: of an ID no lease at all, of a path none of this bead's.
  function GoneIDs(b: Binding, listing: seq<Lease>): set<int> {
    set id | id in b.ids && forall l :: l in listing && !l.released ==> l.id != id
  }

  function GonePaths(b: Binding, listing: seq<Lease>): set<string> {
    set path | path in b.paths && forall l :: l in listing && !l.released && BoundExceptID(b, l) ==> l.path != path
  }

  /** A confirmed release leaves nothing of what was asked for, by ID or by path. */
  lemma ConfirmedMeansGone(b: Binding, listing: seq<Lease>)
    requires Confirmed(b, listing)
    ensures GoneIDs(b, listing) == b.ids && GonePaths(b, listing) == b.paths
  {
    forall l | l in listing && !l.released
      ensures l.id !in b.ids && !(BoundExceptID(b, l) && l.path in b.paths)
    {
      assert !Suspicious(b, l) && !Wanted(b, l);
    }
  }

  datatype Selection = Selection(ids: set<int>, paths: set<string>)

  lemma SelectStep(b: Binding, seen: seq<Lease>, l: Lease)
    ensures WantedIDs(b, seen + [l]) == WantedIDs(b, seen) + if Wanted(b, l) then {l.id} else {}
    ensures WantedPaths(b, seen + [l]) == WantedPaths(b, seen) + if Wanted(b, l) && l.path != "" then {l.path} else {}
    ensures forall path :: IDsAt(b, seen + [l], path)
                           == IDsAt(b, seen, path) + (if Bound(b, l) && l.path == path then [l.id] else [])
  {
    assert (seen + [l])[..|seen|] == seen;
  }

  /** selectExactReleaseReservations: it selects exactly the live leases bound to this bead that were asked for, and
      refuses every listing in which that is open to doubt. */
  method SelectExact(b: Binding, active: seq<Lease>) returns (r: Result<Selection, ReleaseError>)
    requires "" !in b.paths
    ensures r.Ok? <==> Usable(b, active)
    ensures r.Ok? ==> r.value == Selection(WantedIDs(b, active), WantedPaths(b, active))
  {
    hide WantedIDs, WantedPaths, IDsAt;
    var selectedIDs: set<int>, selectedPaths: set<string> := {}, {};
    var matchesByPath: map<string, seq<int>> := map[];
    NothingSeen(b);
    for i := 0 to |active|
      invariant forall k :: 0 <= k < i ==> !Suspicious(b, active[k])
      invariant b.paths == {} ==> selectedIDs == WantedIDs(b, active[..i]) && selectedPaths == WantedPaths(b, active[..i])
      invariant forall path :: path in b.paths ==> Matches(matchesByPath, path) == IDsAt(b, active[..i], path)
    {
      var l := active[i];
      assert active[..i + 1] == active[..i] + [l];
      SelectStep(b, active[..i], l);
      if !l.released {
        var byID, byPath, bound := l.id in b.ids, l.path in b.paths, Bound(b, l);
        if byID && !bound {
          return Err(NotBound);
        }
        if byID && b.paths != {} && !byPath {
          return Err(PathNotBound);
        }
        if byPath && BoundExceptID(b, l) && l.id <= 0 {
          return Err(NoDurableID);
        }
        if bound && byPath {
          matchesByPath := matchesByPath[l.path := Matches(matchesByPath, l.path) + [l.id]];
        }
        if byID && bound && b.paths == {} {
          selectedIDs := selectedIDs + {l.id};
          if l.path != "" {
            selectedPaths := selectedPaths + {l.path};
          }
        }
      }
    }
    assert active[..|active|] == active;
    if b.paths != {} {
      r := SelectByPath(b, active, matchesByPath);
    } else {
      r := Ok(Selection(selectedIDs, selectedPaths));
    }
  }

  lemma NothingSeen(b: Binding)
    ensures WantedIDs(b, []) == {} && WantedPaths(b, []) == {} && forall path :: IDsAt(b, [], path) == []
  {
  }

  function Matches(matchesByPath: map<string, seq<int>>, path: string): seq<int> {
    if path in matchesByPath then matchesByPath[path] else []
  }

  // The IDs of the wanted leases on one path, in listing order.
  function IDsAt(b: Binding, active: seq<Lease>, path: string): seq<int> {
    if active == [] then []
    else
      var last := active[|active| - 1];
      IDsAt(b, active[..|active| - 1], path) + (if Bound(b, last) && last.path == path then [last.id] else [])
  }

  ghost predicate MatchedOn(b: Binding, active: seq<Lease>, path: string, id: int) {
    exists i :: 0 <= i < |active| && IsMatch(b, active[i], path, id)
  }

  ghost predicate MatchedTwice(b: Binding, active: seq<Lease>, path: string) {
    exists i, j :: 0 <= i < j < |active| && IsMatch(b, active[i], path, active[i].id)
        && IsMatch(b, active[j], path, active[j].id)
  }

  lemma MatchedOnStep(b: Binding, seen: seq<Lease>, l: Lease, path: string, id: int)
    ensures MatchedOn(b, seen + [l], path, id) <==> MatchedOn(b, seen, path, id) || IsMatch(b, l, path, id)
  {
    hide IsMatch;
    var longer := seen + [l];
    if MatchedOn(b, seen, path, id) {
      var i :| 0 <= i < |seen| && IsMatch(b, seen[i], path, id);
      assert IsMatch(b, longer[i], path, id);
    }
    if IsMatch(b, l, path, id) {
      assert IsMatch(b, longer[|seen|], path, id);
    }
    if MatchedOn(b, longer, path, id) {
      var i :| 0 <= i < |longer| && IsMatch(b, longer[i], path, id);
      assert i < |seen| ==> IsMatch(b, seen[i], path, id);
    }
  }

  lemma MatchedTwiceStep(b: Binding, seen: seq<Lease>, l: Lease, path: string)
    ensures MatchedTwice(b, seen + [l], path) <==>
              MatchedTwice(b, seen, path) || (IsMatch(b, l, path, l.id) && exists id :: MatchedOn(b, seen, path, id))
  {
    var longer := seen + [l];
    if MatchedTwice(b, seen, path) {
      var i, j :| 0 <= i < j < |seen| && IsMatch(b, seen[i], path, seen[i].id) && IsMatch(b, seen[j], path, seen[j].id);
      assert IsMatch(b, longer[i], path, longer[i].id) && IsMatch(b, longer[j], path, longer[j].id);
    }
    if id :| MatchedOn(b, seen, path, id) {
      var i :| 0 <= i < |seen| && IsMatch(b, seen[i], path, id);
      if IsMatch(b, l, path, l.id) {
        assert IsMatch(b, longer[i], path, longer[i].id) && IsMatch(b, longer[|seen|], path, longer[|seen|].id);
      }
    }
    if MatchedTwice(b, longer, path) {
      var i, j :| 0 <= i < j < |longer| && IsMatch(b, longer[i], path, longer[i].id)
          && IsMatch(b, longer[j], path, longer[j].id);
      assert IsMatch(b, seen[i], path, seen[i].id) && MatchedOn(b, seen, path, seen[i].id);
      assert j < |seen| ==> IsMatch(b, seen[j], path, seen[j].id);
    }
  }

  lemma {:induction false} IDsAtMembers(b: Binding, active: seq<Lease>, path: string)
    ensures forall id :: id in IDsAt(b, active, path) <==> MatchedOn(b, active, path, id)
    ensures |IDsAt(b, active, path)| >= 2 <==> MatchedTwice(b, active, path)
  {
    if active != [] {
      hide MatchedOn, MatchedTwice, Bound;
      var shorter, last := active[..|active| - 1], active[|active| - 1];
      var ids := IDsAt(b, shorter, path);
      assert active == shorter + [last];
      IDsAtMembers(b, shorter, path);
      MatchedTwiceStep(b, shorter, last, path);
      forall id
        ensures MatchedOn(b, active, path, id) <==> MatchedOn(b, shorter, path, id) || IsMatch(b, last, path, id)
      {
        MatchedOnStep(b, shorter, last, path, id);
      }
      assert (exists id :: MatchedOn(b, shorter, path, id)) <==> |ids| >= 1 by {
        if |ids| >= 1 {
          assert ids[0] in ids && MatchedOn(b, shorter, path, ids[0]);
        }
        if id :| MatchedOn(b, shorter, path, id) {
          assert id in ids;
        }
      }
      assert IsMatch(b, last, path, last.id) <==> Bound(b, last) && last.path == path;
    }
  }

  predicate IsMatch(b: Binding, l: Lease, path: string, id: int) {
    Bound(b, l) && l.path == path && l.id == id
  }

  // Among the paths looked at, every path has one lease and every lease one path.
  predicate Clear(b: Binding, active: seq<Lease>, done: set<string>) {
    forall i, j :: 0 <= i < j < |active| && active[i].path in done && active[j].path in done ==> !Ambiguous(b, active, i, j)
  }

  function IDsOn(b: Binding, active: seq<Lease>, done: set<string>): set<int> {
    set l | l in active && Wanted(b, l) && l.path in done :: l.id
  }

  /** The second loop of the selection: one lease per requested path, and one path per lease. */
  method SelectByPath(b: Binding, active: seq<Lease>, matchesByPath: map<string, seq<int>>)
    returns (r: Result<Selection, ReleaseError>)
    requires b.paths != {} && "" !in b.paths
    requires forall i :: 0 <= i < |active| ==> !Suspicious(b, active[i])
    requires forall path :: path in b.paths ==> Matches(matchesByPath, path) == IDsAt(b, active, path)
    ensures r.Ok? <==> Usable(b, active)
    ensures r.Ok? ==> r.value == Selection(WantedIDs(b, active), WantedPaths(b, active))
  {
    hide IDsAt, Suspicious, Usable, Clear, IDsOn, PathsOn, WantedIDs, WantedPaths;
    var selectedIDs: set<int>, selectedPaths: set<string> := {}, {};
    var todo := b.paths;
    NoPathsYet(b, active);
    while todo != {}
      invariant todo <= b.paths
      invariant Clear(b, active, b.paths - todo)
      invariant selectedIDs == IDsOn(b, active, b.paths - todo)
      invariant selectedPaths == PathsOn(b, active, b.paths - todo)
      decreases |todo|
    {
      var path :| path in todo;
      ghost var done := b.paths - todo;
      todo := todo - {path};
      var matches := Matches(matchesByPath, path);
      assert b.paths - todo == done + {path};
      if |matches| > 1 {
        TwoMatches(b, active, path);
        return Err(AmbiguousPath);
      }
      if |matches| == 1 {
        if matches[0] in selectedIDs {
          SharedID(b, active, done, path);
          return Err(DuplicateID);
        }
        OneMatch(b, active, done, path);
        selectedIDs := selectedIDs + {matches[0]};
        selectedPaths := selectedPaths + {path};
      } else {
        NoMatch(b, active, done, path);
      }
    }
    assert b.paths - todo == b.paths;
    AllPathsDone(b, active);
    r := Ok(Selection(selectedIDs, selectedPaths));
  }

  function PathsOn(b: Binding, active: seq<Lease>, done: set<string>): set<string> {
    set l | l in active && Wanted(b, l) && l.path in done :: l.path
  }

  lemma NoPathsYet(b: Binding, active: seq<Lease>)
    ensures Clear(b, active, b.paths - b.paths) && IDsOn(b, active, b.paths - b.paths) == {}
              && PathsOn(b, active, b.paths - b.paths) == {}
  {
  }

  lemma AllPathsDone(b: Binding, active: seq<Lease>)
    requires b.paths != {} && "" !in b.paths && Clear(b, active, b.paths)
    requires forall i :: 0 <= i < |active| ==> !Suspicious(b, active[i])
    ensures Usable(b, active)
    ensures IDsOn(b, active, b.paths) == WantedIDs(b, active) && PathsOn(b, active, b.paths) == WantedPaths(b, active)
  {
    hide Suspicious;
  }

  lemma TwoMatches(b: Binding, active: seq<Lease>, path: string)
    requires path in b.paths && |IDsAt(b, active, path)| > 1
    ensures !Usable(b, active)
  {
    hide IDsAt, Suspicious;
    IDsAtMembers(b, active, path);
    var i, j :| 0 <= i < j < |active| && IsMatch(b, active[i], path, active[i].id) && IsMatch(b, active[j], path, active[j].id);
    assert Ambiguous(b, active, i, j);
  }

  lemma SharedID(b: Binding, active: seq<Lease>, done: set<string>, path: string)
    requires path in b.paths && path !in done && |IDsAt(b, active, path)| == 1
    requires IDsAt(b, active, path)[0] in IDsOn(b, active, done)
    ensures !Usable(b, active)
  {
    hide IDsAt, Suspicious;
    var id := IDsAt(b, active, path)[0];
    IDsAtMembers(b, active, path);
    assert MatchedOn(b, active, path, id);
    var i :| 0 <= i < |active| && IsMatch(b, active[i], path, id);
    var l :| l in active && Wanted(b, l) && l.path in done && l.id == id;
    var j :| 0 <= j < |active| && active[j] == l;
    if i < j {
      assert Ambiguous(b, active, i, j);
    } else {
      assert Ambiguous(b, active, j, i);
    }
  }

  lemma OneMatch(b: Binding, active: seq<Lease>, done: set<string>, path: string)
    requires path in b.paths && path !in done && Clear(b, active, done) && |IDsAt(b, active, path)| == 1
    requires IDsAt(b, active, path)[0] !in IDsOn(b, active, done)
    ensures Clear(b, active, done + {path})
    ensures IDsOn(b, active, done + {path}) == IDsOn(b, active, done) + {IDsAt(b, active, path)[0]}
    ensures PathsOn(b, active, done + {path}) == PathsOn(b, active, done) + {path}
  {
    hide IDsAt, Bound;
    var id := IDsAt(b, active, path)[0];
    IDsAtMembers(b, active, path);
    assert MatchedOn(b, active, path, id);
    var i :| 0 <= i < |active| && IsMatch(b, active[i], path, id);
    forall j | 0 <= j < |active| && Wanted(b, active[j]) && active[j].path == path
      ensures j == i
    {
      assert IsMatch(b, active[i], path, active[i].id) && IsMatch(b, active[j], path, active[j].id);
    }
    forall j, k | 0 <= j < k < |active| && active[j].path in done + {path} && active[k].path in done + {path}
      ensures !Ambiguous(b, active, j, k)
    {
      if Wanted(b, active[j]) && Wanted(b, active[k]) && (j == i || k == i) {
        assert active[j].path in done ==> active[j].id in IDsOn(b, active, done);
        assert active[k].path in done ==> active[k].id in IDsOn(b, active, done);
      }
    }
    assert forall l :: l in active && Wanted(b, l) && l.path == path ==> l == active[i];
    assert Wanted(b, active[i]) && active[i].path in done + {path};
  }

  lemma NoMatch(b: Binding, active: seq<Lease>, done: set<string>, path: string)
    requires path in b.paths && Clear(b, active, done) && IDsAt(b, active, path) == []
    ensures Clear(b, active, done + {path}) && IDsOn(b, active, done + {path}) == IDsOn(b, active, done)
    ensures PathsOn(b, active, done + {path}) == PathsOn(b, active, done)
  {
    hide IDsAt;
    IDsAtMembers(b, active, path);
    forall j | 0 <= j < |active| && Wanted(b, active[j])
      ensures active[j].path != path
    {
      assert !MatchedOn(b, active, path, active[j].id);
      assert !IsMatch(b, active[j], path, active[j].id);
    }
  }

  // ---------- ReleaseExactForBead ----------

  const RECONCILIATION_LIMIT := 3

  // One exchange with the server: what it listed, and the IDs then passed to release (none, on the last listing).
  datatype Exchange = Exchange(listing: seq<Lease>, released: set<int>)

  /** What a whole call may have said to the server: IDs it released were each time exactly the live leases bound to
      this bead that it was asked for and that the listing just before showed. */
  predicate Honest(b: Binding, exchanges: seq<Exchange>) {
    forall i :: 0 <= i < |exchanges| ==>
      Usable(b, exchanges[i].listing) && exchanges[i].released == WantedIDs(b, exchanges[i].listing)
          && exchanges[i].released != {}
  }

  // The ledger row, the agent it reserved as and the bead it names, once a clear barrier stands on it.
  function BarrierBinding(row: Option<Assignment>): Result<(string, string), ReleaseError> {
    if row.None? || row.value.clear.state.ClearStateNone? then Err(NoBarrier)
    else
      var agent := if row.value.reservation.lease.agentName != "" then row.value.reservation.lease.agentName
          else row.value.intent.agentName;
      if row.value.intent.beadID == "" || agent == "" then Err(NoBarrier) else Ok((row.value.intent.beadID, agent))
  }

  method NormalizeIDs(ids: seq<int>) returns (r: Result<set<int>, ReleaseError>)
    ensures r.Ok? <==> (forall i :: 0 <= i < |ids| ==> ids[i] > 0) && forall i, j :: 0 <= i < j < |ids| ==> ids[i] != ids[j]
    ensures r.Ok? ==> r.value == set id | id in ids
  {
    var result: set<int> := {};
    for i := 0 to |ids|
      invariant forall k :: 0 <= k < i ==> ids[k] > 0
      invariant forall k, l :: 0 <= k < l < i ==> ids[k] != ids[l]
      invariant forall id :: id in result <==> id in ids[..i]
    {
      if ids[i] <= 0 {
        assert ids[i] in ids;
        return Err(InvalidID);
      }
      if ids[i] in result {
        var k :| 0 <= k < i && ids[k] == ids[i];
        assert ids[k] == ids[i];
        return Err(InvalidID);
      }
      result := result + {ids[i]};
    }
    assert ids[..|ids|] == ids;
    assert forall id :: id in result <==> id in ids;
    return Ok(result);
  }

  // The paths that are not blank.
  function Named(paths: seq<string>): set<string> {
    set path | path in paths && path != ""
  }

  method NormalizePaths(paths: seq<string>) returns (result: set<string>)
    ensures result == Named(paths)
  {
    result := {};
    for i := 0 to |paths|
      invariant result == Named(paths[..i])
    {
      assert paths[..i + 1] == paths[..i] + [paths[i]];
      if paths[i] != "" {
        result := result + {paths[i]};
      }
    }
    assert paths[..|paths|] == paths;
  }

  // The agent a row's leases were reserved under.
  function LeaseHolder(row: Assignment): string {
    if row.reservation.lease.agentName == "" then row.intent.agentName else row.reservation.lease.agentName
  }

  // A lease the server shows as this row's: of the project, under its agent, for its bead.
  predicate ShownAsOf(row: Assignment, projectID: int, l: Lease) {
    l.projectID == projectID && l.agent == LeaseHolder(row) && l.reason == "bead assignment: " + row.intent.beadID
  }

  // A call that may not ask the server for anything at all.
  predicate Unfounded(row: Option<Assignment>, projectID: Option<int>, ids: seq<int>) {
    || row.None? || row.value.clear.state.ClearStateNone? || row.value.intent.beadID == "" || LeaseHolder(row.value) == ""
    || projectID.None?
    || (exists i :: 0 <= i < |ids| && (ids[i] <= 0 || exists j :: 0 <= j < i && ids[j] == ids[i]))
  }

  // A live lease of the row that was asked for: by its path if paths were given, otherwise by its ID.
  predicate AskedFor(row: Assignment, projectID: int, ids: seq<int>, paths: seq<string>, l: Lease) {
    && !l.released && l.id > 0 && ShownAsOf(row, projectID, l)
    && if Named(paths) == {} then l.id in ids else l.path in Named(paths)
  }

  // A listing that leaves no doubt about what was asked for: no live lease with a requested ID is another's or on a path
  // that was not requested, none of the row's on a requested path lacks an ID, and no two of them share a path or an ID.
  predicate BeyondDoubt(row: Assignment, projectID: int, ids: seq<int>, paths: seq<string>, listing: seq<Lease>) {
    && (forall l :: l in listing && !l.released && l.id in ids ==>
          ShownAsOf(row, projectID, l) && l.id > 0 && (Named(paths) == {} || l.path in Named(paths)))
    && (forall l :: l in listing && !l.released && l.path in Named(paths) && ShownAsOf(row, projectID, l) ==> l.id > 0)
    && (forall i, j :: 0 <= i < j < |listing| && Named(paths) != {} && AskedFor(row, projectID, ids, paths, listing[i])
                       && AskedFor(row, projectID, ids, paths, listing[j]) ==>
          listing[i].path != listing[j].path && listing[i].id != listing[j].id)
  }

  lemma BindingOfRow(row: Assignment, projectID: int, ids: seq<int>, paths: seq<string>, b: Binding, listing: seq<Lease>)
    requires b == Binding(projectID, LeaseHolder(row), "bead assignment: " + row.intent.beadID, (set id | id in ids),
                          Named(paths))
    ensures Usable(b, listing) <==> BeyondDoubt(row, projectID, ids, paths, listing)
    ensures forall l :: Wanted(b, l) <==> AskedFor(row, projectID, ids, paths, l)
    ensures forall id :: id in WantedIDs(b, listing) <==>
                           exists l :: l in listing && AskedFor(row, projectID, ids, paths, l) && l.id == id
    ensures forall path :: path in WantedPaths(b, listing) <==>
                             && path != ""
                             && exists l :: l in listing && AskedFor(row, projectID, ids, paths, l) && l.path == path
  {
    hide LeaseHolder;
    assert forall l :: Wanted(b, l) <==> AskedFor(row, projectID, ids, paths, l);
    if Usable(b, listing) {
      forall l | l in listing
        ensures !Suspicious(b, l)
      {
      }
      forall i, j | 0 <= i < j < |listing| && Named(paths) != {}
        ensures !(AskedFor(row, projectID, ids, paths, listing[i]) && AskedFor(row, projectID, ids, paths, listing[j])
                  && (listing[i].path == listing[j].path || listing[i].id == listing[j].id))
      {
        assert !Ambiguous(b, listing, i, j);
      }
    }
    if BeyondDoubt(row, projectID, ids, paths, listing) {
      forall i | 0 <= i < |listing|
        ensures !Suspicious(b, listing[i])
      {
        assert listing[i] in listing;
      }
    }
  }

  // The call may end well on the k-th listing: no listing up to it failed or leaves doubt, and it is the first that shows
  // nothing live of what was asked for.
  ghost predicate SettledBy(row: Assignment, projectID: int, ids: seq<int>, paths: seq<string>,
                            listings: seq<Option<seq<Lease>>>, k: nat)
    requires k < |listings|
  {
    && (forall i :: 0 <= i <= k ==> listings[i].Some? && BeyondDoubt(row, projectID, ids, paths, listings[i].value))
    && (forall i :: 0 <= i < k ==> exists l :: l in listings[i].value && AskedFor(row, projectID, ids, paths, l))
    && (forall l :: l in listings[k].value ==> !AskedFor(row, projectID, ids, paths, l))
  }

  /** `listings` are the server's successive answers, None a failed listing. Nothing is asked of the server without a clear
      barrier, a holder, a project and good IDs. Each release, three at most, names exactly the IDs of the live leases of
      this row that were asked for and that an undoubted listing just showed. The call ends well if and only if one of
      the four listings settles it, and it then reports the paths of what it released. */
  method ReleaseExact(row: Option<Assignment>, projectID: Option<int>, ids: seq<int>, paths: seq<string>,
                      listings: seq<Option<seq<Lease>>>)
    returns (r: Result<set<string>, ReleaseError>, exchanges: seq<Exchange>, b: Binding)
    requires |listings| == RECONCILIATION_LIMIT + 1
    ensures Unfounded(row, projectID, ids) ==> r.Err? && exchanges == []
    ensures !Unfounded(row, projectID, ids) && ids == [] && Named(paths) == {} ==> r == Ok({}) && exchanges == []
    ensures |exchanges| <= 3
    ensures !Unfounded(row, projectID, ids) ==>
              forall i :: 0 <= i < |exchanges| ==>
                && listings[i] == Some(exchanges[i].listing)
                && BeyondDoubt(row.value, projectID.value, ids, paths, exchanges[i].listing)
                && (forall id :: id in exchanges[i].released <==>
                      exists l :: l in exchanges[i].listing && AskedFor(row.value, projectID.value, ids, paths, l)
                                  && l.id == id)
    ensures !Unfounded(row, projectID, ids) && (ids != [] || Named(paths) != {}) ==>
              && (r.Ok? <==> exists k :: 0 <= k <= 3 && SettledBy(row.value, projectID.value, ids, paths, listings, k))
              && (r.Ok? ==>
                    && SettledBy(row.value, projectID.value, ids, paths, listings, |exchanges|)
                    && (forall path :: path in r.value <==>
                          && path != ""
                          && exists i, l :: 0 <= i < |exchanges| && l in exchanges[i].listing
                                            && AskedFor(row.value, projectID.value, ids, paths, l) && l.path == path))
              && b == Binding(projectID.value, LeaseHolder(row.value), "bead assignment: " + row.value.intent.beadID,
                              (set id | id in ids), Named(paths))
              && (r.Ok? ==> Confirmed(b, listings[|exchanges|].value))
  {
    hide Honest, Confirmed, ReleasedBy, BeyondDoubt, SettledBy, Usable, AskedFor;
    exchanges, b := [], Binding(0, "", "", {}, {});
    var binding := BarrierBinding(row);
    if binding.Err? {
      return Err(binding.error), exchanges, b;
    }
    if projectID.None? {
      return Err(NoProject), exchanges, b;
    }
    var wantedIDs := NormalizeIDs(ids);
    if wantedIDs.Err? {
      return Err(wantedIDs.error), exchanges, b;
    }
    assert ids != [] ==> ids[0] in wantedIDs.value;
    var wantedPaths := NormalizePaths(paths);
    if wantedIDs.value == {} && wantedPaths == {} {
      return Ok({}), exchanges, b;
    }
    b := Binding(projectID.value, binding.value.1, "bead assignment: " + binding.value.0, wantedIDs.value, wantedPaths);
    r, exchanges := ReleaseBound(b, listings);
    BoundIsOfRow(row.value, projectID.value, ids, paths, b, listings, r, exchanges);
  }

  // How the loop ended, read in terms of the row.
  lemma BoundIsOfRow(row: Assignment, projectID: int, ids: seq<int>, paths: seq<string>, b: Binding,
                     listings: seq<Option<seq<Lease>>>, r: Result<set<string>, ReleaseError>, exchanges: seq<Exchange>)
    requires |listings| == RECONCILIATION_LIMIT + 1
    requires b == Binding(projectID, LeaseHolder(row), "bead assignment: " + row.intent.beadID, (set id | id in ids),
                          Named(paths))
    requires EndedAs(b, listings, r, exchanges)
    ensures forall i :: 0 <= i < |exchanges| ==>
              && BeyondDoubt(row, projectID, ids, paths, exchanges[i].listing)
              && (forall id :: id in exchanges[i].released <==>
                    exists l :: l in exchanges[i].listing && AskedFor(row, projectID, ids, paths, l) && l.id == id)
    ensures r.Ok? <==> exists k :: 0 <= k <= 3 && SettledBy(row, projectID, ids, paths, listings, k)
    ensures r.Ok? ==>
              && SettledBy(row, projectID, ids, paths, listings, |exchanges|)
              && (forall path :: path in r.value <==>
                    path != "" && exists i, l :: 0 <= i < |exchanges| && l in exchanges[i].listing
                                                 && AskedFor(row, projectID, ids, paths, l) && l.path == path)
  {
    hide BeyondDoubt, Usable, AskedFor, Wanted, WantedIDs, WantedPaths;
    forall i | 0 <= i <= 3 && listings[i].Some?
      ensures Usable(b, listings[i].value) <==> BeyondDoubt(row, projectID, ids, paths, listings[i].value)
      ensures forall l :: Wanted(b, l) <==> AskedFor(row, projectID, ids, paths, l)
      ensures forall id :: id in WantedIDs(b, listings[i].value) <==>
                exists l :: l in listings[i].value && AskedFor(row, projectID, ids, paths, l) && l.id == id
      ensures forall path :: path in WantedPaths(b, listings[i].value) <==>
                path != "" && exists l :: l in listings[i].value && AskedFor(row, projectID, ids, paths, l) && l.path == path
    {
      BindingOfRow(row, projectID, ids, paths, b, listings[i].value);
    }
    forall i | 0 <= i < |exchanges|
      ensures exists l :: l in listings[i].value && AskedFor(row, projectID, ids, paths, l)
    {
      var id :| id in exchanges[i].released;
      assert id in WantedIDs(b, listings[i].value);
    }
    assert forall i :: 0 <= i < |exchanges| ==>
             listings[i].Some? && BeyondDoubt(row, projectID, ids, paths, listings[i].value);
    if r.Ok? {
      var last := listings[|exchanges|].value;
      assert BeyondDoubt(row, projectID, ids, paths, last);
      assert forall l :: l in last ==> !AskedFor(row, projectID, ids, paths, l);
      assert SettledBy(row, projectID, ids, paths, listings, |exchanges|);
    }
    if r.Err? {
      forall k | 0 <= k <= 3
        ensures !SettledBy(row, projectID, ids, paths, listings, k)
      {
        if k < |exchanges| {
          var id :| id in exchanges[k].released;
          assert id in WantedIDs(b, listings[k].value);
        } else if listings[|exchanges|].Some? && Usable(b, listings[|exchanges|].value) {
          var id :| id in WantedIDs(b, listings[|exchanges|].value);
        }
      }
    }
  }

  // The paths released by a list of exchanges.
  ghost predicate ReleasedBy(b: Binding, exchanges: seq<Exchange>, path: string) {
    exists i :: 0 <= i < |exchanges| && path in WantedPaths(b, exchanges[i].listing)
  }

  ghost predicate EndedAs(b: Binding, listings: seq<Option<seq<Lease>>>, r: Result<set<string>, ReleaseError>,
                          exchanges: seq<Exchange>)
    requires |listings| == RECONCILIATION_LIMIT + 1
  {
    && Honest(b, exchanges) && |exchanges| <= RECONCILIATION_LIMIT
    && (forall i :: 0 <= i < |exchanges| ==> listings[i] == Some(exchanges[i].listing))
    && match r
       case Ok(released) =>
         && listings[|exchanges|].Some? && Confirmed(b, listings[|exchanges|].value)
         && forall path :: path in released <==> ReleasedBy(b, exchanges, path)
       case Err(_) =>
         || listings[|exchanges|].None? || !Usable(b, listings[|exchanges|].value)
         || (|exchanges| == RECONCILIATION_LIMIT && WantedIDs(b, listings[|exchanges|].value) != {})
  }

  /** The loop: list, select, release, and list again, up to the limit; only a listing that confirms ends it well. */
  method ReleaseBound(b: Binding, listings: seq<Option<seq<Lease>>>)
    returns (r: Result<set<string>, ReleaseError>, exchanges: seq<Exchange>)
    requires |listings| == RECONCILIATION_LIMIT + 1 && "" !in b.paths
    ensures EndedAs(b, listings, r, exchanges)
  {
    hide Usable, Wanted, WantedPaths;
    exchanges := [];
    var releasedPaths: set<string> := {};
    for attempt := 0 to RECONCILIATION_LIMIT
      invariant |exchanges| == attempt && Honest(b, exchanges)
      invariant forall i :: 0 <= i < |exchanges| ==> listings[i] == Some(exchanges[i].listing)
      invariant forall path :: path in releasedPaths <==> ReleasedBy(b, exchanges, path)
    {
      if listings[attempt].None? {
        return Err(ListingFailed), exchanges;
      }
      var selected := SelectExact(b, listings[attempt].value);
      if selected.Err? {
        return Err(selected.error), exchanges;
      }
      if selected.value.ids == {} {
        NothingWanted(b, listings[attempt].value);
        return Ok(releasedPaths), exchanges;
      }
      var exchange := Exchange(listings[attempt].value, selected.value.ids);
      ReleasedStep(b, exchanges, exchange);
      releasedPaths := releasedPaths + selected.value.paths;
      exchanges := exchanges + [exchange];
    }
    var remaining := listings[RECONCILIATION_LIMIT];
    if remaining.None? {
      return Err(ListingFailed), exchanges;
    }
    var selected := SelectExact(b, remaining.value);
    if selected.Err? {
      return Err(selected.error), exchanges;
    }
    if selected.value.ids != {} {
      return Err(StillActive), exchanges;
    }
    NothingWanted(b, remaining.value);
    return Ok(releasedPaths), exchanges;
  }

  lemma ReleasedStep(b: Binding, exchanges: seq<Exchange>, e: Exchange)
    ensures forall path :: ReleasedBy(b, exchanges + [e], path) <==>
                           ReleasedBy(b, exchanges, path) || path in WantedPaths(b, e.listing)
  {
    hide WantedPaths;
    var more := exchanges + [e];
    forall path
      ensures ReleasedBy(b, more, path) <==> ReleasedBy(b, exchanges, path) || path in WantedPaths(b, e.listing)
    {
      if i :| 0 <= i < |exchanges| && path in WantedPaths(b, exchanges[i].listing) {
        assert path in WantedPaths(b, more[i].listing);
      }
      if path in WantedPaths(b, e.listing) {
        assert path in WantedPaths(b, more[|exchanges|].listing);
      }
      if i :| 0 <= i < |more| && path in WantedPaths(b, more[i].listing) {
        assert i < |exchanges| ==> path in WantedPaths(b, exchanges[i].listing);
      }
    }
  }

  lemma NothingExchanged()
    ensures forall b :: Honest(b, [])
  {
  }

  lemma NothingWanted(b: Binding, active: seq<Lease>)
    requires WantedIDs(b, active) == {}
    ensures forall l :: l in active ==> !Wanted(b, l)
  {
    forall l | l in active && Wanted(b, l)
      ensures l.id in WantedIDs(b, active)
    {
    }
  }
}
