/**
 The loops behind the receipt checks of internal/assignment/atomic.go, each proved
 to decide exactly the property AssignmentPolicy states about it.
 */
module ReceiptChecks {
  import opened Wrappers
  import opened AssignmentTypes
  import opened AssignmentPolicy
  import opened AssignmentTransitions

  // ---------- Sequences as sets ----------

  lemma {:induction false} DistinctCount<T>(s: seq<T>)
    requires NoDuplicates(s)
    ensures |Elements(s)| == |s|
  {
    if s != [] {
      DistinctCount(s[1..]);
      assert Elements(s) == {s[0]} + Elements(s[1..]);
    }
  }

  // Equally long duplicate-free lists, one inside the other, hold the same elements.
  lemma SameLengthInclusion<T>(left: seq<T>, right: seq<T>)
    requires NoDuplicates(left) && NoDuplicates(right) && |left| == |right|
    requires forall x :: x in left ==> x in right
    ensures Elements(left) == Elements(right)
  {
    DistinctCount(left);
    DistinctCount(right);
    var a, b := Elements(left), Elements(right);
    assert a + (b - a) == b && |a + (b - a)| == |a| + |b - a|;
  }

  // ---------- normalizedUniqueReservationPaths / IDs ----------

  /** Keeps the first occurrence of every acceptable element, in order, and says whether that was all of them. */
  method NormalizedUnique<T(==)>(items: seq<T>, acceptable: T -> bool) returns (result: seq<T>, ok: bool)
    ensures ok <==> (forall x :: x in items ==> acceptable(x)) && NoDuplicates(items)
    ensures ok ==> result == items
    ensures NoDuplicates(result) && forall x :: x in result <==> x in items && acceptable(x)
  {
    result, ok := [], true;
    var seen: set<T> := {};
    for i := 0 to |items|
      invariant ok <==> (forall x :: x in items[..i] ==> acceptable(x)) && NoDuplicates(items[..i])
      invariant ok ==> result == items[..i]
      invariant NoDuplicates(result) && forall x :: x in result <==> x in items[..i] && acceptable(x)
      invariant seen == Elements(result)
    {
      var item := items[i];
      assert items[..i + 1] == items[..i] + [item];
      if !acceptable(item) || item in seen {
        assert !acceptable(item) || exists j :: 0 <= j < i && items[j] == item;
        ok := false;
      } else {
        seen := seen + {item};
        result := result + [item];
      }
    }
    assert items[..|items|] == items;
  }

  method NormalizedUniquePaths(paths: seq<string>) returns (result: seq<string>, ok: bool)
    ensures ok <==> NormalizedPaths(paths)
    ensures ok ==> result == paths
    ensures NoDuplicates(result) && forall x :: x in result <==> x in paths && x != ""
  {
    result, ok := NormalizedUnique(paths, (path: string) => path != "");
  }

  method NormalizedUniqueIDs(ids: seq<int>) returns (result: seq<int>, ok: bool)
    ensures ok <==> NormalizedIDs(ids)
    ensures ok ==> result == ids
    ensures NoDuplicates(result) && forall x :: x in result <==> x in ids && x > 0
  {
    result, ok := NormalizedUnique(ids, id => id > 0);
  }

  // reservationPathDifference
  method Difference<T(==)>(left: seq<T>, right: seq<T>) returns (difference: seq<T>)
    ensures forall x :: x in difference <==> x in left && x !in right
  {
    difference := [];
    for i := 0 to |left|
      invariant forall x :: x in difference <==> x in left[..i] && x !in right
    {
      if left[i] !in right {
        difference := difference + [left[i]];
      }
    }
  }

  // sameReservationPathSet, on lists without duplicates.
  method SameElements<T(==)>(left: seq<T>, right: seq<T>) returns (same: bool)
    requires NoDuplicates(left) && NoDuplicates(right)
    ensures same <==> Elements(left) == Elements(right)
  {
    var difference := Difference(left, right);
    same := |left| == |right| && difference == [];
    DistinctCount(left);
    DistinctCount(right);
    if same {
      SameLengthInclusion(left, right);
    } else if difference != [] {
      assert difference[0] in Elements(left) && difference[0] !in Elements(right);
    }
  }

  // ---------- validateRequiredLease ----------

  predicate ProperPaths(paths: seq<string>) {
    "" !in paths && |Elements(paths)| == |paths|
  }

  predicate ProperIDs(ids: seq<int>) {
    (forall id :: id in ids ==> id >= 1) && |Elements(ids)| == |ids|
  }

  // What a required reservation must have granted: the requested paths, or, left to the service, the ones it chose; all
  // of them and no others, each named once, under at least one ID, and for longer than until now.
  ghost predicate GrantsAll(req: AtomicRequest, lease: LeaseReceipt, now: Time) {
    var chosen := req.requestedPaths == [] && req.allowReservationDiscovery;
    && ProperPaths(req.requestedPaths) && ProperPaths(lease.requested) && ProperPaths(lease.granted)
    && lease.granted != [] && lease.reservationIDs != [] && ProperIDs(lease.reservationIDs)
    && (forall path :: path in lease.granted <==> path in lease.requested)
    && (!chosen ==> forall path :: path in lease.granted <==> path in req.requestedPaths)
    && lease.expiresAt.Some? && now < lease.expiresAt.value
  }

  lemma {:induction false} FewerThanListed<T>(s: seq<T>)
    ensures |Elements(s)| <= |s| && (|Elements(s)| == |s| ==> NoDuplicates(s))
  {
    if s != [] {
      FewerThanListed(s[1..]);
      assert Elements(s) == {s[0]} + Elements(s[1..]);
    }
  }

  lemma DistinctByCount<T>(s: seq<T>)
    ensures NoDuplicates(s) <==> |Elements(s)| == |s|
  {
    FewerThanListed(s);
    if NoDuplicates(s) {
      DistinctCount(s);
    }
  }

  lemma RequiredLeaseGrantsAll(req: AtomicRequest, lease: LeaseReceipt, now: Time)
    ensures ValidRequiredLease(req, lease, now) <==> GrantsAll(req, lease, now)
  {
    hide NoDuplicates;
    DistinctByCount(req.requestedPaths);
    DistinctByCount(lease.requested);
    DistinctByCount(lease.granted);
    DistinctByCount(lease.reservationIDs);
    assert forall path :: path in lease.granted <==> path in Elements(lease.granted);
    assert forall path :: path in lease.requested <==> path in Elements(lease.requested);
    assert forall path :: path in req.requestedPaths <==> path in Elements(req.requestedPaths);
    if lease.granted != [] {
      assert lease.granted[0] in lease.granted;
    }
    if ExpectedPaths(req, lease) != [] {
      assert ExpectedPaths(req, lease)[0] in ExpectedPaths(req, lease);
    }
  }

  /** Accepts a receipt for a required reservation exactly when it grants all that was asked for. */
  method ValidateRequiredLease(req: AtomicRequest, lease: LeaseReceipt, now: Time) returns (ok: bool)
    ensures ok <==> GrantsAll(req, lease, now)
    ensures ok <==> ValidRequiredLease(req, lease, now)
  {
    hide GrantsAll;
    RequiredLeaseGrantsAll(req, lease, now);
    var explicit, explicitOk := NormalizedUniquePaths(req.requestedPaths);
    var receiptRequested, requestedOk := NormalizedUniquePaths(lease.requested);
    ok := explicitOk && requestedOk;
    var expected := explicit;
    if req.allowReservationDiscovery && explicit == [] {
      expected := receiptRequested;
    } else if requestedOk {
      var same := SameElements(explicit, receiptRequested);
      ok := ok && same;
    }
    if expected == [] {
      ok := false;
    }
    var granted, grantedOk := NormalizedUniquePaths(lease.granted);
    ok := ok && grantedOk;
    if grantedOk {
      var same := SameElements(expected, granted);
      ok := ok && same;
    }
    var ids, idsOk := NormalizedUniqueIDs(lease.reservationIDs);
    ok := ok && idsOk && ids != [];
    if lease.expiresAt.None? || lease.expiresAt.value <= now {
      ok := false;
    }
  }

  // ---------- Pane IDs ----------

  predicate AllDigits(s: string) {
    forall i :: 0 <= i < |s| ==> '0' <= s[i] <= '9'
  }

  lemma DigitOf(k: nat)
    requires k < 10
    ensures '0' <= "0123456789"[k] <= '9' && "0123456789"[k] as int - '0' as int == k
  {
    assert k == 0 || k == 1 || k == 2 || k == 3 || k == 4 || k == 5 || k == 6 || k == 7 || k == 8 || k == 9;
  }

  // Both readings, digit by digit.
  lemma ValueStep(s: string, c: char)
    requires '0' <= c <= '9'
    ensures DigitsValue(s + [c]) == 10 * DigitsValue(s) + (c as int - '0' as int)
  {
    assert (s + [c])[..|s + [c]| - 1] == s;
  }

  lemma DecimalStep(front: nat, k: nat)
    requires k < 10
    ensures Decimal(10 * front + k) == (if front == 0 then "" else Decimal(front)) + ["0123456789"[k]]
  {
    var n := 10 * front + k;
    assert n / 10 == front && n % 10 == k;
  }

  lemma {:induction false} DecimalReadsBack(n: nat)
    ensures Decimal(n) != "" && AllDigits(Decimal(n)) && DigitsValue(Decimal(n)) == n
    ensures |Decimal(n)| > 1 ==> Decimal(n)[0] != '0'
    ensures Decimal(n)[0] == '0' ==> n == 0
  {
    hide Decimal, DigitsValue;
    var front, k := n / 10, n % 10;
    DigitOf(k);
    DecimalStep(front, k);
    if front == 0 {
      assert "" + ["0123456789"[k]] == ["0123456789"[k]];
      ValueStep("", "0123456789"[k]);
      NoDigits();
    } else {
      DecimalReadsBack(front);
      ValueStep(Decimal(front), "0123456789"[k]);
    }
  }

  lemma NoDigits()
    ensures DigitsValue("") == 0
  {
  }

  lemma {:induction false} DigitsAreDecimal(s: string)
    requires s != "" && AllDigits(s) && !(|s| > 1 && s[0] == '0')
    ensures Decimal(DigitsValue(s)) == s && (s[0] != '0' ==> DigitsValue(s) > 0)
  {
    hide Decimal, DigitsValue;
    var front, last := s[..|s| - 1], s[|s| - 1];
    assert s == front + [last];
    var k := last as int - '0' as int;
    DigitOf(k);
    assert "0123456789"[k] == last;
    ValueStep(front, last);
    NoDigits();
    DecimalStep(DigitsValue(front), k);
    if front != "" {
      DigitsAreDecimal(front);
    }
  }

  /** Pane IDs are canonical: a string is one exactly when it is a percent sign and the decimal form of an unsigned 64-bit
      number, so equal panes have equal IDs. */
  lemma PaneIDs(s: string)
    ensures IsPhysicalPane(s) <==> exists n: nat :: n < 0x1_0000_0000_0000_0000 && s == "%" + Decimal(n)
  {
    hide Decimal, DigitsValue;
    if IsPhysicalPane(s) {
      var digits := s[1..];
      assert digits[0] == s[1] && AllDigits(digits);
      DigitsAreDecimal(digits);
      assert s == "%" + Decimal(DigitsValue(digits));
    }
    if n: nat :| n < 0x1_0000_0000_0000_0000 && s == "%" + Decimal(n) {
      DecimalReadsBack(n);
      assert s[1..] == Decimal(n);
      assert forall i :: 1 <= i < |s| ==> s[i] == Decimal(n)[i - 1];
    }
  }

  // ---------- activeAssignmentForTarget ----------

  // The row holds on to a pane, and that may be this one: it names this one, or it names none.
  predicate MayHold(row: Assignment, pane: string) {
    var named := if row.intent.occupancyKey == "" then row.intent.dispatchTarget else row.intent.occupancyKey;
    && (|| row.status in {StatusClaiming, StatusClaimed, StatusAssigned, StatusWorking}
        || row.dispatch.state == DispatchSending || row.clear.state != ClearStateNone)
    && (named == pane || !IsPhysicalPane(named))
  }

  lemma BlocksIsMayHold(row: Assignment, pane: string)
    ensures Blocks(row, pane) <==> MayHold(row, pane)
  {
    hide DigitsValue;
  }

  /** Finds an assignment of another bead that ties up the pane, or an active one whose pane is ambiguous. */
  method ActiveAssignmentForTarget(ledger: Ledger, beadID: string, pane: string) returns (blocker: Option<string>)
    ensures blocker.Some? <==> exists b :: b in ledger && b != beadID && MayHold(ledger[b], pane)
    ensures blocker.Some? ==> blocker.value in ledger && blocker.value != beadID && MayHold(ledger[blocker.value], pane)
    ensures blocker.Some? <==> OccupancyBlocked(ledger, beadID, pane)
  {
    hide MayHold;
    forall b | b in ledger
      ensures Blocks(ledger[b], pane) <==> MayHold(ledger[b], pane)
    {
      BlocksIsMayHold(ledger[b], pane);
    }
    var todo := ledger.Keys;
    while todo != {}
      invariant todo <= ledger.Keys
      invariant forall b :: b in ledger.Keys - todo && b != beadID ==> !Blocks(ledger[b], pane)
      decreases |todo|
    {
      var candidate :| candidate in todo;
      todo := todo - {candidate};
      if candidate != beadID {
        var row := ledger[candidate];
        var active := row.dispatch.state.DispatchSending? || row.clear.state != ClearStateNone;
        if IsLive(row.status) {
          active := true;
        }
        if active {
          var identity := CanonicalPaneIdentity(row);
          if identity.None? || identity.value == pane {
            return Some(candidate);
          }
        }
      }
    }
    return None;
  }

  // ---------- validateWorkingReplacementReleaseReceipt ----------

  // The receipt names every path the row was granted, asked for or was given, and every ID it stores; nothing else, and
  // nothing twice.
  ghost predicate NamesAll(row: Assignment, paths: seq<string>, ids: seq<int>) {
    var lease := row.reservation.lease;
    && ProperPaths(paths) && ProperIDs(ids)
    && ProperPaths(lease.granted) && ProperPaths(lease.requested) && ProperPaths(row.intent.reservationInputPaths)
    && ProperIDs(lease.reservationIDs)
    && (forall path :: path in paths <==>
          path in lease.granted || path in lease.requested || path in row.intent.reservationInputPaths)
    && (forall id :: id in ids <==> id in lease.reservationIDs)
  }

  lemma SameMembers<T>(s: seq<T>, t: seq<T>)
    ensures Elements(s) == Elements(t) <==> forall x :: x in s <==> x in t
  {
    if Elements(s) == Elements(t) {
      forall x
        ensures x in s <==> x in t
      {
        assert x in s <==> x in Elements(s);
        assert x in t <==> x in Elements(t);
      }
    }
  }

  lemma ReceiptNamesAll(row: Assignment, paths: seq<string>, ids: seq<int>)
    ensures ValidReleaseReceipt(row, paths, ids) <==> NamesAll(row, paths, ids)
  {
    hide NoDuplicates;
    var lease, given := row.reservation.lease, row.intent.reservationInputPaths;
    DistinctByCount(paths);
    DistinctByCount(ids);
    DistinctByCount(lease.granted);
    DistinctByCount(lease.requested);
    DistinctByCount(given);
    DistinctByCount(lease.reservationIDs);
    var known := lease.granted + lease.requested + given;
    SameMembers(paths, known);
    assert Elements(known) == Elements(lease.granted) + Elements(lease.requested) + Elements(given);
    assert forall path :: path in known <==> path in lease.granted || path in lease.requested || path in given;
    SameMembers(ids, lease.reservationIDs);
    if NamesAll(row, paths, ids) {
      forall path
        ensures path in paths <==> path in known
      {
      }
      forall id
        ensures id in Elements(ids) <==> id in Elements(lease.reservationIDs)
      {
        assert id in ids <==> id in lease.reservationIDs;
      }
      assert Elements(ids) == Elements(lease.reservationIDs);
    }
    if ValidReleaseReceipt(row, paths, ids) {
      forall path
        ensures path in paths <==> path in lease.granted || path in lease.requested || path in given
      {
        assert path in paths <==> path in known;
      }
    }
  }

  /** A release receipt is accepted exactly when it names all and only the durable paths and IDs of the row. */
  method ValidateReleaseReceipt(current: Assignment, paths: seq<string>, ids: seq<int>) returns (ok: bool)
    ensures ok <==> NamesAll(current, paths, ids)
    ensures ok <==> ValidReleaseReceipt(current, paths, ids)
  {
    hide NamesAll;
    ReceiptNamesAll(current, paths, ids);
    var released, releasedOk := NormalizedUniquePaths(paths);
    var releasedIDs, releasedIDsOk := NormalizedUniqueIDs(ids);
    if !releasedOk || !releasedIDsOk {
      return false;
    }
    var groups := [current.reservation.lease.granted, current.reservation.lease.requested,
        current.intent.reservationInputPaths];
    var known: seq<string> := [];
    for g := 0 to |groups|
      invariant NoDuplicates(known)
      invariant forall k :: 0 <= k < g ==> NormalizedPaths(groups[k])
      invariant forall x :: x in known <==> exists k :: 0 <= k < g && x in groups[k]
    {
      var normalized, groupOk := NormalizedUniquePaths(groups[g]);
      if !groupOk {
        return false;
      }
      known := AppendUnseen(known, normalized);
    }
    assert forall x :: x in known <==> x in groups[0] || x in groups[1] || x in groups[2];
    var same := SameElements(known, released);
    var expectedIDs, expectedIDsOk := NormalizedUniqueIDs(current.reservation.lease.reservationIDs);
    if !same || !expectedIDsOk {
      assert groups[0] == current.reservation.lease.granted && groups[1] == current.reservation.lease.requested
             && groups[2] == current.intent.reservationInputPaths;
      return false;
    }
    ok := SameElements(expectedIDs, releasedIDs);
  }

  method AppendUnseen(known: seq<string>, more: seq<string>) returns (result: seq<string>)
    requires NoDuplicates(known)
    ensures NoDuplicates(result) && forall x :: x in result <==> x in known || x in more
  {
    result := known;
    for i := 0 to |more|
      invariant NoDuplicates(result) && forall x :: x in result <==> x in known || x in more[..i]
    {
      assert more[..i + 1] == more[..i] + [more[i]];
      if more[i] !in result {
        result := result + [more[i]];
      }
    }
  }
}
