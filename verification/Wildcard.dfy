/**
 The basename glob matcher for file reservations (internal/agentmail/tools.go):
 prefix and suffix checks plus one greedy leftmost scan, against what a glob means.
 */
module Wildcard {
  import opened Wrappers

  // ---------- What a pattern means ----------

  /** A star stands for any string; every other character for itself. */
  ghost predicate Glob(path: string, pattern: string) {
    if pattern == "" then path == ""
    else if pattern[0] == '*' then exists k :: 0 <= k <= |path| && Glob(path[k..], pattern[1..])
    else path != "" && path[0] == pattern[0] && Glob(path[1..], pattern[1..])
  }

  // The literal parts between the stars.
  function Split(pattern: string): (parts: seq<string>)
    ensures |parts| >= 1
    ensures '*' in pattern <==> |parts| >= 2
  {
    if pattern == "" then [""]
    else if pattern[0] == '*' then [""] + Split(pattern[1..])
    else
      var rest := Split(pattern[1..]);
      [[pattern[0]] + rest[0]] + rest[1..]
  }

  // The path is the parts, in order, with arbitrary strings between them.
  ghost predicate Joined(path: string, parts: seq<string>)
    requires parts != []
    decreases |parts|
  {
    if |parts| == 1 then path == parts[0]
    else parts[0] <= path && exists k :: |parts[0]| <= k <= |path| && Joined(path[k..], parts[1..])
  }

  /** The parts separated by arbitrary strings are exactly the glob. */
  lemma {:induction false} GlobIsJoined(path: string, pattern: string)
    ensures Glob(path, pattern) <==> Joined(path, Split(pattern))
    decreases |pattern|
  {
    if pattern != "" {
      var parts, rest := Split(pattern), Split(pattern[1..]);
      if pattern[0] == '*' {
        assert parts[1..] == rest;
        forall k | 0 <= k <= |path|
          ensures Glob(path[k..], pattern[1..]) <==> Joined(path[k..], rest)
        {
          GlobIsJoined(path[k..], pattern[1..]);
        }
      } else if path != "" && path[0] == pattern[0] {
        GlobIsJoined(path[1..], pattern[1..]);
        JoinedAfterCharacter(path, pattern[0], rest);
      }
    }
  }

  // A literal character at the front belongs to the first part.
  lemma JoinedAfterCharacter(path: string, c: char, rest: seq<string>)
    requires rest != [] && path != "" && path[0] == c
    ensures Joined(path, [[c] + rest[0]] + rest[1..]) <==> Joined(path[1..], rest)
  {
    var parts := [[c] + rest[0]] + rest[1..];
    if |rest| > 1 {
      assert parts[1..] == rest[1..];
      assert parts[0] <= path <==> rest[0] <= path[1..];
      if Joined(path, parts) {
        var k :| |parts[0]| <= k <= |path| && Joined(path[k..], parts[1..]);
        assert path[1..][k - 1..] == path[k..];
      }
      if Joined(path[1..], rest) {
        var k :| |rest[0]| <= k <= |path[1..]| && Joined(path[1..][k..], rest[1..]);
        assert path[1..][k..] == path[k + 1..];
      }
    }
  }

  // ---------- The scan ----------

  predicate OccursAt(text: string, part: string, i: int) {
    0 <= i && i + |part| <= |text| && text[i..i + |part|] == part
  }

  // strings.Index: the leftmost occurrence.
  method Index(text: string, part: string) returns (at: Option<nat>)
    ensures at.Some? ==> OccursAt(text, part, at.value) && forall i :: 0 <= i < at.value ==> !OccursAt(text, part, i)
    ensures at.None? ==> forall i :: 0 <= i <= |text| ==> !OccursAt(text, part, i)
  {
    var i := 0;
    while i + |part| <= |text|
      invariant forall k :: 0 <= k < i ==> !OccursAt(text, part, k)
    {
      if text[i..i + |part|] == part {
        return Some(i);
      }
      i := i + 1;
    }
    return None;
  }

  // The parts occur one after another, without overlapping.
  ghost predicate InOrder(text: string, parts: seq<string>)
    decreases |parts|
  {
    parts == [] || exists i :: OccursAt(text, parts[0], i) && InOrder(text[i + |parts[0]|..], parts[1..])
  }

  predicate HasSuffix(text: string, suffix: string) {
    |text| >= |suffix| && text[|text| - |suffix|..] == suffix
  }

  // What fits into the end of a text fits into the text.
  lemma {:induction false} InOrderFromEarlier(text: string, parts: seq<string>, k: nat)
    requires k <= |text| && InOrder(text[k..], parts)
    ensures InOrder(text, parts)
    decreases |parts|
  {
    if parts != [] {
      var i :| OccursAt(text[k..], parts[0], i) && InOrder(text[k..][i + |parts[0]|..], parts[1..]);
      assert OccursAt(text, parts[0], k + i);
      assert text[k..][i + |parts[0]|..] == text[k + i + |parts[0]|..];
    }
  }

  // Taking the leftmost occurrence of the next part never loses a way to place the others.
  lemma LeftmostIsSafe(text: string, parts: seq<string>, at: nat)
    requires parts != [] && OccursAt(text, parts[0], at) && forall i :: 0 <= i < at ==> !OccursAt(text, parts[0], i)
    ensures InOrder(text, parts) <==> InOrder(text[at + |parts[0]|..], parts[1..])
  {
    if InOrder(text, parts) {
      var i :| OccursAt(text, parts[0], i) && InOrder(text[i + |parts[0]|..], parts[1..]);
      var after := text[at + |parts[0]|..];
      assert after[i - at..] == text[i + |parts[0]|..];
      InOrderFromEarlier(after, parts[1..], i - at);
    }
  }

  lemma {:induction false} JoinedIsInOrder(path: string, parts: seq<string>)
    requires parts != [] && Joined(path, parts)
    ensures InOrder(path, parts)
    decreases |parts|
  {
    assert OccursAt(path, parts[0], 0);
    if |parts| > 1 {
      var n := |parts[0]|;
      var k :| n <= k <= |path| && Joined(path[k..], parts[1..]);
      JoinedIsInOrder(path[k..], parts[1..]);
      assert path[n..][k - n..] == path[k..];
      InOrderFromEarlier(path[n..], parts[1..], k - n);
    }
  }

  lemma {:induction false} JoinedEndsInLast(path: string, parts: seq<string>)
    requires parts != [] && Joined(path, parts)
    ensures HasSuffix(path, parts[|parts| - 1])
    decreases |parts|
  {
    if |parts| > 1 {
      var k :| |parts[0]| <= k <= |path| && Joined(path[k..], parts[1..]);
      JoinedEndsInLast(path[k..], parts[1..]);
    }
  }

  // After a star: parts in order, the last one also a suffix, can be joined from some point on.
  lemma {:induction false} InOrderIsJoined(text: string, parts: seq<string>)
    requires parts != [] && InOrder(text, parts)
    requires |text| >= |parts[|parts| - 1]| ==> HasSuffix(text, parts[|parts| - 1])
    ensures exists k :: 0 <= k <= |text| && Joined(text[k..], parts)
    decreases |parts|
  {
    var i :| OccursAt(text, parts[0], i) && InOrder(text[i + |parts[0]|..], parts[1..]);
    if |parts| == 1 {
      assert Joined(text[|text| - |parts[0]|..], parts);
    } else {
      var rest := text[i + |parts[0]|..];
      InOrderIsJoined(rest, parts[1..]);
      var k :| 0 <= k <= |rest| && Joined(rest[k..], parts[1..]);
      assert text[i..][|parts[0]| + k..] == rest[k..];
      assert Joined(text[i..], parts);
    }
  }

  // The three checks of the matcher amount to joining.
  lemma ChecksAreJoined(path: string, parts: seq<string>)
    requires |parts| >= 2
    ensures Joined(path, parts) <==> parts[0] <= path && HasSuffix(path, parts[|parts| - 1]) && InOrder(path, parts)
  {
    if parts[0] <= path && HasSuffix(path, parts[|parts| - 1]) && InOrder(path, parts) {
      assert OccursAt(path, parts[0], 0);
      LeftmostIsSafe(path, parts, 0);
      var rest := path[|parts[0]|..];
      assert parts[1..][|parts[1..]| - 1] == parts[|parts| - 1];
      InOrderIsJoined(rest, parts[1..]);
      var k :| 0 <= k <= |rest| && Joined(rest[k..], parts[1..]);
      assert path[|parts[0]| + k..] == rest[k..];
    }
    if Joined(path, parts) {
      JoinedIsInOrder(path, parts);
      JoinedEndsInLast(path, parts);
    }
  }

  /** matchesReservationWildcardPattern: for a pattern with at least one star it accepts a path exactly when the path is
      in the pattern's glob. */
  method MatchesWildcard(path: string, pattern: string) returns (matched: bool)
    requires '*' in pattern
    ensures matched <==> Glob(path, pattern)
  {
    var parts := Split(pattern);
    GlobIsJoined(path, pattern);
    ChecksAreJoined(path, parts);
    if !(parts[0] <= path) {
      return false;
    }
    if !HasSuffix(path, parts[|parts| - 1]) {
      return false;
    }
    var remaining := path;
    for i := 0 to |parts|
      invariant InOrder(path, parts) <==> InOrder(remaining, parts[i..])
    {
      var part := parts[i];
      assert parts[i..][0] == part && parts[i..][1..] == parts[i + 1..];
      if part == "" {
        LeftmostIsSafe(remaining, parts[i..], 0);
        assert remaining[0..] == remaining;
        continue;
      }
      var idx := Index(remaining, part);
      if idx.None? {
        return false;
      }
      LeftmostIsSafe(remaining, parts[i..], idx.value);
      remaining := remaining[idx.value + |part|..];
    }
    return true;
  }
}
