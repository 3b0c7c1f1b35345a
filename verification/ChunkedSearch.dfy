/**
 The chunked substring search of internal/agentsession/discover.go: a file is read
 piece by piece, carrying just enough of its end to see a match across the border.
 */
module ChunkedSearch {
  type Byte = b: int | 0 <= b < 256 witness 0

  predicate OccursAt(text: seq<Byte>, needle: seq<Byte>, i: int) {
    0 <= i && i + |needle| <= |text| && text[i..i + |needle|] == needle
  }

  // bytes.Contains
  ghost predicate Contains(text: seq<Byte>, needle: seq<Byte>) {
    exists i :: OccursAt(text, needle, i)
  }

  function Concat(chunks: seq<seq<Byte>>): seq<Byte> {
    if chunks == [] then [] else Concat(chunks[..|chunks| - 1]) + chunks[|chunks| - 1]
  }

  // The last `n` bytes, or all of a shorter text.
  function Tail(text: seq<Byte>, n: nat): seq<Byte> {
    if |text| <= n then text else text[|text| - n..]
  }

  method ContainsNeedle(text: seq<Byte>, needle: seq<Byte>) returns (found: bool)
    ensures found <==> Contains(text, needle)
  {
    var i := 0;
    while i + |needle| <= |text|
      invariant forall k :: 0 <= k < i ==> !OccursAt(text, needle, k)
    {
      if text[i..i + |needle|] == needle {
        assert OccursAt(text, needle, i);
        return true;
      }
      i := i + 1;
    }
    return false;
  }

  /** A needle occurs in what was read so far and the next chunk exactly when it occurs in the former, or in the chunk
      with the carried bytes before it. */
  lemma CarryIsEnough(seen: seq<Byte>, chunk: seq<Byte>, needle: seq<Byte>)
    requires needle != []
    ensures Contains(seen + chunk, needle) <==> Contains(seen, needle) || Contains(Tail(seen, |needle| - 1) + chunk, needle)
  {
    var carry := Tail(seen, |needle| - 1);
    var shift := |seen| - |carry|;
    assert (seen + chunk)[shift..] == carry + chunk;
    if Contains(seen + chunk, needle) {
      var i :| OccursAt(seen + chunk, needle, i);
      if i + |needle| <= |seen| {
        assert (seen + chunk)[i..i + |needle|] == seen[i..i + |needle|];
        assert OccursAt(seen, needle, i);
      } else {
        assert (seen + chunk)[i..i + |needle|] == (carry + chunk)[i - shift..i - shift + |needle|];
        assert OccursAt(carry + chunk, needle, i - shift);
      }
    }
    if Contains(seen, needle) {
      var i :| OccursAt(seen, needle, i);
      assert (seen + chunk)[i..i + |needle|] == seen[i..i + |needle|];
      assert OccursAt(seen + chunk, needle, i);
    }
    if Contains(carry + chunk, needle) {
      var i :| OccursAt(carry + chunk, needle, i);
      assert (seen + chunk)[i + shift..i + shift + |needle|] == (carry + chunk)[i..i + |needle|];
      assert OccursAt(seen + chunk, needle, i + shift);
    }
  }

  lemma TailOfTail(seen: seq<Byte>, chunk: seq<Byte>, n: nat)
    ensures Tail(Tail(seen, n) + chunk, n) == Tail(seen + chunk, n)
  {
  }

  /** fileContainsCwdContext over the pieces successive reads return, however they split the file. `cancelled` says at
      which reads the caller's context is found cancelled. A hit is always real, and unless cancelled every hit is
      found, across chunk borders too. */
  method FileContains(chunks: seq<seq<Byte>>, needle: seq<Byte>, cancelled: nat -> bool) returns (found: bool)
    ensures found ==> needle != [] && Contains(Concat(chunks), needle)
    ensures needle != [] && (forall i :: !cancelled(i)) ==> (found <==> Contains(Concat(chunks), needle))
  {
    if cancelled(0) || needle == [] {
      return false;
    }
    var carry: seq<Byte> := [];
    NothingYet(needle);
    for k := 0 to |chunks|
      invariant carry == Tail(Concat(chunks[..k]), |needle| - 1)
      invariant !Contains(Concat(chunks[..k]), needle)
    {
      if cancelled(k + 1) {
        return false;
      }
      var buffer := chunks[k];
      assert chunks[..k + 1][..k] == chunks[..k];
      CarryIsEnough(Concat(chunks[..k]), buffer, needle);
      TailOfTail(Concat(chunks[..k]), buffer, |needle| - 1);
      if |buffer| > 0 {
        var window := carry + buffer;
        var hit := ContainsNeedle(window, needle);
        if hit {
          LaterChunksKeep(chunks, k + 1, needle);
          return true;
        }
        var keep := |needle| - 1;
        if keep > |window| {
          keep := |window|;
        }
        carry := window[|window| - keep..];
      } else {
        assert Concat(chunks[..k]) + buffer == Concat(chunks[..k]);
      }
    }
    assert chunks[..|chunks|] == chunks;
    return false;
  }

  lemma NothingYet(needle: seq<Byte>)
    requires needle != []
    ensures !Contains(Concat([]), needle)
  {
  }

  lemma {:induction false} LaterChunksKeep(chunks: seq<seq<Byte>>, k: nat, needle: seq<Byte>)
    requires k <= |chunks| && needle != [] && Contains(Concat(chunks[..k]), needle)
    ensures Contains(Concat(chunks), needle)
    decreases |chunks| - k
  {
    if k == |chunks| {
      assert chunks[..k] == chunks;
    } else {
      assert chunks[..k + 1][..k] == chunks[..k];
      CarryIsEnough(Concat(chunks[..k]), chunks[k], needle);
      LaterChunksKeep(chunks, k + 1, needle);
    }
  }
}
