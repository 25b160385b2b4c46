/**
 * Client-visible instance ids of one (battleground type, bracket) pair.
 *
 * The manager keeps these ids in an ordered set of unsigned integers; the
 * model keeps them as a strictly increasing sequence, which is exactly the
 * ascending iteration order of that set.
 */
module ClientIds {

  /** An ordered set of client ids, listed in ascending order. */
  type ClientIdSet = seq<nat>

  /** The representation invariant: strictly increasing, hence duplicate-free. */
  predicate IsOrdered(ids: seq<nat>)
  {
    forall i, j :: 0 <= i < j < |ids| ==> ids[i] < ids[j]
  }

  /** Ids handed out by the allocator are never 0 (0 means "no client id"). */
  predicate AllPositive(ids: seq<nat>)
  {
    forall i :: 0 <= i < |ids| ==> ids[i] >= 1
  }

  /** The ids are lastId+1, lastId+2, ... with no gap. */
  predicate IsRunAfter(ids: seq<nat>, lastId: nat)
  {
    forall i :: 0 <= i < |ids| ==> ids[i] == lastId + i + 1
  }

  /** The set is exactly {1, ..., n}. */
  predicate IsGapFree(ids: seq<nat>)
  {
    IsRunAfter(ids, 0)
  }

  /** m is the smallest positive integer that is not in the set. */
  ghost predicate IsLowestFree(ids: seq<nat>, m: nat)
  {
    && m >= 1
    && m !in ids
    && forall j :: 1 <= j < m ==> j in ids
  }

  /**
   * The allocator's loop as the code writes it. The loop never advances its
   * iterator, so every pass compares the pre-incremented counter with the
   * smallest id; the result is the counter when the loop exits.
   */
  function LoopAsWritten(ids: ClientIdSet, lastId: nat): (r: nat)
    requires ids != [] ==> lastId <= ids[0]
    ensures ids == [] ==> r == lastId
    ensures ids != [] && lastId + 1 == ids[0] ==> r == ids[0] + 1
    ensures ids != [] && lastId + 1 != ids[0] ==> r == lastId + 1
    decreases if ids == [] then 0 else ids[0] + 1 - lastId
  {
    if ids == [] then lastId
    else if lastId + 1 != ids[0] then lastId + 1
    else LoopAsWritten(ids, ids[0])
  }

  /**
   * The id the allocator hands out for a non-arena type, as the code computes
   * it: the loop's counter, incremented once more. Only the smallest id is
   * ever inspected.
   */
  function NextClientIdAsWritten(ids: ClientIdSet): (id: nat)
    ensures ids == [] ==> id == 1
    ensures ids != [] && ids[0] == 1 ==> id == 3
    ensures ids != [] && ids[0] != 1 ==> id == 2
  {
    LoopAsWritten(ids, 0) + 1
  }

  /**
   * The scan the allocator evidently intends: walk the ordered ids while they
   * continue the run lastId+1, lastId+2, ... and yield the end of that run.
   */
  function RunEnd(rest: seq<nat>, lastId: nat): (r: nat)
    requires IsOrdered(rest)
    ensures lastId <= r
    ensures IsRunAfter(rest, lastId) ==> r == lastId + |rest|
    ensures (forall i :: 0 <= i < |rest| ==> rest[i] > lastId) ==>
              && r + 1 !in rest
              && forall j :: lastId < j <= r ==> j in rest
    decreases |rest|
  {
    if rest == [] || rest[0] != lastId + 1 then lastId
    else
      var r := RunEnd(rest[1..], rest[0]);
      assert forall j :: j in rest[1..] ==> j in rest;
      r
  }

  /**
   * The allocation the code evidently intends ("as low as possible, beginning
   * with 1"): the lowest positive id not in the set.
   */
  function NextClientId(ids: ClientIdSet): (id: nat)
    requires IsOrdered(ids)
    ensures id >= 1
    ensures AllPositive(ids) ==> IsLowestFree(ids, id)
    ensures IsGapFree(ids) ==> id == |ids| + 1
  {
    RunEnd(ids, 0) + 1
  }

  /** Inserting into the ordered set: a no-op when the id is present. */
  function Insert(ids: ClientIdSet, x: nat): (r: ClientIdSet)
    requires IsOrdered(ids)
    ensures IsOrdered(r)
    ensures forall y :: y in r <==> y in ids || y == x
    ensures x in ids ==> r == ids
    ensures (forall i :: 0 <= i < |ids| ==> ids[i] < x) ==> r == ids + [x]
    decreases |ids|
  {
    if ids == [] then [x]
    else if x < ids[0] then
      OrderedCons(x, ids);
      [x] + ids
    else if x == ids[0] then ids
    else
      var tail := Insert(ids[1..], x);
      assert ids == [ids[0]] + ids[1..];
      OrderedCons(ids[0], tail);
      [ids[0]] + tail
  }

  /** Prefixing an ordered set with an id below all of its ids keeps it ordered. */
  lemma OrderedCons(h: nat, t: ClientIdSet)
    requires IsOrdered(t) && forall y :: y in t ==> h < y
    ensures IsOrdered([h] + t)
  {
    var r := [h] + t;
    forall i, j | 0 <= i < j < |r| ensures r[i] < r[j] {
      assert r[j] == t[j - 1] && t[j - 1] in t;
      if i > 0 {
        assert r[i] == t[i - 1];
      }
    }
  }

  /** Erasing every id of `gone` from the ordered set, keeping the others in order. */
  function EraseAll(ids: ClientIdSet, gone: set<nat>): (r: ClientIdSet)
    requires IsOrdered(ids)
    ensures IsOrdered(r)
    ensures forall y :: y in r <==> y in ids && y !in gone
    ensures |r| <= |ids|
    decreases |ids|
  {
    if ids == [] then []
    else
      var tail := EraseAll(ids[1..], gone);
      if ids[0] in gone then tail
      else
        assert forall y :: y in ids[1..] ==> ids[0] < y by {
          forall y | y in ids[1..] ensures ids[0] < y {
            var k :| 0 <= k < |ids[1..]| && ids[1..][k] == y;
            assert ids[k + 1] == y;
          }
        }
        OrderedCons(ids[0], tail);
        [ids[0]] + tail
  }

  lemma AllPositiveInsert(ids: ClientIdSet, x: nat)
    requires IsOrdered(ids) && AllPositive(ids) && x >= 1
    ensures AllPositive(Insert(ids, x))
  {
    var r := Insert(ids, x);
    forall i | 0 <= i < |r| ensures r[i] >= 1 {
      assert r[i] in r;
    }
  }

  lemma AllPositiveEraseAll(ids: ClientIdSet, gone: set<nat>)
    requires IsOrdered(ids) && AllPositive(ids)
    ensures AllPositive(EraseAll(ids, gone))
  {
    var r := EraseAll(ids, gone);
    forall i | 0 <= i < |r| ensures r[i] >= 1 {
      assert r[i] in r;
    }
  }

  lemma LowestFreeIsUnique(ids: seq<nat>, m: nat, m': nat)
    requires IsLowestFree(ids, m) && IsLowestFree(ids, m')
    ensures m == m'
  {
  }

  /** In an ordered set whose smallest id is 1, the id 2 is present exactly when it comes second. */
  lemma TwoIsSecond(ids: ClientIdSet)
    requires IsOrdered(ids) && ids != [] && ids[0] == 1
    ensures 2 in ids <==> |ids| >= 2 && ids[1] == 2
  {
    if 2 in ids {
      var k :| 0 <= k < |ids| && ids[k] == 2;
      assert k != 0;
      assert ids[0] < ids[1] <= ids[k];
    }
  }

  /**
   * The allocation as written agrees with the intended lowest free id only on
   * the empty set and on sets that begin 1, 2 without 3.
   */
  lemma {:induction false} AsWrittenIsLowestFreeIff(ids: ClientIdSet)
    requires IsOrdered(ids) && AllPositive(ids)
    ensures NextClientIdAsWritten(ids) == NextClientId(ids) <==>
              ids == [] || (|ids| >= 2 && ids[0] == 1 && ids[1] == 2 && 3 !in ids)
  {
    var w := NextClientIdAsWritten(ids);
    var m := NextClientId(ids);
    if ids != [] {
      if ids[0] == 1 {
        TwoIsSecond(ids);
        if |ids| >= 2 && ids[1] == 2 && 3 !in ids {
          assert IsLowestFree(ids, 3);
          LowestFreeIsUnique(ids, 3, m);
        }
      } else {
        assert forall i :: 0 <= i < |ids| ==> ids[i] >= ids[0];
        assert IsLowestFree(ids, 1);
        LowestFreeIsUnique(ids, 1, m);
      }
    }
  }

  /**
   * The allocation as written hands out an id that is already in use exactly
   * when the set begins with 1 and holds 3, or begins with 2.
   */
  lemma {:induction false} AsWrittenInUseIff(ids: ClientIdSet)
    requires IsOrdered(ids) && AllPositive(ids)
    ensures NextClientIdAsWritten(ids) in ids <==>
              ids != [] && ((ids[0] == 1 && 3 in ids) || ids[0] == 2)
  {
    if ids != [] && ids[0] != 1 && 2 in ids {
      var k :| 0 <= k < |ids| && ids[k] == 2;
      assert k == 0;
    }
  }

  /**
   * Allocating three times from an empty set with the code as written hands
   * out 1, 3 and then 3 again, an id already in use; on {2} it hands out 2.
   */
  lemma AsWrittenRepeatsAnId()
    ensures NextClientIdAsWritten([]) == 1
    ensures NextClientIdAsWritten([1]) == 3
    ensures NextClientIdAsWritten([1, 3]) == 3 && 3 in [1, 3]
    ensures NextClientIdAsWritten([2]) == 2 && 2 in [2]
  {
    assert [1][0] == 1 && [1, 3][0] == 1 && [2][0] == 2;
  }

  /** With the intended allocation a released id is reused: the next id is at most the released one. */
  lemma {:induction false} ReleasedIdIsReused(ids: ClientIdSet, x: nat)
    requires IsOrdered(ids) && AllPositive(ids) && x in ids
    ensures NextClientId(EraseAll(ids, {x})) <= x
  {
    var rest := EraseAll(ids, {x});
    AllPositiveEraseAll(ids, {x});
    var m := NextClientId(rest);
    assert x !in rest;
    assert x >= 1 by {
      var k :| 0 <= k < |ids| && ids[k] == x;
    }
  }

  /** Releasing 2 from {1, 2, 3} and allocating again yields 2 with the intended allocation. */
  lemma ReleaseThenAllocate()
    ensures EraseAll([1, 2, 3], {2}) == [1, 3]
    ensures NextClientId([1, 3]) == 2
  {
    assert EraseAll([1, 2, 3], {2}) == [1, 3];
  }
}
