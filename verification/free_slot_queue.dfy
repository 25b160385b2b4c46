/**
 * The per-map free-slot lists: instance ids of battlegrounds that still accept
 * late joiners, most recently opened first.
 */
module FreeSlotQueue {

  /** Per map id, the instance ids of the open battlegrounds, front first. */
  type FreeSlots = map<int, seq<nat>>

  /** The list of one map; a map without a list reads as an empty one. */
  function Slots(q: FreeSlots, mapId: int): seq<nat>
  {
    if mapId in q then q[mapId] else []
  }

  /** The position of the first occurrence of x. */
  function IndexOf(xs: seq<nat>, x: nat): (k: nat)
    requires x in xs
    ensures k < |xs| && xs[k] == x && x !in xs[..k]
    decreases |xs|
  {
    if xs[0] == x then 0
    else
      var k := IndexOf(xs[1..], x) + 1;
      assert xs[..k] == [xs[0]] + xs[1..][..k - 1];
      k
  }

  /** Deleting the first occurrence of x, keeping the order of everything else. */
  function RemoveFirst(xs: seq<nat>, x: nat): (r: seq<nat>)
    ensures x !in xs ==> r == xs
    ensures x in xs ==> r == xs[..IndexOf(xs, x)] + xs[IndexOf(xs, x) + 1..]
    decreases |xs|
  {
    if xs == [] then []
    else if xs[0] == x then xs[1..]
    else
      var r := [xs[0]] + RemoveFirst(xs[1..], x);
      if x in xs then
        var k := IndexOf(xs[1..], x);
        assert xs[..k + 1] == [xs[0]] + xs[1..][..k];
        assert xs[k + 2..] == xs[1..][k + 1..];
        r
      else
        r
  }

  /** AddToBGFreeSlotQueue: put the instance at the front of its map's list. */
  function PushFront(q: FreeSlots, mapId: int, instanceId: nat): (r: FreeSlots)
    ensures Slots(r, mapId) == [instanceId] + Slots(q, mapId)
    ensures forall m :: m != mapId ==> Slots(r, m) == Slots(q, m)
  {
    q[mapId := [instanceId] + Slots(q, mapId)]
  }

  /**
   * RemoveFromBGFreeSlotQueue: delete the first entry of the map's list with the
   * given instance id; nothing changes when there is none.
   */
  function Remove(q: FreeSlots, mapId: int, instanceId: nat): (r: FreeSlots)
    ensures instanceId !in Slots(q, mapId) ==> Slots(r, mapId) == Slots(q, mapId)
    ensures instanceId in Slots(q, mapId) ==>
              |Slots(r, mapId)| == |Slots(q, mapId)| - 1
              && Slots(r, mapId) == Slots(q, mapId)[..IndexOf(Slots(q, mapId), instanceId)]
                                    + Slots(q, mapId)[IndexOf(Slots(q, mapId), instanceId) + 1..]
    ensures forall m :: m != mapId ==> Slots(r, m) == Slots(q, m)
  {
    var s := Slots(q, mapId);
    var r := q[mapId := RemoveFirst(s, instanceId)];
    assert Slots(r, mapId) == RemoveFirst(s, instanceId);
    assert forall m :: m != mapId ==> Slots(r, m) == Slots(q, m);
    r
  }

  /** Closing an instance right after opening it restores the map's list. */
  lemma RemoveUndoesPushFront(q: FreeSlots, mapId: int, instanceId: nat)
    ensures Slots(Remove(PushFront(q, mapId, instanceId), mapId, instanceId), mapId) == Slots(q, mapId)
  {
    assert IndexOf([instanceId] + Slots(q, mapId), instanceId) == 0;
  }

  /** Opening A then B on one map lists [B, A]; closing A then lists [B]. */
  lemma OpenOpenCloseOrder(q: FreeSlots, mapId: int, a: nat, b: nat)
    requires Slots(q, mapId) == [] && a != b
    ensures Slots(PushFront(PushFront(q, mapId, a), mapId, b), mapId) == [b, a]
    ensures Slots(Remove(PushFront(PushFront(q, mapId, a), mapId, b), mapId, a), mapId) == [b]
  {
    var two := PushFront(PushFront(q, mapId, a), mapId, b);
    assert Slots(two, mapId) == [b, a];
    assert IndexOf([b, a], a) == 1;
  }
}
