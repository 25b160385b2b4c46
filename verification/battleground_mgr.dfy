/**
 * The battleground manager as a state-transition system: live instances per
 * type, client-visible ids per (type, bracket), per-map free-slot lists, the
 * pending queue-update list and the two tick timers.
 *
 * Calls the manager makes into matchmaking queues are not executed: each
 * transition returns them as a trace. What a battleground does when it is
 * advanced, and what a queue schedules while it is being served, are
 * parameters (see Environment).
 */
module BattlegroundMgr {
  import opened Wrappers
  import opened BattlegroundIds
  import opened ClientIds
  import opened QueueScheduler
  import opened FreeSlotQueue
  import opened Templates

  /** Milliseconds that must accumulate (strictly exceeded) before the instance sweep runs. */
  const BATTLEGROUND_OBJECTIVE_UPDATE_INTERVAL: nat := 1000

  /** The max rating difference used when the configured one is 0. */
  const DEFAULT_MAX_RATING_DIFFERENCE: u32 := 5000

  datatype BattlegroundStatus = StatusNone | StatusWaitQueue | StatusWaitJoin | StatusInProgress | StatusWaitLeave

  /** The manager's view of one battleground instance. */
  datatype Battleground = Battleground(
    typeId: TypeId,
    instanceId: nat,
    clientInstanceId: nat,
    bracketId: nat,
    mapId: int,
    arenaType: nat,
    rated: bool,
    isArena: bool,
    status: BattlegroundStatus)

  /** Per battleground type: instances by instance id, and client ids per bracket. */
  datatype BattlegroundData = BattlegroundData(
    battlegrounds: map<nat, Battleground>,
    clientIds: map<nat, ClientIdSet>)

  /** The manager state. */
  datatype Manager = Manager(
    store: map<TypeId, BattlegroundData>,
    freeSlots: FreeSlots,
    scheduled: seq<ScheduledQueueUpdate>,
    updateTimer: u32,
    nextRatedArenaUpdate: u32)

  /** The world configuration values the manager reads. */
  datatype Config = Config(maxRatingDifference: u32, ratedUpdateTimer: u32)

  /**
   * What lies outside the manager: the registered matchmaking queues (in their
   * container's order), whether a battleground reports ToBeDeleted after being
   * advanced by the given time, and the triples a queue schedules while it is
   * being served.
   */
  datatype Environment = Environment(
    queues: seq<QueueTypeId>,
    toBeDeleted: (Battleground, u32) -> bool,
    react: Reaction)

  /** The data of one type; a type without an entry reads as empty. */
  function Bucket(store: map<TypeId, BattlegroundData>, t: TypeId): BattlegroundData
  {
    if t in store then store[t] else BattlegroundData(map[], map[])
  }

  /** The client ids of one bracket; a bracket without an entry reads as empty. */
  function BracketIds(data: BattlegroundData, bracket: nat): ClientIdSet
  {
    if bracket in data.clientIds then data.clientIds[bracket] else []
  }

  function ClientIdsAt(mgr: Manager, t: TypeId, bracket: nat): ClientIdSet
  {
    BracketIds(Bucket(mgr.store, t), bracket)
  }

  function InstancesAt(mgr: Manager, t: TypeId): map<nat, Battleground>
  {
    Bucket(mgr.store, t).battlegrounds
  }

  ghost predicate ValidBucket(data: BattlegroundData)
  {
    forall b :: b in data.clientIds ==> IsOrdered(data.clientIds[b]) && AllPositive(data.clientIds[b])
  }

  /** The manager invariant: ordered positive client-id sets, a duplicate-free pending list. */
  ghost predicate Valid(mgr: Manager)
  {
    && (forall t :: t in mgr.store ==> ValidBucket(mgr.store[t]))
    && NoDuplicates(mgr.scheduled)
  }

  /** The constructor: nothing registered, the rated timer primed from the configuration. */
  function Init(config: Config): (mgr: Manager)
    ensures Valid(mgr)
    ensures mgr.updateTimer == 0 && mgr.nextRatedArenaUpdate == config.ratedUpdateTimer
    ensures forall t :: InstancesAt(mgr, t) == map[]
    ensures forall t: TypeId, b: nat :: ClientIdsAt(mgr, t, b) == []
    ensures forall m :: Slots(mgr.freeSlots, m) == []
    ensures mgr.scheduled == []
  {
    Manager(map[], map[], [], 0, config.ratedUpdateTimer)
  }

  /** DeleteAllBattlegrounds: forget every instance and every free-slot list. */
  function DeleteAllBattlegrounds(mgr: Manager): (r: Manager)
    requires Valid(mgr)
    ensures Valid(r)
    ensures forall t :: InstancesAt(r, t) == map[]
    ensures forall t: TypeId, b: nat :: ClientIdsAt(r, t, b) == []
    ensures forall m :: Slots(r.freeSlots, m) == []
    ensures r.scheduled == mgr.scheduled && r.updateTimer == mgr.updateTimer
    ensures r.nextRatedArenaUpdate == mgr.nextRatedArenaUpdate
  {
    mgr.(store := map[], freeSlots := map[])
  }

  /** GetMaxRatingDifference: the configured value, with 0 read as 5000. */
  function GetMaxRatingDifference(config: Config): (diff: u32)
    ensures diff != 0
    ensures config.maxRatingDifference != 0 ==> diff == config.maxRatingDifference
    ensures config.maxRatingDifference == 0 ==> diff == DEFAULT_MAX_RATING_DIFFERENCE
  {
    if config.maxRatingDifference == 0 then DEFAULT_MAX_RATING_DIFFERENCE else config.maxRatingDifference
  }

  // ---------------------------------------------------------------------------
  // Client-visible instance ids
  // ---------------------------------------------------------------------------

  datatype Allocation = Allocation(mgr: Manager, id: nat)

  /** The manager with the client ids of one (type, bracket) pair replaced. */
  function WithClientIds(mgr: Manager, t: TypeId, bracket: nat, ids: ClientIdSet): (r: Manager)
    requires Valid(mgr) && IsOrdered(ids) && AllPositive(ids)
    ensures Valid(r)
    ensures ClientIdsAt(r, t, bracket) == ids
    ensures forall u: TypeId, b: nat :: (u, b) != (t, bracket) ==> ClientIdsAt(r, u, b) == ClientIdsAt(mgr, u, b)
    ensures forall u :: InstancesAt(r, u) == InstancesAt(mgr, u)
    ensures r == mgr.(store := r.store)
  {
    var data := Bucket(mgr.store, t);
    mgr.(store := mgr.store[t := data.(clientIds := data.clientIds[bracket := ids])])
  }

  /**
   * CreateClientVisibleInstanceId: 0 for arenas, which have no client id;
   * otherwise the lowest free id of the (type, bracket) set, recorded there.
   * This is the intended allocation; ClientIds.NextClientIdAsWritten is the
   * loop as the code writes it.
   */
  function CreateClientVisibleInstanceId(mgr: Manager, t: TypeId, bracket: nat): (r: Allocation)
    requires Valid(mgr)
    ensures Valid(r.mgr)
    ensures IsArenaType(t) ==> r.id == 0 && r.mgr == mgr
    ensures !IsArenaType(t) ==> r.id >= 1 && r.id in ClientIdsAt(r.mgr, t, bracket)
    ensures !IsArenaType(t) ==>
              forall x :: x in ClientIdsAt(r.mgr, t, bracket) <==> x in ClientIdsAt(mgr, t, bracket) || x == r.id
    ensures !IsArenaType(t) && IsGapFree(ClientIdsAt(mgr, t, bracket)) ==>
              && r.id == |ClientIdsAt(mgr, t, bracket)| + 1
              && ClientIdsAt(r.mgr, t, bracket) == ClientIdsAt(mgr, t, bracket) + [r.id]
              && IsGapFree(ClientIdsAt(r.mgr, t, bracket))
    ensures !IsArenaType(t) ==>
              r.id !in ClientIdsAt(mgr, t, bracket) && IsLowestFree(ClientIdsAt(mgr, t, bracket), r.id)
    ensures forall u: TypeId, b: nat :: (u, b) != (t, bracket) ==> ClientIdsAt(r.mgr, u, b) == ClientIdsAt(mgr, u, b)
    ensures forall u :: InstancesAt(r.mgr, u) == InstancesAt(mgr, u)
    ensures r.mgr.freeSlots == mgr.freeSlots && r.mgr.scheduled == mgr.scheduled
    ensures r.mgr.updateTimer == mgr.updateTimer && r.mgr.nextRatedArenaUpdate == mgr.nextRatedArenaUpdate
  {
    if IsArenaType(t) then Allocation(mgr, 0)
    else
      var ids := ClientIdsAt(mgr, t, bracket);
      assert IsOrdered(ids) && AllPositive(ids);
      var id := NextClientId(ids);
      AllPositiveInsert(ids, id);
      assert IsGapFree(ids) ==> Insert(ids, id) == ids + [id] && IsGapFree(ids + [id]) by {
        if IsGapFree(ids) {
          InsertAfterGapFree(ids, id);
        }
      }
      Allocation(WithClientIds(mgr, t, bracket, Insert(ids, id)), id)
  }

  /** Inserting the next id into a gap-free set appends it and keeps the set gap-free. */
  lemma InsertAfterGapFree(ids: ClientIdSet, id: nat)
    requires IsOrdered(ids) && IsGapFree(ids) && id == |ids| + 1
    ensures Insert(ids, id) == ids + [id] && IsGapFree(ids + [id])
  {
    assert forall i :: 0 <= i < |ids| ==> ids[i] < id;
  }

  /**
   * Two allocations in a row on a gap-free set {1..n} hand out n+1 and n+2,
   * and append both to the set in that order.
   */
  lemma TwoAllocationsOnGapFreeSetAreConsecutive(mgr: Manager, t: TypeId, bracket: nat)
    requires Valid(mgr) && !IsArenaType(t) && IsGapFree(ClientIdsAt(mgr, t, bracket))
    ensures var a := CreateClientVisibleInstanceId(mgr, t, bracket);
            var b := CreateClientVisibleInstanceId(a.mgr, t, bracket);
            b.id == a.id + 1 && ClientIdsAt(b.mgr, t, bracket) == ClientIdsAt(mgr, t, bracket) + [a.id, b.id]
  {
    var a := CreateClientVisibleInstanceId(mgr, t, bracket);
    AllocationOnGapFree(mgr, t, bracket);
    AllocationOnGapFree(a.mgr, t, bracket);
  }

  /**
   * One allocation on a gap-free set, restated from the allocator's contract so
   * that the two-allocation lemma above reasons about each step separately.
   */
  lemma AllocationOnGapFree(mgr: Manager, t: TypeId, bracket: nat)
    requires Valid(mgr) && !IsArenaType(t) && IsGapFree(ClientIdsAt(mgr, t, bracket))
    ensures var a := CreateClientVisibleInstanceId(mgr, t, bracket);
            && Valid(a.mgr)
            && a.id == |ClientIdsAt(mgr, t, bracket)| + 1
            && ClientIdsAt(a.mgr, t, bracket) == ClientIdsAt(mgr, t, bracket) + [a.id]
            && IsGapFree(ClientIdsAt(a.mgr, t, bracket))
  {
  }

  // ---------------------------------------------------------------------------
  // Creating instances
  // ---------------------------------------------------------------------------

  /** Why an instance could not be created. */
  datatype CreateError = TemplateNotFound | BracketNotFound

  /**
   * The PvP difficulty store: for a (map id, requested bracket id) pair, the
   * bracket id of the matching entry, when there is one.
   */
  type BracketStore = map<(int, nat), nat>

  datatype Creation = Creation(mgr: Manager, result: Result<Battleground, CreateError>)

  /**
   * CreateNewBattleground: resolve the queue's BattlemasterList id into a
   * concrete template (the random choice is `pick`), look up the bracket entry
   * of the template's first map, and build an instance waiting for players.
   * The instance id comes from the external allocator (`newInstanceId`); the
   * client id is allocated under the queue's BattlemasterList id and the
   * entry's bracket. The new instance is not registered.
   */
  function CreateNewBattleground(mgr: Manager, catalog: Catalog, brackets: BracketStore,
                                 queueId: QueueTypeId, bracketId: nat, pick: nat, newInstanceId: nat): (r: Creation)
    requires Valid(mgr) && WellFormed(catalog)
    ensures Valid(r.mgr)
    ensures var t := GetRandomBG(catalog, queueId.battlemasterListId, pick);
            t !in catalog.byType ==> r.result == Failure(TemplateNotFound) && r.mgr == mgr
    ensures var t := GetRandomBG(catalog, queueId.battlemasterListId, pick);
            t in catalog.byType ==> |catalog.byType[t].mapIds| == 1
    ensures var t := GetRandomBG(catalog, queueId.battlemasterListId, pick);
            t in catalog.byType && (catalog.byType[t].mapIds[0], bracketId) !in brackets ==>
              r.result == Failure(BracketNotFound) && r.mgr == mgr
    ensures var t := GetRandomBG(catalog, queueId.battlemasterListId, pick);
            r.result.Success? <==> t in catalog.byType && (catalog.byType[t].mapIds[0], bracketId) in brackets
    ensures r.result.Success? ==>
              var bg := r.result.value;
              && bg.typeId in catalog.byType
              && (exists m :: m in catalog.byType[queueId.battlemasterListId].mapIds && m in catalog.byMap
                                && catalog.byMap[m].id == bg.typeId)
              && bg.mapId == catalog.byType[bg.typeId].mapIds[0]
              && (bg.mapId, bracketId) in brackets && bg.bracketId == brackets[(bg.mapId, bracketId)]
              && bg.isArena == catalog.byType[bg.typeId].IsArena()
              && bg.instanceId == newInstanceId
              && bg.status == StatusWaitJoin
              && bg.arenaType == queueId.teamSize && bg.rated == queueId.rated
              && (IsArenaType(queueId.battlemasterListId) <==> bg.clientInstanceId == 0)
              && (!IsArenaType(queueId.battlemasterListId) ==>
                    bg.clientInstanceId in ClientIdsAt(r.mgr, queueId.battlemasterListId, bg.bracketId))
    ensures r.result.Success? ==> r.result.value.typeId == GetRandomBG(catalog, queueId.battlemasterListId, pick)
    ensures r.result.Success? ==>
              var a := CreateClientVisibleInstanceId(mgr, queueId.battlemasterListId, r.result.value.bracketId);
              r.mgr == a.mgr && r.result.value.clientInstanceId == a.id
    ensures forall u :: InstancesAt(r.mgr, u) == InstancesAt(mgr, u)
    ensures r.mgr.freeSlots == mgr.freeSlots && r.mgr.scheduled == mgr.scheduled
  {
    var t := GetRandomBG(catalog, queueId.battlemasterListId, pick);
    GetRandomBGFindsTemplate(catalog, queueId.battlemasterListId, pick);
    if t !in catalog.byType then Creation(mgr, Failure(TemplateNotFound))
    else
      var template := catalog.byType[t];
      var mapId := template.mapIds[0];
      if (mapId, bracketId) !in brackets then Creation(mgr, Failure(BracketNotFound))
      else
        var bracket := brackets[(mapId, bracketId)];
        var alloc := CreateClientVisibleInstanceId(mgr, queueId.battlemasterListId, bracket);
        var bg := Battleground(template.id, newInstanceId, alloc.id, bracket, mapId,
                               queueId.teamSize, queueId.rated, template.IsArena(), StatusWaitJoin);
        Creation(alloc.mgr, Success(bg))
  }

  // ---------------------------------------------------------------------------
  // Registering and looking up instances
  // ---------------------------------------------------------------------------

  /**
   * AddBattleground: register an instance under its type and instance id,
   * replacing whatever was registered under that key; a null instance is ignored.
   */
  function AddBattleground(mgr: Manager, bg: Option<Battleground>): (r: Manager)
    requires Valid(mgr)
    ensures Valid(r)
    ensures bg.None? ==> r == mgr
    ensures bg.Some? ==>
              && InstancesAt(r, bg.value.typeId) == InstancesAt(mgr, bg.value.typeId)[bg.value.instanceId := bg.value]
              && forall u :: u != bg.value.typeId ==> InstancesAt(r, u) == InstancesAt(mgr, u)
    ensures forall u: TypeId, b: nat :: ClientIdsAt(r, u, b) == ClientIdsAt(mgr, u, b)
    ensures r == mgr.(store := r.store)
  {
    match bg
    case None => mgr
    case Some(b) =>
      var data := Bucket(mgr.store, b.typeId);
      mgr.(store := mgr.store[b.typeId := data.(battlegrounds := data.battlegrounds[b.instanceId := b])])
  }

  /** The smallest element of a non-empty set of type ids. */
  function LeastKey(keys: set<TypeId>): (m: TypeId)
    requires keys != {}
    ensures m in keys && forall u :: u in keys ==> m <= u
  {
    LeastKeyExists(keys);
    var m :| IsLeast(keys, m);
    m
  }

  predicate IsLeast(keys: set<TypeId>, m: TypeId)
  {
    m in keys && forall u :: u in keys ==> m <= u
  }

  lemma {:induction false} LeastKeyExists(keys: set<TypeId>)
    requires keys != {}
    ensures exists m :: IsLeast(keys, m)
    decreases |keys|
  {
    var y :| y in keys;
    var rest := keys - {y};
    if rest == {} {
      forall u | u in keys ensures y <= u {
        assert u !in rest;
      }
      assert IsLeast(keys, y);
    } else {
      LeastKeyExists(rest);
      var m :| IsLeast(rest, m);
      var least := if y < m then y else m;
      forall u | u in keys ensures least <= u {
        if u != y {
          assert u in rest;
        }
      }
      assert IsLeast(keys, least);
    }
  }

  /** The instance with the given id in the first type (in ascending type order) that holds one. */
  function FindInAnyBucket(store: map<TypeId, BattlegroundData>, instanceId: nat): (r: Option<Battleground>)
    ensures r.Some? <==> exists t :: t in store && instanceId in store[t].battlegrounds
    ensures r.Some? ==>
              exists t :: t in store && instanceId in store[t].battlegrounds
                && r.value == store[t].battlegrounds[instanceId]
                && forall u :: u in store && u < t ==> instanceId !in store[u].battlegrounds
    decreases |store|
  {
    if |store| == 0 then None
    else
      var t := LeastKey(store.Keys);
      if instanceId in store[t].battlegrounds then Some(store[t].battlegrounds[instanceId])
      else
        var rest := store - {t};
        var r := FindInAnyBucket(rest, instanceId);
        assert forall u :: u in store && u != t ==> u in rest && rest[u] == store[u];
        r
  }

  /**
   * GetBattleground: 0 is never an instance id; the NONE type and the random
   * types search every type; any other type searches only its own instances.
   */
  function GetBattleground(mgr: Manager, instanceId: nat, t: TypeId): (r: Option<Battleground>)
    ensures instanceId == 0 ==> r.None?
    ensures instanceId != 0 && (t == BATTLEGROUND_TYPE_NONE || IsRandomBattleground(t)) ==>
              (r.Some? <==> exists u :: u in mgr.store && instanceId in mgr.store[u].battlegrounds)
    ensures r.Some? && (t == BATTLEGROUND_TYPE_NONE || IsRandomBattleground(t)) ==>
              exists u :: u in mgr.store && instanceId in mgr.store[u].battlegrounds
                && r.value == mgr.store[u].battlegrounds[instanceId]
                && forall w :: w in mgr.store && w < u ==> instanceId !in mgr.store[w].battlegrounds
    ensures instanceId != 0 && t != BATTLEGROUND_TYPE_NONE && !IsRandomBattleground(t) ==>
              (r.Some? <==> t in mgr.store && instanceId in mgr.store[t].battlegrounds)
    ensures r.Some? && t != BATTLEGROUND_TYPE_NONE && !IsRandomBattleground(t) ==>
              r.value == mgr.store[t].battlegrounds[instanceId]
  {
    if instanceId == 0 then None
    else if t == BATTLEGROUND_TYPE_NONE || IsRandomBattleground(t) then FindInAnyBucket(mgr.store, instanceId)
    else if t !in mgr.store then None
    else if instanceId in mgr.store[t].battlegrounds then Some(mgr.store[t].battlegrounds[instanceId])
    else None
  }

  /** A registered instance is found again under its own type and under the NONE wildcard. */
  lemma AddedBattlegroundIsFound(mgr: Manager, bg: Battleground)
    requires Valid(mgr) && bg.instanceId != 0 && bg.typeId != BATTLEGROUND_TYPE_NONE
    requires !IsRandomBattleground(bg.typeId)
    ensures GetBattleground(AddBattleground(mgr, Some(bg)), bg.instanceId, bg.typeId) == Some(bg)
    ensures GetBattleground(AddBattleground(mgr, Some(bg)), bg.instanceId, BATTLEGROUND_TYPE_NONE).Some?
  {
    var r := AddBattleground(mgr, Some(bg));
    assert bg.typeId in r.store && bg.instanceId in r.store[bg.typeId].battlegrounds;
  }

  // ---------------------------------------------------------------------------
  // Free-slot lists
  // ---------------------------------------------------------------------------

  /** AddToBGFreeSlotQueue: open the instance for late joiners at the front of its map's list. */
  function AddToBGFreeSlotQueue(mgr: Manager, bg: Battleground): (r: Manager)
    ensures Slots(r.freeSlots, bg.mapId) == [bg.instanceId] + Slots(mgr.freeSlots, bg.mapId)
    ensures forall m :: m != bg.mapId ==> Slots(r.freeSlots, m) == Slots(mgr.freeSlots, m)
    ensures r == mgr.(freeSlots := r.freeSlots)
  {
    mgr.(freeSlots := PushFront(mgr.freeSlots, bg.mapId, bg.instanceId))
  }

  /** RemoveFromBGFreeSlotQueue: drop the first entry of the map's list with the given instance id. */
  function RemoveFromBGFreeSlotQueue(mgr: Manager, mapId: int, instanceId: nat): (r: Manager)
    ensures instanceId !in Slots(mgr.freeSlots, mapId) ==> Slots(r.freeSlots, mapId) == Slots(mgr.freeSlots, mapId)
    ensures instanceId in Slots(mgr.freeSlots, mapId) ==>
              var k := IndexOf(Slots(mgr.freeSlots, mapId), instanceId);
              Slots(r.freeSlots, mapId) == Slots(mgr.freeSlots, mapId)[..k] + Slots(mgr.freeSlots, mapId)[k + 1..]
    ensures forall m :: m != mapId ==> Slots(r.freeSlots, m) == Slots(mgr.freeSlots, m)
    ensures r == mgr.(freeSlots := r.freeSlots)
  {
    mgr.(freeSlots := Remove(mgr.freeSlots, mapId, instanceId))
  }

  // ---------------------------------------------------------------------------
  // Scheduling
  // ---------------------------------------------------------------------------

  /** ScheduleQueueUpdate: add the triple to the pending list unless it is already there. */
  function ScheduleQueueUpdate(mgr: Manager, rating: u32, queue: QueueTypeId, bracket: nat): (r: Manager)
    requires Valid(mgr)
    ensures Valid(r)
    ensures ScheduledQueueUpdate(rating, queue, bracket) in r.scheduled
    ensures ScheduledQueueUpdate(rating, queue, bracket) in mgr.scheduled ==> r == mgr
    ensures forall v :: v in r.scheduled <==> v in mgr.scheduled || v == ScheduledQueueUpdate(rating, queue, bracket)
    ensures |mgr.scheduled| <= |r.scheduled| && r.scheduled[..|mgr.scheduled|] == mgr.scheduled
    ensures r == mgr.(scheduled := r.scheduled)
  {
    mgr.(scheduled := Schedule(mgr.scheduled, ScheduledQueueUpdate(rating, queue, bracket)))
  }

  // ---------------------------------------------------------------------------
  // The periodic tick
  // ---------------------------------------------------------------------------

  /** The client ids a sweep releases in one bracket: those of the instances reporting ToBeDeleted. */
  function Released(data: BattlegroundData, bracket: nat, elapsed: u32, toBeDeleted: (Battleground, u32) -> bool): set<nat>
  {
    set id | id in data.battlegrounds && toBeDeleted(data.battlegrounds[id], elapsed)
                                      && data.battlegrounds[id].bracketId == bracket
      :: data.battlegrounds[id].clientInstanceId
  }

  /**
   * The sweep of one type: advance every instance, drop those reporting
   * ToBeDeleted and erase their client ids from their bracket's set.
   */
  function SweepBucket(data: BattlegroundData, elapsed: u32, toBeDeleted: (Battleground, u32) -> bool): (r: BattlegroundData)
    requires ValidBucket(data)
    ensures ValidBucket(r)
    ensures forall id :: id in r.battlegrounds <==>
              id in data.battlegrounds && !toBeDeleted(data.battlegrounds[id], elapsed)
    ensures forall id :: id in r.battlegrounds ==> r.battlegrounds[id] == data.battlegrounds[id]
    ensures forall b, x :: x in BracketIds(r, b) <==>
              x in BracketIds(data, b) && x !in Released(data, b, elapsed, toBeDeleted)
  {
    var kept := map id | id in data.battlegrounds && !toBeDeleted(data.battlegrounds[id], elapsed)
                  :: data.battlegrounds[id];
    var ids := map b | b in data.clientIds
                 :: EraseAll(data.clientIds[b], Released(data, b, elapsed, toBeDeleted));
    var r := BattlegroundData(kept, ids);
    assert forall b :: b in ids ==> AllPositive(ids[b]) by {
      forall b | b in ids ensures AllPositive(ids[b]) {
        AllPositiveEraseAll(data.clientIds[b], Released(data, b, elapsed, toBeDeleted));
      }
    }
    r
  }

  /** The sweep of every type. */
  function Sweep(store: map<TypeId, BattlegroundData>, elapsed: u32, toBeDeleted: (Battleground, u32) -> bool): (r: map<TypeId, BattlegroundData>)
    requires forall t :: t in store ==> ValidBucket(store[t])
    ensures r.Keys == store.Keys
    ensures forall t :: t in r ==> ValidBucket(r[t])
    ensures forall t, id :: t in store ==>
              (id in r[t].battlegrounds <==>
                 id in store[t].battlegrounds && !toBeDeleted(store[t].battlegrounds[id], elapsed))
    ensures forall t, id :: t in store && id in r[t].battlegrounds ==>
              r[t].battlegrounds[id] == store[t].battlegrounds[id]
    ensures forall t, b, x :: t in store ==>
              (x in BracketIds(r[t], b) <==>
                 x in BracketIds(store[t], b) && x !in Released(store[t], b, elapsed, toBeDeleted))
  {
    map t | t in store :: SweepBucket(store[t], elapsed, toBeDeleted)
  }

  /** Once reaped, an instance is gone and its client id is free again in its bracket. */
  lemma ReapedClientIdIsReleased(store: map<TypeId, BattlegroundData>, elapsed: u32,
                                 toBeDeleted: (Battleground, u32) -> bool, t: TypeId, id: nat)
    requires forall u :: u in store ==> ValidBucket(store[u])
    requires t in store && id in store[t].battlegrounds && toBeDeleted(store[t].battlegrounds[id], elapsed)
    ensures var bg := store[t].battlegrounds[id];
            id !in Sweep(store, elapsed, toBeDeleted)[t].battlegrounds
            && bg.clientInstanceId !in BracketIds(Sweep(store, elapsed, toBeDeleted)[t], bg.bracketId)
  {
    var bg := store[t].battlegrounds[id];
    assert bg.clientInstanceId in Released(store[t], bg.bracketId, elapsed, toBeDeleted);
  }

  /**
   * A sweep erases client ids only in the buckets of the types its reaped
   * instances are registered under. Ids allocated under a type that holds no
   * instance (a random-battleground id, whose instances are registered under
   * their concrete type) are never released by a sweep.
   */
  lemma SweepKeepsIdsOfTypeWithoutInstances(store: map<TypeId, BattlegroundData>, elapsed: u32,
                                            toBeDeleted: (Battleground, u32) -> bool, t: TypeId, b: nat)
    requires forall u :: u in store ==> ValidBucket(store[u])
    requires t in store && store[t].battlegrounds == map[]
    ensures forall x :: x in BracketIds(Sweep(store, elapsed, toBeDeleted)[t], b) <==> x in BracketIds(store[t], b)
  {
    assert Released(store[t], b, elapsed, toBeDeleted) == {};
  }

  /** The update calls the forced rated sweep makes for one team size, one per bracket. */
  function RatedBracketCalls(teamSize: nat, diff: u32): seq<QueueCall>
  {
    seq(MAX_BATTLEGROUND_BRACKETS, b requires 0 <= b < MAX_BATTLEGROUND_BRACKETS =>
      QueueUpdate(RatedArenaQueue(teamSize), diff, BG_BRACKET_ID_FIRST + b, 0))
  }

  /** The forced rated sweep: every rated 2v2, 3v3 and 5v5 arena queue, in every bracket. */
  function ForcedRatedCalls(diff: u32): (calls: seq<QueueCall>)
    ensures |calls| == 3 * MAX_BATTLEGROUND_BRACKETS
    ensures forall i :: 0 <= i < |calls| ==>
              calls[i] == QueueUpdate(RatedArenaQueue([ARENA_TYPE_2v2, ARENA_TYPE_3v3, ARENA_TYPE_5v5][i / MAX_BATTLEGROUND_BRACKETS]),
                                      diff, BG_BRACKET_ID_FIRST + i % MAX_BATTLEGROUND_BRACKETS, 0)
    ensures forall ts, b: nat :: ts in {ARENA_TYPE_2v2, ARENA_TYPE_3v3, ARENA_TYPE_5v5} && b < MAX_BATTLEGROUND_BRACKETS ==>
              QueueUpdate(RatedArenaQueue(ts), diff, b, 0) in calls
    ensures forall i :: 0 <= i < |calls| ==>
              && calls[i].QueueUpdate?
              && calls[i].queue.rated
              && calls[i].queue.teamSize in {ARENA_TYPE_2v2, ARENA_TYPE_3v3, ARENA_TYPE_5v5}
              && calls[i].bracketId < MAX_BATTLEGROUND_BRACKETS
              && calls[i].arenaMatchmakerRating == 0
              && calls[i].diff == diff
  {
    var c2 := RatedBracketCalls(ARENA_TYPE_2v2, diff);
    var c3 := RatedBracketCalls(ARENA_TYPE_3v3, diff);
    var c5 := RatedBracketCalls(ARENA_TYPE_5v5, diff);
    var calls := c2 + c3 + c5;
    assert forall ts, b: nat :: ts in {ARENA_TYPE_2v2, ARENA_TYPE_3v3, ARENA_TYPE_5v5} && b < MAX_BATTLEGROUND_BRACKETS ==>
      QueueUpdate(RatedArenaQueue(ts), diff, b, 0) in calls by {
      forall ts, b: nat | ts in {ARENA_TYPE_2v2, ARENA_TYPE_3v3, ARENA_TYPE_5v5} && b < MAX_BATTLEGROUND_BRACKETS
        ensures QueueUpdate(RatedArenaQueue(ts), diff, b, 0) in calls
      {
        if ts == ARENA_TYPE_2v2 {
          assert calls[b] == c2[b];
        } else if ts == ARENA_TYPE_3v3 {
          assert calls[MAX_BATTLEGROUND_BRACKETS + b] == c3[b];
        } else {
          assert calls[2 * MAX_BATTLEGROUND_BRACKETS + b] == c5[b];
        }
      }
    }
    calls
  }

  /** One tick of the rated-arena countdown: whether the forced sweep fires, and the next countdown value. */
  datatype RatedStep = RatedStep(fires: bool, next: u32)

  /**
   * The countdown is active only when both the max rating difference and the
   * rated update timer are configured non-zero; it fires when the remaining
   * time is below the tick's elapsed time and then restarts from the
   * configured timer.
   */
  function StepRatedTimer(next: u32, diff: u32, config: Config): (s: RatedStep)
    ensures config.maxRatingDifference == 0 || config.ratedUpdateTimer == 0 ==> !s.fires && s.next == next
    ensures s.fires ==> next < diff && s.next == config.ratedUpdateTimer
    ensures !s.fires && config.maxRatingDifference != 0 && config.ratedUpdateTimer != 0 ==>
              diff <= next && s.next == next - diff
  {
    if config.maxRatingDifference != 0 && config.ratedUpdateTimer != 0 then
      if next < diff then RatedStep(true, config.ratedUpdateTimer)
      else RatedStep(false, next - diff)
    else RatedStep(false, next)
  }

  /** The rated countdown run for n ticks of equal length: how often it fired, and where it ends. */
  function RunRatedTimer(next: u32, diff: u32, config: Config, n: nat): (u: (nat, u32))
    decreases n
  {
    if n == 0 then (0, next)
    else
      var s := StepRatedTimer(next, diff, config);
      var rest := RunRatedTimer(s.next, diff, config, n - 1);
      (rest.0 + (if s.fires then 1 else 0), rest.1)
  }

  /** While k ticks fit into the remaining time, the countdown does not fire. */
  lemma {:induction false} RatedCountdownQuiet(next: u32, diff: u32, config: Config, k: nat)
    requires config.maxRatingDifference != 0 && config.ratedUpdateTimer != 0
    requires k * diff <= next
    ensures RunRatedTimer(next, diff, config, k) == (0, next - k * diff)
    decreases k
  {
    if k > 0 {
      MultiplyStep(k - 1, diff);
      RatedCountdownQuiet(next - diff, diff, config, k - 1);
    }
  }

  /**
   * With ticks of equal length diff and a configured timer T = q * diff + rest
   * (rest < diff), the forced sweep fires exactly once in every q + 1 ticks,
   * at the last of them, and the countdown is back at T.
   */
  lemma RatedTimerFiresOncePerPeriod(config: Config, diff: u32, q: nat)
    requires config.maxRatingDifference != 0 && config.ratedUpdateTimer != 0
    requires q * diff <= config.ratedUpdateTimer < (q + 1) * diff
    ensures RunRatedTimer(config.ratedUpdateTimer, diff, config, q + 1) == (1, config.ratedUpdateTimer)
    ensures forall k: nat :: k <= q ==> RunRatedTimer(config.ratedUpdateTimer, diff, config, k).0 == 0
  {
    var t := config.ratedUpdateTimer;
    forall k: nat | k <= q ensures RunRatedTimer(t, diff, config, k).0 == 0 {
      assert k * diff <= q * diff;
      RatedCountdownQuiet(t, diff, config, k);
    }
    RatedTimerFiresAfter(t, diff, config, q);
  }

  lemma {:induction false} RatedTimerFiresAfter(next: u32, diff: u32, config: Config, q: nat)
    requires config.maxRatingDifference != 0 && config.ratedUpdateTimer != 0
    requires q * diff <= next < (q + 1) * diff
    ensures RunRatedTimer(next, diff, config, q + 1) == (1, config.ratedUpdateTimer)
    decreases q
  {
    if q == 0 {
      assert next < diff;
    } else {
      MultiplyStep(q - 1, diff);
      MultiplyStep(q, diff);
      RatedTimerFiresAfter(next - diff, diff, config, q - 1);
    }
  }

  lemma MultiplyStep(q: nat, d: nat)
    ensures (q + 1) * d == q * d + d
  {
  }

  /** When either configuration value is 0, the countdown never fires and never moves. */
  lemma {:induction false} RatedTimerDisabled(next: u32, diff: u32, config: Config, n: nat)
    requires config.maxRatingDifference == 0 || config.ratedUpdateTimer == 0
    ensures RunRatedTimer(next, diff, config, n) == (0, next)
    decreases n
  {
    if n > 0 {
      RatedTimerDisabled(next, diff, config, n - 1);
    }
  }

  /** What a tick produces: the next state and the calls made into the queues, in order. */
  datatype Tick = Tick(mgr: Manager, calls: seq<QueueCall>)

  /** The accumulated sweep timer after adding a tick, with 32-bit wrap-around. */
  function AccumulatedTimer(mgr: Manager, diff: u32): u32
  {
    (mgr.updateTimer + diff) % U32_MODULUS
  }

  datatype SweepStep = SweepStep(store: map<TypeId, BattlegroundData>, timer: u32)

  /**
   * Step 1 of the tick: once the accumulated time strictly exceeds the
   * objective interval, sweep every instance and reset the accumulator to 0
   * (a reset, not a subtraction); otherwise only accumulate.
   */
  function StepSweep(mgr: Manager, diff: u32, env: Environment): (r: SweepStep)
    requires Valid(mgr)
    ensures forall t :: t in r.store ==> ValidBucket(r.store[t])
    ensures AccumulatedTimer(mgr, diff) > BATTLEGROUND_OBJECTIVE_UPDATE_INTERVAL ==>
              r.timer == 0 && r.store == Sweep(mgr.store, AccumulatedTimer(mgr, diff), env.toBeDeleted)
    ensures AccumulatedTimer(mgr, diff) <= BATTLEGROUND_OBJECTIVE_UPDATE_INTERVAL ==>
              r.timer == AccumulatedTimer(mgr, diff) && r.store == mgr.store
  {
    var acc := AccumulatedTimer(mgr, diff);
    if acc > BATTLEGROUND_OBJECTIVE_UPDATE_INTERVAL then SweepStep(Sweep(mgr.store, acc, env.toBeDeleted), 0)
    else SweepStep(mgr.store, acc)
  }

  /** Step 2 of the tick: one UpdateEvents call per registered queue, in container order. */
  function EventCalls(queues: seq<QueueTypeId>, diff: u32): (calls: seq<QueueCall>)
    ensures |calls| == |queues|
    ensures forall i :: 0 <= i < |queues| ==> calls[i] == UpdateEvents(queues[i], diff)
  {
    seq(|queues|, i requires 0 <= i < |queues| => UpdateEvents(queues[i], diff))
  }

  /** The pending list at the moment of the swap: the old list plus whatever the event updates scheduled. */
  function PendingAtDrain(mgr: Manager, diff: u32, env: Environment): (p: seq<ScheduledQueueUpdate>)
    requires Valid(mgr)
    ensures NoDuplicates(p)
    ensures |mgr.scheduled| <= |p| && p[..|mgr.scheduled|] == mgr.scheduled
  {
    ScheduleAll(mgr.scheduled, Reactions(EventCalls(env.queues, diff), env.react))
  }

  /**
   * The list swapped out at the drain holds exactly the triples pending before
   * the tick and those the queues scheduled while their event timers advanced.
   */
  lemma PendingAtDrainHoldsEventReactions(mgr: Manager, diff: u32, env: Environment)
    requires Valid(mgr)
    ensures forall v :: v in PendingAtDrain(mgr, diff, env) <==>
              v in mgr.scheduled || exists i :: 0 <= i < |env.queues| && v in env.react(UpdateEvents(env.queues[i], diff))
  {
    var events := EventCalls(env.queues, diff);
    forall v | v in PendingAtDrain(mgr, diff, env) && v !in mgr.scheduled
      ensures exists i :: 0 <= i < |env.queues| && v in env.react(UpdateEvents(env.queues[i], diff))
    {
      var i :| 0 <= i < |events| && v in env.react(events[i]);
      assert events[i] == UpdateEvents(env.queues[i], diff);
    }
    forall v, i | 0 <= i < |env.queues| && v in env.react(UpdateEvents(env.queues[i], diff))
      ensures v in PendingAtDrain(mgr, diff, env)
    {
      assert events[i] == UpdateEvents(env.queues[i], diff);
    }
  }

  /**
   * Update: the periodic tick.
   *   1. accumulate diff and maybe sweep (StepSweep);
   *   2. advance every queue's event timers;
   *   3. swap out the pending list and apply each triple in insertion order;
   *   4. step the rated countdown and, when it fires, update every rated arena
   *      queue in every bracket.
   * Triples scheduled by the queues during 3 and 4 are left pending for the next tick.
   */
  function Update(mgr: Manager, diff: u32, config: Config, env: Environment): (r: Tick)
    requires Valid(mgr)
    ensures Valid(r.mgr)
    ensures r.mgr.store == StepSweep(mgr, diff, env).store && r.mgr.updateTimer == StepSweep(mgr, diff, env).timer
    ensures r.mgr.freeSlots == mgr.freeSlots
    ensures r.mgr.nextRatedArenaUpdate == StepRatedTimer(mgr.nextRatedArenaUpdate, diff, config).next
    ensures var p := PendingAtDrain(mgr, diff, env);
            var forced := if StepRatedTimer(mgr.nextRatedArenaUpdate, diff, config).fires then ForcedRatedCalls(diff) else [];
            r.calls == EventCalls(env.queues, diff) + Drain(p, diff, env.react).calls + forced
    ensures var p := PendingAtDrain(mgr, diff, env);
            var forced := if StepRatedTimer(mgr.nextRatedArenaUpdate, diff, config).fires then ForcedRatedCalls(diff) else [];
            && (forall v :: v in r.mgr.scheduled <==>
                  v in Drain(p, diff, env.react).pending || exists i :: 0 <= i < |forced| && v in env.react(forced[i]))
            && |Drain(p, diff, env.react).pending| <= |r.mgr.scheduled|
            && r.mgr.scheduled[..|Drain(p, diff, env.react).pending|] == Drain(p, diff, env.react).pending
  {
    var swept := StepSweep(mgr, diff, env);
    var events := EventCalls(env.queues, diff);
    var drained := Drain(PendingAtDrain(mgr, diff, env), diff, env.react);
    var step := StepRatedTimer(mgr.nextRatedArenaUpdate, diff, config);
    var forced := if step.fires then ForcedRatedCalls(diff) else [];
    var scheduled := ScheduleAll(drained.pending, Reactions(forced, env.react));
    Tick(Manager(swept.store, mgr.freeSlots, scheduled, swept.timer, step.next), events + drained.calls + forced)
  }

  /**
   * When the queues schedule nothing while being served, a tick leaves nothing
   * pending: every triple pending before the tick has been applied.
   */
  lemma QuietTickLeavesNothingPending(mgr: Manager, diff: u32, config: Config, env: Environment)
    requires Valid(mgr)
    requires forall c :: env.react(c) == []
    ensures Update(mgr, diff, config, env).mgr.scheduled == []
  {
  }

  /**
   * In one tick, the calls after the event updates begin with every triple
   * that was pending before the tick, applied once each, in insertion order.
   */
  lemma UpdateAppliesPendingInOrder(mgr: Manager, diff: u32, config: Config, env: Environment)
    requires Valid(mgr)
    ensures var r := Update(mgr, diff, config, env);
            && |env.queues| + |mgr.scheduled| <= |r.calls|
            && forall i :: 0 <= i < |mgr.scheduled| ==> r.calls[|env.queues| + i] == ApplyCall(mgr.scheduled[i], diff)
  {
    var r := Update(mgr, diff, config, env);
    var p := PendingAtDrain(mgr, diff, env);
    var d := Drain(p, diff, env.react);
    forall i | 0 <= i < |mgr.scheduled|
      ensures r.calls[|env.queues| + i] == ApplyCall(mgr.scheduled[i], diff)
    {
      assert p[i] == mgr.scheduled[i];
      assert r.calls[|env.queues| + i] == d.calls[i];
    }
  }

  /**
   * The forced rated sweep happens in a tick exactly when the countdown
   * fires; with either configuration value 0 it never happens and the
   * countdown stays where it was.
   */
  lemma UpdateForcedSweep(mgr: Manager, diff: u32, config: Config, env: Environment)
    requires Valid(mgr)
    ensures var r := Update(mgr, diff, config, env);
            var base := |env.queues| + |PendingAtDrain(mgr, diff, env)|;
            && (StepRatedTimer(mgr.nextRatedArenaUpdate, diff, config).fires ==>
                  r.calls[base..] == ForcedRatedCalls(diff))
            && (!StepRatedTimer(mgr.nextRatedArenaUpdate, diff, config).fires ==> |r.calls| == base)
    ensures config.maxRatingDifference == 0 || config.ratedUpdateTimer == 0 ==>
              var r := Update(mgr, diff, config, env);
              |r.calls| == |env.queues| + |PendingAtDrain(mgr, diff, env)|
              && r.mgr.nextRatedArenaUpdate == mgr.nextRatedArenaUpdate
  {
    var r := Update(mgr, diff, config, env);
    var p := PendingAtDrain(mgr, diff, env);
    var d := Drain(p, diff, env.react);
    assert |EventCalls(env.queues, diff) + d.calls| == |env.queues| + |p|;
  }

  /**
   * A tick that sweeps removes exactly the instances reporting ToBeDeleted,
   * keeps every other instance as it was, and frees their client ids.
   */
  lemma UpdateReapsExactlyFinished(mgr: Manager, diff: u32, config: Config, env: Environment, t: TypeId, id: nat)
    requires Valid(mgr)
    requires AccumulatedTimer(mgr, diff) > BATTLEGROUND_OBJECTIVE_UPDATE_INTERVAL
    requires id in InstancesAt(mgr, t)
    ensures var r := Update(mgr, diff, config, env);
            var bg := InstancesAt(mgr, t)[id];
            && r.mgr.updateTimer == 0
            && (id in InstancesAt(r.mgr, t) <==> !env.toBeDeleted(bg, AccumulatedTimer(mgr, diff)))
            && (id in InstancesAt(r.mgr, t) ==> InstancesAt(r.mgr, t)[id] == bg)
            && (id !in InstancesAt(r.mgr, t) ==> bg.clientInstanceId !in ClientIdsAt(r.mgr, t, bg.bracketId))
  {
    var acc := AccumulatedTimer(mgr, diff);
    var bg := InstancesAt(mgr, t)[id];
    assert t in mgr.store;
    if env.toBeDeleted(bg, acc) {
      ReapedClientIdIsReleased(mgr.store, acc, env.toBeDeleted, t, id);
    }
  }

  /** A tick below the interval only accumulates time: every instance and client id stays. */
  lemma UpdateBelowIntervalKeepsInstances(mgr: Manager, diff: u32, config: Config, env: Environment)
    requires Valid(mgr)
    requires AccumulatedTimer(mgr, diff) <= BATTLEGROUND_OBJECTIVE_UPDATE_INTERVAL
    ensures var r := Update(mgr, diff, config, env);
            && r.mgr.store == mgr.store
            && (mgr.updateTimer + diff < U32_MODULUS ==> r.mgr.updateTimer == mgr.updateTimer + diff)
  {
    var swept := StepSweep(mgr, diff, env);
    assert swept.store == mgr.store;
    if mgr.updateTimer + diff < U32_MODULUS {
      assert AccumulatedTimer(mgr, diff) == mgr.updateTimer + diff;
    }
  }
}
