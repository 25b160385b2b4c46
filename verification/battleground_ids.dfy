/**
 * Identifiers and pure classifiers of the battleground manager: battleground
 * type ids, weekend holiday ids, queue type ids and the queue-id validity rule.
 *
 * The numeric values of the enumerations live in shared headers that are not
 * part of this model; the values below are assumed (see README).
 */
module BattlegroundIds {

  /** Unsigned 32-bit integers, the width of the manager's timers and configuration. */
  const U32_MODULUS: int := 0x1_0000_0000
  type u32 = x: int | 0 <= x < U32_MODULUS

  /** BattlegroundTypeId, the id of a BattlemasterList row. */
  type TypeId = nat

  const BATTLEGROUND_TYPE_NONE: TypeId := 0
  const BATTLEGROUND_AV: TypeId := 1
  const BATTLEGROUND_WS: TypeId := 2
  const BATTLEGROUND_AB: TypeId := 3
  const BATTLEGROUND_NA: TypeId := 4
  const BATTLEGROUND_BE: TypeId := 5
  const BATTLEGROUND_AA: TypeId := 6
  const BATTLEGROUND_EY: TypeId := 7
  const BATTLEGROUND_RL: TypeId := 8
  const BATTLEGROUND_SA: TypeId := 9
  const BATTLEGROUND_DS: TypeId := 10
  const BATTLEGROUND_RV: TypeId := 11
  const BATTLEGROUND_IC: TypeId := 30
  const BATTLEGROUND_RB: TypeId := 32
  const BATTLEGROUND_TP: TypeId := 108
  const BATTLEGROUND_BFG: TypeId := 120
  const BATTLEGROUND_RANDOM_EPIC: TypeId := 901

  /** HolidayIds of the "call to arms" weekend events. */
  type HolidayId = nat

  const HOLIDAY_NONE: HolidayId := 0
  const HOLIDAY_CALL_TO_ARMS_AV: HolidayId := 283
  const HOLIDAY_CALL_TO_ARMS_WG: HolidayId := 284
  const HOLIDAY_CALL_TO_ARMS_AB: HolidayId := 285
  const HOLIDAY_CALL_TO_ARMS_ES: HolidayId := 353
  const HOLIDAY_CALL_TO_ARMS_SA: HolidayId := 400
  const HOLIDAY_CALL_TO_ARMS_IC: HolidayId := 420
  const HOLIDAY_CALL_TO_ARMS_TP: HolidayId := 435
  const HOLIDAY_CALL_TO_ARMS_BG: HolidayId := 436

  /** Arena team sizes. */
  const ARENA_TYPE_2v2: nat := 2
  const ARENA_TYPE_3v3: nat := 3
  const ARENA_TYPE_5v5: nat := 5

  /** Level brackets: ids BG_BRACKET_ID_FIRST .. MAX_BATTLEGROUND_BRACKETS - 1. */
  const BG_BRACKET_ID_FIRST: nat := 0
  const MAX_BATTLEGROUND_BRACKETS: nat := 16

  /** BattlegroundQueueIdType, stored in a queue id as a plain integer. */
  const QUEUE_ID_TYPE_BATTLEGROUND: nat := 0
  const QUEUE_ID_TYPE_ARENA: nat := 1
  const QUEUE_ID_TYPE_WARGAME: nat := 2
  const QUEUE_ID_TYPE_CHEAT: nat := 3
  const QUEUE_ID_TYPE_ARENA_SKIRMISH: nat := 4

  /** The kind a BattlemasterList row declares. */
  datatype BattlemasterType = BattlegroundKind | ArenaKind | OtherKind

  /** BattlegroundQueueTypeId: which queue a player waits in. */
  datatype QueueTypeId = QueueTypeId(battlemasterListId: TypeId, queueType: nat, rated: bool, teamSize: nat)

  /** The type ids that are arenas (all-arenas plus the five arena maps). */
  predicate IsArenaType(t: TypeId)
    ensures IsArenaType(t) ==> t != BATTLEGROUND_TYPE_NONE && !IsRandomBattleground(t) && !HasWeekendHoliday(t)
  {
    || t == BATTLEGROUND_AA
    || t == BATTLEGROUND_BE
    || t == BATTLEGROUND_NA
    || t == BATTLEGROUND_DS
    || t == BATTLEGROUND_RV
    || t == BATTLEGROUND_RL
  }

  /** The type ids that stand for a random pick among several battlegrounds. */
  predicate IsRandomBattleground(battlemasterListId: TypeId)
    ensures IsRandomBattleground(battlemasterListId) ==>
              battlemasterListId != BATTLEGROUND_TYPE_NONE && !HasWeekendHoliday(battlemasterListId)
  {
    battlemasterListId == BATTLEGROUND_RB || battlemasterListId == BATTLEGROUND_RANDOM_EPIC
  }

  /** The eight battleground types that have a "call to arms" weekend. */
  predicate HasWeekendHoliday(t: TypeId)
  {
    t in {BATTLEGROUND_AV, BATTLEGROUND_EY, BATTLEGROUND_WS, BATTLEGROUND_SA,
          BATTLEGROUND_AB, BATTLEGROUND_IC, BATTLEGROUND_TP, BATTLEGROUND_BFG}
  }

  /** The eight "call to arms" holidays. */
  predicate IsWeekendHoliday(h: HolidayId)
  {
    h in {HOLIDAY_CALL_TO_ARMS_AV, HOLIDAY_CALL_TO_ARMS_ES, HOLIDAY_CALL_TO_ARMS_WG, HOLIDAY_CALL_TO_ARMS_SA,
          HOLIDAY_CALL_TO_ARMS_AB, HOLIDAY_CALL_TO_ARMS_IC, HOLIDAY_CALL_TO_ARMS_TP, HOLIDAY_CALL_TO_ARMS_BG}
  }

  /** The weekend holiday of a battleground type, or HOLIDAY_NONE. */
  function BGTypeToWeekendHolidayId(t: TypeId): (h: HolidayId)
    ensures h != HOLIDAY_NONE <==> HasWeekendHoliday(t)
    ensures h != HOLIDAY_NONE ==> IsWeekendHoliday(h)
  {
    if t == BATTLEGROUND_AV then HOLIDAY_CALL_TO_ARMS_AV
    else if t == BATTLEGROUND_EY then HOLIDAY_CALL_TO_ARMS_ES
    else if t == BATTLEGROUND_WS then HOLIDAY_CALL_TO_ARMS_WG
    else if t == BATTLEGROUND_SA then HOLIDAY_CALL_TO_ARMS_SA
    else if t == BATTLEGROUND_AB then HOLIDAY_CALL_TO_ARMS_AB
    else if t == BATTLEGROUND_IC then HOLIDAY_CALL_TO_ARMS_IC
    else if t == BATTLEGROUND_TP then HOLIDAY_CALL_TO_ARMS_TP
    else if t == BATTLEGROUND_BFG then HOLIDAY_CALL_TO_ARMS_BG
    else HOLIDAY_NONE
  }

  /** The battleground type of a weekend holiday, or BATTLEGROUND_TYPE_NONE. */
  function WeekendHolidayIdToBGType(h: HolidayId): (t: TypeId)
    ensures t != BATTLEGROUND_TYPE_NONE <==> IsWeekendHoliday(h)
    ensures t != BATTLEGROUND_TYPE_NONE ==> HasWeekendHoliday(t)
  {
    if h == HOLIDAY_CALL_TO_ARMS_AV then BATTLEGROUND_AV
    else if h == HOLIDAY_CALL_TO_ARMS_ES then BATTLEGROUND_EY
    else if h == HOLIDAY_CALL_TO_ARMS_WG then BATTLEGROUND_WS
    else if h == HOLIDAY_CALL_TO_ARMS_SA then BATTLEGROUND_SA
    else if h == HOLIDAY_CALL_TO_ARMS_AB then BATTLEGROUND_AB
    else if h == HOLIDAY_CALL_TO_ARMS_IC then BATTLEGROUND_IC
    else if h == HOLIDAY_CALL_TO_ARMS_TP then BATTLEGROUND_TP
    else if h == HOLIDAY_CALL_TO_ARMS_BG then BATTLEGROUND_BFG
    else BATTLEGROUND_TYPE_NONE
  }

  /** The two holiday mappings are inverse to each other on the eight mapped types and holidays. */
  lemma WeekendHolidayRoundTrip(t: TypeId, h: HolidayId)
    ensures HasWeekendHoliday(t) ==> WeekendHolidayIdToBGType(BGTypeToWeekendHolidayId(t)) == t
    ensures IsWeekendHoliday(h) ==> BGTypeToWeekendHolidayId(WeekendHolidayIdToBGType(h)) == h
    ensures !HasWeekendHoliday(t) ==> WeekendHolidayIdToBGType(BGTypeToWeekendHolidayId(t)) == BATTLEGROUND_TYPE_NONE
  {
  }

  /** No type is both an arena and a random battleground, and no arena has a weekend holiday. */
  lemma ClassifiersAreDisjoint(t: TypeId)
    ensures !(IsArenaType(t) && IsRandomBattleground(t))
    ensures IsArenaType(t) ==> BGTypeToWeekendHolidayId(t) == HOLIDAY_NONE
    ensures !IsArenaType(BATTLEGROUND_TYPE_NONE) && !IsRandomBattleground(BATTLEGROUND_TYPE_NONE)
  {
  }

  /** BGQueueTypeId: assembles a queue id from its four parts. */
  function BGQueueTypeId(battlemasterListId: TypeId, queueType: nat, rated: bool, teamSize: nat): (q: QueueTypeId)
    ensures q.battlemasterListId == battlemasterListId && q.queueType == queueType
    ensures q.rated == rated && q.teamSize == teamSize
  {
    QueueTypeId(battlemasterListId, queueType, rated, teamSize)
  }

  /**
   * IsValidQueueId: whether a queue id names a queue players may join.
   * `battlemasterList` is the BattlemasterList store, keyed by row id.
   */
  function IsValidQueueId(q: QueueTypeId, battlemasterList: map<TypeId, BattlemasterType>): (valid: bool)
    ensures valid ==> q.battlemasterListId in battlemasterList
    ensures q.queueType == QUEUE_ID_TYPE_BATTLEGROUND ==>
              (valid <==> q.battlemasterListId in battlemasterList
                          && battlemasterList[q.battlemasterListId] == BattlegroundKind && q.teamSize == 0)
    ensures q.queueType == QUEUE_ID_TYPE_ARENA ==>
              (valid <==> q.battlemasterListId in battlemasterList
                          && battlemasterList[q.battlemasterListId] == ArenaKind && q.rated && q.teamSize != 0)
    ensures q.queueType == QUEUE_ID_TYPE_WARGAME ==>
              (valid <==> q.battlemasterListId in battlemasterList && !q.rated)
    ensures q.queueType == QUEUE_ID_TYPE_ARENA_SKIRMISH ==>
              (valid <==> q.battlemasterListId in battlemasterList
                          && battlemasterList[q.battlemasterListId] == ArenaKind && q.rated && q.teamSize == ARENA_TYPE_3v3)
    ensures q.queueType == QUEUE_ID_TYPE_CHEAT || q.queueType > QUEUE_ID_TYPE_ARENA_SKIRMISH ==> !valid
  {
    if q.battlemasterListId !in battlemasterList then false
    else
      var kind := battlemasterList[q.battlemasterListId];
      if q.queueType == QUEUE_ID_TYPE_BATTLEGROUND then
        kind == BattlegroundKind && q.teamSize == 0
      else if q.queueType == QUEUE_ID_TYPE_ARENA then
        kind == ArenaKind && q.rated && q.teamSize != 0
      else if q.queueType == QUEUE_ID_TYPE_WARGAME then
        !q.rated
      else if q.queueType == QUEUE_ID_TYPE_ARENA_SKIRMISH then
        kind == ArenaKind && q.rated && q.teamSize == ARENA_TYPE_3v3
      else
        false
  }

  /**
   * A valid queue id and the BattlemasterList row it names agree: battleground
   * queues name battleground rows, arena and skirmish queues name arena rows,
   * and cheat queues are never valid.
   */
  lemma ValidQueueMatchesRowKind(q: QueueTypeId, battlemasterList: map<TypeId, BattlemasterType>)
    requires IsValidQueueId(q, battlemasterList)
    ensures q.queueType != QUEUE_ID_TYPE_CHEAT
    ensures q.queueType == QUEUE_ID_TYPE_BATTLEGROUND ==> battlemasterList[q.battlemasterListId] == BattlegroundKind
    ensures q.queueType in {QUEUE_ID_TYPE_ARENA, QUEUE_ID_TYPE_ARENA_SKIRMISH} ==>
              battlemasterList[q.battlemasterListId] == ArenaKind && q.rated && q.teamSize != 0
  {
  }

  /** The rated arena queue of one team size, as the forced periodic update addresses it. */
  function RatedArenaQueue(teamSize: nat): (q: QueueTypeId)
    ensures q.battlemasterListId == BATTLEGROUND_AA
    ensures q.rated && q.queueType == QUEUE_ID_TYPE_ARENA && q.teamSize == teamSize
  {
    BGQueueTypeId(BATTLEGROUND_AA, QUEUE_ID_TYPE_ARENA, true, teamSize)
  }

  /**
   * The queues the forced rated update addresses are valid queue ids exactly
   * when the all-arenas row is present and declared an arena.
   */
  lemma RatedArenaQueuesAreValid(teamSize: nat, battlemasterList: map<TypeId, BattlemasterType>)
    requires teamSize in {ARENA_TYPE_2v2, ARENA_TYPE_3v3, ARENA_TYPE_5v5}
    ensures IsValidQueueId(RatedArenaQueue(teamSize), battlemasterList) <==>
              BATTLEGROUND_AA in battlemasterList && battlemasterList[BATTLEGROUND_AA] == ArenaKind
  {
  }
}
