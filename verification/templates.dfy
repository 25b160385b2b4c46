/**
 * The read-only template catalog: battleground templates by type id and by
 * map id, battleground script templates, and the random resolution of a type
 * id into a concrete battleground.
 */
module Templates {
  import opened Wrappers
  import opened BattlegroundIds

  /** A battleground template: its BattlemasterList kind, its maps and its selection weight. */
  datatype BattlegroundTemplate = BattlegroundTemplate(
    id: TypeId,
    kind: BattlemasterType,
    mapIds: seq<int>,
    weight: nat)
  {
    /** BattlegroundTemplate::IsArena: the template's BattlemasterList row declares an arena. */
    predicate IsArena()
      ensures IsArena() <==> kind == ArenaKind
    {
      kind == ArenaKind
    }
  }

  /**
   * The catalog: templates keyed by type id, and the templates that have
   * exactly one map keyed by that map id.
   */
  datatype Catalog = Catalog(
    byType: map<TypeId, BattlegroundTemplate>,
    byMap: map<int, BattlegroundTemplate>)

  /**
   * What loading establishes: every template is stored under its own id, no
   * template is stored under the NONE id, and the by-map index holds only
   * single-map templates of the catalog.
   */
  ghost predicate WellFormed(c: Catalog)
  {
    && BATTLEGROUND_TYPE_NONE !in c.byType
    && (forall t :: t in c.byType ==> c.byType[t].id == t)
    && (forall m :: m in c.byMap ==>
          && c.byMap[m].id in c.byType
          && c.byType[c.byMap[m].id] == c.byMap[m]
          && c.byMap[m].mapIds == [m])
  }

  /** The concrete templates reachable through the maps of a pool, in pool order. */
  function Candidates(c: Catalog, mapIds: seq<int>): (r: seq<BattlegroundTemplate>)
    ensures |r| <= |mapIds|
    ensures forall tpl :: tpl in r <==> exists m :: m in mapIds && m in c.byMap && c.byMap[m] == tpl
    decreases |mapIds|
  {
    if mapIds == [] then []
    else
      var rest := Candidates(c, mapIds[1..]);
      assert forall m :: m in mapIds <==> m == mapIds[0] || m in mapIds[1..];
      if mapIds[0] in c.byMap then [c.byMap[mapIds[0]]] + rest else rest
  }

  /**
   * GetRandomBG: resolve a type id into the id of one concrete template reached
   * through its maps, or NONE when the type is unknown or none of its maps has
   * a template. The weighted random choice is an oracle: `pick` selects the
   * candidate.
   */
  function GetRandomBG(c: Catalog, t: TypeId, pick: nat): (r: TypeId)
    ensures (t !in c.byType || Candidates(c, c.byType[t].mapIds) == []) ==> r == BATTLEGROUND_TYPE_NONE
    ensures t in c.byType && Candidates(c, c.byType[t].mapIds) != [] ==>
              exists m :: m in c.byType[t].mapIds && m in c.byMap && c.byMap[m].id == r
  {
    if t in c.byType then
      var ids := Candidates(c, c.byType[t].mapIds);
      if ids != [] then
        assert ids[pick % |ids|] in ids;
        ids[pick % |ids|].id
      else BATTLEGROUND_TYPE_NONE
    else BATTLEGROUND_TYPE_NONE
  }

  /** Every candidate with a positive weight is the outcome of some random choice. */
  lemma EveryCandidateCanBePicked(c: Catalog, t: TypeId, m: int)
    requires t in c.byType && m in c.byType[t].mapIds && m in c.byMap
    requires c.byMap[m].weight > 0
    ensures exists pick :: GetRandomBG(c, t, pick) == c.byMap[m].id
  {
    var ids := Candidates(c, c.byType[t].mapIds);
    var tpl := c.byMap[m];
    assert tpl in ids;
    var k :| 0 <= k < |ids| && ids[k] == tpl;
    assert k % |ids| == k;
    assert GetRandomBG(c, t, k) == ids[k].id;
  }

  /** In a well-formed catalog a successful resolution names a single-map template of the catalog. */
  lemma GetRandomBGFindsTemplate(c: Catalog, t: TypeId, pick: nat)
    requires WellFormed(c)
    ensures GetRandomBG(c, t, pick) != BATTLEGROUND_TYPE_NONE <==>
              t in c.byType && Candidates(c, c.byType[t].mapIds) != []
    ensures GetRandomBG(c, t, pick) != BATTLEGROUND_TYPE_NONE ==>
              GetRandomBG(c, t, pick) in c.byType && |c.byType[GetRandomBG(c, t, pick)].mapIds| == 1
  {
    var r := GetRandomBG(c, t, pick);
    if t in c.byType && Candidates(c, c.byType[t].mapIds) != [] {
      var m :| m in c.byType[t].mapIds && m in c.byMap && c.byMap[m].id == r;
      assert r in c.byType;
    }
  }

  /**
   * The validity rule of queue ids and the template kind agree: a valid
   * arena or skirmish queue names an arena template, and a valid battleground
   * queue names a template that is not an arena.
   */
  lemma ValidQueueNamesTemplateOfItsKind(tpl: BattlegroundTemplate, q: QueueTypeId,
                                         battlemasterList: map<TypeId, BattlemasterType>)
    requires q.battlemasterListId == tpl.id && tpl.id in battlemasterList && battlemasterList[tpl.id] == tpl.kind
    requires IsValidQueueId(q, battlemasterList)
    ensures q.queueType in {QUEUE_ID_TYPE_ARENA, QUEUE_ID_TYPE_ARENA_SKIRMISH} ==> tpl.IsArena()
    ensures q.queueType == QUEUE_ID_TYPE_BATTLEGROUND ==> !tpl.IsArena()
  {
  }

  /** A battleground script template: which script drives a map under a type id. */
  datatype ScriptTemplate = ScriptTemplate(mapId: int, id: TypeId, scriptId: nat)

  /** The script templates keyed by (map id, type id), as loading stores them. */
  type ScriptTemplates = map<(int, TypeId), ScriptTemplate>

  ghost predicate ScriptsWellFormed(scripts: ScriptTemplates)
  {
    forall k :: k in scripts ==> scripts[k].mapId == k.0 && scripts[k].id == k.1
  }

  /**
   * FindBattlegroundScriptTemplate: the script registered for the map under
   * the exact type id, falling back to the one registered under NONE.
   */
  function FindBattlegroundScriptTemplate(scripts: ScriptTemplates, mapId: int, t: TypeId): (r: Option<ScriptTemplate>)
    ensures (mapId, t) in scripts ==> r == Some(scripts[(mapId, t)])
    ensures r.None? <==> (mapId, t) !in scripts && (mapId, BATTLEGROUND_TYPE_NONE) !in scripts
    ensures r.Some? ==> r.value in scripts.Values
    ensures ScriptsWellFormed(scripts) && r.Some? ==>
              r.value.mapId == mapId && (r.value.id == t || r.value.id == BATTLEGROUND_TYPE_NONE)
  {
    if (mapId, t) in scripts then Some(scripts[(mapId, t)])
    else if (mapId, BATTLEGROUND_TYPE_NONE) in scripts then Some(scripts[(mapId, BATTLEGROUND_TYPE_NONE)])
    else None
  }
}
