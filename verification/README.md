# Battleground manager — a Dafny model

This project models the bookkeeping of TrinityCore's battleground manager
(`BattlegroundMgr`) as a pure state-transition system and proves properties of
it. The manager state is one immutable record:

- per battleground type: the live instances keyed by instance id, and for
  every level bracket the ordered set of client-visible instance ids in use;
- per map: the free-slot list of instances that still accept late joiners;
- the pending list of scheduled queue updates (matchmaker rating, queue type,
  bracket);
- two unsigned 32-bit timers: the objective-update accumulator and the
  rated-arena countdown.

Allocation of client ids, scheduling, registration, lookup, the free-slot
lists, instance creation and the periodic `Update` tick are functions from
state to state. Calls the manager makes into matchmaking queues
(`UpdateEvents`, `BattlegroundQueueUpdate`) are not executed but returned as a
trace. Three things outside the manager are parameters (`Environment`):

- the registered queues;
- whether a battleground reports `ToBeDeleted` after being advanced;
- the triples a queue schedules back into the manager while it is being served.

Modules:

| file | module | contents |
|---|---|---|
| wrappers.dfy | Wrappers | `Option`, `Result` |
| battleground_ids.dfy | BattlegroundIds | type, holiday and queue ids; arena/random classifiers; holiday mappings; queue-id validity |
| client_ids.dfy | ClientIds | the ordered id set as a strictly increasing sequence; the allocator's loop as written and the intended allocation |
| queue_scheduler.dfy | QueueScheduler | the duplicate-free pending list and its drain |
| free_slot_queue.dfy | FreeSlotQueue | per-map free-slot lists |
| templates.dfy | Templates | template catalog, random template resolution, script templates |
| battleground_mgr.dfy | BattlegroundMgr | manager state and all transitions |

The enumeration values are defined in shared headers that are not part of
this model. These include type ids, holiday ids, queue id types, arena team
sizes, `MAX_BATTLEGROUND_BRACKETS` and the objective interval. The values in
`battleground_ids.dfy` and `battleground_mgr.dfy` are assumed, not taken from
those headers. The proofs rely on these facts about them:

- the type ids, the holiday ids and the queue id types are each pairwise distinct;
- `BATTLEGROUND_TYPE_NONE` and `HOLIDAY_NONE` are 0;
- the arena team sizes 2, 3 and 5 are distinct and non-zero;
- the queue id types are ordered, with Arena Skirmish the largest, so every
  larger value is an unknown type;
- type ids are ordered numerically. This order decides which type a wildcard
  lookup visits first;
- `MAX_BATTLEGROUND_BRACKETS` is 16, which fixes the 48 forced calls;
- the objective interval is 1000 ms.

## Notes on the code

The model follows the code in the behaviours below, which a reader might not
expect. Client-id allocation is different: the model corrects it, as described
under Findings.

- **Allocation and release use different buckets.** `CreateNewBattleground`
  allocates the client id under the queue's BattlemasterList id (:357). The
  sweep releases it under the bucket the instance is registered in, which is
  its concrete type (:105, :726). For a random battleground queue the id is
  allocated in the random type's set. No sweep ever releases it there
  (`BattlegroundMgr.SweepKeepsIdsOfTypeWithoutInstances`).
- **Registration overwrites.** `AddBattleground` replaces an instance already
  registered under the same type and instance id (:726-728). It does not fail.
- **The countdown fires strictly below.** The forced rated update fires when
  the remaining time is strictly less than the tick (:138). With ticks of equal
  length d and a timer T = q·d + r (r < d), it fires once every q+1 ticks
  (`BattlegroundMgr.RatedTimerFiresOncePerPeriod`).

## Model

| member | source | states |
|---|---|---|
| `BattlegroundMgr.CreateClientVisibleInstanceId` | src/server/game/Battlegrounds/BattlegroundMgr.cpp:303-326 | Arena types get 0 and nothing changes. Other types get the lowest free id of the (type, bracket) set, which is ≥ 1 and not yet in use. The set grows by exactly that id. On a gap-free {1..n} the id is n+1 and the set becomes {1..n+1}. No other (type, bracket) set, instance, free slot or pending entry changes. |
| `BattlegroundMgr.TwoAllocationsOnGapFreeSetAreConsecutive` | src/server/game/Battlegrounds/BattlegroundMgr.cpp:315-325 | Two allocations on a gap-free set {1..n} hand out n+1 and n+2 and append both, in order. |
| `ClientIds.LoopAsWritten` | src/server/game/Battlegrounds/BattlegroundMgr.cpp:316-322 | The loop as written only ever compares with the smallest id. It exits with lastId+1 when that id is not lastId+1. Otherwise it exits with that id + 1 after a second pass. On the empty set it exits with lastId. |
| `ClientIds.NextClientIdAsWritten` | src/server/game/Battlegrounds/BattlegroundMgr.cpp:315-325 | The code as written hands out 1 on the empty set, 3 when the smallest id is 1, and 2 otherwise. |
| `ClientIds.AsWrittenIsLowestFreeIff` | src/server/game/Battlegrounds/BattlegroundMgr.cpp:308-325 | The id the code hands out is the lowest free id if and only if the set is empty or begins 1, 2 without 3. |
| `ClientIds.AsWrittenInUseIff` | src/server/game/Battlegrounds/BattlegroundMgr.cpp:315-325 | The id the code hands out is already in use if and only if the set begins with 1 and holds 3, or begins with 2. |
| `ClientIds.AsWrittenRepeatsAnId` | src/server/game/Battlegrounds/BattlegroundMgr.cpp:303-326 | From the empty set the code hands out 1, and from {1} it hands out 3. From {1,3} it hands out 3 again, an id already in use. On {2} it hands out 2, also in use. |
| `ClientIds.RunEnd` | src/server/game/Battlegrounds/BattlegroundMgr.cpp:316-322 | The intended scan ends at the last id of the run lastId+1, lastId+2, ... Every id of that run is present and the next one is absent. |
| `ClientIds.NextClientId` | src/server/game/Battlegrounds/BattlegroundMgr.cpp:308-325 | The intended allocation is ≥ 1 and is the lowest positive id not in the set. On a gap-free {1..n} it is n+1. |
| `ClientIds.ReleasedIdIsReused` | src/server/game/Battlegrounds/BattlegroundMgr.cpp:308-311 | After releasing an id, the intended allocation hands out an id no larger than it. |
| `ClientIds.ReleaseThenAllocate` | src/server/game/Battlegrounds/BattlegroundMgr.cpp:308-311 | Releasing 2 from {1,2,3} and allocating hands out 2 again. |
| `ClientIds.Insert` | src/server/game/Battlegrounds/BattlegroundMgr.cpp:324 | Insertion into the ordered set keeps it ordered and adds exactly the id. It is a no-op when the id is present and an append when the id is above all others. |
| `ClientIds.EraseAll` | src/server/game/Battlegrounds/BattlegroundMgr.cpp:105-107 | Erasure keeps the set ordered and removes exactly the given ids. |
| `BattlegroundMgr.ScheduleQueueUpdate` | src/server/game/Battlegrounds/BattlegroundMgr.cpp:556-563 | The triple is pending afterwards. A triple already pending leaves the state unchanged. Nothing but the pending list changes. Contents become old ∪ {triple}, the old list stays a prefix, and the list stays duplicate-free. |
| `QueueScheduler.Schedule` | src/server/game/Battlegrounds/BattlegroundMgr.cpp:560-562 | Appending unless present preserves duplicate-freedom and order, and adds exactly the triple. |
| `QueueScheduler.ScheduleIsIdempotent` | src/server/game/Battlegrounds/BattlegroundMgr.cpp:561-562 | Scheduling twice equals scheduling once, and scheduling a pending triple is a no-op. |
| `QueueScheduler.ScheduleAll` | src/server/game/Battlegrounds/BattlegroundMgr.cpp:556-563 | A batch of schedules keeps the list duplicate-free with the old list as prefix. Contents become old ∪ batch. |
| `QueueScheduler.RepeatedScheduleKeepsOneEntry` | src/server/game/Battlegrounds/BattlegroundMgr.cpp:561-562 | Submitting a new triple n > 0 times leaves it pending exactly once, at the end. |
| `QueueScheduler.ScheduleAllAppend` | src/server/game/Battlegrounds/BattlegroundMgr.cpp:556-563 | Scheduling two batches one after the other gives the same list as scheduling their concatenation. |
| `QueueScheduler.ScheduleAllSnoc` | src/server/game/Battlegrounds/BattlegroundMgr.cpp:560-562 | The last request of a batch is scheduled after all the others, so new triples are appended in the order they were requested. |
| `QueueScheduler.ReactionsSnoc` | src/server/game/Battlegrounds/BattlegroundMgr.cpp:121-122 | The requests made while serving one more queue call come after everything requested during the earlier calls. |
| `QueueScheduler.Drain` | src/server/game/Battlegrounds/BattlegroundMgr.cpp:125-132 | Swap-and-apply makes one update call per pending triple, in insertion order, carrying its rating, queue and bracket. The fresh list holds exactly what the queues scheduled during application, without duplicates. |
| `QueueScheduler.DrainSnoc` | src/server/game/Battlegrounds/BattlegroundMgr.cpp:125-132 | Draining one more triple adds its call last. What the queues schedule while serving it is scheduled onto the fresh list after everything requested during the earlier calls, so the next tick applies the requests in the order they were made. |
| `QueueScheduler.DrainAppliesEachOnce` | src/server/game/Battlegrounds/BattlegroundMgr.cpp:127-131 | A duplicate-free pending list is applied with no call repeated, and a triple is applied if and only if it was pending. |
| `QueueScheduler.QuietDrainEmptiesList` | src/server/game/Battlegrounds/BattlegroundMgr.cpp:127-128 | When nothing is scheduled during application, the drain leaves the list empty. |
| `BattlegroundMgr.Update` | src/server/game/Battlegrounds/BattlegroundMgr.cpp:88-154 | The tick keeps the invariant. It composes the sweep step, the rated countdown step and a trace of event calls, drained calls and, when the countdown fires, forced calls, in that order. The list pending afterwards holds exactly the triples the queues scheduled during the drain and during the forced calls. It starts with those scheduled during the drain, so none is dropped. |
| `BattlegroundMgr.QuietTickLeavesNothingPending` | src/server/game/Battlegrounds/BattlegroundMgr.cpp:124-153 | When the queues schedule nothing back, nothing is pending after a tick. |
| `BattlegroundMgr.StepSweep` | src/server/game/Battlegrounds/BattlegroundMgr.cpp:90-118 | The accumulated timer wraps at 2^32. The sweep runs if and only if it strictly exceeds 1000, and then the timer becomes 0. Otherwise the store is unchanged and the timer is the accumulated sum. |
| `BattlegroundMgr.SweepBucket` | src/server/game/Battlegrounds/BattlegroundMgr.cpp:95-114 | An instance survives if and only if it does not report ToBeDeleted, and survivors are unchanged. A client id stays in a bracket's set if and only if no reaped instance of that bracket held it. The sets stay ordered and positive. |
| `BattlegroundMgr.Sweep` | src/server/game/Battlegrounds/BattlegroundMgr.cpp:93-115 | The same per type: keys preserved, exactly the reported instances removed, their client ids erased. |
| `BattlegroundMgr.ReapedClientIdIsReleased` | src/server/game/Battlegrounds/BattlegroundMgr.cpp:103-113 | A reaped instance is gone, and its client id is free in its bracket again. |
| `BattlegroundMgr.SweepKeepsIdsOfTypeWithoutInstances` | src/server/game/Battlegrounds/BattlegroundMgr.cpp:93-115 | A type with no instances keeps all its client ids through a sweep. |
| `BattlegroundMgr.UpdateReapsExactlyFinished` | src/server/game/Battlegrounds/BattlegroundMgr.cpp:88-118 | In a sweeping tick the timer becomes 0. An instance stays if and only if it did not report ToBeDeleted, and a stayer is unchanged. A reaped instance's client id is released. |
| `BattlegroundMgr.UpdateBelowIntervalKeepsInstances` | src/server/game/Battlegrounds/BattlegroundMgr.cpp:90-91 | A tick that does not exceed the interval keeps every instance and id. Without wrap-around, it grows the timer by diff. |
| `BattlegroundMgr.UpdateAppliesPendingInOrder` | src/server/game/Battlegrounds/BattlegroundMgr.cpp:124-132 | Right after the event calls, the tick applies every triple pending before it, in insertion order. |
| `BattlegroundMgr.UpdateForcedSweep` | src/server/game/Battlegrounds/BattlegroundMgr.cpp:134-153 | The trace ends with the forced rated calls if and only if the countdown fires. With either config value 0 there are no forced calls and the countdown is unchanged. |
| `BattlegroundMgr.EventCalls` | src/server/game/Battlegrounds/BattlegroundMgr.cpp:121-122 | One UpdateEvents call per registered queue, in order, with the tick's diff. |
| `BattlegroundMgr.PendingAtDrain` | src/server/game/Battlegrounds/BattlegroundMgr.cpp:121-128 | The list swapped out is duplicate-free and starts with the list pending before the tick. |
| `BattlegroundMgr.PendingAtDrainHoldsEventReactions` | src/server/game/Battlegrounds/BattlegroundMgr.cpp:121-128 | A triple is in the list swapped out if and only if it was pending before the tick or some registered queue scheduled it while its event timers advanced. |
| `BattlegroundMgr.StepRatedTimer` | src/server/game/Battlegrounds/BattlegroundMgr.cpp:135-153 | With either config value 0, it does not fire and the countdown is untouched. Firing implies next < diff and a reset to the configured timer. Otherwise it subtracts diff with no underflow. |
| `BattlegroundMgr.ForcedRatedCalls` | src/server/game/Battlegrounds/BattlegroundMgr.cpp:142-147 | There are 3 × MAX_BATTLEGROUND_BRACKETS calls, in source order: team sizes 2v2, 3v3, 5v5 outer, brackets ascending inner. Call i updates the rated arena queue of team size i / 16 in bracket i % 16, with rating 0 and the tick's diff. Every (team size, bracket) pair is covered. |
| `BattlegroundMgr.RatedTimerFiresOncePerPeriod` | src/server/game/Battlegrounds/BattlegroundMgr.cpp:134-153 | For ticks of equal length d and T = q·d + r (r < d), the countdown fires exactly once in q+1 ticks, at the last, and returns to T. |
| `BattlegroundMgr.RatedCountdownQuiet` | src/server/game/Battlegrounds/BattlegroundMgr.cpp:151-152 | While k ticks fit into the remaining time, nothing fires and the countdown drops by k·d. |
| `BattlegroundMgr.RatedTimerFiresAfter` | src/server/game/Battlegrounds/BattlegroundMgr.cpp:138-149 | From a countdown in [q·d, (q+1)·d), the q+1-st tick fires once and resets. |
| `BattlegroundMgr.RatedTimerDisabled` | src/server/game/Battlegrounds/BattlegroundMgr.cpp:135 | With either config value 0, any number of ticks fire nothing and leave the countdown unchanged. |
| `BattlegroundMgr.GetBattleground` | src/server/game/Battlegrounds/BattlegroundMgr.cpp:219-248 | Instance id 0 yields none. NONE or a random type finds the instance if and only if some type holds it, and returns it from the smallest such type. Any other type finds it if and only if that type's bucket holds it. |
| `BattlegroundMgr.FindInAnyBucket` | src/server/game/Battlegrounds/BattlegroundMgr.cpp:226-245 | The scan in ascending type order returns the instance of the first type that holds the id, and none if and only if no type does. |
| `BattlegroundMgr.LeastKey` | src/server/game/Battlegrounds/BattlegroundMgr.cpp:228-239 | The first type the scan visits is the smallest key of the store. |
| `BattlegroundMgr.AddBattleground` | src/server/game/Battlegrounds/BattlegroundMgr.cpp:722-730 | Null is ignored. Otherwise the instance is stored under its type and instance id, replacing any previous one. Other types and client ids are unchanged, and nothing outside the instance store changes. |
| `BattlegroundMgr.AddedBattlegroundIsFound` | src/server/game/Battlegrounds/BattlegroundMgr.cpp:219-248 | A registered instance is found again under its own type and under the NONE wildcard. |
| `BattlegroundMgr.AddToBGFreeSlotQueue` | src/server/game/Battlegrounds/BattlegroundMgr.cpp:706-709 | The instance goes to the front of its map's list. Other maps and everything outside the free-slot lists are unchanged. |
| `BattlegroundMgr.RemoveFromBGFreeSlotQueue` | src/server/game/Battlegrounds/BattlegroundMgr.cpp:711-720 | Only the first entry with the id is removed, the rest keep their order, and other maps are unchanged. It is a no-op when the id is absent. Nothing outside the free-slot lists changes. |
| `FreeSlotQueue.IndexOf` | src/server/game/Battlegrounds/BattlegroundMgr.cpp:714-715 | The index is the first position holding the id. |
| `FreeSlotQueue.RemoveFirst` | src/server/game/Battlegrounds/BattlegroundMgr.cpp:714-719 | The list minus its first occurrence of the id, or the list itself when absent. |
| `FreeSlotQueue.PushFront` | src/server/game/Battlegrounds/BattlegroundMgr.cpp:708 | Front insertion on one map, other maps untouched. |
| `FreeSlotQueue.Remove` | src/server/game/Battlegrounds/BattlegroundMgr.cpp:711-720 | Removing from one map's list makes it one shorter exactly when the id was there. Other maps are untouched. |
| `FreeSlotQueue.RemoveUndoesPushFront` | src/server/game/Battlegrounds/BattlegroundMgr.cpp:706-720 | Closing right after opening restores the map's list. |
| `FreeSlotQueue.OpenOpenCloseOrder` | src/server/game/Battlegrounds/BattlegroundMgr.cpp:706-720 | Opening A then B lists [B, A]. Closing A then lists [B]. |
| `BattlegroundMgr.CreateNewBattleground` | src/server/game/Battlegrounds/BattlegroundMgr.cpp:329-366 | Returns TemplateNotFound if the resolved type has no template, and BracketNotFound if its first map has no bracket entry; both leave the state unchanged. Creation succeeds if and only if the template and the bracket entry both exist. On success the instance's type is exactly the type the random resolution returned, a candidate of the queue's template, with its map, its bracket entry's bracket, the given instance id, WaitJoin status, and the queue's team size and rated flag. Its client id is 0 if and only if the queue's id is an arena type, and is recorded otherwise. On success the client id and the new state are exactly those of one client-id allocation for the queue's type and the instance's bracket. Nothing is registered. |
| `BattlegroundMgr.GetMaxRatingDifference` | src/server/game/Battlegrounds/BattlegroundMgr.cpp:565-572 | Never 0. A configured non-zero value is returned as is, and 0 reads as 5000. |
| `BattlegroundMgr.Init` | src/server/game/Battlegrounds/BattlegroundMgr.cpp:65-68 | A fresh manager is valid, with timer 0 and the countdown primed from the config. It has no instances, no client ids in any (type, bracket) set, no free slots on any map and nothing pending. |
| `BattlegroundMgr.DeleteAllBattlegrounds` | src/server/game/Battlegrounds/BattlegroundMgr.cpp:75-79 | Every instance, every client-id set and every free-slot list is forgotten. The timers and the pending list are kept. |
| `Templates.Candidates` | src/server/game/Battlegrounds/BattlegroundMgr.cpp:688-692 | A template is a candidate if and only if one of the pool's maps indexes it. |
| `Templates.GetRandomBG` | src/server/game/Battlegrounds/BattlegroundMgr.cpp:684-699 | NONE when the type has no template or no candidate. Otherwise the id of a template reached through one of the type's maps. |
| `Templates.EveryCandidateCanBePicked` | src/server/game/Battlegrounds/BattlegroundMgr.cpp:694-695 | Every candidate whose map template has a positive weight is the outcome of some choice. |
| `Templates.GetRandomBGFindsTemplate` | src/server/game/Battlegrounds/BattlegroundMgr.cpp:684-699 | In a well-formed catalog, resolution succeeds if and only if the type has a template with a candidate. The result is a template with exactly one map, so :342's front() is defined. |
| `Templates.FindBattlegroundScriptTemplate` | src/server/game/Battlegrounds/BattlegroundMgr.cpp:294-301 | The exact (map, type) entry wins. Otherwise the result falls back to (map, NONE), and is none if and only if neither exists. In well-formed data the result belongs to the map, under the type or NONE. |
| `BattlegroundIds.BGTypeToWeekendHolidayId` | src/server/game/Battlegrounds/BattlegroundMgr.cpp:647-661 | A holiday if and only if the type is one of the eight weekend battlegrounds. |
| `BattlegroundIds.WeekendHolidayIdToBGType` | src/server/game/Battlegrounds/BattlegroundMgr.cpp:663-677 | A type if and only if the holiday is one of the eight call-to-arms holidays. |
| `BattlegroundIds.WeekendHolidayRoundTrip` | src/server/game/Battlegrounds/BattlegroundMgr.cpp:647-677 | The two mappings are inverse on the eight types and holidays. Unmapped types go to NONE. |
| `BattlegroundIds.ClassifiersAreDisjoint` | src/server/game/Battlegrounds/BattlegroundMgr.cpp:483-496 | No type is both arena and random, NONE is neither, and arenas have no weekend holiday. |
| `BattlegroundIds.BGQueueTypeId` | src/server/game/Battlegrounds/BattlegroundMgr.cpp:498-501 | The queue id carries exactly the four given parts. |
| `BattlegroundIds.IsValidQueueId` | src/server/game/Battlegrounds/BattlegroundMgr.cpp:515-554 | A valid id needs its BattlemasterList row to exist. Then, per queue type, each rule is an if-and-only-if: a battleground queue is valid with a battleground row and team size 0; an arena queue with an arena row, rated, and team size ≠ 0; a wargame when unrated; a skirmish with an arena row, rated, and team size 3. Cheat and unknown types are never valid. |
| `BattlegroundIds.ValidQueueMatchesRowKind` | src/server/game/Battlegrounds/BattlegroundMgr.cpp:515-554 | A valid queue is never a cheat queue. Battleground queues name battleground rows. Arena and skirmish queues name arena rows and are rated with a non-zero team size. |
| `Templates.ValidQueueNamesTemplateOfItsKind` | src/server/game/Battlegrounds/BattlegroundMgr.cpp:36-39 | With the template loaded from its own BattlemasterList row: a valid arena or skirmish queue names an arena template, and a valid battleground queue names a template that is not an arena. |
| `Templates.BattlegroundTemplate.IsArena` | src/server/game/Battlegrounds/BattlegroundMgr.cpp:36-39 | A template is an arena template exactly when its row declares the arena kind. |
| `BattlegroundIds.IsArenaType` | src/server/game/Battlegrounds/BattlegroundMgr.cpp:483-491 | The six arena type ids are never NONE, never random, and have no weekend holiday. |
| `BattlegroundIds.IsRandomBattleground` | src/server/game/Battlegrounds/BattlegroundMgr.cpp:493-496 | The two random type ids are never NONE and have no weekend holiday. |
| `BattlegroundIds.RatedArenaQueuesAreValid` | src/server/game/Battlegrounds/BattlegroundMgr.cpp:515-554 | The rated 2v2/3v3/5v5 queues the forced update addresses are valid if and only if the all-arenas row exists and is an arena. |
| `BattlegroundIds.RatedArenaQueue` | src/server/game/Battlegrounds/BattlegroundMgr.cpp:144 | The forced update's queue names the all-arenas row and is a rated arena queue of the given team size. |

## Findings

| source | as written | input that shows it | evidently intended | confidence | as-written member | corrected member |
|---|---|---|---|---|---|---|
| src/server/game/Battlegrounds/BattlegroundMgr.cpp:316-325 | The scan loop never advances its iterator. It compares the counter with the smallest id at most twice and then breaks. The id handed out is 1 on an empty set, 3 when the smallest id is 1, and 2 otherwise. | Three allocations from an empty set hand out 1, 3, 3. On {2} the code hands out 2. Both repeat an id already in use. | The lowest positive id not in the set ("as low as possible, beginning with 1", :310), which is never an id in use | high; not executed | `ClientIds.NextClientIdAsWritten`, `ClientIds.AsWrittenRepeatsAnId`, `ClientIds.AsWrittenInUseIff` | `ClientIds.NextClientId`, `BattlegroundMgr.CreateClientVisibleInstanceId` |

The manager model allocates with the corrected `ClientIds.NextClientId`.
The corrected scan walks the run 1, 2, ... and hands out the id after its end.
Advancing the iterator alone would not fix the code. When the loop breaks at a gap g, its pre-increment has
already moved the counter to g, and the final increment hands out g+1.

## Left out

- Templates.EveryCandidateCanBePicked: requires a positive weight for the candidate's map. The weighted choice never picks a weight-0 map, so the property is stated only for maps that can be chosen. The `pick` oracle abstracts the weights away, so the model itself does not rule out picking a weight-0 candidate.

- Packet builders (`BuildBattlegroundStatus*`) are left out: they fill wire structures and have no readers to pair with.
- `SendBattlegroundList`, `SendToBattleground`, `ToggleTesting` and `ToggleArenaTesting` are left out: they send packets, teleport players and broadcast world text.
- `LoadBattlegroundTemplates`, `LoadBattlegroundScriptTemplate`, `LoadBattleMastersEntry` and `CheckBattleMasters` are left out: they read database rows and client data stores. Their outcome enters as a `Catalog` and script map. `Templates.WellFormed` states what loading establishes about them. This includes that no template is stored under the NONE id, which relies on the BattlemasterList store having no row 0. The squared float start distance is not modelled.
- `IsBGWeekend` is left out: it asks the game event manager whether a holiday is active.
- `GetRatingDiscardTimer` and `GetPrematureFinishTime` are left out: they only read a configuration value.
- Templates.GetRandomBG: the weighted random choice is an oracle index `pick` into the candidate list. The weights, and the selection frequencies they induce, are not modelled. Its contract is therefore weaker than "proportional to weight".
- BattlegroundMgr.Update: `Battleground::Update` is not modelled. An instance reports `ToBeDeleted` through `Environment.toBeDeleted`, and surviving instances keep their recorded data. Their in-match state is outside the model.
- BattlegroundMgr.Update: reaping does not release the reaped instance's free-slot entry. The code releases it in the battleground's destructor, which is not part of this model, so a reaped instance stays in its map's free-slot list here. The contract's "free slots unchanged" clause describes the model, not the destructor.
- BattlegroundMgr.Update: calls back into the manager made during the sweep are not modelled. This includes `ScheduleQueueUpdate` from `bg->Update` (:102): the code would drain such a triple in the same tick, but the model's drained list holds only the old pending list and the queues' reactions. Only the triples the queue calls (:122, :131, :146) schedule are expressed, through `Environment.react`. Other manager calls from those queue calls are not modelled either.
- BattlegroundMgr.Update: the queue container and its on-demand creation in `GetBattlegroundQueue` are outside the model. The registered queues are `Environment.queues`.
- BattlegroundMgr.CreateNewBattleground: the instance id comes from the map manager's allocator and is a parameter. `Reset` and the intermediate status are not modelled, only the final WaitJoin status.
- BattlegroundMgr.CreateClientVisibleInstanceId: client ids are unbounded; the 32-bit wrap-around of the counter after 2^32 − 1 ids is not modelled.
- Thread safety is left out: the source has no lock around scheduling, so the model is single-threaded.
- Ownership (`unique_trackable_ptr`, `SetWeakPtr`) is left out: instances are values here.
