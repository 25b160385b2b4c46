/**
 * The coalescing queue-update scheduler: a list of pending
 * (matchmaker rating, queue type, bracket) triples without duplicates, drained
 * once per tick by swapping it for an empty list.
 */
module QueueScheduler {
  import opened BattlegroundIds

  /** One pending re-evaluation of a matchmaking queue. */
  datatype ScheduledQueueUpdate = ScheduledQueueUpdate(arenaMatchmakerRating: u32, queueTypeId: QueueTypeId, bracketId: nat)

  /** A call the manager makes into a matchmaking queue, recorded in the tick's trace. */
  datatype QueueCall =
    | UpdateEvents(queue: QueueTypeId, diff: u32)
    | QueueUpdate(queue: QueueTypeId, diff: u32, bracketId: nat, arenaMatchmakerRating: u32)

  /** The scheduling requests a queue makes (back into the manager) while serving one call. */
  type Reaction = QueueCall -> seq<ScheduledQueueUpdate>

  predicate NoDuplicates<T(==)>(s: seq<T>)
  {
    forall i, j :: 0 <= i < j < |s| ==> s[i] != s[j]
  }

  /**
   * ScheduleQueueUpdate on the pending list: append the triple unless it is
   * already pending.
   */
  function Schedule(pending: seq<ScheduledQueueUpdate>, u: ScheduledQueueUpdate): (r: seq<ScheduledQueueUpdate>)
    ensures NoDuplicates(pending) ==> NoDuplicates(r)
    ensures forall v :: v in r <==> v in pending || v == u
    ensures |pending| <= |r| <= |pending| + 1 && r[..|pending|] == pending
  {
    if u in pending then pending else pending + [u]
  }

  /** Scheduling a triple twice in a row is the same as scheduling it once. */
  lemma ScheduleIsIdempotent(pending: seq<ScheduledQueueUpdate>, u: ScheduledQueueUpdate)
    ensures Schedule(Schedule(pending, u), u) == Schedule(pending, u)
    ensures u in pending ==> Schedule(pending, u) == pending
  {
  }

  /** Scheduling a batch of triples one after the other, in order. */
  function ScheduleAll(pending: seq<ScheduledQueueUpdate>, us: seq<ScheduledQueueUpdate>): (r: seq<ScheduledQueueUpdate>)
    ensures NoDuplicates(pending) ==> NoDuplicates(r)
    ensures forall v :: v in r <==> v in pending || v in us
    ensures |pending| <= |r| && r[..|pending|] == pending
    decreases |us|
  {
    if us == [] then pending
    else
      var r := ScheduleAll(Schedule(pending, us[0]), us[1..]);
      assert forall v :: v in us <==> v == us[0] || v in us[1..];
      r
  }

  /** Scheduling two batches one after the other is scheduling their concatenation. */
  lemma {:induction false} ScheduleAllAppend(pending: seq<ScheduledQueueUpdate>, us: seq<ScheduledQueueUpdate>, vs: seq<ScheduledQueueUpdate>)
    ensures ScheduleAll(pending, us + vs) == ScheduleAll(ScheduleAll(pending, us), vs)
    decreases |us|
  {
    if us == [] {
      assert us + vs == vs;
    } else {
      assert (us + vs)[0] == us[0];
      assert (us + vs)[1..] == us[1..] + vs;
      ScheduleAllAppend(Schedule(pending, us[0]), us[1..], vs);
    }
  }

  /**
   * A batch is scheduled in its own order: the last request of the batch is
   * scheduled after all the others, so the triples that are new land at the
   * end of the list in the order they were requested.
   */
  lemma {:induction false} ScheduleAllSnoc(pending: seq<ScheduledQueueUpdate>, us: seq<ScheduledQueueUpdate>, u: ScheduledQueueUpdate)
    ensures ScheduleAll(pending, us + [u]) == Schedule(ScheduleAll(pending, us), u)
  {
    ScheduleAllAppend(pending, us, [u]);
    assert [u][1..] == [];
  }

  /** Submitting the same triple n > 0 times before a drain leaves it pending exactly once, at the end. */
  lemma {:induction false} RepeatedScheduleKeepsOneEntry(pending: seq<ScheduledQueueUpdate>, u: ScheduledQueueUpdate, n: nat)
    requires u !in pending && n > 0
    ensures ScheduleAll(pending, seq(n, _ => u)) == pending + [u]
  {
    if n == 1 {
      assert seq(1, _ => u)[1..] == [];
    } else {
      assert seq(n, _ => u)[0] == u;
      assert seq(n, _ => u)[1..] == seq(n - 1, _ => u);
      RepeatedScheduleTail(pending + [u], u, n - 1);
    }
  }

  lemma {:induction false} RepeatedScheduleTail(pending: seq<ScheduledQueueUpdate>, u: ScheduledQueueUpdate, n: nat)
    requires u in pending
    ensures ScheduleAll(pending, seq(n, _ => u)) == pending
  {
    if n > 0 {
      assert seq(n, _ => u)[0] == u;
      assert seq(n, _ => u)[1..] == seq(n - 1, _ => u);
      RepeatedScheduleTail(pending, u, n - 1);
    }
  }

  /** The call that applies one pending triple. */
  function ApplyCall(u: ScheduledQueueUpdate, diff: u32): QueueCall
  {
    QueueUpdate(u.queueTypeId, diff, u.bracketId, u.arenaMatchmakerRating)
  }

  /** All scheduling requests made by the queues while serving `calls`, in call order. */
  function Reactions(calls: seq<QueueCall>, react: Reaction): (us: seq<ScheduledQueueUpdate>)
    ensures forall i, v :: 0 <= i < |calls| && v in react(calls[i]) ==> v in us
    ensures forall v :: v in us ==> exists i :: 0 <= i < |calls| && v in react(calls[i])
    decreases |calls|
  {
    if calls == [] then []
    else
      var rest := Reactions(calls[1..], react);
      assert forall i :: 1 <= i < |calls| ==> calls[i] == calls[1..][i - 1];
      react(calls[0]) + rest
  }

  /** The requests made while serving one more call come after all earlier ones. */
  lemma {:induction false} ReactionsSnoc(calls: seq<QueueCall>, c: QueueCall, react: Reaction)
    ensures Reactions(calls + [c], react) == Reactions(calls, react) + react(c)
    decreases |calls|
  {
    if calls == [] {
      assert ([] + [c])[1..] == [];
    } else {
      assert (calls + [c])[0] == calls[0];
      assert (calls + [c])[1..] == calls[1..] + [c];
      ReactionsSnoc(calls[1..], c, react);
    }
  }

  /** What one drain produces: the calls it made and the pending list it leaves. */
  datatype DrainResult = DrainResult(calls: seq<QueueCall>, pending: seq<ScheduledQueueUpdate>)

  /**
   * The drain of a tick: swap the pending list with an empty one, apply every
   * swapped-out triple in insertion order, and let whatever the queues schedule
   * meanwhile land in the fresh list.
   */
  function Drain(pending: seq<ScheduledQueueUpdate>, diff: u32, react: Reaction): (r: DrainResult)
    ensures |r.calls| == |pending|
    ensures forall i :: 0 <= i < |pending| ==>
              r.calls[i].QueueUpdate? && r.calls[i].diff == diff
              && r.calls[i].queue == pending[i].queueTypeId
              && r.calls[i].bracketId == pending[i].bracketId
              && r.calls[i].arenaMatchmakerRating == pending[i].arenaMatchmakerRating
    ensures NoDuplicates(r.pending)
    ensures forall v :: v in r.pending <==> exists i :: 0 <= i < |r.calls| && v in react(r.calls[i])
  {
    var calls := seq(|pending|, i requires 0 <= i < |pending| => ApplyCall(pending[i], diff));
    DrainResult(calls, ScheduleAll([], Reactions(calls, react)))
  }

  /** A drain of a duplicate-free list applies every pending triple exactly once. */
  lemma DrainAppliesEachOnce(pending: seq<ScheduledQueueUpdate>, diff: u32, react: Reaction)
    requires NoDuplicates(pending)
    ensures NoDuplicates(Drain(pending, diff, react).calls)
    ensures forall u :: u in pending <==> ApplyCall(u, diff) in Drain(pending, diff, react).calls
  {
    var calls := Drain(pending, diff, react).calls;
    forall u | ApplyCall(u, diff) in calls ensures u in pending {
      var i :| 0 <= i < |calls| && calls[i] == ApplyCall(u, diff);
      assert pending[i] == u;
    }
    forall u | u in pending ensures ApplyCall(u, diff) in calls {
      var i :| 0 <= i < |pending| && pending[i] == u;
      assert calls[i] == ApplyCall(u, diff);
    }
  }

  /**
   * The drain works through the swapped-out list in order: draining one more
   * triple makes its call last, and whatever the queues schedule while serving
   * it is scheduled after everything requested during the earlier calls.
   */
  lemma DrainSnoc(pending: seq<ScheduledQueueUpdate>, u: ScheduledQueueUpdate, diff: u32, react: Reaction)
    ensures Drain(pending + [u], diff, react).calls == Drain(pending, diff, react).calls + [ApplyCall(u, diff)]
    ensures Drain(pending + [u], diff, react).pending ==
              ScheduleAll(Drain(pending, diff, react).pending, react(ApplyCall(u, diff)))
  {
    var calls := Drain(pending, diff, react).calls;
    var c := ApplyCall(u, diff);
    assert Drain(pending + [u], diff, react).calls == calls + [c];
    ReactionsSnoc(calls, c, react);
    ScheduleAllAppend([], Reactions(calls, react), react(c));
  }

  /** When the queues schedule nothing while being served, the drain leaves the list empty. */
  lemma QuietDrainEmptiesList(pending: seq<ScheduledQueueUpdate>, diff: u32, react: Reaction)
    requires forall c :: react(c) == []
    ensures Drain(pending, diff, react).pending == []
  {
  }
}
