/** The worker as it runs: one batch claimed, dispatched and written back row by row. */
module OutboxService {
  import opened Wrappers
  import opened Backoff
  import opened OutboxWorker

  // --------------------------------------------------------------------------
  // The claim
  // --------------------------------------------------------------------------

  /** The first of the claimable rows that are due earliest. */
  function Earliest(rows: seq<OutboxRow>, now: int): (found: Option<nat>)
    ensures found.None? <==> forall k | 0 <= k < |rows| :: !Claimable(rows[k], now)
    ensures found.Some? ==>
      && found.value < |rows| && Claimable(rows[found.value], now)
      && forall k | 0 <= k < |rows| && Claimable(rows[k], now) :: rows[found.value].nextRetryAt <= rows[k].nextRetryAt
  {
    if rows == [] then None else
      var n := |rows| - 1;
      assert forall k | 0 <= k < n :: rows[..n][k] == rows[k];
      var before := Earliest(rows[..n], now);
      if !Claimable(rows[n], now) then before
      else if before.Some? && rows[before.value].nextRetryAt <= rows[n].nextRetryAt then before
      else Some(n)
  }

  /** ORDER BY next_retry_at LIMIT n: the earliest row, then the earliest of the others. */
  function Due(rows: seq<OutboxRow>, now: int, limit: nat): seq<nat>
    decreases limit
  {
    if limit == 0 then [] else
      match Earliest(rows, now)
      case None => []
      case Some(k) => [k] + Due(rows[k := rows[k].(status := Processing)], now, limit - 1)
  }

  /** The claim of a batch is a claim of the protocol. */
  lemma {:induction false} DueIsInOrder(rows: seq<OutboxRow>, now: int, limit: nat)
    ensures InOrder(rows, Due(rows, now, limit), now, limit)
    decreases limit
  {
    hide InOrder;
    if limit == 0 || Earliest(rows, now).None? {
      NothingTaken(rows, now, limit);
    } else {
      var first := Earliest(rows, now).value;
      var rest := rows[first := rows[first].(status := Processing)];
      DueIsInOrder(rest, now, limit - 1);
      FirstThenRest(rows, now, limit, first, Due(rest, now, limit - 1));
    }
  }

  lemma NothingTaken(rows: seq<OutboxRow>, now: int, limit: nat)
    requires limit == 0 || forall k | 0 <= k < |rows| :: !Claimable(rows[k], now)
    ensures InOrder(rows, [], now, limit)
  {
  }

  lemma FirstThenRest(rows: seq<OutboxRow>, now: int, limit: nat, first: nat, tail: seq<nat>)
    requires limit > 0 && first < |rows| && Claimable(rows[first], now)
    requires forall k | 0 <= k < |rows| && Claimable(rows[k], now) :: rows[first].nextRetryAt <= rows[k].nextRetryAt
    requires InOrder(rows[first := rows[first].(status := Processing)], tail, now, limit - 1)
    ensures InOrder(rows, [first] + tail, now, limit)
  {
    var ids := [first] + tail;
    var rest := rows[first := rows[first].(status := Processing)];
    forall i | 0 <= i < |tail|
      ensures tail[i] < |rows| && tail[i] != first && rest[tail[i]] == rows[tail[i]] && Claimable(rows[tail[i]], now)
    {
      assert Claimable(rest[tail[i]], now);
    }
    forall k | 0 <= k < |rows| && k !in ids && Claimable(rows[k], now)
      ensures |ids| == limit && forall i | 0 <= i < |ids| :: rows[ids[i]].nextRetryAt <= rows[k].nextRetryAt
    {
      assert ids[0] == first && k != first && k !in tail;
      assert rest[k] == rows[k];
      forall i | 0 <= i < |ids|
        ensures rows[ids[i]].nextRetryAt <= rows[k].nextRetryAt
      {
        if i > 0 {
          assert ids[i] == tail[i - 1] && rest[tail[i - 1]] == rows[tail[i - 1]];
        }
      }
    }
  }

  /** A row that waits for its first or its next attempt, whose time has come. */
  predicate IsDue(r: OutboxRow, now: int) { r.status in {Pending, Failed} && now >= r.nextRetryAt }

  /**
   A batch is a claim of the protocol: due rows, each once, at most fifty and fewer only if no other is due, and none
   passed over for one that is due later; it is in the order of their times.
   */
  lemma DueIsAValidClaim(rows: seq<OutboxRow>, now: int)
    ensures var ids := Due(rows, now, BATCH_SIZE);
      && ValidClaim(rows, ids, now)
      && |ids| <= 50
      && (forall i | 0 <= i < |ids| :: ids[i] < |rows| && IsDue(rows[ids[i]], now))
      && (forall i, j | 0 <= i < j < |ids| ::
            ids[i] != ids[j] && rows[ids[i]].nextRetryAt <= rows[ids[j]].nextRetryAt)
      && (forall k | 0 <= k < |rows| && k !in ids && IsDue(rows[k], now) ::
            |ids| == 50 && forall i | 0 <= i < |ids| :: rows[ids[i]].nextRetryAt <= rows[k].nextRetryAt)
  {
    DueIsInOrder(rows, now, BATCH_SIZE);
    DueIsSorted(rows, now, BATCH_SIZE);
  }

  /** The rows at these places are in the order of their times. */
  ghost predicate ByTime(rows: seq<OutboxRow>, ids: seq<nat>)
  {
    && (forall i | 0 <= i < |ids| :: ids[i] < |rows|)
    && forall i, j | 0 <= i < j < |ids| :: rows[ids[i]].nextRetryAt <= rows[ids[j]].nextRetryAt
  }

  lemma {:induction false} DueIsSorted(rows: seq<OutboxRow>, now: int, limit: nat)
    ensures ByTime(rows, Due(rows, now, limit))
    decreases limit
  {
    hide ByTime, InOrder;
    if limit > 0 && Earliest(rows, now).Some? {
      var first := Earliest(rows, now).value;
      var rest := rows[first := rows[first].(status := Processing)];
      DueIsSorted(rest, now, limit - 1);
      DueIsInOrder(rest, now, limit - 1);
      FirstIsEarliest(rows, now, limit - 1, first, Due(rest, now, limit - 1));
    } else {
      assert ByTime(rows, []) by { NoneIsSorted(rows); }
    }
  }

  lemma NoneIsSorted(rows: seq<OutboxRow>)
    ensures ByTime(rows, [])
  {
  }

  lemma FirstIsEarliest(rows: seq<OutboxRow>, now: int, limit: nat, first: nat, tail: seq<nat>)
    requires first < |rows| && Claimable(rows[first], now)
    requires forall k | 0 <= k < |rows| && Claimable(rows[k], now) :: rows[first].nextRetryAt <= rows[k].nextRetryAt
    requires var rest := rows[first := rows[first].(status := Processing)];
      InOrder(rest, tail, now, limit) && ByTime(rest, tail)
    ensures ByTime(rows, [first] + tail)
  {
    var rest := rows[first := rows[first].(status := Processing)];
    forall j | 0 <= j < |tail|
      ensures tail[j] < |rows| && rows[first].nextRetryAt <= rows[tail[j]].nextRetryAt == rest[tail[j]].nextRetryAt
    {
      assert Claimable(rest[tail[j]], now) && tail[j] != first;
      assert rest[tail[j]] == rows[tail[j]];
    }
  }

  // --------------------------------------------------------------------------
  // The protocol steps of one batch
  // --------------------------------------------------------------------------

  /** What serving one claimed row amounts to; `clock` is the time at which a row is written back. */
  ghost function RowSteps(handles: string -> bool, w: nat, c: Claimed, clock: nat -> int, reply: nat -> bool): seq<Step>
  {
    (if handles(c.targetService) then [Dispatch(w, reply(c.id))] else []) + [Settle(w, clock(c.id))]
  }

  ghost function QueueSteps(handles: string -> bool, w: nat, queue: seq<Claimed>, clock: nat -> int, reply: nat -> bool)
    : seq<Step>
  {
    if queue == [] then [] else
      QueueSteps(handles, w, queue[..|queue| - 1], clock, reply)
        + RowSteps(handles, w, queue[|queue| - 1], clock, reply)
  }

  ghost function BatchSteps(handles: string -> bool, w: nat, rows: seq<OutboxRow>, now: int, clock: nat -> int,
                            reply: nat -> bool): seq<Step>
  {
    var ids := Due(rows, now, BATCH_SIZE);
    DueIsInOrder(rows, now, BATCH_SIZE);
    [Claim(w, ids, now)] + QueueSteps(handles, w, Copies(rows, ids), clock, reply)
  }

  lemma {:induction false} RunAppend(handles: string -> bool, s: System, a: seq<Step>, b: seq<Step>)
    ensures Run(handles, s, a + b) == Run(handles, Run(handles, s, a), b)
  {
    hide Next;
    if b == [] {
      assert a + b == a;
    } else {
      var n := |b| - 1;
      RunAppend(handles, s, a, b[..n]);
      assert (a + b)[..|a| + n] == a + b[..n];
    }
  }

  // --------------------------------------------------------------------------
  // The worker
  // --------------------------------------------------------------------------

  /** The table, and the record of the calls the dispatchers received. */
  class OutboxTable {
    var rows: seq<OutboxRow>
    var calls: seq<Call>

    constructor ()
      ensures rows == [] && calls == []
    {
      rows, calls := [], [];
    }
  }

  class Worker {
    const db: OutboxTable
    /** The targets each dispatcher can handle. */
    const dispatchers: seq<set<string>>

    constructor (db: OutboxTable, dispatchers: seq<set<string>>)
      ensures this.db == db && this.dispatchers == dispatchers
    {
      this.db := db;
      this.dispatchers := dispatchers;
    }

    predicate Handles(target: string) { exists i | 0 <= i < |dispatchers| :: target in dispatchers[i] }

    /** The first dispatcher that can handle the target. */
    method FindDispatcher(target: string) returns (found: Option<nat>)
      ensures found.Some? <==> Handles(target)
      ensures found.Some? ==> found.value < |dispatchers| && target in dispatchers[found.value]
      ensures found.Some? ==> forall i | 0 <= i < found.value :: target !in dispatchers[i]
    {
      for i := 0 to |dispatchers|
        invariant forall k | 0 <= k < i :: target !in dispatchers[k]
      {
        if target in dispatchers[i] {
          return Some(i);
        }
      }
      found := None;
    }

    method ClaimPending(now: int) returns (claimed: seq<Claimed>)
      modifies db`rows
      ensures var ids := Due(old(db.rows), now, BATCH_SIZE);
        && ValidClaim(old(db.rows), ids, now)
        && claimed == Copies(old(db.rows), ids) && db.rows == Taken(old(db.rows), ids)
      ensures forall i | 0 <= i < |claimed| :: claimed[i].id < |db.rows|
    {
      var ids := Due(db.rows, now, BATCH_SIZE);
      DueIsAValidClaim(db.rows, now);
      claimed := Copies(db.rows, ids);
      db.rows := Taken(db.rows, ids);
    }

    method MarkDelivered(id: nat)
      requires id < |db.rows|
      modifies db`rows
      ensures db.rows == old(db.rows)[id := old(db.rows)[id].(status := Delivered)]
    {
      db.rows := db.rows[id := db.rows[id].(status := Delivered)];
    }

    method ScheduleRetry(row: Claimed, now: int)
      requires row.id < |db.rows|
      modifies db`rows
      ensures db.rows == old(db.rows)[row.id := Retried(old(db.rows)[row.id], row.attempts, now)]
    {
      var na := WrapI16(row.attempts + 1);
      var next := now + BackoffDuration(na);
      db.rows := db.rows[row.id := db.rows[row.id].(status := Failed, attempts := na, nextRetryAt := next)];
    }

    method MarkDeadLetter(id: nat)
      requires id < |db.rows|
      modifies db`rows
      ensures db.rows == old(db.rows)[id := old(db.rows)[id].(status := DeadLetter)]
    {
      db.rows := db.rows[id := db.rows[id].(status := DeadLetter)];
    }

    /** Dispatches a row if it can, and writes back what came of it. */
    method ProcessOne(row: Claimed, now: int, reply: bool)
      requires row.id < |db.rows|
      modifies db
      ensures var sent := if Handles(row.targetService) then Some(reply) else None;
        && db.rows == old(db.rows)[row.id := Settled(old(db.rows)[row.id], row.attempts, sent, now)]
        && db.calls == old(db.calls) + (if sent.Some? then [Call(row.id, reply)] else [])
    {
      var d := FindDispatcher(row.targetService);
      if d.None? {
        ScheduleRetry(row, now);
        return;
      }
      db.calls := db.calls + [Call(row.id, reply)];
      if !reply {
        if WrapI16(row.attempts + 1) >= MAX_ATTEMPTS {
          MarkDeadLetter(row.id);
          return;
        }
        ScheduleRetry(row, now);
        return;
      }
      MarkDelivered(row.id);
    }

    /** The state of the protocol in which this worker, under the name 0, still has to serve `queue`. */
    ghost function AsSystem(queue: seq<Claimed>): System
      reads db
    {
      System(db.rows, HeldBy0(queue, None), db.calls)
    }

    /** A whole batch is a run of the protocol: one claim, then each row dispatched and settled in turn. */
    method ProcessBatch(now: int, clock: nat -> int, reply: nat -> bool)
      modifies db
      ensures AsSystem([]) == Run(Handles, old(AsSystem([])), BatchSteps(Handles, 0, old(db.rows), now, clock, reply))
    {
      hide ValidClaim, Due, Settled, QueueSteps, Next;
      ghost var s0 := AsSystem([]);
      ghost var claim := [Claim(0, Due(db.rows, now, BATCH_SIZE), now)];
      var claimed := ClaimPending(now);
      ClaimStep(Handles, s0, now);
      assert claimed[..0] == [] && claimed[0..] == claimed;
      assert claim + QueueSteps(Handles, 0, claimed[..0], clock, reply) == claim by { NoSteps(Handles, clock, reply); }
      for i := 0 to |claimed|
        invariant |db.rows| == |s0.rows|
        invariant AsSystem(claimed[i..]) == Run(Handles, s0, claim + QueueSteps(Handles, 0, claimed[..i], clock, reply))
      {
        ghost var s := AsSystem(claimed[i..]);
        var row := claimed[i];
        assert claimed[i..][0] == row && claimed[i..][1..] == claimed[i + 1..];
        ProcessOne(row, clock(row.id), reply(row.id));
        ServeStep(Handles, s, claimed[i..], clock, reply);
        MoreSteps(Handles, s0, claim, claimed, i, clock, reply);
      }
      assert claimed[..|claimed|] == claimed;
    }
  }

  lemma NoSteps(handles: string -> bool, clock: nat -> int, reply: nat -> bool)
    ensures QueueSteps(handles, 0, [], clock, reply) == []
  {
  }

  lemma ClaimStep(handles: string -> bool, s: System, now: int)
    requires s.held == map[]
    ensures ValidClaim(s.rows, Due(s.rows, now, BATCH_SIZE), now)
    ensures var ids := Due(s.rows, now, BATCH_SIZE);
      Run(handles, s, [Claim(0, ids, now)]) ==
        System(Taken(s.rows, ids), HeldBy0(Copies(s.rows, ids), None), s.calls)
  {
    hide ValidClaim, Due;
    var ids := Due(s.rows, now, BATCH_SIZE);
    DueIsAValidClaim(s.rows, now);
    assert [Claim(0, ids, now)][..0] == [];
    assert Run(handles, s, []) == s;
    if ids == [] {
      assert Taken(s.rows, ids) == s.rows;
    }
  }

  function HeldBy0(queue: seq<Claimed>, sent: Option<bool>): map<nat, Holding>
  {
    if queue == [] then map[] else map[0 := Holding(queue, sent)]
  }

  lemma DispatchStep(handles: string -> bool, s: System, queue: seq<Claimed>, ok: bool)
    requires queue != [] && s.held == HeldBy0(queue, None) && handles(queue[0].targetService)
    ensures Next(handles, s, Dispatch(0, ok))
      == System(s.rows, HeldBy0(queue, Some(ok)), s.calls + [Call(queue[0].id, ok)])
  {
    assert s.held[0] == Holding(queue, None);
    assert s.held[0 := Holding(queue, Some(ok))] == HeldBy0(queue, Some(ok));
  }

  lemma SettleStep(handles: string -> bool, s: System, queue: seq<Claimed>, sent: Option<bool>, now: int)
    requires queue != [] && s.held == HeldBy0(queue, sent) && queue[0].id < |s.rows|
    requires sent.Some? || !handles(queue[0].targetService)
    ensures var c := queue[0];
      Next(handles, s, Settle(0, now)) ==
        System(s.rows[c.id := Settled(s.rows[c.id], c.attempts, sent, now)], HeldBy0(queue[1..], None), s.calls)
  {
    hide Settled;
    assert s.held[0] == Holding(queue, sent);
    if queue[1..] == [] {
      assert s.held - {0} == map[];
    } else {
      assert s.held[0 := Holding(queue[1..], None)] == HeldBy0(queue[1..], None);
    }
  }

  /** Serving the first row of the queue, as one or two steps. */
  lemma ServeStep(handles: string -> bool, s: System, queue: seq<Claimed>, clock: nat -> int, reply: nat -> bool)
    requires queue != [] && s.held == HeldBy0(queue, None) && queue[0].id < |s.rows|
    ensures var c := queue[0];
      var sent := if handles(c.targetService) then Some(reply(c.id)) else None;
      Run(handles, s, RowSteps(handles, 0, c, clock, reply)) == System(
        s.rows[c.id := Settled(s.rows[c.id], c.attempts, sent, clock(c.id))], HeldBy0(queue[1..], None),
        s.calls + (if sent.Some? then [Call(c.id, reply(c.id))] else []))
  {
    hide Settled, Next, HeldBy0;
    var c := queue[0];
    var settle := Settle(0, clock(c.id));
    if handles(c.targetService) {
      var dispatch := Dispatch(0, reply(c.id));
      DispatchStep(handles, s, queue, reply(c.id));
      SettleStep(handles, Next(handles, s, dispatch), queue, Some(reply(c.id)), clock(c.id));
      assert RowSteps(handles, 0, c, clock, reply) == [dispatch, settle];
      RunOfTwo(handles, s, dispatch, settle);
    } else {
      SettleStep(handles, s, queue, None, clock(c.id));
      assert RowSteps(handles, 0, c, clock, reply) == [settle];
      RunOfOne(handles, s, settle);
      assert s.calls + [] == s.calls;
    }
  }

  lemma RunOfOne(handles: string -> bool, s: System, a: Step)
    ensures Run(handles, s, [a]) == Next(handles, s, a)
  {
    hide Next;
    assert [a][..0] == [];
  }

  lemma RunOfTwo(handles: string -> bool, s: System, a: Step, b: Step)
    ensures Run(handles, s, [a, b]) == Next(handles, Next(handles, s, a), b)
  {
    hide Next;
    RunOfOne(handles, s, a);
    assert [a, b][..1] == [a];
  }

  lemma MoreSteps(handles: string -> bool, s0: System, claim: seq<Step>, claimed: seq<Claimed>, i: nat,
                  clock: nat -> int, reply: nat -> bool)
    requires i < |claimed|
    ensures Run(handles, s0, claim + QueueSteps(handles, 0, claimed[..i + 1], clock, reply)) ==
      Run(handles, Run(handles, s0, claim + QueueSteps(handles, 0, claimed[..i], clock, reply)),
          RowSteps(handles, 0, claimed[i], clock, reply))
  {
    hide Next, RowSteps, Run;
    var before := QueueSteps(handles, 0, claimed[..i], clock, reply);
    var row := RowSteps(handles, 0, claimed[i], clock, reply);
    assert claimed[..i + 1][..i] == claimed[..i];
    assert claim + (before + row) == (claim + before) + row;
    RunAppend(handles, s0, claim + before, row);
  }
}
