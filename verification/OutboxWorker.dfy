/**
 The outbox worker: any number of workers claim rows, dispatch them and write back what came of it. A worker
 may die between any two of its steps; a row it held then stays in processing and nobody claims it again.
 */
module OutboxWorker {
  import opened Wrappers
  import opened Backoff

  const MAX_ATTEMPTS: int := 10
  const BATCH_SIZE: nat := 50

  datatype Status = Pending | Processing | Delivered | Failed | DeadLetter

  /** A row is identified by its place in the table. */
  datatype OutboxRow = OutboxRow(targetService: string, status: Status, attempts: int, nextRetryAt: int)

  /** What a worker was handed for a row: a copy, taken when it was claimed. */
  datatype Claimed = Claimed(id: nat, targetService: string, attempts: int)

  /** One call of a dispatcher, and whether it succeeded. */
  datatype Call = Call(id: nat, ok: bool)

  /** A worker's remaining rows, and the result for the first of them once it is dispatched. */
  datatype Holding = Holding(queue: seq<Claimed>, sent: Option<bool>)

  datatype System = System(rows: seq<OutboxRow>, held: map<nat, Holding>, calls: seq<Call>)

  const Start: System := System([], map[], [])

  datatype Step =
    | Insert(targetService: string, now: int)
    | Claim(worker: nat, ids: seq<nat>, now: int)
    | Dispatch(worker: nat, ok: bool)
    | Settle(worker: nat, now: int)
    | Die(worker: nat)

  predicate Claimable(r: OutboxRow, now: int) { (r.status == Pending || r.status == Failed) && r.nextRetryAt <= now }

  /** Rows that are due, each once, at most `limit` of them, and none passed over for one that is due later. */
  ghost predicate InOrder(rows: seq<OutboxRow>, ids: seq<nat>, now: int, limit: nat)
  {
    && |ids| <= limit
    && (forall i | 0 <= i < |ids| :: ids[i] < |rows| && Claimable(rows[ids[i]], now))
    && (forall i, j | 0 <= i < j < |ids| :: ids[i] != ids[j])
    && (forall k | 0 <= k < |rows| && k !in ids && Claimable(rows[k], now) ::
          |ids| == limit && forall i | 0 <= i < |ids| :: rows[ids[i]].nextRetryAt <= rows[k].nextRetryAt)
  }

  /** What one claim takes: a full batch, or everything that is due. */
  ghost predicate ValidClaim(rows: seq<OutboxRow>, ids: seq<nat>, now: int) { InOrder(rows, ids, now, BATCH_SIZE) }

  function Taken(rows: seq<OutboxRow>, ids: seq<nat>): (out: seq<OutboxRow>)
    ensures |out| == |rows|
    ensures forall k | 0 <= k < |rows| :: out[k] == if k in ids then rows[k].(status := Processing) else rows[k]
  {
    seq(|rows|, k requires 0 <= k < |rows| => if k in ids then rows[k].(status := Processing) else rows[k])
  }

  function Copies(rows: seq<OutboxRow>, ids: seq<nat>): (queue: seq<Claimed>)
    requires forall i | 0 <= i < |ids| :: ids[i] < |rows|
    ensures |queue| == |ids|
    ensures forall i | 0 <= i < |ids| :: queue[i] == Claimed(ids[i], rows[ids[i]].targetService, rows[ids[i]].attempts)
  {
    seq(|ids|, i requires 0 <= i < |ids| => Claimed(ids[i], rows[ids[i]].targetService, rows[ids[i]].attempts))
  }

  /** UPDATE ... SET status = 'failed', attempts, next_retry_at, from the copy's attempts; 16-bit arithmetic. */
  function Retried(r: OutboxRow, attempts: int, now: int): OutboxRow
  {
    var next := WrapI16(attempts + 1);
    r.(status := Failed, attempts := next, nextRetryAt := now + BackoffDuration(next))
  }

  /** What is written back: delivered, dead, or to be retried; no result means no dispatcher was found. */
  function Settled(r: OutboxRow, attempts: int, sent: Option<bool>, now: int): OutboxRow
  {
    match sent
    case Some(true) => r.(status := Delivered)
    case Some(false) =>
      if WrapI16(attempts + 1) >= MAX_ATTEMPTS then r.(status := DeadLetter) else Retried(r, attempts, now)
    case None => Retried(r, attempts, now)
  }

  ghost predicate Enabled(handles: string -> bool, s: System, step: Step)
  {
    match step
    case Insert(_, _) => true
    case Claim(w, ids, now) => w !in s.held && ids != [] && ValidClaim(s.rows, ids, now)
    case Dispatch(w, _) =>
      w in s.held && s.held[w].queue != [] && s.held[w].sent.None? && handles(s.held[w].queue[0].targetService)
    case Settle(w, _) =>
      w in s.held && s.held[w].queue != [] && s.held[w].queue[0].id < |s.rows| &&
      (s.held[w].sent.Some? || !handles(s.held[w].queue[0].targetService))
    case Die(w) => w in s.held
  }

  function WithoutFirst(held: map<nat, Holding>, w: nat): map<nat, Holding>
    requires w in held && held[w].queue != []
  {
    var rest := held[w].queue[1..];
    if rest == [] then held - {w} else held[w := Holding(rest, None)]
  }

  /** A step that is not enabled does nothing. */
  ghost function Next(handles: string -> bool, s: System, step: Step): System
  {
    if !Enabled(handles, s, step) then s else
      match step
      case Insert(target, now) => s.(rows := s.rows + [OutboxRow(target, Pending, 0, now)])
      case Claim(w, ids, _) => s.(rows := Taken(s.rows, ids), held := s.held[w := Holding(Copies(s.rows, ids), None)])
      case Dispatch(w, ok) =>
        s.(calls := s.calls + [Call(s.held[w].queue[0].id, ok)], held := s.held[w := s.held[w].(sent := Some(ok))])
      case Settle(w, now) =>
        var c := s.held[w].queue[0];
        s.(rows := s.rows[c.id := Settled(s.rows[c.id], c.attempts, s.held[w].sent, now)],
           held := WithoutFirst(s.held, w))
      case Die(w) => s.(held := s.held - {w})
  }

  ghost function Run(handles: string -> bool, s: System, steps: seq<Step>): System
  {
    if steps == [] then s else Next(handles, Run(handles, s, steps[..|steps| - 1]), steps[|steps| - 1])
  }

  // --------------------------------------------------------------------------
  // The invariant
  // --------------------------------------------------------------------------

  /** How often a row was dispatched with a given result. */
  ghost function Count(calls: seq<Call>, id: nat, ok: bool): nat
  {
    if calls == [] then 0
    else Count(calls[..|calls| - 1], id, ok) + (if calls[|calls| - 1] == Call(id, ok) then 1 else 0)
  }

  ghost function Failures(s: System, id: nat): nat { Count(s.calls, id, false) }

  ghost function Successes(s: System, id: nat): nat { Count(s.calls, id, true) }

  /** The counts of a row in processing, from the result its worker has for it. */
  ghost predicate Phase(s: System, id: nat, attempts: int, sent: Option<bool>)
  {
    && Failures(s, id) == attempts + (if sent == Some(false) then 1 else 0)
    && Successes(s, id) == (if sent == Some(true) then 1 else 0)
  }

  /** The counts of a row, from its columns. Without a dispatcher a row is never sent and never ends. */
  ghost predicate RowOk(handles: string -> bool, s: System, id: nat)
    requires id < |s.rows|
  {
    var r := s.rows[id];
    if !handles(r.targetService) then
      Failures(s, id) == 0 == Successes(s, id) && r.status != Delivered && r.status != DeadLetter
    else
      && 0 <= r.attempts < MAX_ATTEMPTS
      && match r.status
         case Pending => Phase(s, id, r.attempts, None)
         case Failed => Phase(s, id, r.attempts, None)
         case Processing =>
           Phase(s, id, r.attempts, None) || Phase(s, id, r.attempts, Some(true))
             || Phase(s, id, r.attempts, Some(false))
         case Delivered => Phase(s, id, r.attempts, Some(true))
         case DeadLetter => r.attempts == MAX_ATTEMPTS - 1 && Phase(s, id, r.attempts, Some(false))
  }

  /** A claimed copy is of a row in processing and still says what the row says. */
  ghost predicate CopyOk(handles: string -> bool, s: System, w: nat, i: nat)
    requires w in s.held && i < |s.held[w].queue|
  {
    var c := s.held[w].queue[i];
    && c.id < |s.rows| && s.rows[c.id].status == Processing
    && s.rows[c.id].attempts == c.attempts && s.rows[c.id].targetService == c.targetService
    && (handles(c.targetService) ==> Phase(s, c.id, c.attempts, if i == 0 then s.held[w].sent else None))
  }

  ghost predicate WorkerOk(handles: string -> bool, s: System, w: nat)
    requires w in s.held
  {
    var h := s.held[w];
    && h.queue != []
    && (h.sent.Some? ==> handles(h.queue[0].targetService))
    && forall i | 0 <= i < |h.queue| :: CopyOk(handles, s, w, i)
  }

  /** No row is held twice, by one worker or by two. */
  ghost predicate HeldOnce(s: System)
  {
    forall v, w, i, j | v in s.held && w in s.held && 0 <= i < |s.held[v].queue| && 0 <= j < |s.held[w].queue|
                        && s.held[v].queue[i].id == s.held[w].queue[j].id :: v == w && i == j
  }

  ghost predicate Inv(handles: string -> bool, s: System)
  {
    && (forall id | 0 <= id < |s.rows| :: RowOk(handles, s, id))
    && (forall w | w in s.held :: WorkerOk(handles, s, w))
    && HeldOnce(s)
    && forall k | 0 <= k < |s.calls| :: s.calls[k].id < |s.rows|
  }

  lemma CountOneMore(calls: seq<Call>, c: Call, id: nat, ok: bool)
    ensures Count(calls + [c], id, ok) == Count(calls, id, ok) + (if c == Call(id, ok) then 1 else 0)
  {
    assert (calls + [c])[..|calls|] == calls;
  }

  lemma {:induction false} NeverCalled(calls: seq<Call>, id: nat, ok: bool)
    requires forall k | 0 <= k < |calls| :: calls[k].id < id
    ensures Count(calls, id, ok) == 0
  {
    if calls != [] {
      NeverCalled(calls[..|calls| - 1], id, ok);
    }
  }

  /** A row whose columns and counts did not change is as right as before. */
  lemma RowFramed(handles: string -> bool, s: System, s': System, id: nat)
    requires id < |s.rows| && id < |s'.rows| && s'.rows[id] == s.rows[id] && RowOk(handles, s, id)
    requires Failures(s', id) == Failures(s, id) && Successes(s', id) == Successes(s, id)
    ensures RowOk(handles, s', id)
  {
  }

  lemma CopyFramed(handles: string -> bool, s: System, s': System, w: nat, i: nat, j: nat)
    requires w in s.held && w in s'.held && i < |s.held[w].queue| && j < |s'.held[w].queue|
    requires s'.held[w].queue[j] == s.held[w].queue[i] && CopyOk(handles, s, w, i)
    requires (if j == 0 then s'.held[w].sent else None) == (if i == 0 then s.held[w].sent else None)
    requires var id := s.held[w].queue[i].id;
      && id < |s'.rows| && s'.rows[id] == s.rows[id]
      && Failures(s', id) == Failures(s, id) && Successes(s', id) == Successes(s, id)
    ensures CopyOk(handles, s', w, j)
  {
  }

  lemma WorkerFramed(handles: string -> bool, s: System, s': System, w: nat)
    requires w in s.held && w in s'.held && s'.held[w] == s.held[w] && WorkerOk(handles, s, w)
    requires forall i | 0 <= i < |s.held[w].queue| ::
      var id := s.held[w].queue[i].id;
      && id < |s'.rows| && (id < |s.rows| ==> s'.rows[id] == s.rows[id])
      && Failures(s', id) == Failures(s, id) && Successes(s', id) == Successes(s, id)
    ensures WorkerOk(handles, s', w)
  {
    hide CopyOk, Failures, Successes;
    forall i | 0 <= i < |s.held[w].queue|
      ensures CopyOk(handles, s', w, i)
    {
      assert CopyOk(handles, s, w, i);
      CopyInRange(handles, s, w, i);
      CopyFramed(handles, s, s', w, i, i);
    }
  }

  lemma CopyInRange(handles: string -> bool, s: System, w: nat, i: nat)
    requires w in s.held && i < |s.held[w].queue| && CopyOk(handles, s, w, i)
    ensures s.held[w].queue[i].id < |s.rows| && s.rows[s.held[w].queue[i].id].status == Processing
  {
  }

  lemma InsertKeeps(handles: string -> bool, s: System, target: string, now: int)
    requires Inv(handles, s)
    ensures Inv(handles, Next(handles, s, Insert(target, now)))
  {
    hide WorkerOk, CopyOk;
    var s' := Next(handles, s, Insert(target, now));
    var n := |s.rows|;
    NeverCalled(s.calls, n, true);
    NeverCalled(s.calls, n, false);
    forall w | w in s'.held
      ensures WorkerOk(handles, s', w)
    {
      WorkerRowsExist(handles, s, w);
      WorkerFramed(handles, s, s', w);
    }
    forall id | 0 <= id < |s'.rows|
      ensures RowOk(handles, s', id)
    {
      if id < n {
        RowFramed(handles, s, s', id);
      }
    }
  }

  lemma WorkerRowsExist(handles: string -> bool, s: System, w: nat)
    requires w in s.held && WorkerOk(handles, s, w)
    ensures forall i | 0 <= i < |s.held[w].queue| ::
      s.held[w].queue[i].id < |s.rows| && s.rows[s.held[w].queue[i].id].status == Processing
  {
    hide CopyOk;
    forall i | 0 <= i < |s.held[w].queue|
      ensures s.held[w].queue[i].id < |s.rows| && s.rows[s.held[w].queue[i].id].status == Processing
    {
      CopyInRange(handles, s, w, i);
    }
  }

  lemma ClaimKeeps(handles: string -> bool, s: System, w: nat, ids: seq<nat>, now: int)
    requires Inv(handles, s) && Enabled(handles, s, Claim(w, ids, now))
    ensures Inv(handles, Next(handles, s, Claim(w, ids, now)))
  {
    hide WorkerOk, Count;
    var s' := Next(handles, s, Claim(w, ids, now));
    forall id | 0 <= id < |s'.rows|
      ensures RowOk(handles, s', id)
    {
      assert RowOk(handles, s, id);
      if id in ids {
        var i :| 0 <= i < |ids| && ids[i] == id;
        assert Claimable(s.rows[ids[i]], now);
      }
    }
    forall v | v in s.held
      ensures WorkerOk(handles, s', v)
    {
      WorkerRowsExist(handles, s, v);
      NotClaimable(s, ids, now, v);
      WorkerFramed(handles, s, s', v);
    }
    assert WorkerOk(handles, s', w) by { ClaimerOk(handles, s, w, ids, now); }
    forall v, u, i, j | v in s'.held && u in s'.held && 0 <= i < |s'.held[v].queue| && 0 <= j < |s'.held[u].queue|
                        && s'.held[v].queue[i].id == s'.held[u].queue[j].id
      ensures v == u && i == j
    {
      if v != w {
        WorkerRowsExist(handles, s, v);
        NotClaimable(s, ids, now, v);
      }
      if u != w {
        WorkerRowsExist(handles, s, u);
        NotClaimable(s, ids, now, u);
      }
    }
  }

  /** What is held is in processing, so it is not claimed again. */
  lemma NotClaimable(s: System, ids: seq<nat>, now: int, v: nat)
    requires v in s.held && ValidClaim(s.rows, ids, now)
    requires forall i | 0 <= i < |s.held[v].queue| ::
      s.held[v].queue[i].id < |s.rows| && s.rows[s.held[v].queue[i].id].status == Processing
    ensures forall i | 0 <= i < |s.held[v].queue| :: s.held[v].queue[i].id !in ids
  {
  }

  lemma ClaimerOk(handles: string -> bool, s: System, w: nat, ids: seq<nat>, now: int)
    requires Inv(handles, s) && Enabled(handles, s, Claim(w, ids, now))
    ensures WorkerOk(handles, Next(handles, s, Claim(w, ids, now)), w)
  {
    hide Count, HeldOnce;
    var s' := Next(handles, s, Claim(w, ids, now));
    forall i | 0 <= i < |ids|
      ensures CopyOk(handles, s', w, i)
    {
      assert ids[i] in ids;
      assert RowOk(handles, s, ids[i]);
    }
  }

  lemma DispatchKeeps(handles: string -> bool, s: System, w: nat, ok: bool)
    requires Inv(handles, s) && Enabled(handles, s, Dispatch(w, ok))
    ensures Inv(handles, Next(handles, s, Dispatch(w, ok)))
  {
    hide WorkerOk, RowOk, Count;
    var s' := Next(handles, s, Dispatch(w, ok));
    var c := s.held[w].queue[0];
    WorkerRowsExist(handles, s, w);
    forall id: nat
      ensures id != c.id ==> Failures(s', id) == Failures(s, id) && Successes(s', id) == Successes(s, id)
    {
      CountOneMore(s.calls, Call(c.id, ok), id, false);
      CountOneMore(s.calls, Call(c.id, ok), id, true);
    }
    DispatcherOk(handles, s, w, ok);
    forall id | 0 <= id < |s'.rows|
      ensures RowOk(handles, s', id)
    {
      if id != c.id {
        RowFramed(handles, s, s', id);
      }
    }
    forall v | v in s'.held
      ensures WorkerOk(handles, s', v)
    {
      if v != w {
        assert forall i | 0 <= i < |s.held[v].queue| :: s.held[v].queue[i].id != c.id;
        WorkerRowsExist(handles, s, v);
        WorkerFramed(handles, s, s', v);
      }
    }
  }

  /** The dispatching worker, and the row it dispatched. */
  lemma DispatcherOk(handles: string -> bool, s: System, w: nat, ok: bool)
    requires Inv(handles, s) && Enabled(handles, s, Dispatch(w, ok))
    ensures var s' := Next(handles, s, Dispatch(w, ok));
      WorkerOk(handles, s', w) && s.held[w].queue[0].id < |s'.rows| && RowOk(handles, s', s.held[w].queue[0].id)
  {
    hide Count;
    var s' := Next(handles, s, Dispatch(w, ok));
    var c := s.held[w].queue[0];
    assert WorkerOk(handles, s, w);
    assert CopyOk(handles, s, w, 0);
    assert RowOk(handles, s, c.id);
    CountOneMore(s.calls, Call(c.id, ok), c.id, false);
    CountOneMore(s.calls, Call(c.id, ok), c.id, true);
    forall i | 0 < i < |s.held[w].queue|
      ensures CopyOk(handles, s', w, i)
    {
      assert CopyOk(handles, s, w, i);
      assert s.held[w].queue[i].id != c.id;
      CountOneMore(s.calls, Call(c.id, ok), s.held[w].queue[i].id, false);
      CountOneMore(s.calls, Call(c.id, ok), s.held[w].queue[i].id, true);
      CopyFramed(handles, s, s', w, i, i);
    }
  }

  lemma SettleKeeps(handles: string -> bool, s: System, w: nat, now: int)
    requires Inv(handles, s) && Enabled(handles, s, Settle(w, now))
    ensures Inv(handles, Next(handles, s, Settle(w, now)))
  {
    hide WorkerOk, RowOk, Count;
    var s' := Next(handles, s, Settle(w, now));
    var c := s.held[w].queue[0];
    SettledRowOk(handles, s, w, now);
    forall id | 0 <= id < |s'.rows|
      ensures RowOk(handles, s', id)
    {
      if id != c.id {
        RowFramed(handles, s, s', id);
      }
    }
    forall v | v in s'.held
      ensures WorkerOk(handles, s', v)
    {
      if v != w {
        assert forall i | 0 <= i < |s.held[v].queue| :: s.held[v].queue[i].id != c.id;
        WorkerRowsExist(handles, s, v);
        WorkerFramed(handles, s, s', v);
      } else {
        SettlerOk(handles, s, w, now);
      }
    }
    assert forall v | v in s'.held && v != w :: s'.held[v] == s.held[v];
    assert w in s'.held ==> forall i | 0 <= i < |s'.held[w].queue| :: s'.held[w].queue[i] == s.held[w].queue[i + 1];
    SettledHeldOnce(s, s', w);
  }

  lemma SettledHeldOnce(s: System, s': System, w: nat)
    requires HeldOnce(s) && w in s.held && s.held[w].queue != [] && s'.held == WithoutFirst(s.held, w)
    ensures HeldOnce(s')
  {
    forall v, u, i, j | v in s'.held && u in s'.held && 0 <= i < |s'.held[v].queue| && 0 <= j < |s'.held[u].queue|
                        && s'.held[v].queue[i].id == s'.held[u].queue[j].id
      ensures v == u && i == j
    {
      var i', j' := if v == w then i + 1 else i, if u == w then j + 1 else j;
      assert s.held[v].queue[i'] == s'.held[v].queue[i] && s.held[u].queue[j'] == s'.held[u].queue[j];
    }
  }

  lemma SettledRowOk(handles: string -> bool, s: System, w: nat, now: int)
    requires Inv(handles, s) && Enabled(handles, s, Settle(w, now))
    ensures RowOk(handles, Next(handles, s, Settle(w, now)), s.held[w].queue[0].id)
  {
    hide Count, HeldOnce, BackoffDuration;
    assert WorkerOk(handles, s, w);
    assert CopyOk(handles, s, w, 0);
    assert RowOk(handles, s, s.held[w].queue[0].id);
  }

  lemma SettlerOk(handles: string -> bool, s: System, w: nat, now: int)
    requires Inv(handles, s) && Enabled(handles, s, Settle(w, now)) && w in Next(handles, s, Settle(w, now)).held
    ensures WorkerOk(handles, Next(handles, s, Settle(w, now)), w)
  {
    hide Count;
    var s' := Next(handles, s, Settle(w, now));
    assert WorkerOk(handles, s, w);
    forall j | 0 <= j < |s'.held[w].queue|
      ensures CopyOk(handles, s', w, j)
    {
      assert CopyOk(handles, s, w, j + 1);
      assert s.held[w].queue[j + 1].id != s.held[w].queue[0].id;
      CopyFramed(handles, s, s', w, j + 1, j);
    }
  }

  lemma DieKeeps(handles: string -> bool, s: System, w: nat)
    requires Inv(handles, s)
    ensures Inv(handles, Next(handles, s, Die(w)))
  {
    hide WorkerOk, RowOk, Count;
    var s' := Next(handles, s, Die(w));
    forall id | 0 <= id < |s'.rows|
      ensures RowOk(handles, s', id)
    {
      RowFramed(handles, s, s', id);
    }
    forall v | v in s'.held
      ensures WorkerOk(handles, s', v)
    {
      WorkerRowsExist(handles, s, v);
      WorkerFramed(handles, s, s', v);
    }
  }

  lemma NextKeeps(handles: string -> bool, s: System, step: Step)
    requires Inv(handles, s)
    ensures Inv(handles, Next(handles, s, step))
  {
    hide Inv, ValidClaim;
    if Enabled(handles, s, step) {
      match step {
        case Insert(target, now) => InsertKeeps(handles, s, target, now);
        case Claim(w, ids, now) => ClaimKeeps(handles, s, w, ids, now);
        case Dispatch(w, ok) => DispatchKeeps(handles, s, w, ok);
        case Settle(w, now) => SettleKeeps(handles, s, w, now);
        case Die(w) => DieKeeps(handles, s, w);
      }
    }
  }

  lemma {:induction false} RunKeeps(handles: string -> bool, s: System, steps: seq<Step>)
    requires Inv(handles, s)
    ensures Inv(handles, Run(handles, s, steps))
  {
    hide Inv, Next;
    if steps != [] {
      RunKeeps(handles, s, steps[..|steps| - 1]);
      NextKeeps(handles, Run(handles, s, steps[..|steps| - 1]), steps[|steps| - 1]);
    }
  }
}
