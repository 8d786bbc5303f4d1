/** What the outbox worker guarantees, for any number of workers and any dispatcher behaviour. */
module OutboxTheorems {
  import opened Wrappers
  import opened Backoff
  import opened OutboxWorker

  /** Some run leads from one state to the other. */
  ghost predicate Leads(handles: string -> bool, s: System, later: System)
  {
    exists steps :: Run(handles, s, steps) == later
  }

  ghost predicate Reachable(handles: string -> bool, s: System) { Leads(handles, Start, s) }

  lemma ReachableIsOk(handles: string -> bool, s: System)
    requires Reachable(handles, s)
    ensures Inv(handles, s)
  {
    hide Run;
    var steps :| Run(handles, Start, steps) == s;
    RunKeeps(handles, Start, steps);
  }

  /** In every run, dying workers included, a row is held at most once, and only while it is in processing. */
  lemma HeldByAtMostOneWorker(handles: string -> bool, s: System, v: nat, w: nat, i: nat, j: nat)
    requires Reachable(handles, s)
    requires v in s.held && w in s.held && i < |s.held[v].queue| && j < |s.held[w].queue|
    requires s.held[v].queue[i].id == s.held[w].queue[j].id
    ensures v == w && i == j
    ensures s.held[v].queue[i].id < |s.rows| && s.rows[s.held[v].queue[i].id].status == Processing
  {
    hide Reachable, RowOk, WorkerOk;
    ReachableIsOk(handles, s);
    WorkerRowsExist(handles, s, v);
  }

  /**
   In every run a row is dispatched at most ten times and at most once with success; a delivered row has
   succeeded once, a dead letter has failed ten times, and a row nobody handles is never sent and never ends.
   */
  lemma AtMostTenDispatches(handles: string -> bool, s: System, id: nat)
    requires Reachable(handles, s) && id < |s.rows|
    ensures Failures(s, id) + Successes(s, id) <= 10 && Successes(s, id) <= 1
    ensures s.rows[id].status == Delivered ==> Successes(s, id) == 1
    ensures s.rows[id].status == DeadLetter ==> Successes(s, id) == 0 && Failures(s, id) == 10
    ensures !handles(s.rows[id].targetService) ==>
      Failures(s, id) == Successes(s, id) == 0 && s.rows[id].status !in {Delivered, DeadLetter}
  {
    hide Reachable, Count, WorkerOk, HeldOnce;
    ReachableIsOk(handles, s);
    assert RowOk(handles, s, id);
  }

  /** A new row can be claimed from the moment it is inserted, has all its attempts, and disturbs no other. */
  lemma NewRowIsDueAtOnce(handles: string -> bool, s: System, target: string, inserted: int, now: int)
    ensures var s' := Next(handles, s, Insert(target, inserted));
      && |s'.rows| == |s.rows| + 1 && s.rows <= s'.rows && s'.held == s.held && s'.calls == s.calls
      && s'.rows[|s.rows|].targetService == target && s'.rows[|s.rows|].attempts == 0
      && (Claimable(s'.rows[|s.rows|], now) <==> now >= inserted)
  {
  }

  predicate Ended(r: OutboxRow) { r.status == Delivered || r.status == DeadLetter }

  lemma EndedIsUntouched(handles: string -> bool, s: System, step: Step, id: nat)
    requires Inv(handles, s) && id < |s.rows| && Ended(s.rows[id])
    ensures id < |Next(handles, s, step).rows| && Next(handles, s, step).rows[id] == s.rows[id]
  {
    hide Count, RowOk, HeldOnce, WorkerOk;
    if Enabled(handles, s, step) {
      match step {
        case Claim(w, ids, now) => assert forall i | 0 <= i < |ids| :: Claimable(s.rows[ids[i]], now);
        case Settle(w, now) => WorkerRowsExist(handles, s, w);
        case _ =>
      }
    }
  }

  /** Delivered and dead rows never change again, whatever happens later. */
  lemma EndedForever(handles: string -> bool, s: System, later: System, id: nat)
    requires Reachable(handles, s) && Leads(handles, s, later) && id < |s.rows| && Ended(s.rows[id])
    ensures id < |later.rows| && later.rows[id] == s.rows[id]
  {
    hide Run, Reachable, Inv, Ended;
    ReachableIsOk(handles, s);
    var steps :| Run(handles, s, steps) == later;
    EndedThroughout(handles, s, steps, id);
  }

  lemma {:induction false} EndedThroughout(handles: string -> bool, s: System, steps: seq<Step>, id: nat)
    requires Inv(handles, s) && id < |s.rows| && Ended(s.rows[id])
    ensures id < |Run(handles, s, steps).rows| && Run(handles, s, steps).rows[id] == s.rows[id]
  {
    hide Next, Inv, Ended;
    if steps != [] {
      var n := |steps| - 1;
      EndedThroughout(handles, s, steps[..n], id);
      RunKeeps(handles, s, steps[..n]);
      EndedIsUntouched(handles, Run(handles, s, steps[..n]), steps[n], id);
    }
  }

  /** Once a dispatch of a row has succeeded, no later step dispatches it again, even if its worker dies. */
  lemma SuccessIsLast(handles: string -> bool, s: System, w: nat, ok: bool)
    requires Reachable(handles, s) && Enabled(handles, s, Dispatch(w, ok))
    ensures Successes(s, s.held[w].queue[0].id) == 0 && Failures(s, s.held[w].queue[0].id) < 10
  {
    hide Reachable, Count, HeldOnce;
    ReachableIsOk(handles, s);
    assert WorkerOk(handles, s, w);
    assert CopyOk(handles, s, w, 0);
    assert RowOk(handles, s, s.held[w].queue[0].id);
  }

  // --------------------------------------------------------------------------
  // Runs in which no worker dies
  // --------------------------------------------------------------------------

  ghost predicate IsHeld(s: System, id: nat)
  {
    exists w, i :: w in s.held && 0 <= i < |s.held[w].queue| && s.held[w].queue[i].id == id
  }

  ghost predicate NothingStranded(s: System)
  {
    forall id | 0 <= id < |s.rows| && s.rows[id].status == Processing :: IsHeld(s, id)
  }

  lemma NextStrandsNothing(handles: string -> bool, s: System, step: Step)
    requires Inv(handles, s) && NothingStranded(s) && !step.Die?
    ensures NothingStranded(Next(handles, s, step))
  {
    hide RowOk, WorkerOk, HeldOnce, Count, IsHeld, ValidClaim;
    var s' := Next(handles, s, step);
    forall id | 0 <= id < |s'.rows| && s'.rows[id].status == Processing
      ensures IsHeld(s', id)
    {
      if id < |s.rows| && s.rows[id].status == Processing {
        StaysHeld(handles, s, step, id);
      } else {
        NewlyHeld(handles, s, step, id);
      }
    }
  }

  lemma StaysHeld(handles: string -> bool, s: System, step: Step, id: nat)
    requires IsHeld(s, id) && id < |s.rows| && !step.Die? && id < |Next(handles, s, step).rows|
    requires Next(handles, s, step).rows[id].status == Processing
    ensures IsHeld(Next(handles, s, step), id)
  {
    hide ValidClaim, Count, BackoffDuration;
    var s' := Next(handles, s, step);
    var w, i :| w in s.held && 0 <= i < |s.held[w].queue| && s.held[w].queue[i].id == id;
    if step.Settle? && step.worker == w && s' != s {
      assert i > 0;
      assert s'.held[w].queue[i - 1].id == id;
    } else {
      assert s'.held[w].queue[i].id == id;
    }
  }

  lemma NewlyHeld(handles: string -> bool, s: System, step: Step, id: nat)
    requires id < |Next(handles, s, step).rows| && Next(handles, s, step).rows[id].status == Processing
    requires id < |s.rows| ==> s.rows[id].status != Processing
    ensures IsHeld(Next(handles, s, step), id)
  {
    hide Count, BackoffDuration;
    var s' := Next(handles, s, step);
    assert step.Claim? && id in step.ids;
    var i :| 0 <= i < |step.ids| && step.ids[i] == id;
    assert s'.held[step.worker].queue[i].id == id;
  }

  lemma {:induction false} RunStrandsNothing(handles: string -> bool, steps: seq<Step>)
    requires forall i | 0 <= i < |steps| :: !steps[i].Die?
    ensures NothingStranded(Run(handles, Start, steps))
  {
    hide Next, NothingStranded;
    if steps == [] {
      assert NothingStranded(Start) by { EmptyTable(); }
    } else {
      var n := |steps| - 1;
      RunStrandsNothing(handles, steps[..n]);
      RunKeeps(handles, Start, steps[..n]);
      NextStrandsNothing(handles, Run(handles, Start, steps[..n]), steps[n]);
    }
  }

  lemma EmptyTable()
    ensures NothingStranded(Start)
  {
  }

  /** Some run in which no worker dies leads there. */
  ghost predicate SafelyReachable(handles: string -> bool, s: System)
  {
    exists steps: seq<Step> :: Run(handles, Start, steps) == s && forall i | 0 <= i < |steps| :: !steps[i].Die?
  }

  lemma SafelyReachableIsOk(handles: string -> bool, s: System)
    requires SafelyReachable(handles, s)
    ensures Inv(handles, s) && NothingStranded(s)
  {
    hide Run, Inv, NothingStranded;
    var steps: seq<Step> :| Run(handles, Start, steps) == s && forall i | 0 <= i < |steps| :: !steps[i].Die?;
    RunStrandsNothing(handles, steps);
    StartIsOk(handles);
    RunKeeps(handles, Start, steps);
  }

  lemma StartIsOk(handles: string -> bool)
    ensures Inv(handles, Start)
  {
  }

  /** If no worker dies, a row is in processing exactly while a worker holds it. */
  lemma ProcessingIffHeld(handles: string -> bool, s: System, id: nat)
    requires SafelyReachable(handles, s) && id < |s.rows|
    ensures s.rows[id].status == Processing <==> IsHeld(s, id)
  {
    hide SafelyReachable, RowOk, WorkerOk, HeldOnce;
    SafelyReachableIsOk(handles, s);
    if IsHeld(s, id) {
      var w, i :| w in s.held && 0 <= i < |s.held[w].queue| && s.held[w].queue[i].id == id;
      WorkerRowsExist(handles, s, w);
    }
  }

  /**
   If no worker dies, a row that is handled and at rest is where its calls put it: delivered after one
   success, dead after ten failures, and otherwise waiting for its next attempt, as many attempts used up as
   calls have failed. So ten calls always end a row, and ten minus its attempts counts what is left.
   */
  lemma CallsDecide(handles: string -> bool, s: System, id: nat)
    requires SafelyReachable(handles, s) && id < |s.rows| && handles(s.rows[id].targetService) && !IsHeld(s, id)
    ensures s.rows[id].status == Delivered <==> Successes(s, id) == 1
    ensures s.rows[id].status == DeadLetter <==> Failures(s, id) == 10
    ensures !Ended(s.rows[id]) <==> s.rows[id].status in {Pending, Failed}
    ensures !Ended(s.rows[id]) ==> Successes(s, id) == 0 && Failures(s, id) == s.rows[id].attempts < 10
  {
    hide SafelyReachable, Count, WorkerOk, HeldOnce, IsHeld;
    ProcessingIffHeld(handles, s, id);
    SafelyReachableIsOk(handles, s);
    assert RowOk(handles, s, id);
  }

  /**
   One service of a handled row: it ends the row or leaves one attempt fewer, and the retry is exactly
   30 * 2^k seconds away, k being the number of failures so far.
   */
  lemma ServiceMakesProgress(handles: string -> bool, s: System, w: nat, ok: bool, now: int, s': System)
    requires Reachable(handles, s) && Enabled(handles, s, Dispatch(w, ok))
    requires s' == Next(handles, Next(handles, s, Dispatch(w, ok)), Settle(w, now))
    ensures var id := s.held[w].queue[0].id;
      && id < |s.rows| && |s'.rows| == |s.rows|
      && s'.rows[id].targetService == s.rows[id].targetService
      && (forall k | 0 <= k < |s.rows| && k != id :: s'.rows[k] == s.rows[k])
      && (s'.rows[id].status == Delivered <==> ok)
      && (s'.rows[id].status == DeadLetter <==> !ok && s.rows[id].attempts == 9)
      && (!Ended(s'.rows[id]) ==>
            && s'.rows[id].status == Failed
            && s'.rows[id].attempts == s.rows[id].attempts + 1 == Failures(s', id)
            && s'.rows[id].nextRetryAt == now + 30_000_000_000 * Pow2(s'.rows[id].attempts))
  {
    hide Reachable, Count, HeldOnce, BackoffDuration, Pow2;
    ReachableIsOk(handles, s);
    assert WorkerOk(handles, s, w);
    assert CopyOk(handles, s, w, 0);
    var c := s.held[w].queue[0];
    assert RowOk(handles, s, c.id);
    CountOneMore(s.calls, Call(c.id, ok), c.id, false);
    if !ok && c.attempts < MAX_ATTEMPTS - 1 {
      DelaysInUse(c.attempts + 1);
    }
  }

  /** A row nobody handles: from its 29th retry on it is due again at once, outside the counts that wrap luckily. */
  lemma UnhandledRowIsDueAtOnce(r: OutboxRow, attempts: int, now: int)
    requires 28 <= attempts < 0x7FFF && attempts + 1 !in LUCKY
    ensures Settled(r, attempts, None, now).nextRetryAt <= now
  {
    hide BackoffDuration;
    CappedAsPromisedIff(attempts + 1);
  }
}
