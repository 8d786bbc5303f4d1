/** Serial runs: contributions in any order and repetition, and the operator's first word on a payout. */
module SerialCallbacks {
  import opened Wrappers
  import opened Sums
  import opened Ids
  import opened Text
  import opened Keys
  import opened Ledger
  import opened LedgerTable
  import opened Cycles
  import opened Database
  import opened Settlement
  import opened SettlementInvariant
  import opened SettlementRuns

  // --------------------------------------------------------------------------
  // Contributions: order and repetition do not matter
  // --------------------------------------------------------------------------

  /** Callbacks handled one after the other, with the wallet bindings fixed. */
  function HandleAll(sha: Digest, db: Db, bindings: map<string, Uuid>, cbs: seq<MobileMoneyCallback>): Db
  {
    if cbs == [] then db
    else Serve(sha, HandleAll(sha, db, bindings, cbs[..|cbs| - 1]), Callback(cbs[|cbs| - 1], bindings)).0
  }

  /** A callback that the tables can take: a valid number, a committed cycle, a known provider, a positive amount. */
  predicate Acceptable(cycles: map<Uuid, Cycle>, cb: MobileMoneyCallback)
  {
    ValidMsisdn(cb.payerMsisdn) && CycleAccepts(cycles, cb.cycleId) && KnownProvider(cb.provider) && cb.amountMinor > 0
  }

  predicate MentionsRef(cbs: seq<MobileMoneyCallback>, txRef: string)
  {
    exists i | 0 <= i < |cbs| :: cbs[i].providerTxRef == txRef
  }

  /** The first occurrences of acceptable callbacks whose references are not in the tables yet. */
  function News(t: Tables, cbs: seq<MobileMoneyCallback>): seq<MobileMoneyCallback>
  {
    if cbs == [] then [] else
      var before := News(t, cbs[..|cbs| - 1]);
      var cb := cbs[|cbs| - 1];
      if Acceptable(t.cycles, cb) && !HasRef(t.contributions, cb.providerTxRef)
         && !MentionsRef(before, cb.providerTxRef)
      then before + [cb] else before
  }

  /** What a callback adds to a cycle: its amount if its number is bound to a member, nothing if it is quarantined. */
  ghost function Adds(bindings: map<string, Uuid>, id: Uuid): MobileMoneyCallback -> int
  {
    (cb: MobileMoneyCallback) => if cb.cycleId == id && cb.payerMsisdn in bindings then cb.amountMinor else 0
  }

  /** The totals stay within 64 bits. */
  ghost predicate TotalsFit(t: Tables, bindings: map<string, Uuid>, cbs: seq<MobileMoneyCallback>)
  {
    forall id | id in t.cycles :: t.cycles[id].collectedAmountMinor + Sum(News(t, cbs), Adds(bindings, id)) <= MAX_I64
  }

  /** The tables after the callbacks: the new contributions are in, and each cycle has collected exactly them. */
  ghost predicate Handled(sha: Digest, db: Db, after: Db, bindings: map<string, Uuid>, news: seq<MobileMoneyCallback>)
  {
    && Inv(sha, after)
    && after.t.cycles.Keys == db.t.cycles.Keys
    && (forall id | id in db.t.cycles :: after.t.cycles[id] == db.t.cycles[id].(
          collectedAmountMinor := db.t.cycles[id].collectedAmountMinor + Sum(news, Adds(bindings, id))))
    && (forall r :: HasRef(after.t.contributions, r) <==> HasRef(db.t.contributions, r) || MentionsRef(news, r))
  }

  /** A reference without a contribution row has no ledger key either. */
  lemma ReferenceKeysFree(t: Tables, txRef: string)
    requires Shapes(t) && RefsOk(t) && !HasRef(t.contributions, txRef)
    ensures !HasKey(t.ledger, ContribKey(txRef)) && !HasKey(t.ledger, QuarantineKey(txRef))
  {
    hide ContribKey, QuarantineKey, ConfirmKey, FailKey, PayoutKey, HasRef;
    forall i | 0 <= i < |t.ledger|
      ensures t.ledger[i].idempotencyKey != Some(ContribKey(txRef))
      ensures t.ledger[i].idempotencyKey != Some(QuarantineKey(txRef))
    {
      KeyOfAnotherReference(t, txRef, i);
    }
  }

  lemma KeyOfAnotherReference(t: Tables, txRef: string, i: nat)
    requires i < |t.ledger| && Shape(t.cycles, t.ledger[i])
    requires t.ledger[i].eventType in {ContributionReceived, ContributionQuarantined} ==>
      t.ledger[i].externalRef.Some? ==> t.ledger[i].externalRef.value != txRef
    ensures t.ledger[i].idempotencyKey != Some(ContribKey(txRef))
    ensures t.ledger[i].idempotencyKey != Some(QuarantineKey(txRef))
  {
    hide ContribKey, QuarantineKey, ConfirmKey, FailKey, PayoutKey;
    var e := t.ledger[i];
    var r := if e.externalRef.Some? then e.externalRef.value else "";
    var id := e.aggregateId;
    var c := if id in t.cycles then t.cycles[id] else Cycle(id, id, 0, id, 0, 0, 0, Open, NotSent, None);
    Families(txRef, id, id, 0);
    Families(r, c.groupId, id, c.cycleNumber);
    if ContribKey(r) == ContribKey(txRef) || QuarantineKey(r) == QuarantineKey(txRef) {
      ReferenceKeysInjective(r, txRef);
    }
  }

  /** A callback that is not news leaves cycles and contributions alone. */
  lemma NotNewsChangesNothing(sha: Digest, db: Db, bindings: map<string, Uuid>, cb: MobileMoneyCallback)
    requires !Acceptable(db.t.cycles, cb) || HasRef(db.t.contributions, cb.providerTxRef)
    ensures Serve(sha, db, Callback(cb, bindings)).0.t == db.t
  {
    hide ValidMsisdn, HasKey, HasRef, AfterReconcile, AfterQuarantine;
  }

  /** News is committed: reconciled into its cycle when the number is bound, quarantined otherwise. */
  lemma NewsIsCommitted(sha: Digest, db: Db, bindings: map<string, Uuid>, cb: MobileMoneyCallback)
    requires Inv(sha, db) && Acceptable(db.t.cycles, cb) && !HasRef(db.t.contributions, cb.providerTxRef)
    requires cb.payerMsisdn in bindings ==> CollectedFits(db.t.cycles, cb.cycleId, cb.amountMinor)
    ensures var after := Serve(sha, db, Callback(cb, bindings)).0;
      && Inv(sha, after)
      && after.t.cycles == (if cb.payerMsisdn in bindings then Collect(db.t.cycles, cb.cycleId, cb.amountMinor)
                             else db.t.cycles)
      && |after.t.contributions| == |db.t.contributions| + 1 && db.t.contributions <= after.t.contributions
      && after.t.contributions[|db.t.contributions|].providerTxRef == cb.providerTxRef
  {
    hide ValidMsisdn, HasKey, HasRef, ContribKey, QuarantineKey, LedgerOk, Shapes, OutboxOk, MoneyOk, RefsOk;
    hide RegisterOk;
    hide PayoutsOk, CyclesOk, ConfirmationsFollow, NewRow, OutboxAfter;
    ReferenceKeysFree(db.t, cb.providerTxRef);
    var beneficiary := db.t.cycles[cb.cycleId].beneficiaryId;
    if cb.payerMsisdn in bindings {
      ReconcileKeeps(sha, db, cb, beneficiary, bindings[cb.payerMsisdn]);
    } else {
      QuarantineKeeps(sha, db, cb, beneficiary);
    }
  }

  lemma NewsStep(sha: Digest, db: Db, before: Db, bindings: map<string, Uuid>, news: seq<MobileMoneyCallback>,
                 cb: MobileMoneyCallback)
    requires Handled(sha, db, before, bindings, news)
    requires Acceptable(db.t.cycles, cb) && !HasRef(db.t.contributions, cb.providerTxRef)
    requires !MentionsRef(news, cb.providerTxRef)
    requires forall id | id in db.t.cycles ::
      db.t.cycles[id].collectedAmountMinor + Sum(news + [cb], Adds(bindings, id)) <= MAX_I64
    ensures Handled(sha, db, Serve(sha, before, Callback(cb, bindings)).0, bindings, news + [cb])
  {
    hide Inv, Serve, HasRef, MentionsRef, ValidMsisdn, KnownProvider;
    SameAcceptance(db.t.cycles, before.t.cycles, cb);
    SumAppend(news, cb, Adds(bindings, cb.cycleId));
    NewsIsCommitted(sha, before, bindings, cb);
    var after := Serve(sha, before, Callback(cb, bindings)).0;
    NewsTotals(db.t.cycles, before.t.cycles, after.t.cycles, bindings, news, cb);
    RefsAfterOneMore(before.t.contributions, after.t.contributions, cb.providerTxRef);
    forall r: string
      ensures MentionsRef(news + [cb], r) <==> MentionsRef(news, r) || r == cb.providerTxRef
    {
      MentionsOneMore(news, cb, r);
    }
  }

  lemma NewsTotals(start: map<Uuid, Cycle>, before: map<Uuid, Cycle>, after: map<Uuid, Cycle>,
                   bindings: map<string, Uuid>,
                   news: seq<MobileMoneyCallback>, cb: MobileMoneyCallback)
    requires before.Keys == start.Keys && cb.cycleId in start
    requires forall id | id in start :: before[id] == start[id].(
      collectedAmountMinor := start[id].collectedAmountMinor + Sum(news, Adds(bindings, id)))
    requires after == if cb.payerMsisdn in bindings then Collect(before, cb.cycleId, cb.amountMinor) else before
    ensures after.Keys == start.Keys
    ensures forall id | id in start :: after[id] == start[id].(
      collectedAmountMinor := start[id].collectedAmountMinor + Sum(news + [cb], Adds(bindings, id)))
  {
    forall id | id in start
      ensures after[id] == start[id].(collectedAmountMinor :=
        start[id].collectedAmountMinor + Sum(news + [cb], Adds(bindings, id)))
    {
      assert before[id].collectedAmountMinor == start[id].collectedAmountMinor + Sum(news, Adds(bindings, id));
      SumAppend(news, cb, Adds(bindings, id));
      OneTotal(before, after, bindings, cb, id);
    }
  }

  lemma OneTotal(before: map<Uuid, Cycle>, after: map<Uuid, Cycle>, bindings: map<string, Uuid>,
                 cb: MobileMoneyCallback, id: Uuid)
    requires cb.cycleId in before && id in before
    requires after == if cb.payerMsisdn in bindings then Collect(before, cb.cycleId, cb.amountMinor) else before
    ensures id in after
    ensures after[id] == before[id].(collectedAmountMinor := before[id].collectedAmountMinor + Adds(bindings, id)(cb))
  {
  }

  lemma RefsAfterOneMore(a: seq<Contribution>, b: seq<Contribution>, txRef: string)
    requires |b| == |a| + 1 && a <= b && b[|a|].providerTxRef == txRef
    ensures forall r :: HasRef(b, r) <==> HasRef(a, r) || r == txRef
  {
    forall r: string
      ensures HasRef(b, r) <==> HasRef(a, r) || r == txRef
    {
      if HasRef(a, r) {
        var i :| 0 <= i < |a| && a[i].providerTxRef == r;
        assert b[i] == a[i];
      }
    }
  }

  lemma MentionsOneMore(news: seq<MobileMoneyCallback>, cb: MobileMoneyCallback, r: string)
    ensures MentionsRef(news + [cb], r) <==> MentionsRef(news, r) || r == cb.providerTxRef
  {
    var more := news + [cb];
    assert more[|news|] == cb;
    if MentionsRef(news, r) {
      var i :| 0 <= i < |news| && news[i].providerTxRef == r;
      assert more[i] == news[i];
    }
  }

  lemma {:induction false} AllHandled(sha: Digest, db: Db, bindings: map<string, Uuid>, cbs: seq<MobileMoneyCallback>)
    requires Inv(sha, db) && TotalsFit(db.t, bindings, cbs)
    ensures Handled(sha, db, HandleAll(sha, db, bindings, cbs), bindings, News(db.t, cbs))
  {
    hide Inv, Serve, Acceptable;
    if cbs != [] {
      var n := |cbs| - 1;
      var cb := cbs[n];
      var news := News(db.t, cbs[..n]);
      PrefixFits(db.t, bindings, cbs);
      AllHandled(sha, db, bindings, cbs[..n]);
      var before := HandleAll(sha, db, bindings, cbs[..n]);
      SameAcceptance(db.t.cycles, before.t.cycles, cb);
      if News(db.t, cbs) == news + [cb] && Acceptable(db.t.cycles, cb) && !HasRef(db.t.contributions, cb.providerTxRef)
         && !MentionsRef(news, cb.providerTxRef) {
        NewsStep(sha, db, before, bindings, news, cb);
      } else {
        NotNewsChangesNothing(sha, before, bindings, cb);
        ServedIsOk(sha, before, Callback(cb, bindings));
      }
    }
  }

  lemma ServedIsOk(sha: Digest, db: Db, r: Request)
    requires Inv(sha, db)
    ensures Inv(sha, Serve(sha, db, r).0)
  {
    hide Inv, PlanOf, CommitTask;
    if PlanOf(db.t, r).Go? {
      PlansAreOk(sha, db, r);
      CommitTaskKeeps(sha, db, PlanOf(db.t, r).task);
    }
  }

  lemma SameAcceptance(a: map<Uuid, Cycle>, b: map<Uuid, Cycle>, cb: MobileMoneyCallback)
    requires a.Keys == b.Keys && forall id | id in a :: a[id].state == b[id].state
    ensures Acceptable(a, cb) == Acceptable(b, cb)
  {
  }

  lemma {:induction false} NewsArePositive(t: Tables, bindings: map<string, Uuid>, cbs: seq<MobileMoneyCallback>)
    ensures forall i | 0 <= i < |News(t, cbs)| :: News(t, cbs)[i].amountMinor > 0
  {
    if cbs != [] {
      NewsArePositive(t, bindings, cbs[..|cbs| - 1]);
    }
  }

  lemma PrefixFits(t: Tables, bindings: map<string, Uuid>, cbs: seq<MobileMoneyCallback>)
    requires cbs != [] && TotalsFit(t, bindings, cbs)
    ensures TotalsFit(t, bindings, cbs[..|cbs| - 1])
  {
    hide Acceptable;
    NewsArePositive(t, bindings, cbs);
    var before := News(t, cbs[..|cbs| - 1]);
    forall id | id in t.cycles
      ensures Sum(before, Adds(bindings, id)) <= Sum(News(t, cbs), Adds(bindings, id))
    {
      if News(t, cbs) != before {
        SumAppend(before, cbs[|cbs| - 1], Adds(bindings, id));
      }
    }
  }

  /** Equal references mean equal callbacks. */
  ghost predicate Consistent(cbs: seq<MobileMoneyCallback>)
  {
    forall i, j | 0 <= i < |cbs| && 0 <= j < |cbs| && cbs[i].providerTxRef == cbs[j].providerTxRef :: cbs[i] == cbs[j]
  }

  ghost predicate NoDuplicates(cbs: seq<MobileMoneyCallback>) { forall i, j | 0 <= i < j < |cbs| :: cbs[i] != cbs[j] }

  ghost predicate IsNews(t: Tables, cb: MobileMoneyCallback)
  {
    Acceptable(t.cycles, cb) && !HasRef(t.contributions, cb.providerTxRef)
  }

  /** The news of a list are its acceptable callbacks with new references, each once, whatever the order. */
  lemma {:induction false} NewsMembers(t: Tables, cbs: seq<MobileMoneyCallback>)
    requires Consistent(cbs)
    ensures forall x :: x in News(t, cbs) <==> x in cbs && IsNews(t, x)
    ensures NoDuplicates(News(t, cbs))
  {
    hide Acceptable, HasRef;
    if cbs != [] {
      var n := |cbs| - 1;
      var last := cbs[n];
      var before := News(t, cbs[..n]);
      NewsMembers(t, cbs[..n]);
      assert cbs == cbs[..n] + [last];
      assert forall x :: x in cbs <==> x in cbs[..n] || x == last;
      if MentionsRef(before, last.providerTxRef) {
        var k :| 0 <= k < |before| && before[k].providerTxRef == last.providerTxRef;
        assert before[k] in before;
        SameReferenceSameCallback(cbs, before[k], last);
      } else {
        assert last !in before;
      }
    }
  }

  lemma SameReferenceSameCallback(cbs: seq<MobileMoneyCallback>, x: MobileMoneyCallback, y: MobileMoneyCallback)
    requires Consistent(cbs) && x in cbs && y in cbs && x.providerTxRef == y.providerTxRef
    ensures x == y
  {
    var i :| 0 <= i < |cbs| && cbs[i] == x;
    var j :| 0 <= j < |cbs| && cbs[j] == y;
  }

  /**
   Any order, any repetition: two lists of the same callbacks leave every cycle with the same total, namely what
   it had plus the amounts of the distinct new references whose numbers are bound.
   */
  lemma OrderAndRepetitionDoNotMatter(sha: Digest, db: Db, bindings: map<string, Uuid>,
                                      xs: seq<MobileMoneyCallback>, ys: seq<MobileMoneyCallback>, id: Uuid)
    requires Inv(sha, db) && Consistent(xs) && id in db.t.cycles
    requires forall x :: x in xs <==> x in ys
    requires TotalsFit(db.t, bindings, xs)
    ensures var a, b := HandleAll(sha, db, bindings, xs).t.cycles, HandleAll(sha, db, bindings, ys).t.cycles;
      && id in a && id in b
      && a[id].collectedAmountMinor == b[id].collectedAmountMinor
           == db.t.cycles[id].collectedAmountMinor + Sum(News(db.t, xs), Adds(bindings, id))
  {
    hide Inv, Acceptable, HasRef, News, HandleAll, Sum;
    ConsistentTogether(xs, ys);
    forall other | other in db.t.cycles
      ensures Sum(News(db.t, xs), Adds(bindings, other)) == Sum(News(db.t, ys), Adds(bindings, other))
    {
      SameTotal(db.t, xs, ys, Adds(bindings, other));
    }
    AllHandled(sha, db, bindings, xs);
    AllHandled(sha, db, bindings, ys);
  }

  lemma ConsistentTogether(xs: seq<MobileMoneyCallback>, ys: seq<MobileMoneyCallback>)
    requires Consistent(xs) && forall x :: x in xs <==> x in ys
    ensures Consistent(ys)
  {
    forall i, j | 0 <= i < |ys| && 0 <= j < |ys| && ys[i].providerTxRef == ys[j].providerTxRef
      ensures ys[i] == ys[j]
    {
      SameReferenceSameCallback(xs, ys[i], ys[j]);
    }
  }

  lemma SameTotal(t: Tables, xs: seq<MobileMoneyCallback>, ys: seq<MobileMoneyCallback>, w: MobileMoneyCallback -> int)
    requires Consistent(xs) && Consistent(ys) && forall x :: x in xs <==> x in ys
    ensures Sum(News(t, xs), w) == Sum(News(t, ys), w)
  {
    hide IsNews, Sum, Consistent, News;
    NewsMembers(t, xs);
    NewsMembers(t, ys);
    SumSameElements(News(t, xs), News(t, ys), w);
  }

  // --------------------------------------------------------------------------
  // The operator's replies: the first one decides
  // --------------------------------------------------------------------------

  datatype Reply = Reply(success: bool, cycleId: Uuid, externalRef: string, reason: string, now: int)

  function RequestOf(r: Reply): Request
  {
    if r.success then ConfirmPayout(r.cycleId, r.externalRef, r.now)
    else FailPayout(r.cycleId, r.externalRef, r.reason, r.now)
  }

  function ServeAll(sha: Digest, db: Db, replies: seq<Reply>): Db
  {
    if replies == [] then db
    else Serve(sha, ServeAll(sha, db, replies[..|replies| - 1]), RequestOf(replies[|replies| - 1])).0
  }

  /** External references identify cycles. */
  ghost predicate RefsIdentifyCycles(replies: seq<Reply>)
  {
    forall i, j | 0 <= i < |replies| && 0 <= j < |replies| && replies[i].externalRef == replies[j].externalRef ::
      replies[i].cycleId == replies[j].cycleId
  }

  predicate OutcomeKeyUsed(ledger: seq<LedgerEntry>, externalRef: string)
  {
    HasKey(ledger, ConfirmKey(externalRef)) || HasKey(ledger, FailKey(externalRef))
  }

  /** One for each outcome row of the cycle. */
  ghost function OutcomeRow(id: Uuid): LedgerEntry -> int
  {
    (e: LedgerEntry) =>
      if e.aggregateId == id && e.eventType in {LedgerEventType.PayoutConfirmed, LedgerEventType.PayoutFailed}
      then 1 else 0
  }

  /** The position of the first reply about a cycle, or the length. */
  function FirstReply(replies: seq<Reply>, id: Uuid): (f: nat)
    ensures f <= |replies| && (f < |replies| ==> replies[f].cycleId == id)
    ensures forall i | 0 <= i < f :: replies[i].cycleId != id
  {
    if replies == [] then 0 else
      var n := |replies| - 1;
      var f := FirstReply(replies[..n], id);
      if f < n || replies[n].cycleId == id then f else n + 1
  }

  /** A reply is planned and, if the plan goes ahead, committed as a confirmation or as a failure. */
  lemma ServedReply(sha: Digest, db: Db, r: Reply)
    ensures Serve(sha, db, RequestOf(r)) ==
      match (if r.success then PlanConfirm(db.t, r.cycleId, r.externalRef, r.now)
             else PlanFail(db.t, r.cycleId, r.externalRef, r.reason, r.now))
      case Stop(outcome) => (db, outcome)
      case Go(_) =>
        if r.success then CommitConfirm(sha, db, r.cycleId, r.externalRef, r.now)
        else CommitFail(sha, db, r.cycleId, r.externalRef, r.reason, r.now)
  {
    hide CommitConfirm, CommitFail;
  }

  /** Keys written by serving a reply are keys of its own reference. */
  lemma ReplyWritesItsOwnKeys(sha: Digest, db: Db, r: Reply, externalRef: string)
    ensures var after := Serve(sha, db, RequestOf(r)).0.t.ledger;
      OutcomeKeyUsed(after, externalRef) ==> OutcomeKeyUsed(db.t.ledger, externalRef) || r.externalRef == externalRef
  {
    hide Serve, RequestOf, NewRow, ConfirmKey, FailKey, Payload, OutboxAfter, CanUpdatePayoutState;
    ServedReply(sha, db, r);
    var after := Serve(sha, db, RequestOf(r)).0.t.ledger;
    Families(r.externalRef, r.cycleId, r.cycleId, 0);
    Families(externalRef, r.cycleId, r.cycleId, 0);
    if |after| == |db.t.ledger| + 1 {
      forall i | 0 <= i < |after|
        ensures i == |db.t.ledger| || after[i] == db.t.ledger[i]
      {
      }
      if ConfirmKey(r.externalRef) == ConfirmKey(externalRef) || FailKey(r.externalRef) == FailKey(externalRef) {
        ReferenceKeysInjective(r.externalRef, externalRef);
      }
    }
  }

  /** A reply about another cycle leaves this one and its outcome rows alone. */
  lemma OtherReply(sha: Digest, db: Db, r: Reply, id: Uuid)
    requires r.cycleId != id && id in db.t.cycles
    ensures var after := Serve(sha, db, RequestOf(r)).0.t;
      id in after.cycles && after.cycles[id] == db.t.cycles[id]
        && Sum(after.ledger, OutcomeRow(id)) == Sum(db.t.ledger, OutcomeRow(id))
  {
    hide Serve, RequestOf, NewRow, ConfirmKey, FailKey, Payload, OutboxAfter, HasKey, TriggerAllows, PayoutKeyFree;
    ServedReply(sha, db, r);
    var after := Serve(sha, db, RequestOf(r)).0.t;
    if |after.ledger| == |db.t.ledger| + 1 {
      var row := after.ledger[|db.t.ledger|];
      assert after.ledger == db.t.ledger + [row];
      SumAppend(db.t.ledger, row, OutcomeRow(id));
    }
  }

  /** The first reply to a triggered payout is taken, and writes one outcome row. */
  lemma DecisiveReply(sha: Digest, db: Db, r: Reply)
    requires r.cycleId in db.t.cycles && db.t.cycles[r.cycleId].state == PayoutTriggered
    requires db.t.cycles[r.cycleId].payoutState in {Pending, Sent} && !OutcomeKeyUsed(db.t.ledger, r.externalRef)
    ensures var after := Serve(sha, db, RequestOf(r)).0.t;
      && r.cycleId in after.cycles
      && after.cycles[r.cycleId].state == (if r.success then Closed else Disputed)
      && after.cycles[r.cycleId].payoutState == (if r.success then Confirmed else Failed)
      && Sum(after.ledger, OutcomeRow(r.cycleId)) == Sum(db.t.ledger, OutcomeRow(r.cycleId)) + 1
  {
    hide Serve, RequestOf, NewRow, ConfirmKey, FailKey, Payload, OutboxAfter, HasKey, Dec, Sum;
    ServedReply(sha, db, r);
    var after := Serve(sha, db, RequestOf(r)).0.t;
    var row := after.ledger[|db.t.ledger|];
    assert after.ledger == db.t.ledger + [row];
    SumAppend(db.t.ledger, row, OutcomeRow(r.cycleId));
  }

  /** A reply about a payout whose outcome is known changes nothing. */
  lemma LateReply(sha: Digest, db: Db, r: Reply)
    requires r.cycleId in db.t.cycles && db.t.cycles[r.cycleId].payoutState in {Confirmed, Failed}
    ensures Serve(sha, db, RequestOf(r)).0 == db
  {
  }

  ghost predicate Settled(c: Cycle, success: bool)
  {
    c.state == (if success then Closed else Disputed) && c.payoutState == (if success then Confirmed else Failed)
  }

  lemma {:induction false} KeysUsedByReplies(sha: Digest, db: Db, replies: seq<Reply>, externalRef: string)
    requires OutcomeKeyUsed(ServeAll(sha, db, replies).t.ledger, externalRef)
    ensures OutcomeKeyUsed(db.t.ledger, externalRef) || exists i | 0 <= i < |replies| ::
      replies[i].externalRef == externalRef
  {
    hide OutcomeKeyUsed, Serve;
    if replies != [] {
      var n := |replies| - 1;
      ReplyWritesItsOwnKeys(sha, ServeAll(sha, db, replies[..n]), replies[n], externalRef);
      if OutcomeKeyUsed(ServeAll(sha, db, replies[..n]).t.ledger, externalRef) {
        KeysUsedByReplies(sha, db, replies[..n], externalRef);
      } else {
        assert replies[n].externalRef == externalRef;
      }
    }
  }

  /**
   After any sequence of confirmations and failures, a triggered payout is settled the way the first reply
   about it said, and exactly one outcome row was written for it; without a reply it is untouched.
   */
  lemma {:induction false} FirstReplyWins(sha: Digest, db: Db, replies: seq<Reply>, id: Uuid)
    requires id in db.t.cycles && db.t.cycles[id].state == PayoutTriggered
    requires db.t.cycles[id].payoutState in {Pending, Sent}
    requires RefsIdentifyCycles(replies)
    requires forall i | 0 <= i < |replies| && replies[i].cycleId == id ::
      !OutcomeKeyUsed(db.t.ledger, replies[i].externalRef)
    ensures var after := ServeAll(sha, db, replies).t;
      var f := FirstReply(replies, id);
      && id in after.cycles
      && (if f < |replies|
          then Settled(after.cycles[id], replies[f].success)
               && Sum(after.ledger, OutcomeRow(id)) == Sum(db.t.ledger, OutcomeRow(id)) + 1
          else after.cycles[id] == db.t.cycles[id]
               && Sum(after.ledger, OutcomeRow(id)) == Sum(db.t.ledger, OutcomeRow(id)))
  {
    hide OutcomeKeyUsed, Serve;
    if replies != [] {
      var n := |replies| - 1;
      var r := replies[n];
      var earlier := replies[..n];
      FirstReplyWins(sha, db, earlier, id);
      var before := ServeAll(sha, db, earlier);
      if r.cycleId != id {
        OtherReply(sha, before, r, id);
      } else if FirstReply(earlier, id) < n {
        LateReply(sha, before, r);
      } else {
        if OutcomeKeyUsed(before.t.ledger, r.externalRef) {
          KeysUsedByReplies(sha, db, earlier, r.externalRef);
        }
        DecisiveReply(sha, before, r);
      }
    }
  }
}
