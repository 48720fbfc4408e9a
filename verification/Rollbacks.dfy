/**
 * Undoing fills. The matcher's rollback is the exact inverse of its persist whatever happens to
 * other fills in between; the reconciler's rollback is repeatable only in one case.
 */
module Rollbacks {
  import opened Wrappers
  import opened Sequences
  import opened BigInt
  import opened Matching
  import opened Ledger
  import opened LedgerFacts

  // ----- what an operation on one fill may change -----

  /** Every market counts at least the live fills; the difference is its surplus. */
  ghost predicate VolumeSound(db: Db) {
    forall id :: id in db.markets ==> db.markets[id].volume >= VolumeOf(db.fills, id)
  }

  ghost predicate SameSurplus(db: Db, db': Db) {
    && db.markets.Keys == db'.markets.Keys
    && forall id :: id in db.markets ==>
      db.markets[id].volume - VolumeOf(db.fills, id) == db'.markets[id].volume - VolumeOf(db'.fills, id)
  }

  /** Equal up to the last traded price, which no rollback restores. */
  ghost predicate SameButPrice(a: Db, b: Db) {
    && a.fills == b.fills && a.orders == b.orders && a.jobs == b.jobs
    && a.markets.Keys == b.markets.Keys
    && forall id :: id in a.markets ==> a.markets[id].volume == b.markets[id].volume
  }

  /** The filled sizes are determined by the fills. */
  lemma OrdersDetermined(a: Db, b: Db)
    requires LedgerOk(a) && LedgerOk(b) && a.fills == b.fills && SameStatic(a.orders, b.orders)
    ensures a.orders == b.orders
  {
    forall id | id in a.orders ensures a.orders[id] == b.orders[id] {
      assert OrderOk(a.orders, a.fills, id) && OrderOk(b.orders, b.fills, id);
    }
  }

  // ----- operations -----

  datatype Op = Insert(m: Match) | Remove(m: Match)

  function ApplyOp(db: Db, op: Op): Db {
    match op
    case Insert(m) => Persist(db, m).0
    case Remove(m) => Rollback(db, m)
  }

  /** The fill of `m` is live, at its price and in its market. */
  ghost predicate LiveAs(db: Db, m: Match) {
    Live(db.fills, KeyOf(m)) &&
    var f := db.fills[IndexOf(db.fills, KeyOf(m))];
    f.marketId == m.maker.marketId && f.fillPrice == m.fillPrice
  }

  /** What the matcher does: it inserts fills that have room and removes fills that are live. */
  ghost predicate Proper(db: Db, op: Op) {
    match op
    case Insert(m) => Fits(db, m) && !Live(db.fills, KeyOf(m))
    case Remove(m) => LiveAs(db, m)
  }

  lemma InsertFacts(db: Db, m: Match)
    requires LedgerOk(db) && VolumeSound(db) && Proper(db, Insert(m))
    ensures var db' := Persist(db, m).0;
      && Persist(db, m).1 && db'.fills == db.fills + [RowOf(m)] && db'.jobs == db.jobs
      && LedgerOk(db') && VolumeSound(db') && SameSurplus(db, db') && SameStatic(db.orders, db'.orders)
  {
    PersistComplete(db, m);
    WrittenKeeps(db, m);
    SumsAppend(db.fills, [RowOf(m)]);
    SumsSingle(RowOf(m));
  }

  lemma RemoveFacts(db: Db, m: Match)
    requires LedgerOk(db) && VolumeSound(db) && LiveAs(db, m)
    ensures var db', k := Rollback(db, m), KeyOf(m);
      && db'.fills == DeleteFills(db.fills, Pseudo(k)) && db'.jobs == db.jobs
      && LedgerOk(db') && VolumeSound(db') && SameSurplus(db, db') && SameStatic(db.orders, db'.orders)
  {
    RollbackLive(db, KeyOf(m));
    ReturnExact(db, m);
  }

  /** The row of a live fill counts for as much volume as its match does. */
  lemma LiveNotional(db: Db, m: Match, id: nat)
    requires FillsOk(db.orders, db.fills) && LiveAs(db, m)
    ensures NotionalOf(db.fills[IndexOf(db.fills, KeyOf(m))], id)
         == if id == m.maker.marketId then Notional(m.fillSize, m.fillPrice) else 0
  {
    var f := db.fills[IndexOf(db.fills, KeyOf(m))];
    assert f in db.fills && FillOk(db.orders, f);
    assert f.fillSize == m.fillSize;
  }

  lemma ReturnOne(db: Db, m: Match, id: nat)
    requires FillsOk(db.orders, db.fills) && VolumeSound(db) && LiveAs(db, m) && id in db.markets
    ensures var rest := Without(db.fills, KeyOf(m));
      Rollback(db, m).markets[id].volume - VolumeOf(rest, id) == db.markets[id].volume - VolumeOf(db.fills, id) >= 0
  {
    var k := KeyOf(m);
    var rest := Without(db.fills, k);
    SplitAt(db.fills, k);
    LiveNotional(db, m, id);
    FillsOkWithout(db.orders, db.fills, k);
    FillsNonNegative(db.orders, rest);
    assert VolumeOf(db.fills, id) == VolumeOf(rest, id) + NotionalOf(db.fills[IndexOf(db.fills, k)], id);
    assert VolumeOf(rest, id) >= 0 && db.markets[id].volume >= VolumeOf(db.fills, id);
  }

  /** The volume is given back in full: the clamp does not bite. */
  lemma ReturnExact(db: Db, m: Match)
    requires FillsOk(db.orders, db.fills) && VolumeSound(db) && LiveAs(db, m)
    ensures VolumeSound(Rollback(db, m)) && SameSurplus(db, Rollback(db, m))
  {
    var db' := Rollback(db, m);
    assert db'.fills == Without(db.fills, KeyOf(m)) by { FillsOkWithout(db.orders, db.fills, KeyOf(m)); }
    forall id | id in db.markets
      ensures db'.markets[id].volume - VolumeOf(db'.fills, id) == db.markets[id].volume - VolumeOf(db.fills, id) >= 0
    {
      ReturnOne(db, m, id);
    }
  }

  // ----- the twin: the same database without fill k -----

  ghost predicate Twin(a: Db, b: Db, k: FillKey) {
    && LedgerOk(a) && LedgerOk(b) && VolumeSound(a) && VolumeSound(b)
    && Live(a.fills, k) && b.fills == DeleteFills(a.fills, Pseudo(k))
    && SameStatic(a.orders, b.orders) && SameSurplus(a, b) && a.jobs == b.jobs
  }

  lemma {:induction false} FilterAppend<T(!new)>(keep: T -> bool, s: seq<T>, t: seq<T>)
    ensures Filter(keep, s + t) == Filter(keep, s) + Filter(keep, t)
  {
    if s == [] {
      assert s + t == t;
    } else {
      assert (s + t)[1..] == s[1..] + t;
      FilterAppend(keep, s[1..], t);
    }
  }

  lemma DeleteAppend(a: seq<FillRow>, b: seq<FillRow>, h: TxHash)
    ensures DeleteFills(a + b, h) == DeleteFills(a, h) + DeleteFills(b, h)
  {
    FilterAppend((f: FillRow) => f.txHash != h, a, b);
  }

  lemma DeleteSingle(f: FillRow, h: TxHash)
    ensures DeleteFills([f], h) == if f.txHash != h then [f] else []
  {
    assert [f][0] == f && [f][1..] == [];
    assert DeleteFills([f], h) == (if f.txHash != h then [f] else []) + DeleteFills([f][1..], h);
  }

  lemma {:induction false} DeletesCommute(fills: seq<FillRow>, g: TxHash, h: TxHash)
    ensures DeleteFills(DeleteFills(fills, g), h) == DeleteFills(DeleteFills(fills, h), g)
  {
    if fills != [] {
      var f, rest := fills[0], fills[1..];
      assert fills == [f] + rest;
      DeletesCommute(rest, g, h);
      DeleteSingle(f, g);
      DeleteSingle(f, h);
      DeleteAppend([f], rest, g);
      DeleteAppend([f], rest, h);
      DeleteAppend(DeleteFills([f], g), DeleteFills(rest, g), h);
      DeleteAppend(DeleteFills([f], h), DeleteFills(rest, h), g);
    }
  }

  /** What the twin lacks is only the size of fill k. */
  lemma TwinHasLess(a: Db, b: Db, k: FillKey)
    requires Twin(a, b, k)
    ensures forall id :: id in a.orders ==> b.orders[id].order.filledSize <= a.orders[id].order.filledSize
  {
    LiveFill(a, k);
    FillsOkWithout(a.orders, a.fills, k);
    forall id | id in a.orders ensures b.orders[id].order.filledSize <= a.orders[id].order.filledSize {
      assert OrderOk(a.orders, a.fills, id) && OrderOk(b.orders, b.fills, id);
      assert Touched(a.fills, id) == Touched(b.fills, id) + KeyPart(k, id);
    }
  }

  lemma SamePendingRow(a: seq<FillRow>, b: seq<FillRow>, k: FillKey)
    requires UniquePseudo(a) && Live(a, k) && Live(b, k) && forall f :: f in b ==> f in a
    ensures b[IndexOf(b, k)] == a[IndexOf(a, k)]
  {
    assert b[IndexOf(b, k)] in a;
  }

  /** Equal changes to both keep the twins together. */
  lemma TwinCompose(a: Db, b: Db, a': Db, b': Db, k: FillKey)
    requires Twin(a, b, k)
    requires LedgerOk(a') && VolumeSound(a') && SameSurplus(a, a') && SameStatic(a.orders, a'.orders) &&
      a'.jobs == a.jobs
    requires LedgerOk(b') && VolumeSound(b') && SameSurplus(b, b') && SameStatic(b.orders, b'.orders) &&
      b'.jobs == b.jobs
    requires Live(a'.fills, k) && b'.fills == DeleteFills(a'.fills, Pseudo(k))
    ensures Twin(a', b', k)
  {
    StaticCompose(a.orders, b.orders, a'.orders, b'.orders);
  }

  lemma StaticCompose(a: OrderTable, b: OrderTable, a': OrderTable, b': OrderTable)
    requires SameStatic(a, b) && SameStatic(a, a') && SameStatic(b, b')
    ensures SameStatic(a', b')
  {
  }

  lemma TwinInsert(a: Db, b: Db, k: FillKey, m: Match)
    requires Twin(a, b, k) && Proper(a, Insert(m)) && KeyOf(m) != k
    ensures Proper(b, Insert(m)) && Twin(Persist(a, m).0, Persist(b, m).0, k)
  {
    LiveDelete(a.fills, k, KeyOf(m));
    assert Fits(b, m) by { TwinHasLess(a, b, k); }
    InsertFacts(a, m);
    InsertFacts(b, m);
    DeleteAppend(a.fills, [RowOf(m)], Pseudo(k));
    DeleteSingle(RowOf(m), Pseudo(k));
    LiveAppend(a.fills, RowOf(m), k);
    TwinCompose(a, b, Persist(a, m).0, Persist(b, m).0, k);
  }

  lemma TwinRemove(a: Db, b: Db, k: FillKey, m: Match)
    requires Twin(a, b, k) && Proper(a, Remove(m)) && KeyOf(m) != k
    ensures Proper(b, Remove(m)) && Twin(Rollback(a, m), Rollback(b, m), k)
  {
    var j := KeyOf(m);
    LiveDelete(a.fills, k, j);
    LiveDelete(a.fills, j, k);
    SamePendingRow(a.fills, b.fills, j);
    RemoveFacts(a, m);
    RemoveFacts(b, m);
    DeletesCommute(a.fills, Pseudo(j), Pseudo(k));
    TwinCompose(a, b, Rollback(a, m), Rollback(b, m), k);
  }

  lemma TwinIsRollback(a: Db, b: Db, m: Match)
    requires Twin(a, b, KeyOf(m)) && LiveAs(a, m)
    ensures SameButPrice(Rollback(a, m), b)
  {
    RemoveFacts(a, m);
    OrdersDetermined(Rollback(a, m), b);
  }

  // ----- rollback undoes persist -----

  function ApplyOps(db: Db, ops: seq<Op>): Db
    decreases |ops|
  {
    if ops == [] then db else ApplyOps(ApplyOp(db, ops[0]), ops[1..])
  }

  ghost predicate ProperRun(db: Db, ops: seq<Op>)
    decreases |ops|
  {
    ops == [] || (Proper(db, ops[0]) && ProperRun(ApplyOp(db, ops[0]), ops[1..]))
  }

  lemma TwinStep(a: Db, b: Db, m: Match, op: Op)
    requires Twin(a, b, KeyOf(m)) && LiveAs(a, m) && Proper(a, op) && KeyOf(op.m) != KeyOf(m)
    ensures Proper(b, op) && Twin(ApplyOp(a, op), ApplyOp(b, op), KeyOf(m)) && LiveAs(ApplyOp(a, op), m)
  {
    var k, fills' := KeyOf(m), ApplyOp(a, op).fills;
    match op {
      case Insert(n) =>
        TwinInsert(a, b, k, n);
        InsertFacts(a, n);
        SamePendingRow(fills', a.fills, k);
      case Remove(n) =>
        TwinRemove(a, b, k, n);
        RemoveFacts(a, n);
        SamePendingRow(a.fills, fills', k);
    }
  }

  lemma {:induction false} TwinRun(a: Db, b: Db, m: Match, ops: seq<Op>)
    requires Twin(a, b, KeyOf(m)) && LiveAs(a, m) && ProperRun(a, ops)
    requires forall op :: op in ops ==> KeyOf(op.m) != KeyOf(m)
    ensures ProperRun(b, ops)
    ensures Twin(ApplyOps(a, ops), ApplyOps(b, ops), KeyOf(m)) && LiveAs(ApplyOps(a, ops), m)
    decreases |ops|
  {
    if ops != [] {
      TwinStep(a, b, m, ops[0]);
      TwinRun(ApplyOp(a, ops[0]), ApplyOp(b, ops[0]), m, ops[1..]);
    }
  }

  /**
   * Persist a fill, run any operations on other fills, roll the fill back: fills, filled sizes and
   * volumes are what they would have been had it never been persisted.
   */
  lemma RollbackUndoesPersist(db: Db, m: Match, ops: seq<Op>)
    requires LedgerOk(db) && VolumeSound(db) && Proper(db, Insert(m))
    requires ProperRun(Persist(db, m).0, ops)
    requires forall op :: op in ops ==> KeyOf(op.m) != KeyOf(m)
    ensures ProperRun(db, ops)
    ensures SameButPrice(Rollback(ApplyOps(Persist(db, m).0, ops), m), ApplyOps(db, ops))
  {
    var k, a := KeyOf(m), Persist(db, m).0;
    InsertFacts(db, m);
    LiveAppend(db.fills, RowOf(m), k);
    DeleteNone(db.fills, k);
    DeleteAppend(db.fills, [RowOf(m)], Pseudo(k));
    DeleteSingle(RowOf(m), Pseudo(k));
    assert a.fills[IndexOf(a.fills, k)] == RowOf(m);
    TwinRun(a, db, m, ops);
    TwinIsRollback(ApplyOps(a, ops), ApplyOps(db, ops), m);
  }

  /**
   * A match whose settlement is refused leaves the ledger as it was, up to the last price, and one
   * FAILED job as its trace.
   */
  lemma RejectedLeavesOnlyTrace(db: Db, m: Match, env: TickEnv)
    requires LedgerOk(db) && VolumeSound(db) && Proper(db, Insert(m))
    requires env.InBand(m.fillPrice) && !env.Poisoned(m)
    ensures var db' := Process(db, m, env, Rejected);
      && SameButPrice(db'.(jobs := db.jobs), db)
      && db'.jobs.Keys == db.jobs.Keys + {KeyOf(m)} && db'.jobs[KeyOf(m)].status == Failed
      && forall k :: k in db.jobs && k != KeyOf(m) ==> db'.jobs[k] == db.jobs[k]
  {
    InsertFacts(db, m);
    RollbackUndoesPersist(db, m, []);
    var persisted := Persist(db, m).0;
    assert Rollback(RecordFailure(persisted, KeyOf(m)), m).(jobs := db.jobs) == Rollback(persisted, m);
  }

  // ----- repeating the reconciler's rollback -----

  predicate Untouched(fills: seq<FillRow>, id: OrderId) {
    forall f | f in fills :: f.maker != id && f.taker != id
  }

  lemma {:induction false} UntouchedIffZero(fills: seq<FillRow>, id: OrderId)
    requires forall f :: f in fills ==> f.fillSize > 0
    ensures Touched(fills, id) >= 0 && (Untouched(fills, id) <==> Touched(fills, id) == 0)
  {
    if fills != [] {
      UntouchedIffZero(fills[1..], id);
      assert Untouched(fills, id) <==> PartOf(fills[0], id) == 0 && Untouched(fills[1..], id);
    }
  }

  /**
   * The source calls its rollback safe to run more than once. On a sound ledger that holds exactly
   * when the fill was the only live one of both its orders; otherwise the retry takes its size off
   * another fill.
   */
  lemma RetryIdempotentIff(db: Db, payload: Payload)
    requires LedgerOk(db) && Live(db.fills, payload.pendingTxHash)
    ensures var k := payload.pendingTxHash;
      var once := RollbackJob(db, Some(payload));
      var twice := RollbackJob(once, Some(payload));
      twice == once <==> Untouched(once.fills, k.maker) && Untouched(once.fills, k.taker)
  {
    var k := payload.pendingTxHash;
    var once := RollbackJob(db, Some(payload));
    RollbackLive(db, k);
    LiveFill(db, k);
    FillsOkWithout(db.orders, db.fills, k);
    DeleteNone(once.fills, k);
    forall f | f in once.fills ensures f.fillSize > 0 { assert FillOk(once.orders, f); }
    UntouchedIffZero(once.fills, k.maker);
    UntouchedIffZero(once.fills, k.taker);
    assert OrderOk(once.orders, once.fills, k.maker) && OrderOk(once.orders, once.fills, k.taker);
    LowerAgain(once.orders, k);
  }

  /** A second decrement is idle exactly when both orders are empty already. */
  lemma LowerAgain(orders: OrderTable, k: FillKey)
    requires k.maker in orders && k.taker in orders && k.maker != k.taker && k.fillSize > 0
    requires orders[k.maker].order.filledSize >= 0 && orders[k.taker].order.filledSize >= 0
    ensures LowerBoth(orders, k) == orders
       <==> orders[k.maker].order.filledSize == 0 && orders[k.taker].order.filledSize == 0
  {
    if orders[k.maker].order.filledSize == 0 && orders[k.taker].order.filledSize == 0 {
      assert SetFilled(orders, k.maker, 0) == orders && SetFilled(orders, k.taker, 0) == orders;
    } else {
      var after := LowerBoth(orders, k);
      assert after[k.maker].order.filledSize == Max(0, orders[k.maker].order.filledSize - k.fillSize);
      assert after[k.taker].order.filledSize == Max(0, orders[k.taker].order.filledSize - k.fillSize);
    }
  }

  /**
   * The reconciler's rollback leaves filled sizes equal to the live fills exactly when the fill is
   * live, or when neither of its orders has anything to lose.
   */
  lemma RollbackExactIff(db: Db, payload: Payload)
    requires LedgerOk(db)
    requires var k := payload.pendingTxHash;
      k.maker in db.orders && k.taker in db.orders && k.maker != k.taker && k.fillSize > 0
    ensures var k := payload.pendingTxHash;
      LedgerOk(RollbackJob(db, Some(payload)))
      <==> Live(db.fills, k) || (Untouched(db.fills, k.maker) && Untouched(db.fills, k.taker))
  {
    var k, db' := payload.pendingTxHash, RollbackJob(db, Some(payload));
    if Live(db.fills, k) {
      RollbackLive(db, k);
    } else {
      DeleteNone(db.fills, k);
      assert OrderOk(db.orders, db.fills, k.maker) && OrderOk(db.orders, db.fills, k.taker);
      forall f | f in db.fills ensures f.fillSize > 0 { assert FillOk(db.orders, f); }
      UntouchedIffZero(db.fills, k.maker);
      UntouchedIffZero(db.fills, k.taker);
      LowerAgain(db.orders, k);
      if LedgerOk(db') {
        LowersStatic(db.orders, k);
        OrdersDetermined(db, db');
      }
    }
  }

  lemma LowersStatic(orders: OrderTable, k: FillKey)
    ensures SameStatic(orders, LowerBoth(orders, k))
  {
  }
}
