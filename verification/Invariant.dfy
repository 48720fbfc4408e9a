/**
 * What the processes keep. `StepKept`: every step of every process keeps `Kept`. `StepInvIff`: the
 * stronger `Inv`, under which the ledger counts exactly the live fills, is kept by the orderly
 * steps and by no others.
 */
module Invariant {
  import opened Wrappers
  import opened Matching
  import opened MatchingTheorems
  import opened Ledger
  import opened LedgerFacts
  import opened Rollbacks
  import opened Settlement
  import opened Steps

  // ----- the tables under every step -----

  /** The same orders in other rows, and perhaps new, unfilled ones. */
  ghost predicate Grown(orders: OrderTable, orders': OrderTable) {
    && (forall id :: id in orders ==> id in orders' && orders'[id].order == orders[id].order)
    && forall id :: id in orders' && id !in orders ==>
      var o := orders'[id].order; o.Id() == id && o.filledSize == 0 < o.size && o.limitPrice >= 0
  }

  lemma GrownLedger(orders: OrderTable, orders': OrderTable, fills: seq<FillRow>)
    requires FillsOk(orders, fills) && OrdersOk(orders, fills) && Grown(orders, orders')
    ensures FillsOk(orders', fills) && OrdersOk(orders', fills)
  {
    forall f | f in fills ensures FillOk(orders', f) { assert FillOk(orders, f); }
    forall id | id in orders' ensures OrderOk(orders', fills, id) {
      if id in orders { assert OrderOk(orders, fills, id); } else { UntradedFills(orders, fills, id); }
    }
  }

  lemma GrownPending(orders: OrderTable, orders': OrderTable, pending: seq<Match>)
    requires PendingOk(orders, pending) && Grown(orders, orders')
    ensures PendingOk(orders', pending)
  {
    forall m | m in pending ensures Tradable(orders', m) && m.fillSize > 0 { assert Tradable(orders, m); }
    forall id | id in orders' ensures orders'[id].order.filledSize + Touch(pending, id) <= orders'[id].order.size {
      if id !in orders {
        TouchNonNegative(pending, id);
        assert forall m :: m in pending ==> Tradable(orders, m);
      }
    }
  }

  lemma {:induction false} UntradedFills(orders: OrderTable, fills: seq<FillRow>, id: OrderId)
    requires FillsOk(orders, fills) && id !in orders
    ensures Touched(fills, id) == 0
  {
    if fills != [] {
      assert FillOk(orders, fills[0]);
      UntradedFills(orders, fills[1..], id);
    }
  }

  /** A loaded book yields matches that fit its orders. */
  lemma MatchesFit(db: Db, limits: seq<Order>, markets: seq<Order>)
    requires BoundsOk(db.orders) && LoadedFrom(db, limits, markets)
    ensures PendingOk(db.orders, MatchSpec(limits, markets).out)
  {
    var all, out := AllOrders(limits, markets), MatchSpec(limits, markets).out;
    assert forall o :: o in all ==> LoadedOrder(db, o);
    NoOverfill(limits, markets);
    forall m | m in out ensures Tradable(db.orders, m) && m.fillSize > 0 {
      assert MatchOk(all, m) && InBounds(db.orders, m.maker.Id());
    }
    forall id | id in db.orders ensures db.orders[id].order.filledSize + Touch(out, id) <= db.orders[id].order.size {
      assert InBounds(db.orders, id);
      TouchNonNegative(out, id);
      if Touch(out, id) > 0 {
        var m :| m in out && m.Touches(id);
        assert MatchOk(all, m);
      }
    }
  }

  lemma MoreFilledPending(orders: OrderTable, orders': OrderTable, pending: seq<Match>, k: FillKey)
    requires PendingOk(orders, pending) && pending != [] && KeyOf(pending[0]) == k && SameStatic(orders, orders')
    requires forall id :: id in orders ==> orders'[id].order.filledSize == orders[id].order.filledSize + KeyPart(k, id)
    ensures PendingOk(orders', pending[1..])
  {
    DropHead(orders, pending);
    forall m | m in pending[1..] ensures Tradable(orders', m) { assert Tradable(orders, m); }
    forall id | id in orders' ensures orders'[id].order.filledSize + Touch(pending[1..], id) <= orders'[id].order.size {
      assert Part(pending[0], id) == KeyPart(k, id);
    }
  }

  lemma LessFilledPending(orders: OrderTable, orders': OrderTable, pending: seq<Match>)
    requires PendingOk(orders, pending) && SameStatic(orders, orders')
    requires forall id :: id in orders ==> orders'[id].order.filledSize <= orders[id].order.filledSize
    ensures PendingOk(orders', pending)
  {
    forall m | m in pending ensures Tradable(orders', m) { assert Tradable(orders, m); }
  }

  lemma GrownTables(s: Sys, orders': OrderTable)
    requires TablesKept(s) && Grown(s.db.orders, orders')
    ensures TablesKept(s.(db := s.db.(orders := orders')))
  {
    FillsOkSameKeys(s.db.orders, orders', s.db.fills);
    GrownPending(s.db.orders, orders', s.pending);
    forall id | id in orders' ensures InBounds(orders', id) { assert id in s.db.orders ==> InBounds(s.db.orders, id); }
  }

  lemma PersistTables(s: Sys)
    requires TablesKept(s) && Enabled(s, PersistNext)
    ensures TablesKept(Apply(s, PersistNext))
  {
    var m := s.pending[0];
    HeadFits(s);
    PersistComplete(s.db, m);
    DropHead(s.db.orders, s.pending);
    if !Live(s.db.fills, KeyOf(m)) {
      WrittenBounds(s.db, m);
      assert Tradable(s.db.orders, m);
      MoreFilledPending(s.db.orders, Written(s.db, m).orders, s.pending, KeyOf(m));
    }
  }

  /** Taking a fill off the tables, whether or not it is there. */
  lemma RemovalTables(s: Sys, t: Sys, k: FillKey)
    requires TablesKept(s) && k.fillSize > 0 && t.pending == s.pending
    requires t.inflight == s.inflight || t.inflight.None?
    requires t.db.orders == LowerBoth(s.db.orders, k) && t.db.fills == DeleteFills(s.db.fills, Pseudo(k))
    ensures TablesKept(t)
  {
    LowerBounds(s.db.orders, k);
    DeleteKeepsFills(s.db.orders, s.db.fills, k);
    FillsOkSameKeys(s.db.orders, t.db.orders, t.db.fills);
    LessFilledPending(s.db.orders, t.db.orders, s.pending);
  }

  lemma EmptyPending(orders: OrderTable)
    requires BoundsOk(orders)
    ensures PendingOk(orders, [])
  {
    forall id | id in orders ensures orders[id].order.filledSize + Touch([], id) <= orders[id].order.size {
      assert InBounds(orders, id);
    }
  }

  lemma MatcherTables(s: Sys, a: Action)
    requires TablesKept(s) && Enabled(s, a) && ByMatcher(a)
    ensures TablesKept(Apply(s, a))
  {
    match a {
      case Load(limits, markets, oracle, bps) => MatchesFit(s.db, InBand(limits, oracle, bps), markets);
      case Skip => DropHead(s.db.orders, s.pending);
      case PersistNext => PersistTables(s);
      case Settle(_) =>
      case RollbackInflight => RemovalTables(s, Apply(s, a), KeyOf(s.inflight.value));
      case MatcherCrash => EmptyPending(s.db.orders);
    }
  }

  lemma ReconcilerTables(s: Sys, a: Action)
    requires Kept(s) && Enabled(s, a) && (ByReading(a) || BySender(a))
    ensures TablesKept(Apply(s, a))
  {
    if WritesJobOnly(a) {
      KeepsTables(s, a);
    } else if a.PollSubmitted? {
      assert KeyKept(s, a.k);
      PollTables(s, a);
    } else if a.ConfirmSent? {
      ConfirmTables(s, a);
    } else {
      assert KeyKept(s, a.k) && Look(s, a.k).row.Some?;
      RowTables(s, a);
    }
  }

  lemma ConfirmTables(s: Sys, a: Action)
    requires Kept(s) && Enabled(s, a) && a.ConfirmSent?
    ensures TablesKept(Apply(s, a))
  {
    assert KeyKept(s, s.sender.key) && Look(s, s.sender.key).row.Some?;
    StampFills(s.db.orders, s.db.fills, s.sender.key, false, s.sender.hash, a.ledger);
  }

  lemma RowTables(s: Sys, a: Action)
    requires TablesKept(s) && Enabled(s, a) && (a.ExpireStale? || a.CrashInRollback?)
    requires OwnFill(s.read[a.k], a.k) && a.k.fillSize > 0
    ensures TablesKept(Apply(s, a))
  {
    if a.CrashInRollback? || !Ready(s.read[a.k]) { RemovalTables(s, Apply(s, a), a.k); }
  }

  lemma SuccessTables(s: Sys, a: Action)
    requires TablesKept(s) && Enabled(s, a) && a.PollSubmitted? && a.poll.Success?
    requires OwnFill(s.read[a.k], a.k) && s.read[a.k].submittedHash.Some?
    ensures TablesKept(Apply(s, a))
  {
    StampFills(s.db.orders, s.db.fills, a.k, true, s.read[a.k].submittedHash.value, a.poll.ledger);
  }

  lemma FailureTables(s: Sys, a: Action)
    requires TablesKept(s) && Enabled(s, a) && a.PollSubmitted? && a.poll.Failure?
    requires OwnFill(s.read[a.k], a.k) && s.read[a.k].submittedHash.Some? && a.k.fillSize > 0
    ensures TablesKept(Apply(s, a))
  {
    RemovalTables(s, Apply(s, a), a.k);
  }

  lemma PollTables(s: Sys, a: Action)
    requires TablesKept(s) && Enabled(s, a) && a.PollSubmitted? && KeyKept(s, a.k)
    ensures TablesKept(Apply(s, a))
  {
    assert Look(s, a.k).row.Some?;
    if !Concluded(s.read[a.k], a.poll) {
      PollIdle(s, a);
    } else if a.poll.Success? {
      SuccessTables(s, a);
    } else {
      FailureTables(s, a);
    }
  }

  lemma StepTables(s: Sys, a: Action)
    requires Kept(s) && Enabled(s, a)
    ensures TablesKept(Apply(s, a))
  {
    if ByMatcher(a) {
      MatcherTables(s, a);
    } else if ByReading(a) || BySender(a) {
      ReconcilerTables(s, a);
    } else if a.PlaceOrder? || a.CancelOrder? {
      GrownTables(s, Apply(s, a).db.orders);
    }
  }

  // ----- one job under every step -----

  /** What is known of a match that the step puts in flight. */
  predicate Persistable(a: Action, live: bool, fast: bool, persisted: Option<Match>) {
    persisted.Some? ==>
      a.PersistNext? && !live && (fast <==> Signed(persisted.value.maker) && Signed(persisted.value.taker))
  }

  lemma MatcherViewStep(v: View, a: Action, k: FillKey, live: bool, fast: bool, persisted: Option<Match>)
    requires ByMatcher(a) && EnabledAt(v, a, k) && ViewKept(v, k, live, fast)
    requires Persistable(a, live, fast, persisted)
    requires v.inflight.Some? ==> k.fillSize > 0 && KeyOf(v.inflight.value) == k
    ensures ViewKept(After(v, a, k, persisted), k, LiveAfter(v, a, k, live, persisted), fast)
  {
  }

  lemma UserViewStep(v: View, a: Action, k: FillKey, live: bool, fast: bool)
    requires ByUser(a) && EnabledAt(v, a, k) && ViewKept(v, k, live, fast)
    ensures ViewKept(After(v, a, k, None), k, LiveAfter(v, a, k, live, None), fast)
  {
  }

  lemma RouteViewStep(v: View, a: Action, k: FillKey, live: bool, fast: bool)
    requires ByRoute(a) && EnabledAt(v, a, k) && ViewKept(v, k, live, fast)
    ensures ViewKept(After(v, a, k, None), k, LiveAfter(v, a, k, live, None), fast)
  {
  }

  lemma PollViewStep(v: View, a: Action, k: FillKey, live: bool, fast: bool)
    requires a.PollSubmitted? && EnabledAt(v, a, k) && ViewKept(v, k, live, fast)
    ensures ViewKept(After(v, a, k, None), k, LiveAfter(v, a, k, live, None), fast)
  {
  }

  lemma ReadingViewStep(v: View, a: Action, k: FillKey, live: bool, fast: bool)
    requires ByReading(a) && !a.PollSubmitted? && EnabledAt(v, a, k) && ViewKept(v, k, live, fast)
    ensures ViewKept(After(v, a, k, None), k, LiveAfter(v, a, k, live, None), fast)
  {
  }

  lemma SenderViewStep(v: View, a: Action, k: FillKey, live: bool, fast: bool)
    requires BySender(a) && EnabledAt(v, a, k) && ViewKept(v, k, live, fast)
    ensures ViewKept(After(v, a, k, None), k, LiveAfter(v, a, k, live, None), fast)
  {
  }

  lemma ViewStep(v: View, a: Action, k: FillKey, live: bool, fast: bool, persisted: Option<Match>)
    requires EnabledAt(v, a, k) && ViewKept(v, k, live, fast) && Persistable(a, live, fast, persisted)
    requires v.inflight.Some? ==> k.fillSize > 0 && KeyOf(v.inflight.value) == k
    ensures ViewKept(After(v, a, k, persisted), k, LiveAfter(v, a, k, live, persisted), fast)
  {
    if ByMatcher(a) {
      MatcherViewStep(v, a, k, live, fast, persisted);
    } else if ByUser(a) {
      UserViewStep(v, a, k, live, fast);
    } else if ByRoute(a) {
      RouteViewStep(v, a, k, live, fast);
    } else if a.PollSubmitted? {
      PollViewStep(v, a, k, live, fast);
    } else if ByReading(a) {
      ReadingViewStep(v, a, k, live, fast);
    } else {
      SenderViewStep(v, a, k, live, fast);
    }
  }

  /** Nothing is known of a job whose orders are not there, and a step does not change that. */
  lemma EmptyStep(v: View, a: Action, k: FillKey, live: bool, fast: bool, live': bool, fast': bool)
    requires EnabledAt(v, a, k) && ViewKept(v, k, live, fast) && v.job.None? && v.inflight.None?
    ensures After(v, a, k, None).job.None? && ViewKept(After(v, a, k, None), k, live', fast')
  {
  }

  lemma InflightPlaced(s: Sys, k: FillKey)
    requires TablesKept(s) && InflightIs(s.inflight, k)
    ensures k.fillSize > 0 && Placed(s.db.orders, k)
    ensures FastPath(s.db.orders, k) <==> Signed(s.inflight.value.maker) && Signed(s.inflight.value.taker)
  {
  }

  lemma PersistedPlaced(s: Sys, a: Action, k: FillKey)
    requires TablesKept(s) && Enabled(s, a) && Persisted(s, a, k).Some?
    ensures Placed(s.db.orders, k) && Persistable(a, Live(s.db.fills, k), FastPath(s.db.orders, k), Persisted(s, a, k))
  {
    assert Tradable(s.db.orders, s.pending[0]);
  }

  lemma PlacedStep(s: Sys, a: Action, k: FillKey, t: Sys)
    requires TablesKept(s) && Enabled(s, a) && KeyKept(s, k) && Placed(s.db.orders, k)
    requires Follows(s, a, k, t) && LiveFollows(s, a, k, t)
    requires Placed(t.db.orders, k) && (FastPath(t.db.orders, k) <==> FastPath(s.db.orders, k))
    ensures KeyKept(t, k)
  {
    var v, persisted := Look(s, k), Persisted(s, a, k);
    if v.inflight.Some? { InflightPlaced(s, k); }
    if persisted.Some? { PersistedPlaced(s, a, k); }
    ViewStep(v, a, k, Live(s.db.fills, k), FastPath(s.db.orders, k), persisted);
  }

  lemma UnplacedStep(s: Sys, a: Action, k: FillKey, t: Sys)
    requires TablesKept(s) && Enabled(s, a) && KeyKept(s, k) && !Placed(s.db.orders, k) && Follows(s, a, k, t)
    ensures KeyKept(t, k)
  {
    if Look(s, k).inflight.Some? { InflightPlaced(s, k); }
    if Persisted(s, a, k).Some? { PersistedPlaced(s, a, k); }
    EmptyStep(Look(s, k), a, k, Live(s.db.fills, k), FastPath(s.db.orders, k), Live(t.db.fills, k),
      FastPath(t.db.orders, k));
  }

  lemma KeyStep(s: Sys, a: Action, k: FillKey)
    requires Kept(s) && Enabled(s, a)
    ensures KeyKept(Apply(s, a), k)
  {
    StepFollows(s, a, k);
    if Placed(s.db.orders, k) { PlacedStep(s, a, k, Apply(s, a)); } else { UnplacedStep(s, a, k, Apply(s, a)); }
  }

  /** Every step of every process, whatever rollback is cut off and whatever row is outdated. */
  lemma StepKept(s: Sys, a: Action)
    requires Kept(s) && Enabled(s, a)
    ensures Kept(Apply(s, a))
  {
    StepTables(s, a);
    forall k ensures KeyKept(Apply(s, a), k) { KeyStep(s, a, k); }
  }

  // ----- the exact ledger under the orderly steps -----

  lemma WrittenVolume(base: map<nat, int>, db: Db, m: Match, leaked: seq<FillRow>)
    requires VolumeOk(base, db.markets, db.fills, leaked)
    ensures VolumeOk(base, AddVolume(db.markets, m), db.fills + [RowOf(m)], leaked)
  {
    SumsAppend(db.fills, [RowOf(m)]);
    SumsSingle(RowOf(m));
  }

  lemma LeakKeepsVolume(base: map<nat, int>, db: Db, leaked: seq<FillRow>, k: FillKey)
    requires LedgerOk(db) && Live(db.fills, k) && VolumeOk(base, db.markets, db.fills, leaked)
    ensures VolumeOk(base, db.markets, DeleteFills(db.fills, Pseudo(k)), leaked + Deleted(db.fills, k))
  {
    var f := db.fills[IndexOf(db.fills, k)];
    FillsOkWithout(db.orders, db.fills, k);
    SplitAt(db.fills, k);
    SumsAppend(leaked, [f]);
    SumsSingle(f);
    assert f in db.fills && FillOk(db.orders, f);
  }

  lemma {:induction false} StampIndex(fills: seq<FillRow>, k: FillKey, nonces: bool, hash: string, ledger: int,
    j: FillKey)
    requires j != k && Live(fills, j) && Live(Stamp(fills, k, nonces, hash, ledger), j)
    ensures var fills' := Stamp(fills, k, nonces, hash, ledger); fills'[IndexOf(fills', j)] == fills[IndexOf(fills, j)]
  {
    var fills' := Stamp(fills, k, nonces, hash, ledger);
    if fills[0].txHash != Pseudo(j) {
      assert fills'[1..] == Stamp(fills[1..], k, nonces, hash, ledger);
      StampIndex(fills[1..], k, nonces, hash, ledger, j);
    }
  }

  /** The tables are as they were. */
  lemma ExactSame(base: map<nat, int>, s: Sys, t: Sys)
    requires Exact(base, s) && t.leaked == s.leaked && (t.inflight == s.inflight || t.inflight.None?)
    requires t.db.orders == s.db.orders && t.db.fills == s.db.fills && t.db.markets == s.db.markets
    ensures Exact(base, t)
  {
  }

  lemma ExactPersist(base: map<nat, int>, s: Sys)
    requires TablesKept(s) && Exact(base, s) && Enabled(s, PersistNext)
    ensures Exact(base, Apply(s, PersistNext))
  {
    var m := s.pending[0];
    HeadFits(s);
    PersistComplete(s.db, m);
    if !Live(s.db.fills, KeyOf(m)) {
      WrittenKeeps(s.db, m);
      WrittenVolume(base, s.db, m, s.leaked);
      LiveAppend(s.db.fills, RowOf(m), KeyOf(m));
      assert Written(s.db, m).fills[IndexOf(Written(s.db, m).fills, KeyOf(m))] == RowOf(m);
    }
  }

  lemma ExactRollbackInflight(base: map<nat, int>, s: Sys)
    requires TablesKept(s) && Exact(base, s) && s.inflight.Some?
    ensures Exact(base, s.(db := Rollback(s.db, s.inflight.value), inflight := None))
  {
    assert VolumeSound(s.db) by { SumsNonNegative(s.leaked); }
    RemoveFacts(s.db, s.inflight.value);
  }

  /** The reconciler rolls a live fill back: only its volume stays behind. */
  lemma ExactRemoval(base: map<nat, int>, s: Sys, t: Sys, k: FillKey)
    requires TablesKept(s) && Exact(base, s) && Live(s.db.fills, k) && !InflightIs(s.inflight, k)
    requires t.db.orders == LowerBoth(s.db.orders, k) && t.db.fills == DeleteFills(s.db.fills, Pseudo(k))
    requires t.db.markets == s.db.markets && t.leaked == s.leaked + Deleted(s.db.fills, k) && t.inflight == s.inflight
    ensures Exact(base, t)
  {
    RollbackLive(s.db, k);
    LeakKeepsVolume(base, s.db, s.leaked, k);
    if s.inflight.Some? {
      LiveDelete(s.db.fills, k, KeyOf(s.inflight.value));
      SamePendingRow(s.db.fills, t.db.fills, KeyOf(s.inflight.value));
    }
  }

  /** The fill leaves its pending hash. */
  lemma ExactStamp(base: map<nat, int>, s: Sys, t: Sys, k: FillKey, nonces: bool, hash: string, ledger: int)
    requires TablesKept(s) && Exact(base, s) && !InflightIs(s.inflight, k)
    requires t.db.orders == s.db.orders && t.db.fills == Stamp(s.db.fills, k, nonces, hash, ledger)
    requires t.db.markets == s.db.markets && t.leaked == s.leaked && t.inflight == s.inflight
    ensures Exact(base, t)
  {
    StampKeeps(s.db.orders, s.db.fills, k, nonces, hash, ledger);
    if s.inflight.Some? { StampIndex(s.db.fills, k, nonces, hash, ledger, KeyOf(s.inflight.value)); }
  }

  lemma ExactMatcher(base: map<nat, int>, s: Sys, a: Action)
    requires TablesKept(s) && Exact(base, s) && Enabled(s, a) && ByMatcher(a)
    ensures Exact(base, Apply(s, a))
  {
    if a.PersistNext? {
      ExactPersist(base, s);
    } else if a.RollbackInflight? {
      ExactRollbackInflight(base, s);
    } else {
      ExactSame(base, s, Apply(s, a));
    }
  }

  lemma ExactSuccess(base: map<nat, int>, s: Sys, a: Action)
    requires TablesKept(s) && Exact(base, s) && Enabled(s, a) && a.PollSubmitted? && a.poll.Success?
    requires OwnFill(s.read[a.k], a.k) && s.read[a.k].submittedHash.Some? && !InflightIs(s.inflight, a.k)
    ensures Exact(base, Apply(s, a))
  {
    assert s.leaked + [] == s.leaked;
    ExactStamp(base, s, Apply(s, a), a.k, true, s.read[a.k].submittedHash.value, a.poll.ledger);
  }

  lemma ExactFailure(base: map<nat, int>, s: Sys, a: Action)
    requires TablesKept(s) && Exact(base, s) && Enabled(s, a) && a.PollSubmitted? && a.poll.Failure?
    requires OwnFill(s.read[a.k], a.k) && s.read[a.k].submittedHash.Some?
    requires Live(s.db.fills, a.k) && !InflightIs(s.inflight, a.k)
    ensures Exact(base, Apply(s, a))
  {
    ExactRemoval(base, s, Apply(s, a), a.k);
  }

  lemma ExactPoll(base: map<nat, int>, s: Sys, a: Action)
    requires TablesKept(s) && Exact(base, s) && Enabled(s, a) && a.PollSubmitted?
    requires KeyKept(s, a.k) && KeyLive(s, a.k)
    ensures Exact(base, Apply(s, a))
  {
    assert Look(s, a.k).row.Some?;
    if !Concluded(s.read[a.k], a.poll) {
      assert s.leaked + [] == s.leaked;
      PollIdle(s, a);
      ExactSame(base, s, Apply(s, a));
    } else if a.poll.Success? {
      ExactSuccess(base, s, a);
    } else {
      ExactFailure(base, s, a);
    }
  }

  lemma ExactExpire(base: map<nat, int>, s: Sys, k: FillKey)
    requires TablesKept(s) && Exact(base, s) && Enabled(s, ExpireStale(k)) && OwnFill(s.read[k], k)
    requires Live(s.db.fills, k) && !InflightIs(s.inflight, k)
    ensures Exact(base, Apply(s, ExpireStale(k)))
  {
    var t := Apply(s, ExpireStale(k));
    if Ready(s.read[k]) {
      assert s.leaked + [] == s.leaked;
      ExactSame(base, s, t);
    } else {
      ExactRemoval(base, s, t, k);
    }
  }

  lemma ExactCrash(base: map<nat, int>, s: Sys, k: FillKey)
    requires TablesKept(s) && Exact(base, s) && Enabled(s, CrashInRollback(k)) && OwnFill(s.read[k], k)
    requires Live(s.db.fills, k) && !InflightIs(s.inflight, k)
    ensures Exact(base, Apply(s, CrashInRollback(k)))
  {
    ExactRemoval(base, s, Apply(s, CrashInRollback(k)), k);
  }

  lemma ExactReconciler(base: map<nat, int>, s: Sys, a: Action)
    requires Inv(base, s) && Enabled(s, a) && (ByReading(a) || BySender(a))
    ensures Exact(base, Apply(s, a))
  {
    if WritesJobOnly(a) {
      KeepsTables(s, a);
      ExactSame(base, s, Apply(s, a));
    } else if a.ConfirmSent? {
      assert KeyKept(s, s.sender.key) && KeyLive(s, s.sender.key);
      ExactConfirm(base, s, a);
    } else {
      assert KeyKept(s, a.k) && KeyLive(s, a.k);
      assert Look(s, a.k).row.Some?;
      if a.PollSubmitted? {
        ExactPoll(base, s, a);
      } else if a.ExpireStale? {
        ExactExpire(base, s, a.k);
      } else {
        ExactCrash(base, s, a.k);
      }
    }
  }

  lemma ExactConfirm(base: map<nat, int>, s: Sys, a: Action)
    requires TablesKept(s) && Exact(base, s) && Enabled(s, a) && a.ConfirmSent?
    requires KeyKept(s, s.sender.key) && KeyLive(s, s.sender.key)
    ensures Exact(base, Apply(s, a))
  {
    assert Look(s, s.sender.key).row.Some?;
    ExactStamp(base, s, Apply(s, a), s.sender.key, false, s.sender.hash, a.ledger);
  }

  lemma ExactGrown(base: map<nat, int>, s: Sys, orders': OrderTable)
    requires TablesKept(s) && Exact(base, s) && Grown(s.db.orders, orders')
    ensures Exact(base, s.(db := s.db.(orders := orders')))
  {
    GrownLedger(s.db.orders, orders', s.db.fills);
  }

  /** No reconciler rollback of a run that keeps `Inv` hits a clamp, and all but the volume is given back. */
  lemma ExactStep(base: map<nat, int>, s: Sys, a: Action)
    requires Inv(base, s) && Enabled(s, a)
    ensures Exact(base, Apply(s, a))
  {
    if ByMatcher(a) {
      ExactMatcher(base, s, a);
    } else if ByReading(a) || BySender(a) {
      ExactReconciler(base, s, a);
    } else if a.PlaceOrder? || a.CancelOrder? {
      ExactGrown(base, s, Apply(s, a).db.orders);
    } else {
      ExactSame(base, s, Apply(s, a));
    }
  }

  // ----- live fills under the orderly steps -----

  /** What `Orderly` says about job k. */
  predicate OrderlyAt(v: View, a: Action, k: FillKey) {
    match a
    case ExpireStale(j) => j == k && v.row.Some? ==> Ready(v.row.value) || !StatusIs(v.job, Submitted)
    case CrashInRollback(j) => j == k && v.job.Some? ==> !Active(v.job.value)
    case _ => true
  }

  lemma OrderlySeen(s: Sys, a: Action, k: FillKey)
    requires Enabled(s, a)
    ensures Orderly(s, a) ==> OrderlyAt(Look(s, k), a, k)
    ensures !Orderly(s, a) && k == a.k ==> !OrderlyAt(Look(s, k), a, k)
  {
  }

  lemma ReconcilerLiveStep(v: View, a: Action, k: FillKey, live: bool, fast: bool, persisted: Option<Match>)
    requires EnabledAt(v, a, k) && ViewKept(v, k, live, fast) && ViewLive(v, live) && OrderlyAt(v, a, k)
    requires persisted.Some? ==> a.PersistNext? && !live
    requires ByReading(a) || BySender(a)
    ensures ViewLive(After(v, a, k, persisted), LiveAfter(v, a, k, live, persisted))
  {
  }

  lemma OtherLiveStep(v: View, a: Action, k: FillKey, live: bool, fast: bool, persisted: Option<Match>)
    requires EnabledAt(v, a, k) && ViewKept(v, k, live, fast) && ViewLive(v, live) && OrderlyAt(v, a, k)
    requires persisted.Some? ==> a.PersistNext? && !live
    requires !ByReading(a) && !BySender(a)
    ensures ViewLive(After(v, a, k, persisted), LiveAfter(v, a, k, live, persisted))
  {
  }

  lemma ViewLiveStep(v: View, a: Action, k: FillKey, live: bool, fast: bool, persisted: Option<Match>)
    requires EnabledAt(v, a, k) && ViewKept(v, k, live, fast) && ViewLive(v, live) && OrderlyAt(v, a, k)
    requires persisted.Some? ==> a.PersistNext? && !live
    ensures ViewLive(After(v, a, k, persisted), LiveAfter(v, a, k, live, persisted))
  {
    if ByReading(a) || BySender(a) {
      ReconcilerLiveStep(v, a, k, live, fast, persisted);
    } else {
      OtherLiveStep(v, a, k, live, fast, persisted);
    }
  }

  lemma LiveStep(base: map<nat, int>, s: Sys, a: Action, k: FillKey)
    requires Inv(base, s) && Enabled(s, a) && Orderly(s, a)
    ensures KeyLive(Apply(s, a), k)
  {
    assert KeyLive(s, k);
    StepFollows(s, a, k);
    OrderlySeen(s, a, k);
    ViewLiveStep(Look(s, k), a, k, Live(s.db.fills, k), FastPath(s.db.orders, k), Persisted(s, a, k));
  }

  lemma StepInv(base: map<nat, int>, s: Sys, a: Action)
    requires Inv(base, s) && Enabled(s, a) && Orderly(s, a)
    ensures Inv(base, Apply(s, a))
  {
    StepKept(s, a);
    ExactStep(base, s, a);
    forall k ensures KeyLive(Apply(s, a), k) { LiveStep(base, s, a, k); }
  }

  /** A step that is not orderly leaves an active job without its fill. */
  lemma ViewStranded(v: View, a: Action, k: FillKey, live: bool, fast: bool)
    requires EnabledAt(v, a, k) && ViewKept(v, k, live, fast) && !OrderlyAt(v, a, k)
    ensures !ViewLive(After(v, a, k, None), LiveAfter(v, a, k, live, None))
  {
  }

  /** The invariant is kept by the orderly steps and by no others. */
  lemma StepInvIff(base: map<nat, int>, s: Sys, a: Action)
    requires Inv(base, s) && Enabled(s, a)
    ensures Inv(base, Apply(s, a)) <==> Orderly(s, a)
  {
    if Orderly(s, a) {
      StepInv(base, s, a);
    } else {
      StepFollows(s, a, a.k);
      OrderlySeen(s, a, a.k);
      ViewStranded(Look(s, a.k), a, a.k, Live(s.db.fills, a.k), FastPath(s.db.orders, a.k));
      assert !KeyLive(Apply(s, a), a.k);
    }
  }
}
