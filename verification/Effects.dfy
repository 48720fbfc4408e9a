/**
 * What one operation writes, row by row: a persist, a settlement, a whole tick of the matcher, and
 * the reconciler's resubmission, rollback and confirmation.
 */
module Effects {
  import opened Wrappers
  import opened BigInt
  import opened Matching
  import opened MatchingTheorems
  import opened Ledger
  import opened LedgerFacts
  import opened Settlement
  import opened Invariant

  // ----- the matcher -----

  /**
   * A persisted match adds one row with its own parties, size and price, still pending; raises both
   * orders by its size; and moves its market to its price and its floored notional.
   */
  lemma PersistWrites(db: Db, m: Match)
    requires FillsOk(db.orders, db.fills) && Fits(db, m) && !Live(db.fills, KeyOf(m))
    ensures var (db', ok) := Persist(db, m);
      var maker, taker := OrderId(m.maker.owner, m.maker.nonce), OrderId(m.taker.owner, m.taker.nonce);
      var hash := Pseudo(FillKey(maker, taker, m.fillSize));
      var row := FillRow(hash, m.maker.marketId, maker, taker, m.fillSize, m.fillPrice, 0);
      var traded := TruncDiv(m.fillSize * m.fillPrice, 1_000_000_000_000_000_000);
      && ok && db'.fills == db.fills + [row] && db'.jobs == db.jobs
      && db'.orders.Keys == db.orders.Keys && db'.markets.Keys == db.markets.Keys
      && (forall id :: id in db.orders ==>
           db'.orders[id] == db.orders[id].(order :=
             db.orders[id].order.(filledSize := db.orders[id].order.filledSize + Part(m, id))))
      && forall id :: id in db.markets ==>
           db'.markets[id] == if id != m.maker.marketId then db.markets[id]
             else MarketRow(m.fillPrice, db.markets[id].volume + traded)
  {
    PersistComplete(db, m);
    RaiseExact(db.orders, KeyOf(m));
  }

  /** The fill is in the table, under its pending hash and between the same orders. */
  ghost predicate Known(fills: seq<FillRow>, m: Match) {
    exists f :: f in fills && f.txHash == Pseudo(KeyOf(m)) && f.maker == m.maker.Id() && f.taker == m.taker.Id()
  }

  /** The order is there and has at least this size left. */
  predicate Room(db: Db, id: OrderId, size: int) {
    id in db.orders && db.orders[id].order.size - db.orders[id].order.filledSize >= size
  }

  /**
   * `persistFill` on any tables. A fill that is there is left alone. Otherwise its row is inserted
   * first, and stays even if there turns out to be no room; only with room for both is the volume
   * booked and the fill reported.
   */
  lemma PersistExits(db: Db, m: Match)
    requires m.maker.Id() != m.taker.Id()
    ensures var (db', ok) := Persist(db, m);
      && (ok <==> !Known(db.fills, m) && Room(db, m.maker.Id(), m.fillSize) && Room(db, m.taker.Id(), m.fillSize))
      && db'.fills == (if Known(db.fills, m) then db.fills else db.fills + [RowOf(m)])
      && db'.jobs == db.jobs && (!ok ==> db'.markets == db.markets)
  {
  }

  /** The maker is raised if it has room, the taker if both have. */
  lemma PersistRaises(db: Db, m: Match)
    requires m.maker.Id() != m.taker.Id()
    ensures var orders' := Persist(db, m).0.orders;
      var makerFits := !Known(db.fills, m) && Room(db, m.maker.Id(), m.fillSize);
      var bothFit := makerFits && Room(db, m.taker.Id(), m.fillSize);
      && orders'.Keys == db.orders.Keys
      && forall id :: id in db.orders ==>
        orders'[id] ==
          if (makerFits && id == m.maker.Id()) || (bothFit && id == m.taker.Id())
          then db.orders[id].(order := RaisedBy(db.orders[id].order, m.fillSize))
          else db.orders[id]
  {
  }

  function RaisedBy(o: Order, delta: int): Order { o.(filledSize := o.filledSize + delta) }

  /** A size taken back, but never below zero. */
  function LoweredBy(o: Order, delta: int): Order {
    o.(filledSize := if o.filledSize < delta then 0 else o.filledSize - delta)
  }

  /**
   * `rollbackFill` on any tables: it deletes every row under the fill's pending hash and no other,
   * and gives back its size to both orders and its notional to the market, neither below zero.
   */
  lemma RollbackWrites(db: Db, m: Match)
    requires m.maker.Id() != m.taker.Id()
    ensures var db' := Rollback(db, m);
      var traded := TruncDiv(m.fillSize * m.fillPrice, 1_000_000_000_000_000_000);
      && db'.jobs == db.jobs && db'.orders.Keys == db.orders.Keys && db'.markets.Keys == db.markets.Keys
      && (forall f :: f in db'.fills <==> f in db.fills && f.txHash != Pseudo(KeyOf(m)))
      && (forall id :: id in db.orders ==>
           db'.orders[id] ==
             if id == m.maker.Id() || id == m.taker.Id()
             then db.orders[id].(order := LoweredBy(db.orders[id].order, m.fillSize))
             else db.orders[id])
      && forall id :: id in db.markets ==>
        var row := db.markets[id];
        db'.markets[id] ==
          if id != m.maker.marketId then row
          else row.(volume := if row.volume < traded then 0 else row.volume - traded)
  {
  }

  /** A party's signature is stored with its order. */
  ghost predicate Stored(o: Order) { exists text :: o.signature == Some(text) && |text| > 0 }

  /**
   * The job of a fill after an attempt to settle it. Refused, it is FAILED; accepted with both
   * signatures stored, it is CONFIRMED with the chain's hash; accepted otherwise, it is given a
   * payload with neither party's entry and waits in the queue, unless it was there before.
   */
  ghost function JobAfter(was: Option<Job>, m: Match, answer: Answer): Job {
    var hash := if was.Some? then was.value.submittedHash else None;
    var payload := if was.Some? then was.value.payload else None;
    var k := FillKey(OrderId(m.maker.owner, m.maker.nonce), OrderId(m.taker.owner, m.taker.nonce), m.fillSize);
    match answer
    case Rejected => Job(Failed, hash, payload)
    case Accepted(sent) =>
      if Stored(m.maker) && Stored(m.taker) then Job(Confirmed, Some(sent), payload)
      else Job(if was.Some? then was.value.status else Queued, hash, Some(Payload(k, false, false)))
  }

  /** A settlement attempt writes the job of its fill and nothing else. */
  lemma SettlementWrites(db: Db, m: Match, answer: Answer)
    ensures var k := FillKey(OrderId(m.maker.owner, m.maker.nonce), OrderId(m.taker.owner, m.taker.nonce), m.fillSize);
      Execute(db, m, answer)
        == (db.(jobs := db.jobs[k := JobAfter(At(db.jobs, k), m, answer)]), answer != Rejected)
  {
    assert forall o: Order :: o.signature.Some? ==> (Signed(o) <==> |o.signature.value| > 0);
  }

  /** The price of the match deviates no more from the oracle's than is allowed; without one, none does. */
  predicate Near(m: Match, env: TickEnv) {
    env.oracle.Some? && Deviates(m.fillPrice, env.oracle.value, env.maxDeviationBps)
  }

  /** A match that is persisted and sent to be settled: near the oracle, with valid signatures, and new. */
  predicate Attempted(fills: seq<FillRow>, m: Match, env: TickEnv) {
    Near(m, env) && env.sigValid(m.maker) && env.sigValid(m.taker) && !Live(fills, KeyOf(m))
  }

  predicate Settles(fills: seq<FillRow>, m: Match, env: TickEnv, answer: Answer) {
    Attempted(fills, m, env) && answer.Accepted?
  }

  /** A match that gets this order cancelled: near the oracle, and the order's own signature does not verify. */
  predicate Quarantines(m: Match, env: TickEnv, id: OrderId) {
    Near(m, env)
    && ((id == m.maker.Id() && !env.sigValid(m.maker)) || (id == m.taker.Id() && !env.sigValid(m.taker)))
  }

  /** Of `ms`, those that settle, in order. */
  function SettledOf(fills: seq<FillRow>, ms: seq<Match>, env: TickEnv): seq<Match> {
    if ms == [] then []
    else
      var n := |ms| - 1;
      SettledOf(fills, ms[..n], env) + if Settles(fills, ms[n], env, env.answer(n)) then [ms[n]] else []
  }

  function RowsOf(ms: seq<Match>): seq<FillRow> {
    seq(|ms|, i requires 0 <= i < |ms| => RowOf(ms[i]))
  }

  /** The same orders, cancelled or not, with these matches filled. */
  ghost predicate FilledBy(orders: OrderTable, orders': OrderTable, ms: seq<Match>) {
    && orders'.Keys == orders.Keys
    && forall id :: id in orders ==>
      orders'[id].order == orders[id].order.(filledSize := orders[id].order.filledSize + Touch(ms, id))
  }

  /** The fills of these matches are in the table behind those of `db`, and in its orders. */
  ghost predicate Settled(db: Db, db': Db, done: seq<Match>) {
    && db'.fills == db.fills + RowsOf(done) && FilledBy(db.orders, db'.orders, done)
    && FillsOk(db'.orders, db'.fills) && BoundsOk(db'.orders)
  }

  lemma RaisedAndLowered(orders: OrderTable, k: FillKey)
    requires BoundsOk(orders) && k.maker in orders && k.taker in orders && k.maker != k.taker && k.fillSize > 0
    ensures LowerBoth(RaiseBoth(orders, k), k) == orders
  {
    assert InBounds(orders, k.maker) && InBounds(orders, k.taker);
    RaiseExact(orders, k);
    LowerExact(RaiseBoth(orders, k), k);
    forall id | id in orders ensures LowerBoth(RaiseBoth(orders, k), k)[id] == orders[id] {
      assert RaiseBoth(orders, k)[id].order.filledSize - KeyPart(k, id) == orders[id].order.filledSize;
    }
  }

  /** Writing a fill and taking it back leaves the fills and the orders as they were. */
  lemma RejectedKeeps(db: Db, m: Match)
    requires BoundsOk(db.orders) && Fits(db, m) && !Live(db.fills, KeyOf(m))
    ensures var db' := Rollback(RecordFailure(Written(db, m), KeyOf(m)), m);
      db'.fills == db.fills && db'.orders == db.orders
  {
    var fills := db.fills + [RowOf(m)];
    DeleteAt(fills, KeyOf(m), |db.fills|);
    assert fills[..|db.fills|] == db.fills && fills[|db.fills| + 1..] == [];
    RaisedAndLowered(db.orders, KeyOf(m));
  }

  lemma TouchOne(m: Match, id: OrderId)
    ensures Touch([m], id) == Part(m, id) && Touch([], id) == 0
  {
    assert [m][..0] == [];
  }

  lemma Unsettled(db: Db, db': Db)
    requires FillsOk(db.orders, db.fills) && BoundsOk(db.orders) && db'.fills == db.fills
    requires db'.orders.Keys == db.orders.Keys
    requires forall id :: id in db.orders ==> db'.orders[id].order == db.orders[id].order
    ensures Settled(db, db', [])
  {
    FillsOkSameKeys(db.orders, db'.orders, db.fills);
    forall id | id in db'.orders ensures InBounds(db'.orders, id) { assert InBounds(db.orders, id); }
    assert db.fills + RowsOf([]) == db.fills;
  }

  lemma WrittenSettled(db: Db, m: Match, db': Db)
    requires FillsOk(db.orders, db.fills) && BoundsOk(db.orders) && Fits(db, m) && !Live(db.fills, KeyOf(m))
    requires db'.fills == Written(db, m).fills && db'.orders == Written(db, m).orders
    ensures Settled(db, db', [m])
  {
    WrittenBounds(db, m);
    assert RowsOf([m]) == [RowOf(m)];
    forall id | id in db.orders
      ensures var o := db.orders[id].order; db'.orders[id].order == o.(filledSize := o.filledSize + Touch([m], id))
    {
      TouchOne(m, id);
      assert Part(m, id) == KeyPart(KeyOf(m), id);
    }
  }

  lemma PersistedSettled(db: Db, m: Match, answer: Answer)
    requires FillsOk(db.orders, db.fills) && BoundsOk(db.orders) && Fits(db, m) && !Live(db.fills, KeyOf(m))
    ensures var (executed, settled) := Execute(Written(db, m), m, answer);
      Settled(db, if settled then executed else Rollback(executed, m), if answer.Accepted? then [m] else [])
  {
    var executed := Execute(Written(db, m), m, answer).0;
    if answer.Rejected? {
      RejectedKeeps(db, m);
      Unsettled(db, Rollback(executed, m));
    } else {
      WrittenSettled(db, m, executed);
    }
  }

  lemma NearIff(m: Match, env: TickEnv)
    ensures Near(m, env) <==> env.InBand(m.fillPrice)
  {
    if env.oracle.Some? { BandMeaning(m.fillPrice, env.oracle.value, env.maxDeviationBps); }
  }

  /** What a tick does with one match that has room. */
  lemma ProcessWrites(db: Db, m: Match, env: TickEnv, answer: Answer)
    requires FillsOk(db.orders, db.fills) && BoundsOk(db.orders) && Fits(db, m)
    ensures Settled(db, Process(db, m, env, answer), if Settles(db.fills, m, env, answer) then [m] else [])
  {
    NearIff(m, env);
    if Near(m, env) && !env.Poisoned(m) { PersistComplete(db, m); }
    if Near(m, env) && !env.Poisoned(m) && !Live(db.fills, KeyOf(m)) {
      PersistedSettled(db, m, answer);
    } else {
      Unsettled(db, Process(db, m, env, answer));
    }
  }

  /** The jobs and the cancellations after one match that has room. */
  lemma ProcessMarks(db: Db, m: Match, env: TickEnv, answer: Answer)
    requires FillsOk(db.orders, db.fills) && Fits(db, m)
    ensures var db' := Process(db, m, env, answer);
      && db'.jobs == (if Attempted(db.fills, m, env)
                      then db.jobs[KeyOf(m) := JobAfter(At(db.jobs, KeyOf(m)), m, answer)] else db.jobs)
      && db'.orders.Keys == db.orders.Keys
      && forall id :: id in db.orders ==>
        (db'.orders[id].cancelled <==> db.orders[id].cancelled || Quarantines(m, env, id))
  {
    NearIff(m, env);
    PersistComplete(db, m);
    if Attempted(db.fills, m, env) { AttemptMarks(db, m, answer); }
  }

  lemma AttemptMarks(db: Db, m: Match, answer: Answer)
    requires Fits(db, m)
    ensures var (executed, settled) := Execute(Written(db, m), m, answer);
      var db' := if settled then executed else Rollback(executed, m);
      && db'.jobs == db.jobs[KeyOf(m) := JobAfter(At(db.jobs, KeyOf(m)), m, answer)]
      && db'.orders.Keys == db.orders.Keys
      && forall id :: id in db.orders ==> db'.orders[id].cancelled == db.orders[id].cancelled
  {
    SettlementWrites(Written(db, m), m, answer);
    RaiseExact(db.orders, KeyOf(m));
    if answer.Rejected? { RollbackWrites(Execute(Written(db, m), m, answer).0, m); }
  }

  lemma SettledSnoc(db: Db, mid: Db, db': Db, done: seq<Match>, more: seq<Match>)
    requires Settled(db, mid, done) && Settled(mid, db', more) && |more| <= 1
    ensures Settled(db, db', done + more)
  {
    assert RowsOf(done + more) == RowsOf(done) + RowsOf(more);
    forall id ensures Touch(done + more, id) == Touch(done, id) + Touch(more, id) {
      if more == [] {
        assert done + more == done;
      } else {
        assert more == [more[0]];
        TouchSnoc(done, more[0], id);
        TouchOne(more[0], id);
      }
    }
  }

  lemma {:induction false} SettledWithin(fills: seq<FillRow>, ms: seq<Match>, env: TickEnv)
    requires forall m :: m in ms ==> m.fillSize > 0
    ensures forall m :: m in SettledOf(fills, ms, env) ==> m in ms
    ensures forall id :: 0 <= Touch(SettledOf(fills, ms, env), id) <= Touch(ms, id)
  {
    if ms != [] {
      var n := |ms| - 1;
      SettledWithin(fills, ms[..n], env);
      assert ms[n] in ms && ms == ms[..n] + [ms[n]];
      forall id ensures 0 <= Touch(SettledOf(fills, ms, env), id) <= Touch(ms, id) {
        TouchSnoc(SettledOf(fills, ms[..n], env), ms[n], id);
        TouchSnoc(ms[..n], ms[n], id);
        assert SettledOf(fills, ms[..n], env) + [] == SettledOf(fills, ms[..n], env);
      }
    }
  }

  /** None of the earlier matches of the tick put this one's fill into the table. */
  lemma StillNew(fills: seq<FillRow>, ms: seq<Match>, n: nat, done: seq<Match>)
    requires PairsDistinct(ms) && n < |ms| && forall m :: m in done ==> m in ms[..n]
    ensures Live(fills + RowsOf(done), KeyOf(ms[n])) <==> Live(fills, KeyOf(ms[n]))
  {
    var k := KeyOf(ms[n]);
    forall a | 0 <= a < |done| ensures RowOf(done[a]).txHash != Pseudo(k) {
      assert done[a] in done;
      var j :| 0 <= j < n && ms[..n][j] == done[a];
      assert !SamePair(ms[j], ms[n]);
    }
    LiveConcat(fills, RowsOf(done), k);
  }

  lemma LiveConcat(a: seq<FillRow>, b: seq<FillRow>, k: FillKey)
    ensures Live(a + b, k) <==> Live(a, k) || Live(b, k)
  {
    if i :| 0 <= i < |a| && a[i].txHash == Pseudo(k) { assert (a + b)[i].txHash == Pseudo(k); }
    if i :| 0 <= i < |b| && b[i].txHash == Pseudo(k) { assert (a + b)[|a| + i].txHash == Pseudo(k); }
  }

  lemma {:induction false} TouchPrefix(ms: seq<Match>, n: nat, id: OrderId)
    requires n <= |ms| && forall m :: m in ms ==> m.fillSize > 0
    ensures Touch(ms[..n], id) <= Touch(ms, id)
    decreases |ms| - n
  {
    if n == |ms| {
      assert ms[..n] == ms;
    } else {
      TouchPrefix(ms, n + 1, id);
      assert ms[..n + 1] == ms[..n] + [ms[n]] && ms[n] in ms;
      TouchSnoc(ms[..n], ms[n], id);
    }
  }

  lemma Sizes(orders: OrderTable, ms: seq<Match>)
    requires PendingOk(orders, ms)
    ensures forall m :: m in ms ==> m.fillSize > 0
  {
    forall m | m in ms ensures m.fillSize > 0 { assert Tradable(orders, m); }
  }

  /** The next match has room, whichever of those before it settled. */
  lemma RoomLeft(db: Db, db': Db, ms: seq<Match>, n: nat, env: TickEnv)
    requires PendingOk(db.orders, ms) && n < |ms|
    requires Settled(db, db', SettledOf(db.fills, ms[..n], env))
    ensures Fits(db', ms[n])
  {
    var m := ms[n];
    Sizes(db.orders, ms);
    assert m in ms && Tradable(db.orders, m);
    SettledWithin(db.fills, ms[..n], env);
    forall id | id == m.maker.Id() || id == m.taker.Id() ensures HasRoom(db'.orders, id, m.fillSize) {
      assert ms[..n + 1] == ms[..n] + [m];
      TouchSnoc(ms[..n], m, id);
      TouchPrefix(ms, n + 1, id);
    }
  }

  lemma {:induction false} PrefixWrites(db: Db, ms: seq<Match>, env: TickEnv, n: nat)
    requires FillsOk(db.orders, db.fills) && BoundsOk(db.orders)
    requires PendingOk(db.orders, ms) && PairsDistinct(ms) && n <= |ms|
    ensures Settled(db, ProcessAll(db, ms[..n], env), SettledOf(db.fills, ms[..n], env))
  {
    if n == 0 {
      Unsettled(db, db);
    } else {
      var done, mid := SettledOf(db.fills, ms[..n - 1], env), ProcessAll(db, ms[..n - 1], env);
      var m, answer := ms[n - 1], env.answer(n - 1);
      PrefixWrites(db, ms, env, n - 1);
      assert ms[..n][..n - 1] == ms[..n - 1];
      RoomLeft(db, mid, ms, n - 1, env);
      Sizes(db.orders, ms);
      SettledWithin(db.fills, ms[..n - 1], env);
      StillNew(db.fills, ms, n - 1, done);
      ProcessWrites(mid, m, env, answer);
      SettledSnoc(db, mid, Process(mid, m, env, answer), done, if Settles(db.fills, m, env, answer) then [m] else []);
    }
  }

  /** What one tick leaves of a job: the outcome of the attempt for its fill, if there was one. */
  ghost predicate JobMarked(db: Db, db': Db, ms: seq<Match>, env: TickEnv, k: FillKey) {
    && (forall i: nat :: i < |ms| && Attempted(db.fills, ms[i], env) && KeyOf(ms[i]) == k ==>
         At(db'.jobs, k) == Some(JobAfter(At(db.jobs, k), ms[i], env.answer(i))))
    && ((forall i: nat :: i < |ms| && Attempted(db.fills, ms[i], env) ==> KeyOf(ms[i]) != k) ==>
         At(db'.jobs, k) == At(db.jobs, k))
  }

  /** An order is cancelled if it was, or if its own signature failed in a match of the tick. */
  ghost predicate OrderMarked(db: Db, db': Db, ms: seq<Match>, env: TickEnv, id: OrderId)
    requires id in db.orders
  {
    id in db'.orders
    && (db'.orders[id].cancelled <==>
          db.orders[id].cancelled || exists i: nat :: i < |ms| && Quarantines(ms[i], env, id))
  }

  ghost predicate Marked(db: Db, db': Db, ms: seq<Match>, env: TickEnv) {
    && (forall k :: JobMarked(db, db', ms, env, k))
    && forall id :: id in db.orders ==> OrderMarked(db, db', ms, env, id)
  }

  lemma JobMarkedSnoc(db: Db, mid: Db, db': Db, ms: seq<Match>, n: nat, env: TickEnv, k: FillKey)
    requires n < |ms| && PairsDistinct(ms) && JobMarked(db, mid, ms[..n], env, k)
    requires db'.jobs == (if Attempted(db.fills, ms[n], env)
      then mid.jobs[KeyOf(ms[n]) := JobAfter(At(mid.jobs, KeyOf(ms[n])), ms[n], env.answer(n))] else mid.jobs)
    ensures JobMarked(db, db', ms[..n + 1], env, k)
  {
    forall i: nat | i < n ensures ms[..n + 1][i] == ms[..n][i] && KeyOf(ms[i]) != KeyOf(ms[n]) {
      assert !SamePair(ms[i], ms[n]);
    }
  }

  lemma OrderMarkedSnoc(db: Db, mid: Db, db': Db, ms: seq<Match>, n: nat, env: TickEnv, id: OrderId)
    requires n < |ms| && id in db.orders && OrderMarked(db, mid, ms[..n], env, id) && id in db'.orders
    requires db'.orders[id].cancelled <==> mid.orders[id].cancelled || Quarantines(ms[n], env, id)
    ensures OrderMarked(db, db', ms[..n + 1], env, id)
  {
    assert forall i: nat :: i < n ==> ms[..n + 1][i] == ms[..n][i];
    assert ms[..n + 1][n] == ms[n];
  }

  lemma {:induction false} PrefixMarks(db: Db, ms: seq<Match>, env: TickEnv, n: nat)
    requires FillsOk(db.orders, db.fills) && BoundsOk(db.orders)
    requires PendingOk(db.orders, ms) && PairsDistinct(ms) && n <= |ms|
    ensures Marked(db, ProcessAll(db, ms[..n], env), ms[..n], env)
  {
    if n > 0 {
      var mid, db' := ProcessAll(db, ms[..n - 1], env), ProcessAll(db, ms[..n], env);
      PrefixMarks(db, ms, env, n - 1);
      PrefixWrites(db, ms, env, n - 1);
      assert ms[..n][..n - 1] == ms[..n - 1];
      RoomLeft(db, mid, ms, n - 1, env);
      Sizes(db.orders, ms);
      SettledWithin(db.fills, ms[..n - 1], env);
      StillNew(db.fills, ms, n - 1, SettledOf(db.fills, ms[..n - 1], env));
      ProcessMarks(mid, ms[n - 1], env, env.answer(n - 1));
      forall k ensures JobMarked(db, db', ms[..n], env, k) { JobMarkedSnoc(db, mid, db', ms, n - 1, env, k); }
      forall id | id in db.orders ensures OrderMarked(db, db', ms[..n], env, id) {
        OrderMarkedSnoc(db, mid, db', ms, n - 1, env, id);
      }
    }
  }

  /**
   * A tick on a freshly loaded book: the fill table grows by exactly the matches that settle, in
   * the order in which they were found, and every order by what those trade of it. What is out of
   * the band, has a bad signature, was there before or is refused by the chain leaves neither. The
   * job of each attempted match has the outcome of that attempt, all other jobs are as before, and
   * exactly the orders with bad signatures that were matched are cancelled.
   */
  lemma TickWrites(db: Db, limits: seq<Order>, markets: seq<Order>, env: TickEnv)
    requires FillsOk(db.orders, db.fills) && BoundsOk(db.orders) && LoadedFrom(db, limits, markets)
    ensures var ms := MatchSpec(InBand(limits, env.oracle, env.maxDeviationBps), markets).out;
      var db', done := ProcessAll(db, ms, env), SettledOf(db.fills, ms, env);
      && db'.fills == db.fills + RowsOf(done)
      && FilledBy(db.orders, db'.orders, done)
      && Marked(db, db', ms, env)
  {
    var near := InBand(limits, env.oracle, env.maxDeviationBps);
    var ms := MatchSpec(near, markets).out;
    MatchesFit(db, near, markets);
    assert forall o :: o in AllOrders(near, markets) ==> LoadedOrder(db, o);
    NoOverfill(near, markets);
    PrefixWrites(db, ms, env, |ms|);
    PrefixMarks(db, ms, env, |ms|);
    assert ms[..|ms|] == ms;
  }

  // ----- the reconciler -----

  ghost predicate DecidedAt(polls: seq<Poll>, i: int, v: Poll) {
    0 <= i < |polls| && polls[i] == v && forall j :: 0 <= j < i ==> polls[j].NotFound?
  }

  /** The first answer that settles the question, if there is one. */
  function Verdict(polls: seq<Poll>): (v: Poll)
    ensures v.NotFound? ==> forall i :: 0 <= i < |polls| ==> polls[i].NotFound?
    ensures !v.NotFound? ==> exists i :: DecidedAt(polls, i, v)
  {
    if polls == [] then NotFound
    else if polls[0].NotFound? then
      var v := Verdict(polls[1..]);
      assert forall i :: 1 <= i < |polls| ==> polls[i] == polls[1..][i - 1];
      assert !v.NotFound? ==> exists i :: DecidedAt(polls, i, v) by {
        if !v.NotFound? {
          var i :| DecidedAt(polls[1..], i, v);
          assert DecidedAt(polls, i + 1, v);
        }
      }
      v
    else
      assert DecidedAt(polls, 0, polls[0]);
      polls[0]
  }

  /** A row of the fill table that belongs to the payload's fill, going by its hash and its owners. */
  predicate Belongs(f: FillRow, k: FillKey) {
    f.txHash == Pseudo(k) && f.maker.owner == k.maker.owner && f.taker.owner == k.taker.owner
  }

  /** The status a sent job is left with. */
  function FinalStatus(verdict: Poll): Status {
    match verdict
    case Success(_) => Confirmed
    case NotFound => Submitted
    case Failure => Failed
    case Unreachable => Failed
  }

  lemma {:induction false} PollOutcomes(db: Db, k: FillKey, payload: Option<Payload>, hash: string, polls: seq<Poll>)
    requires k in db.jobs && db.jobs[k].status == Submitted && payload.Some?
    ensures var db', verdict := PollResubmitted(db, k, payload, hash, polls), Verdict(polls);
      && db' == db.(jobs := db.jobs[k := db.jobs[k].(status := FinalStatus(verdict))], fills := db'.fills)
      && |db'.fills| == |db.fills|
      && forall i :: 0 <= i < |db.fills| ==>
        db'.fills[i] ==
          if verdict.Success? && Belongs(db.fills[i], payload.value.pendingTxHash)
          then db.fills[i].(txHash := Chain(hash), ledger := verdict.ledger)
          else db.fills[i]
  {
    if polls == [] {
      assert db.jobs[k := db.jobs[k]] == db.jobs;
    } else if polls[0].NotFound? {
      PollOutcomes(db, k, payload, hash, polls[1..]);
    }
  }

  /**
   * A resubmission acts exactly on a job of which both entries are there and which is QUEUED, or
   * SUBMITTED without a hash. Then the job records the new hash; it is CONFIRMED, still SUBMITTED
   * or FAILED by the first poll that settles it; and its fill takes on hash and ledger exactly if
   * it is CONFIRMED. No order, market or other job changes.
   */
  lemma ResubmitOutcomes(db: Db, k: FillKey, payload: Option<Payload>, send: Answer, polls: seq<Poll>)
    ensures var db' := Resubmit(db, k, payload, send, polls);
      var verdict := if send.Rejected? then Failure else Verdict(polls);
      if (payload.Some? && payload.value.makerSigned && payload.value.takerSigned && k in db.jobs)
         && (db.jobs[k].status == Queued || (db.jobs[k].status == Submitted && db.jobs[k].submittedHash == None))
      then
        && db' == db.(jobs := db'.jobs, fills := db'.fills) && db'.jobs.Keys == db.jobs.Keys
        && (forall j :: j in db.jobs && j != k ==> db'.jobs[j] == db.jobs[j])
        && db'.jobs[k] == Job(FinalStatus(verdict),
                              if send.Accepted? then Some(send.hash) else db.jobs[k].submittedHash, db.jobs[k].payload)
        && |db'.fills| == |db.fills|
        && forall i :: 0 <= i < |db.fills| ==>
          db'.fills[i] ==
            if verdict.Success? && Belongs(db.fills[i], payload.value.pendingTxHash)
            then db.fills[i].(txHash := Chain(send.hash), ledger := verdict.ledger)
            else db.fills[i]
      else db' == db
  {
    if payload.Some? && payload.value.BothSigned() && Claimable(db, k) && send.Accepted? {
      PollOutcomes(RecordHash(SetStatus(db, k, Submitted), k, send.hash), k, payload, send.hash, polls);
    }
  }

  /** One live fill is gone, its size is off both its orders, and the volume stands. */
  ghost predicate TakenBack(db: Db, db': Db, k: FillKey) {
    && k.maker in db.orders && k.taker in db.orders && k.maker != k.taker
    && db'.markets == db.markets
    && (exists i :: 0 <= i < |db.fills| && db.fills[i].txHash == Pseudo(k)
          && db'.fills == db.fills[..i] + db.fills[i + 1..])
    && db'.orders.Keys == db.orders.Keys
    && forall id :: id in db.orders ==>
      db'.orders[id] ==
        if id == k.maker || id == k.taker
        then db.orders[id].(order := db.orders[id].order.(filledSize := db.orders[id].order.filledSize - k.fillSize))
        else db.orders[id]
  }

  /** The job moves between these statuses if that is where it is; every other job stays. */
  predicate JobMoved(db: Db, db': Db, k: FillKey, from: Status, to: Status) {
    && db'.jobs.Keys == db.jobs.Keys && (forall j :: j in db.jobs && j != k ==> db'.jobs[j] == db.jobs[j])
    && (k in db.jobs ==>
         db'.jobs[k] == if db.jobs[k].status == from then db.jobs[k].(status := to) else db.jobs[k])
  }

  lemma BothLowered(db: Db, k: FillKey)
    requires LedgerOk(db) && Live(db.fills, k)
    ensures TakenBack(db, RollbackJob(db, Some(Payload(k, false, false))), k)
  {
    RollbackLive(db, k);
    LiveFill(db, k);
    assert db.fills[IndexOf(db.fills, k)].txHash == Pseudo(k);
  }

  lemma UndoWrites(db: Db, k: FillKey, payload: Payload, from: Status)
    requires LedgerOk(db) && Live(db.fills, k) && payload.pendingTxHash == k
    ensures var db' := SetStatusFrom(RollbackJob(db, Some(payload)), k, from, Failed);
      TakenBack(db, db', k) && JobMoved(db, db', k, from, Failed)
  {
    BothLowered(db, k);
    MovedWrites(db, RollbackJob(db, Some(payload)), k, from);
  }

  lemma MovedWrites(db: Db, mid: Db, k: FillKey, from: Status)
    requires TakenBack(db, mid, k) && mid.jobs == db.jobs
    ensures TakenBack(db, SetStatusFrom(mid, k, from, Failed), k)
    ensures JobMoved(db, SetStatusFrom(mid, k, from, Failed), k, from, Failed)
  {
  }

  /** The reconciler's row is of a fill that is there, and names it. */
  lemma RowInHand(base: map<nat, int>, s: Sys, k: FillKey)
    requires Inv(base, s) && k in s.read
    ensures LedgerOk(s.db) && Live(s.db.fills, k)
    ensures s.read[k].payload.Some? && s.read[k].payload.value.pendingTxHash == k
  {
    assert KeyKept(s, k) && KeyLive(s, k);
    assert Look(s, k).row.Some?;
  }

  /** A transaction that failed on chain: its job is FAILED, its fill and its sizes are taken back. */
  lemma FailedPollWrites(base: map<nat, int>, s: Sys, k: FillKey, send: Answer, polls: seq<Poll>)
    requires Inv(base, s) && Working(s, k, Submitted) && s.read[k].submittedHash.Some?
    ensures var t := Apply(s, PollSubmitted(k, Failure, send, polls));
      TakenBack(s.db, t.db, k) && JobMoved(s.db, t.db, k, Submitted, Failed)
  {
    RowInHand(base, s, k);
    UndoWrites(s.db, k, s.read[k].payload.value, Submitted);
    assert Apply(s, PollSubmitted(k, Failure, send, polls)).db
        == SetStatusFrom(RollbackJob(s.db, s.read[k].payload), k, Submitted, Failed);
  }

  /** A job whose entries did not come in time, by its row: the same, if it is still QUEUED. */
  lemma ExpiryWrites(base: map<nat, int>, s: Sys, k: FillKey)
    requires Inv(base, s) && Working(s, k, Queued)
    ensures var t := Apply(s, ExpireStale(k));
      var entries := s.read[k].payload;
      if entries.Some? && entries.value.makerSigned && entries.value.takerSigned then t.db == s.db
      else TakenBack(s.db, t.db, k) && JobMoved(s.db, t.db, k, Queued, Failed)
  {
    RowInHand(base, s, k);
    ExpireWrites(s.db, k, s.read[k]);
    assert Apply(s, ExpireStale(k)).db == Expire(s.db, k, s.read[k]);
  }

  lemma ExpireWrites(db: Db, k: FillKey, job: Job)
    requires LedgerOk(db) && Live(db.fills, k) && job.payload.Some? && job.payload.value.pendingTxHash == k
    ensures var db' := Expire(db, k, job);
      if job.payload.value.makerSigned && job.payload.value.takerSigned then db' == db
      else TakenBack(db, db', k) && JobMoved(db, db', k, Queued, Failed)
  {
    UndoWrites(db, k, job.payload.value, Queued);
  }

  /**
   * A resubmitted transaction that the chain reports as successful: its job is CONFIRMED, and
   * exactly the fill of the job takes on the hash it was sent under and the ledger.
   */
  lemma ConfirmSentStampsFill(base: map<nat, int>, s: Sys, ledger: int)
    requires Inv(base, s) && Enabled(s, ConfirmSent(ledger))
    ensures Live(s.db.fills, s.sender.key)
    ensures var t, k := Apply(s, ConfirmSent(ledger)), s.sender.key;
      var i := IndexOf(s.db.fills, k);
      && JobIs(t.db, k, Confirmed) && t.db.orders == s.db.orders && t.db.markets == s.db.markets
      && |t.db.fills| == |s.db.fills|
      && t.db.fills[i] == s.db.fills[i].(txHash := Chain(s.sender.hash), ledger := ledger)
      && forall j :: 0 <= j < |s.db.fills| && j != i ==> t.db.fills[j] == s.db.fills[j]
  {
    var k := s.sender.key;
    RowInHand(base, s, k);
    LiveFill(s.db, k);
    assert KeyKept(s, k) && Look(s, k).job.Some?;
  }
}
