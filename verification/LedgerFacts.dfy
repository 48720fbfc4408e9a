/** Sums over the fill table, the ledger's own invariant, and what a rollback does to both. */
module LedgerFacts {
  import opened Sequences
  import opened Matching
  import opened Ledger

  // ----- sums over the fill table -----

  function PartOf(f: FillRow, id: OrderId): int {
    (if f.maker == id then f.fillSize else 0) + (if f.taker == id then f.fillSize else 0)
  }

  /** The size that the fills in the table trade for one order. */
  function Touched(fills: seq<FillRow>, id: OrderId): int {
    if fills == [] then 0 else PartOf(fills[0], id) + Touched(fills[1..], id)
  }

  function NotionalOf(f: FillRow, marketId: nat): int {
    if f.marketId == marketId then Notional(f.fillSize, f.fillPrice) else 0
  }

  /** The floored notional that the fills in the table trade in one market. */
  function VolumeOf(fills: seq<FillRow>, marketId: nat): int {
    if fills == [] then 0 else NotionalOf(fills[0], marketId) + VolumeOf(fills[1..], marketId)
  }

  lemma {:induction false} SumsAppend(a: seq<FillRow>, b: seq<FillRow>)
    ensures forall id :: Touched(a + b, id) == Touched(a, id) + Touched(b, id)
    ensures forall marketId :: VolumeOf(a + b, marketId) == VolumeOf(a, marketId) + VolumeOf(b, marketId)
  {
    if a == [] {
      assert a + b == b;
    } else {
      assert (a + b)[1..] == a[1..] + b;
      SumsAppend(a[1..], b);
    }
  }

  lemma SumsSingle(f: FillRow)
    ensures forall id :: Touched([f], id) == PartOf(f, id)
    ensures forall marketId :: VolumeOf([f], marketId) == NotionalOf(f, marketId)
  {
    assert [f][1..] == [];
  }

  lemma {:induction false} SumsNonNegative(fills: seq<FillRow>)
    requires forall f :: f in fills ==> f.fillSize > 0 && f.fillPrice >= 0
    ensures forall id :: Touched(fills, id) >= 0
    ensures forall marketId :: VolumeOf(fills, marketId) >= 0
  {
    if fills != [] {
      SumsNonNegative(fills[1..]);
      NotionalNonNegative(fills[0].fillSize, fills[0].fillPrice);
    }
  }

  lemma NotionalNonNegative(size: int, price: int)
    requires size >= 0 && price >= 0
    ensures Notional(size, price) >= 0
  {
    assert size * price >= 0;
  }

  // ----- live fills -----

  /** Fill `k` is in the table under its pseudo hash. */
  predicate Live(fills: seq<FillRow>, k: FillKey) {
    exists i :: 0 <= i < |fills| && fills[i].txHash == Pseudo(k)
  }

  function Deleted(fills: seq<FillRow>, k: FillKey): seq<FillRow> {
    Filter((f: FillRow) => f.txHash == Pseudo(k), fills)
  }

  lemma {:induction false} DeleteNone(fills: seq<FillRow>, k: FillKey)
    requires !Live(fills, k)
    ensures DeleteFills(fills, Pseudo(k)) == fills && Deleted(fills, k) == []
  {
    if fills != [] {
      assert fills[0].txHash != Pseudo(k);
      assert forall i :: 0 <= i < |fills[1..]| ==> fills[1..][i] == fills[i + 1];
      DeleteNone(fills[1..], k);
    }
  }

  lemma {:induction false} DeleteAt(fills: seq<FillRow>, k: FillKey, i: nat)
    requires i < |fills| && fills[i].txHash == Pseudo(k)
    requires forall j :: 0 <= j < |fills| && j != i ==> fills[j].txHash != Pseudo(k)
    ensures DeleteFills(fills, Pseudo(k)) == fills[..i] + fills[i + 1..]
    ensures Deleted(fills, k) == [fills[i]]
  {
    if i == 0 {
      DeleteNone(fills[1..], k);
    } else {
      DeleteAt(fills[1..], k, i - 1);
      assert fills[..i] == [fills[0]] + fills[1..][..i - 1];
    }
  }

  // ----- the ledger invariant -----

  ghost predicate FillOk(orders: OrderTable, f: FillRow) {
    && f.fillSize > 0 && f.fillPrice >= 0
    && f.maker in orders && f.taker in orders && f.maker != f.taker
    && (f.txHash.Pseudo? ==> f.txHash.key == FillKey(f.maker, f.taker, f.fillSize))
  }

  ghost predicate UniquePseudo(fills: seq<FillRow>) {
    forall i, j :: 0 <= i < j < |fills| && fills[i].txHash.Pseudo? ==> fills[i].txHash != fills[j].txHash
  }

  ghost predicate FillsOk(orders: OrderTable, fills: seq<FillRow>) {
    (forall f :: f in fills ==> FillOk(orders, f)) && UniquePseudo(fills)
  }

  /** An order under its own id, filled at most to its size. */
  ghost predicate InBounds(orders: OrderTable, id: OrderId)
    requires id in orders
  {
    var o := orders[id].order;
    o.Id() == id && 0 <= o.filledSize <= o.size && o.limitPrice >= 0
  }

  ghost predicate BoundsOk(orders: OrderTable) {
    forall id :: id in orders ==> InBounds(orders, id)
  }

  /** An order is filled by exactly the fills in the table, and never beyond its size. */
  ghost predicate OrderOk(orders: OrderTable, fills: seq<FillRow>, id: OrderId)
    requires id in orders
  {
    InBounds(orders, id) && orders[id].order.filledSize == Touched(fills, id)
  }

  ghost predicate OrdersOk(orders: OrderTable, fills: seq<FillRow>) {
    forall id :: id in orders ==> OrderOk(orders, fills, id)
  }

  ghost predicate LedgerOk(db: Db) { FillsOk(db.orders, db.fills) && OrdersOk(db.orders, db.fills) }

  /** The same orders, up to their filled sizes. */
  ghost predicate SameStatic(a: OrderTable, b: OrderTable) {
    && a.Keys == b.Keys
    && forall id :: id in a ==> b[id] == a[id].(order := a[id].order.(filledSize := b[id].order.filledSize))
  }

  function IndexOf(fills: seq<FillRow>, k: FillKey): (i: nat)
    requires Live(fills, k)
    ensures i < |fills| && fills[i].txHash == Pseudo(k)
  {
    if fills[0].txHash == Pseudo(k) then 0
    else
      assert Live(fills[1..], k) by {
        var i :| 0 <= i < |fills| && fills[i].txHash == Pseudo(k);
        assert fills[1..][i - 1] == fills[i];
      }
      1 + IndexOf(fills[1..], k)
  }

  /** The table without fill `k`. */
  function Without(fills: seq<FillRow>, k: FillKey): seq<FillRow>
    requires Live(fills, k)
  {
    var i := IndexOf(fills, k);
    fills[..i] + fills[i + 1..]
  }

  /** What fill `k` trades for one order. */
  function KeyPart(k: FillKey, id: OrderId): int {
    (if k.maker == id then k.fillSize else 0) + (if k.taker == id then k.fillSize else 0)
  }

  lemma SplitAt(fills: seq<FillRow>, k: FillKey)
    requires Live(fills, k)
    ensures var i := IndexOf(fills, k);
      && (forall id :: Touched(fills, id) == Touched(Without(fills, k), id) + PartOf(fills[i], id))
      && (forall marketId ::
           VolumeOf(fills, marketId) == VolumeOf(Without(fills, k), marketId) + NotionalOf(fills[i], marketId))
  {
    var i := IndexOf(fills, k);
    assert fills == fills[..i] + ([fills[i]] + fills[i + 1..]);
    SumsAppend(fills[..i], [fills[i]] + fills[i + 1..]);
    SumsAppend([fills[i]], fills[i + 1..]);
    SumsSingle(fills[i]);
    SumsAppend(fills[..i], fills[i + 1..]);
  }

  lemma FillsNonNegative(orders: OrderTable, fills: seq<FillRow>)
    requires FillsOk(orders, fills)
    ensures forall id :: Touched(fills, id) >= 0
    ensures forall marketId :: VolumeOf(fills, marketId) >= 0
  {
    forall f | f in fills ensures f.fillSize > 0 && f.fillPrice >= 0 { assert FillOk(orders, f); }
    SumsNonNegative(fills);
  }

  lemma FillsOkWithout(orders: OrderTable, fills: seq<FillRow>, k: FillKey)
    requires FillsOk(orders, fills) && Live(fills, k)
    ensures FillsOk(orders, Without(fills, k)) && !Live(Without(fills, k), k)
    ensures DeleteFills(fills, Pseudo(k)) == Without(fills, k)
    ensures Deleted(fills, k) == [fills[IndexOf(fills, k)]]
  {
    DeleteAt(fills, k, IndexOf(fills, k));
    forall f | f in Without(fills, k) ensures FillOk(orders, f) { assert f in fills; }
  }

  /** A live fill is part of what both its orders have filled. */
  lemma LiveFill(db: Db, k: FillKey)
    requires LedgerOk(db) && Live(db.fills, k)
    ensures var f := db.fills[IndexOf(db.fills, k)];
      f.maker == k.maker && f.taker == k.taker && f.fillSize == k.fillSize
    ensures k.maker in db.orders && k.taker in db.orders && k.maker != k.taker && k.fillSize > 0
    ensures forall id :: Touched(db.fills, id) == Touched(Without(db.fills, k), id) + KeyPart(k, id)
    ensures forall id :: id in db.orders ==> db.orders[id].order.filledSize >= KeyPart(k, id)
  {
    var i := IndexOf(db.fills, k);
    assert db.fills[i] in db.fills && FillOk(db.orders, db.fills[i]);
    SplitAt(db.fills, k);
    FillsOkWithout(db.orders, db.fills, k);
    FillsNonNegative(db.orders, Without(db.fills, k));
    forall id | id in db.orders ensures db.orders[id].order.filledSize >= KeyPart(k, id) {
      assert OrderOk(db.orders, db.fills, id);
      assert Touched(Without(db.fills, k), id) >= 0;
    }
  }

  /** Where both orders have the size to give, neither clamp bites. */
  lemma LowerExact(orders: OrderTable, k: FillKey)
    requires k.maker in orders && k.taker in orders && k.maker != k.taker
    requires orders[k.maker].order.filledSize >= k.fillSize && orders[k.taker].order.filledSize >= k.fillSize
    ensures SameStatic(orders, LowerBoth(orders, k))
    ensures forall id :: id in orders ==>
      LowerBoth(orders, k)[id].order.filledSize == orders[id].order.filledSize - KeyPart(k, id)
  {
  }

  lemma OrdersOkShift(orders: OrderTable, fills: seq<FillRow>, orders': OrderTable, fills': seq<FillRow>, id: OrderId)
    requires id in orders && OrderOk(orders, fills, id) && SameStatic(orders, orders')
    requires orders'[id].order.filledSize - orders[id].order.filledSize == Touched(fills', id) - Touched(fills, id)
    requires 0 <= orders'[id].order.filledSize <= orders[id].order.size
    ensures OrderOk(orders', fills', id)
  {
  }

  lemma FillsOkSameKeys(orders: OrderTable, orders': OrderTable, fills: seq<FillRow>)
    requires orders.Keys <= orders'.Keys && FillsOk(orders, fills)
    ensures FillsOk(orders', fills)
  {
    forall f | f in fills ensures FillOk(orders', f) { assert FillOk(orders, f); }
  }

  /** Rolling back a live fill: neither clamp bites, and the ledger invariant survives without the fill. */
  lemma RollbackLive(db: Db, k: FillKey)
    requires LedgerOk(db) && Live(db.fills, k)
    ensures SameStatic(db.orders, LowerBoth(db.orders, k))
    ensures forall id :: id in db.orders ==>
      LowerBoth(db.orders, k)[id].order.filledSize == db.orders[id].order.filledSize - KeyPart(k, id)
    ensures DeleteFills(db.fills, Pseudo(k)) == Without(db.fills, k)
    ensures FillsOk(LowerBoth(db.orders, k), Without(db.fills, k))
    ensures OrdersOk(LowerBoth(db.orders, k), Without(db.fills, k))
  {
    LiveFill(db, k);
    assert KeyPart(k, k.maker) == KeyPart(k, k.taker) == k.fillSize;
    LowerExact(db.orders, k);
    FillsOkWithout(db.orders, db.fills, k);
    FillsOkSameKeys(db.orders, LowerBoth(db.orders, k), Without(db.fills, k));
    forall id | id in db.orders ensures OrderOk(LowerBoth(db.orders, k), Without(db.fills, k), id) {
      assert OrderOk(db.orders, db.fills, id);
      OrdersOkShift(db.orders, db.fills, LowerBoth(db.orders, k), Without(db.fills, k), id);
    }
  }

  /** Taking a size off two orders never leaves the bounds, whether or not it is really there. */
  lemma LowerBounds(orders: OrderTable, k: FillKey)
    requires BoundsOk(orders) && k.fillSize > 0
    ensures SameStatic(orders, LowerBoth(orders, k)) && BoundsOk(LowerBoth(orders, k))
    ensures forall id :: id in orders ==> LowerBoth(orders, k)[id].order.filledSize <= orders[id].order.filledSize
  {
    forall id | id in LowerBoth(orders, k) ensures InBounds(LowerBoth(orders, k), id) { assert InBounds(orders, id); }
    forall id | id in orders ensures LowerBoth(orders, k)[id].order.filledSize <= orders[id].order.filledSize {
      assert InBounds(orders, id);
    }
  }

  lemma DeleteRemoves(fills: seq<FillRow>, k: FillKey)
    ensures !Live(DeleteFills(fills, Pseudo(k)), k)
  {
    var rest := DeleteFills(fills, Pseudo(k));
    forall i | 0 <= i < |rest| ensures rest[i].txHash != Pseudo(k) { assert rest[i] in rest; }
  }

  lemma DeleteLive(fills: seq<FillRow>, k: FillKey, j: FillKey)
    ensures Live(DeleteFills(fills, Pseudo(k)), j) <==> Live(fills, j) && j != k
  {
    DeleteRemoves(fills, k);
    if j != k { LiveDelete(fills, k, j); }
  }

  lemma DeleteKeepsFills(orders: OrderTable, fills: seq<FillRow>, k: FillKey)
    requires FillsOk(orders, fills)
    ensures FillsOk(orders, DeleteFills(fills, Pseudo(k)))
  {
    if Live(fills, k) { FillsOkWithout(orders, fills, k); } else { DeleteNone(fills, k); }
  }

  // ----- inserting and stamping -----

  lemma {:induction false} SumsPointwise(a: seq<FillRow>, b: seq<FillRow>)
    requires |a| == |b|
    requires forall i :: 0 <= i < |a| ==> b[i] == a[i].(txHash := b[i].txHash, ledger := b[i].ledger)
    ensures forall id :: Touched(a, id) == Touched(b, id)
    ensures forall marketId :: VolumeOf(a, marketId) == VolumeOf(b, marketId)
  {
    if a != [] {
      SumsPointwise(a[1..], b[1..]);
    }
  }

  /** Stamping a chain hash leaves every other pending fill where it was. */
  lemma StampFills(orders: OrderTable, fills: seq<FillRow>, k: FillKey, nonces: bool, hash: string, ledger: int)
    requires FillsOk(orders, fills)
    ensures var fills' := Stamp(fills, k, nonces, hash, ledger);
      FillsOk(orders, fills') && forall j :: Live(fills', j) <==> Live(fills, j) && j != k
  {
    var fills' := Stamp(fills, k, nonces, hash, ledger);
    forall i | 0 <= i < |fills| ensures FillOk(orders, fills'[i]) && fills'[i].txHash != Pseudo(k) {
      assert fills[i] in fills && FillOk(orders, fills[i]);
    }
    forall j ensures Live(fills', j) <==> Live(fills, j) && j != k {
      if i :| 0 <= i < |fills| && fills[i].txHash == Pseudo(j) && j != k { assert fills'[i].txHash == Pseudo(j); }
      if i :| 0 <= i < |fills'| && fills'[i].txHash == Pseudo(j) { assert fills[i].txHash == Pseudo(j); }
    }
  }

  /** Nor does it move any size. */
  lemma StampKeeps(orders: OrderTable, fills: seq<FillRow>, k: FillKey, nonces: bool, hash: string, ledger: int)
    requires FillsOk(orders, fills) && OrdersOk(orders, fills)
    ensures var fills' := Stamp(fills, k, nonces, hash, ledger);
      && FillsOk(orders, fills') && OrdersOk(orders, fills')
      && (forall marketId :: VolumeOf(fills', marketId) == VolumeOf(fills, marketId))
      && forall j :: Live(fills', j) <==> Live(fills, j) && j != k
  {
    SumsPointwise(fills, Stamp(fills, k, nonces, hash, ledger));
    StampFills(orders, fills, k, nonces, hash, ledger);
    forall id | id in orders ensures OrderOk(orders, Stamp(fills, k, nonces, hash, ledger), id) {
      assert OrderOk(orders, fills, id);
    }
  }

  /** A match whose orders have room for it. */
  ghost predicate Fits(db: Db, m: Match) {
    && m.fillSize > 0 && m.fillPrice >= 0 && m.maker.Id() != m.taker.Id()
    && HasRoom(db.orders, m.maker.Id(), m.fillSize) && HasRoom(db.orders, m.taker.Id(), m.fillSize)
  }

  function RaiseBoth(orders: OrderTable, k: FillKey): OrderTable
    requires k.maker in orders && k.taker in orders
  {
    Raise(Raise(orders, k.maker, k.fillSize), k.taker, k.fillSize)
  }

  /** The fully written outcome of `persistFill`. */
  function Written(db: Db, m: Match): Db
    requires m.maker.Id() in db.orders && m.taker.Id() in db.orders
  {
    db.(fills := db.fills + [RowOf(m)], orders := RaiseBoth(db.orders, KeyOf(m)), markets := AddVolume(db.markets, m))
  }

  lemma RaiseExact(orders: OrderTable, k: FillKey)
    requires k.maker in orders && k.taker in orders && k.maker != k.taker
    ensures SameStatic(orders, RaiseBoth(orders, k))
    ensures forall id :: id in orders ==>
      RaiseBoth(orders, k)[id].order.filledSize == orders[id].order.filledSize + KeyPart(k, id)
  {
  }

  /** A full write stays in bounds. */
  lemma WrittenBounds(db: Db, m: Match)
    requires FillsOk(db.orders, db.fills) && BoundsOk(db.orders) && Fits(db, m) && !Live(db.fills, KeyOf(m))
    ensures var db' := Written(db, m);
      && FillsOk(db'.orders, db'.fills) && BoundsOk(db'.orders) && SameStatic(db.orders, db'.orders)
      && forall id :: id in db.orders ==>
        db'.orders[id].order.filledSize == db.orders[id].order.filledSize + KeyPart(KeyOf(m), id)
  {
    var k, orders', fills' := KeyOf(m), Written(db, m).orders, Written(db, m).fills;
    RaiseExact(db.orders, k);
    FillsOkSameKeys(db.orders, orders', db.fills);
    forall f | f in fills' ensures FillOk(orders', f) { assert f in db.fills || f == RowOf(m); }
    forall id | id in orders' ensures InBounds(orders', id) { assert InBounds(db.orders, id); }
  }

  lemma WrittenKeeps(db: Db, m: Match)
    requires LedgerOk(db) && Fits(db, m) && !Live(db.fills, KeyOf(m))
    ensures LedgerOk(Written(db, m)) && SameStatic(db.orders, Written(db, m).orders)
    ensures forall id :: id in db.orders ==>
      Written(db, m).orders[id].order.filledSize == db.orders[id].order.filledSize + KeyPart(KeyOf(m), id)
  {
    var orders', fills' := Written(db, m).orders, Written(db, m).fills;
    LedgerBounds(db);
    WrittenBounds(db, m);
    SumsAppend(db.fills, [RowOf(m)]);
    SumsSingle(RowOf(m));
    forall id | id in db.orders ensures OrderOk(orders', fills', id) {
      assert OrderOk(db.orders, db.fills, id);
      OrdersOkShift(db.orders, db.fills, orders', fills', id);
    }
  }

  lemma LedgerBounds(db: Db)
    requires LedgerOk(db)
    ensures BoundsOk(db.orders)
  {
    forall id | id in db.orders ensures InBounds(db.orders, id) { assert OrderOk(db.orders, db.fills, id); }
  }

  /**
   * With room for both parties, `persistFill` either finds the fill already there and changes
   * nothing, or writes it completely; its half-written exits are unreachable.
   */
  lemma PersistComplete(db: Db, m: Match)
    requires FillsOk(db.orders, db.fills) && Fits(db, m)
    ensures Persist(db, m) == if Live(db.fills, KeyOf(m)) then (db, false) else (Written(db, m), true)
    ensures LedgerOk(db) && !Live(db.fills, KeyOf(m)) ==> LedgerOk(Written(db, m))
  {
    if Live(db.fills, KeyOf(m)) {
      var f := db.fills[IndexOf(db.fills, KeyOf(m))];
      assert f in db.fills && FillOk(db.orders, f);
    } else if LedgerOk(db) {
      WrittenKeeps(db, m);
    }
  }

  lemma LiveAppend(fills: seq<FillRow>, f: FillRow, k: FillKey)
    ensures Live(fills + [f], k) == (Live(fills, k) || f.txHash == Pseudo(k))
  {
    if i :| 0 <= i < |fills| && fills[i].txHash == Pseudo(k) { assert (fills + [f])[i] == fills[i]; }
    assert (fills + [f])[|fills|] == f;
  }

  lemma LiveDelete(fills: seq<FillRow>, k: FillKey, j: FillKey)
    requires j != k
    ensures Live(DeleteFills(fills, Pseudo(k)), j) == Live(fills, j)
  {
    var rest := DeleteFills(fills, Pseudo(k));
    if i :| 0 <= i < |fills| && fills[i].txHash == Pseudo(j) { assert fills[i] in rest; }
    if i :| 0 <= i < |rest| && rest[i].txHash == Pseudo(j) { assert rest[i] in fills; }
  }
}
