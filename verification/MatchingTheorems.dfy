/**
 * What one call of `MatchAll` guarantees about its matches: conservation, no overfill,
 * price-time priority, maximality, and bounds on the matches themselves.
 */
module MatchingTheorems {
  import opened Sequences
  import opened Wrappers
  import opened Matching

  // ----- the input the loading queries deliver -----

  function AllOrders(limits: seq<Order>, markets: seq<Order>): (r: set<Order>)
    ensures forall o :: o in r <==> o in limits || o in markets
  {
    (set o | o in limits) + (set o | o in markets)
  }

  /** `id` is a primary key. */
  ghost predicate IdsIdentify(all: set<Order>) {
    forall o, p :: o in all && p in all && o.Id() == p.Id() ==> o == p
  }

  /** The WHERE clauses of the two loading queries, and the primary key. */
  ghost predicate Loaded(limits: seq<Order>, markets: seq<Order>) {
    && IdsIdentify(AllOrders(limits, markets))
    && (forall o :: o in limits ==> o.limitPrice != 0)
    && (forall o :: o in markets ==> o.limitPrice == 0)
    && (forall o :: o in AllOrders(limits, markets) ==> o.filledSize < o.size)
  }

  // ----- how much of an order a list of matches trades -----

  function Part(m: Match, id: OrderId): int {
    (if m.maker.Id() == id then m.fillSize else 0) + (if m.taker.Id() == id then m.fillSize else 0)
  }

  function Touch(ms: seq<Match>, id: OrderId): int {
    if ms == [] then 0 else Touch(ms[..|ms| - 1], id) + Part(ms[|ms| - 1], id)
  }

  lemma TouchSnoc(ms: seq<Match>, m: Match, id: OrderId)
    ensures Touch(ms + [m], id) == Touch(ms, id) + Part(m, id)
  {
    assert (ms + [m])[..|ms|] == ms;
  }

  lemma {:induction false} TouchCons(ms: seq<Match>, id: OrderId)
    requires ms != []
    ensures Touch(ms, id) == Part(ms[0], id) + Touch(ms[1..], id)
  {
    var n := |ms| - 1;
    if n > 0 {
      TouchCons(ms[..n], id);
      assert ms[..n][1..] == ms[1..][..n - 1];
    }
  }

  lemma {:induction false} TouchNonNegative(ms: seq<Match>, id: OrderId)
    requires forall m :: m in ms ==> m.fillSize > 0
    ensures Touch(ms, id) >= 0
    ensures Touch(ms, id) > 0 <==> exists m :: m in ms && m.Touches(id)
  {
    if ms != [] {
      var n := |ms| - 1;
      TouchNonNegative(ms[..n], id);
      if ms[n].Touches(id) {
        assert ms[n] in ms && Part(ms[n], id) > 0;
      } else if m :| m in ms && m.Touches(id) {
        assert m in ms[..n];
      }
    }
  }

  /** What is left of an order when these matches have traded. */
  function Remaining(o: Order, ms: seq<Match>): int { o.size - o.filledSize - Touch(ms, o.Id()) }

  // ----- the invariant of the scan -----

  ghost predicate MatchOk(all: set<Order>, m: Match) {
    && m.maker in all && m.taker in all
    && m.maker.owner != m.taker.owner
    && m.maker.isLong != m.taker.isLong
    && m.fillSize > 0
    && m.fillPrice == m.maker.limitPrice
  }

  ghost predicate Settled(o: Order, p: Order, used: Usage) {
    Left(o, used) <= 0 || Left(p, used) <= 0
  }

  predicate SamePair(m: Match, n: Match) {
    m.Touches(n.maker.Id()) && m.Touches(n.taker.Id())
  }

  ghost predicate PairsDistinct(ms: seq<Match>) {
    forall i, j :: 0 <= i < j < |ms| ==> !SamePair(ms[i], ms[j])
  }

  ghost predicate BookInv(all: set<Order>, b: Book) {
    && (forall m :: m in b.out ==> MatchOk(all, m) && Settled(m.maker, m.taker, b.used))
    && (forall id :: UsedBy(b.used, id) == Touch(b.out, id))
    && (forall o :: o in all ==> Left(o, b.used) >= 0)
    && PairsDistinct(b.out)
  }

  ghost predicate Opposed(all: set<Order>, xs: seq<Order>, ys: seq<Order>) {
    && (forall x :: x in xs ==> x in all)
    && (forall y :: y in ys ==> y in all)
    && (forall x, y :: x in xs && y in ys ==> x.isLong != y.isLong)
  }

  ghost predicate Extends(b: Book, b': Book) {
    && b.out <= b'.out
    && forall id :: UsedBy(b.used, id) <= UsedBy(b'.used, id)
  }

  lemma VisitTally(pass: Pass, x: Order, y: Order, b: Book)
    requires forall id :: UsedBy(b.used, id) == Touch(b.out, id)
    ensures var b' := Visit(pass, x, y, b); forall id :: UsedBy(b'.used, id) == Touch(b'.out, id)
  {
    if Fillable(pass, x, y, b.used) {
      var b' := Visit(pass, x, y, b);
      forall id ensures UsedBy(b'.used, id) == Touch(b'.out, id) {
        TouchSnoc(b.out, b'.out[|b.out|], id);
      }
    }
  }

  /** A visit exhausts at least one of its two orders and leaves every other order alone. */
  lemma VisitEffect(all: set<Order>, pass: Pass, x: Order, y: Order, b: Book)
    requires IdsIdentify(all) && x in all && y in all && Fillable(pass, x, y, b.used)
    ensures var used := Visit(pass, x, y, b).used;
      && Left(x, used) >= 0 && Left(y, used) >= 0 && (Left(x, used) == 0 || Left(y, used) == 0)
      && forall o :: o in all && o != x && o != y ==> Left(o, used) == Left(o, b.used)
    ensures Extends(b, Visit(pass, x, y, b))
  {
  }

  /** The old matches stay settled, and none of them is of the same pair as the new one. */
  lemma VisitMatches(all: set<Order>, pass: Pass, x: Order, y: Order, b: Book)
    requires IdsIdentify(all) && x in all && y in all && x.isLong != y.isLong && Fillable(pass, x, y, b.used)
    requires forall m :: m in b.out ==> MatchOk(all, m) && Settled(m.maker, m.taker, b.used)
    ensures var b' := Visit(pass, x, y, b);
      var m := b'.out[|b.out|];
      && MatchOk(all, m) && Settled(m.maker, m.taker, b'.used)
      && forall n :: n in b.out ==> MatchOk(all, n) && Settled(n.maker, n.taker, b'.used) && !SamePair(n, m)
  {
    var b' := Visit(pass, x, y, b);
    VisitEffect(all, pass, x, y, b);
    forall n | n in b.out ensures Settled(n.maker, n.taker, b'.used) && !SamePair(n, b'.out[|b.out|]) {
      assert MatchOk(all, n) && Settled(n.maker, n.taker, b.used);
      Stays(n.maker, b, b');
      Stays(n.taker, b, b');
    }
  }

  lemma DistinctSnoc(ms: seq<Match>, m: Match)
    requires PairsDistinct(ms) && forall n :: n in ms ==> !SamePair(n, m)
    ensures PairsDistinct(ms + [m])
  {
  }

  lemma VisitInv(all: set<Order>, pass: Pass, x: Order, y: Order, b: Book)
    requires IdsIdentify(all) && x in all && y in all && x.isLong != y.isLong
    requires BookInv(all, b)
    ensures BookInv(all, Visit(pass, x, y, b))
  {
    if Fillable(pass, x, y, b.used) {
      VisitTally(pass, x, y, b);
      VisitEffect(all, pass, x, y, b);
      VisitMatches(all, pass, x, y, b);
      DistinctSnoc(b.out, Visit(pass, x, y, b).out[|b.out|]);
    }
  }

  lemma {:induction false} RowInv(all: set<Order>, pass: Pass, x: Order, ys: seq<Order>, b: Book)
    requires IdsIdentify(all) && Opposed(all, [x], ys)
    requires BookInv(all, b)
    ensures BookInv(all, Row(pass, x, ys, b))
  {
    if ys != [] {
      assert x in [x];
      VisitInv(all, pass, x, ys[0], b);
      RowInv(all, pass, x, ys[1..], Visit(pass, x, ys[0], b));
    }
  }

  lemma {:induction false} ScanInv(all: set<Order>, pass: Pass, xs: seq<Order>, ys: seq<Order>, b: Book)
    requires IdsIdentify(all) && Opposed(all, xs, ys)
    requires BookInv(all, b)
    ensures BookInv(all, Scan(pass, xs, ys, b))
  {
    if xs != [] {
      RowInv(all, pass, xs[0], ys, b);
      ScanInv(all, pass, xs[1..], ys, Row(pass, xs[0], ys, b));
    }
  }

  lemma EmptyBookInv(limits: seq<Order>, markets: seq<Order>)
    requires Loaded(limits, markets)
    ensures BookInv(AllOrders(limits, markets), EMPTY_BOOK)
  {
  }

  /** The invariant holds after each of the three scans. */
  lemma MatchSpecInv(limits: seq<Order>, markets: seq<Order>)
    requires Loaded(limits, markets)
    ensures BookInv(AllOrders(limits, markets), AfterSells(limits, markets))
    ensures BookInv(AllOrders(limits, markets), AfterMarkets(limits, markets))
    ensures BookInv(AllOrders(limits, markets), MatchSpec(limits, markets))
  {
    var all := AllOrders(limits, markets);
    SidesSorted(limits);
    EmptyBookInv(limits, markets);
    ScanInv(all, MarketPass, MarketSells(markets), LimitBids(limits), EMPTY_BOOK);
    ScanInv(all, MarketPass, MarketBuys(markets), LimitAsks(limits), AfterSells(limits, markets));
    ScanInv(all, LimitPass, LimitBids(limits), LimitAsks(limits), AfterMarkets(limits, markets));
  }

  // ----- conservation and no overfill -----

  /**
   * The pending-fill map is exactly what the emitted matches trade, no order is filled beyond
   * its size, and no pair of orders is matched twice.
   */
  lemma NoOverfill(limits: seq<Order>, markets: seq<Order>)
    requires Loaded(limits, markets)
    ensures var b := MatchSpec(limits, markets);
      && (forall id :: UsedBy(b.used, id) == Touch(b.out, id))
      && (forall o :: o in AllOrders(limits, markets) ==> o.filledSize + Touch(b.out, o.Id()) <= o.size)
      && (forall m :: m in b.out ==> MatchOk(AllOrders(limits, markets), m))
      && PairsDistinct(b.out)
  {
    MatchSpecInv(limits, markets);
    var b := MatchSpec(limits, markets);
    forall o | o in AllOrders(limits, markets) ensures o.filledSize + Touch(b.out, o.Id()) <= o.size {
      assert Left(o, b.used) >= 0;
    }
  }

  /** The volume that `ms` trades through the orders of one side. */
  function SideVolume(orders: seq<Order>, long: bool, ms: seq<Match>): int {
    if orders == [] then 0
    else (if orders[0].isLong == long then Touch(ms, orders[0].Id()) else 0) + SideVolume(orders[1..], long, ms)
  }

  function Total(ms: seq<Match>): int {
    if ms == [] then 0 else Total(ms[..|ms| - 1]) + ms[|ms| - 1].fillSize
  }

  function Side(m: Match, long: bool): Order { if m.maker.isLong == long then m.maker else m.taker }

  lemma {:induction false} SideVolumeSnoc(orders: seq<Order>, long: bool, ms: seq<Match>, m: Match)
    requires m.maker.isLong != m.taker.isLong
    requires forall i, j :: 0 <= i < j < |orders| ==> orders[i].Id() != orders[j].Id()
    requires forall o :: o in orders ==>
      (o.Id() == m.maker.Id() ==> o == m.maker) && (o.Id() == m.taker.Id() ==> o == m.taker)
    ensures SideVolume(orders, long, ms + [m])
         == SideVolume(orders, long, ms) + (if Side(m, long) in orders then m.fillSize else 0)
  {
    if orders != [] {
      SideVolumeSnoc(orders[1..], long, ms, m);
      TouchSnoc(ms, m, orders[0].Id());
      assert Side(m, long) in orders[1..] ==> orders[0].Id() != Side(m, long).Id();
    }
  }

  lemma {:induction false} SideVolumeTotal(orders: seq<Order>, long: bool, ms: seq<Match>)
    requires forall i, j :: 0 <= i < j < |orders| ==> orders[i].Id() != orders[j].Id()
    requires forall m :: m in ms ==> m.maker in orders && m.taker in orders && m.maker.isLong != m.taker.isLong
    ensures SideVolume(orders, long, ms) == Total(ms)
  {
    if ms == [] {
      NothingTraded(orders, long);
    } else {
      var n := |ms| - 1;
      SideVolumeTotal(orders, long, ms[..n]);
      assert ms == ms[..n] + [ms[n]] && ms[n] in ms;
      SideVolumeSnoc(orders, long, ms[..n], ms[n]);
    }
  }

  lemma {:induction false} NothingTraded(orders: seq<Order>, long: bool)
    ensures SideVolume(orders, long, []) == 0
  {
    if orders != [] {
      NothingTraded(orders[1..], long);
    }
  }

  /** Every unit bought is a unit sold: the pending fills of the longs and of the shorts have the same total. */
  lemma LongVolumeIsShortVolume(limits: seq<Order>, markets: seq<Order>)
    requires Loaded(limits, markets)
    requires forall i, j :: 0 <= i < j < |limits + markets| ==> (limits + markets)[i].Id() != (limits + markets)[j].Id()
    ensures var ms := MatchSpec(limits, markets).out;
      SideVolume(limits + markets, true, ms) == SideVolume(limits + markets, false, ms) == Total(ms)
  {
    MatchSpecInv(limits, markets);
    var ms := MatchSpec(limits, markets).out;
    SideVolumeTotal(limits + markets, true, ms);
    SideVolumeTotal(limits + markets, false, ms);
  }

  // ----- monotonicity of the scan -----

  lemma {:induction false} RowExtends(pass: Pass, x: Order, ys: seq<Order>, b: Book)
    ensures Extends(b, Row(pass, x, ys, b))
  {
    if ys != [] {
      RowExtends(pass, x, ys[1..], Visit(pass, x, ys[0], b));
    }
  }

  lemma {:induction false} ScanExtends(pass: Pass, xs: seq<Order>, ys: seq<Order>, b: Book)
    ensures Extends(b, Scan(pass, xs, ys, b))
  {
    if xs != [] {
      RowExtends(pass, xs[0], ys, b);
      ScanExtends(pass, xs[1..], ys, Row(pass, xs[0], ys, b));
    }
  }

  lemma Stays(o: Order, b: Book, b': Book)
    requires Extends(b, b')
    ensures Left(o, b'.used) <= Left(o, b.used)
  {
  }

  // ----- what the pending fills stand for -----

  ghost predicate Tallied(b: Book) {
    forall id :: UsedBy(b.used, id) == Touch(b.out, id)
  }

  lemma VisitTallied(pass: Pass, x: Order, y: Order, b: Book)
    requires Tallied(b)
    ensures Tallied(Visit(pass, x, y, b))
  {
    VisitTally(pass, x, y, b);
  }

  lemma {:induction false} RowTallied(pass: Pass, x: Order, ys: seq<Order>, b: Book)
    requires Tallied(b)
    ensures Tallied(Row(pass, x, ys, b))
  {
    if ys != [] {
      VisitTallied(pass, x, ys[0], b);
      RowTallied(pass, x, ys[1..], Visit(pass, x, ys[0], b));
    }
  }

  lemma {:induction false} ScanTallied(pass: Pass, xs: seq<Order>, ys: seq<Order>, b: Book)
    requires Tallied(b)
    ensures Tallied(Scan(pass, xs, ys, b))
  {
    if xs != [] {
      RowTallied(pass, xs[0], ys, b);
      ScanTallied(pass, xs[1..], ys, Row(pass, xs[0], ys, b));
    }
  }

  lemma TalliedRemains(b: Book)
    requires Tallied(b)
    ensures forall o :: Left(o, b.used) == Remaining(o, b.out)
  {
  }

  lemma LeftRemains(limits: seq<Order>, markets: seq<Order>)
    ensures forall o :: Left(o, MatchSpec(limits, markets).used) == Remaining(o, MatchSpec(limits, markets).out)
  {
    ScanTallied(MarketPass, MarketSells(markets), LimitBids(limits), EMPTY_BOOK);
    ScanTallied(MarketPass, MarketBuys(markets), LimitAsks(limits), AfterSells(limits, markets));
    ScanTallied(LimitPass, LimitBids(limits), LimitAsks(limits), AfterMarkets(limits, markets));
    TalliedRemains(MatchSpec(limits, markets));
  }

  // ----- maximality -----

  lemma {:induction false} RowSettles(pass: Pass, x: Order, ys: seq<Order>, b: Book, j: nat)
    requires j < |ys| && Pairable(pass, x, ys[j])
    ensures Settled(x, ys[j], Row(pass, x, ys, b).used)
  {
    var b' := Visit(pass, x, ys[0], b);
    if j == 0 {
      RowExtends(pass, x, ys[1..], b');
      Stays(x, b', Row(pass, x, ys, b));
      Stays(ys[0], b', Row(pass, x, ys, b));
    } else {
      RowSettles(pass, x, ys[1..], b', j - 1);
    }
  }

  lemma {:induction false} ScanSettles(pass: Pass, xs: seq<Order>, ys: seq<Order>, b: Book, i: nat, j: nat)
    requires i < |xs| && j < |ys| && Pairable(pass, xs[i], ys[j])
    ensures Settled(xs[i], ys[j], Scan(pass, xs, ys, b).used)
  {
    var b' := Row(pass, xs[0], ys, b);
    if i == 0 {
      RowSettles(pass, xs[0], ys, b, j);
      ScanExtends(pass, xs[1..], ys, b');
      Stays(xs[0], b', Scan(pass, xs, ys, b));
      Stays(ys[j], b', Scan(pass, xs, ys, b));
    } else {
      ScanSettles(pass, xs[1..], ys, b', i - 1, j);
    }
  }

  lemma PassesExtend(limits: seq<Order>, markets: seq<Order>)
    ensures Extends(EMPTY_BOOK, AfterSells(limits, markets))
    ensures Extends(AfterSells(limits, markets), AfterMarkets(limits, markets))
    ensures Extends(AfterSells(limits, markets), MatchSpec(limits, markets))
    ensures Extends(AfterMarkets(limits, markets), MatchSpec(limits, markets))
  {
    ScanExtends(MarketPass, MarketSells(markets), LimitBids(limits), EMPTY_BOOK);
    ScanExtends(MarketPass, MarketBuys(markets), LimitAsks(limits), AfterSells(limits, markets));
    ScanExtends(LimitPass, LimitBids(limits), LimitAsks(limits), AfterMarkets(limits, markets));
  }

  lemma PairSettled(pass: Pass, xs: seq<Order>, ys: seq<Order>, start: Book, final: Book, x: Order, y: Order)
    requires x in xs && y in ys && Pairable(pass, x, y) && Extends(Scan(pass, xs, ys, start), final)
    ensures Settled(x, y, final.used)
  {
    var i :| 0 <= i < |xs| && xs[i] == x;
    var j :| 0 <= j < |ys| && ys[j] == y;
    ScanSettles(pass, xs, ys, start, i, j);
    Stays(x, Scan(pass, xs, ys, start), final);
    Stays(y, Scan(pass, xs, ys, start), final);
  }

  /**
   * Nothing tradable is left on the table: of a crossing bid and ask of different owners one is
   * exhausted, and so is a market order or each opposite limit of another owner.
   */
  lemma Maximality(limits: seq<Order>, markets: seq<Order>, x: Order, y: Order)
    requires x.owner != y.owner && x.isLong != y.isLong && y in limits
    requires x in markets || (x in limits && x.isLong && x.limitPrice >= y.limitPrice)
    ensures var out := MatchSpec(limits, markets).out; Remaining(x, out) <= 0 || Remaining(y, out) <= 0
  {
    SidesSorted(limits);
    LeftRemains(limits, markets);
    PassesExtend(limits, markets);
    var bids, asks, final := LimitBids(limits), LimitAsks(limits), MatchSpec(limits, markets);
    if x !in markets {
      PairSettled(LimitPass, bids, asks, AfterMarkets(limits, markets), final, x, y);
    } else if x.isLong {
      PairSettled(MarketPass, MarketBuys(markets), asks, AfterSells(limits, markets), final, x, y);
    } else {
      PairSettled(MarketPass, MarketSells(markets), bids, EMPTY_BOOK, final, x, y);
    }
  }

  // ----- priority -----

  /** Match `n` of the row pairs x with ys[j], and every partner of x before j is exhausted. */
  lemma {:induction false} RowOrigin(pass: Pass, x: Order, ys: seq<Order>, b: Book, n: nat) returns (j: nat)
    requires |b.out| <= n < |Row(pass, x, ys, b).out|
    ensures var b' := Row(pass, x, ys, b);
      && j < |ys| && Fillable(pass, x, ys[j], b.used)
      && b'.out[n] == MakeMatch(pass, x, ys[j], b'.out[n].fillSize)
      && forall k :: 0 <= k < j && Pairable(pass, x, ys[k]) ==> Left(ys[k], b'.used) <= 0
  {
    var b1 := Visit(pass, x, ys[0], b);
    var b' := Row(pass, x, ys, b);
    RowExtends(pass, x, ys[1..], b1);
    if n < |b1.out| {
      j := 0;
      assert b'.out[n] == b1.out[n];
    } else {
      var j' := RowOrigin(pass, x, ys[1..], b1, n);
      j := j' + 1;
      forall k | 0 <= k < j && Pairable(pass, x, ys[k]) ensures Left(ys[k], b'.used) <= 0 {
        if k == 0 {
          Stays(ys[0], b1, b');
        } else {
          assert ys[k] == ys[1..][k - 1];
        }
      }
    }
  }

  /** Match `n` of the scan pairs xs[i] with ys[j], and every earlier partner of either is exhausted. */
  lemma {:induction false} ScanOrigin(pass: Pass, xs: seq<Order>, ys: seq<Order>, b: Book, n: nat)
    returns (i: nat, j: nat)
    requires |b.out| <= n < |Scan(pass, xs, ys, b).out|
    ensures var b' := Scan(pass, xs, ys, b);
      && i < |xs| && j < |ys| && Fillable(pass, xs[i], ys[j], b.used)
      && b'.out[n] == MakeMatch(pass, xs[i], ys[j], b'.out[n].fillSize)
      && (forall k :: 0 <= k < j && Pairable(pass, xs[i], ys[k]) ==> Left(ys[k], b'.used) <= 0)
      && (forall k :: 0 <= k < i && Pairable(pass, xs[k], ys[j]) ==> Left(xs[k], b'.used) <= 0)
  {
    var b1 := Row(pass, xs[0], ys, b);
    var b' := Scan(pass, xs, ys, b);
    RowExtends(pass, xs[0], ys, b);
    ScanExtends(pass, xs[1..], ys, b1);
    if n < |b1.out| {
      i := 0;
      j := RowOrigin(pass, xs[0], ys, b, n);
      assert b'.out[n] == b1.out[n];
      forall k | 0 <= k < j && Pairable(pass, xs[0], ys[k]) ensures Left(ys[k], b'.used) <= 0 {
        Stays(ys[k], b1, b');
      }
    } else {
      var i';
      i', j := ScanOrigin(pass, xs[1..], ys, b1, n);
      i := i' + 1;
      forall k | 0 <= k < i && Pairable(pass, xs[k], ys[j]) ensures Left(xs[k], b'.used) <= 0 {
        if k == 0 {
          RowSettles(pass, xs[0], ys, b, j);
          Stays(xs[0], b1, b');
        } else {
          assert xs[k] == xs[1..][k - 1];
        }
      }
    }
  }

  /** The three scans of one call. */
  datatype Phase = SellPhase | BuyPhase | LimitPhase

  function PassOf(phase: Phase): Pass { if phase == LimitPhase then LimitPass else MarketPass }

  function Outer(phase: Phase, limits: seq<Order>, markets: seq<Order>): seq<Order> {
    match phase
    case SellPhase => MarketSells(markets)
    case BuyPhase => MarketBuys(markets)
    case LimitPhase => LimitBids(limits)
  }

  function Inner(phase: Phase, limits: seq<Order>): seq<Order> {
    if phase == SellPhase then LimitBids(limits) else LimitAsks(limits)
  }

  function PhaseOf(limits: seq<Order>, markets: seq<Order>, n: nat): Phase {
    if n < |AfterSells(limits, markets).out| then SellPhase
    else if n < |AfterMarkets(limits, markets).out| then BuyPhase
    else LimitPhase
  }

  /** Match `n` pairs two orders of its phase, and every earlier partner of either ends exhausted. */
  ghost predicate OriginAt(limits: seq<Order>, markets: seq<Order>, n: nat, i: nat, j: nat)
    requires n < |MatchSpec(limits, markets).out|
  {
    var phase, b := PhaseOf(limits, markets, n), MatchSpec(limits, markets);
    var pass, xs, ys := PassOf(phase), Outer(phase, limits, markets), Inner(phase, limits);
    && i < |xs| && j < |ys| && Pairable(pass, xs[i], ys[j])
    && b.out[n] == MakeMatch(pass, xs[i], ys[j], b.out[n].fillSize)
    && (forall k :: 0 <= k < j && Pairable(pass, xs[i], ys[k]) ==> Left(ys[k], b.used) <= 0)
    && (forall k :: 0 <= k < i && Pairable(pass, xs[k], ys[j]) ==> Left(xs[k], b.used) <= 0)
  }

  lemma Origin(limits: seq<Order>, markets: seq<Order>, n: nat) returns (i: nat, j: nat)
    requires n < |MatchSpec(limits, markets).out|
    ensures OriginAt(limits, markets, n, i, j)
  {
    PassesExtend(limits, markets);
    var phase := PhaseOf(limits, markets, n);
    var pass, xs, ys := PassOf(phase), Outer(phase, limits, markets), Inner(phase, limits);
    var b1, b2, b3 := AfterSells(limits, markets), AfterMarkets(limits, markets), MatchSpec(limits, markets);
    var start := if phase == SellPhase then EMPTY_BOOK else if phase == BuyPhase then b1 else b2;
    var end := Scan(pass, xs, ys, start);
    assert Extends(end, b3) && end.out[n] == b3.out[n];
    i, j := ScanOrigin(pass, xs, ys, start, n);
    forall k | 0 <= k < j && Pairable(pass, xs[i], ys[k]) ensures Left(ys[k], b3.used) <= 0 { Stays(ys[k], end, b3); }
    forall k | 0 <= k < i && Pairable(pass, xs[k], ys[j]) ensures Left(xs[k], b3.used) <= 0 { Stays(xs[k], end, b3); }
  }

  /** Strictly better in price, or as good and strictly older. */
  predicate BetterBid(a: Order, b: Order) {
    a.limitPrice > b.limitPrice || (a.limitPrice == b.limitPrice && a.createdAt < b.createdAt)
  }

  predicate BetterAsk(a: Order, b: Order) {
    a.limitPrice < b.limitPrice || (a.limitPrice == b.limitPrice && a.createdAt < b.createdAt)
  }

  lemma Earlier(le: (Order, Order) -> bool, s: seq<Order>, a: Order, k: nat) returns (i: nat)
    requires Sorted(le, s) && le(a, a) && a in s && k < |s| && !le(s[k], a)
    ensures i < k && s[i] == a
  {
    i :| 0 <= i < |s| && s[i] == a;
  }

  lemma PriorityAmongBids(limits: seq<Order>, markets: seq<Order>, n: nat, better: Order)
    requires Loaded(limits, markets) && n < |MatchSpec(limits, markets).out|
    requires better in limits && better.isLong
    requires var m := MatchSpec(limits, markets).out[n];
      m.Bid() in limits && better.owner != m.Ask().owner && BetterBid(better, m.Bid())
    ensures Left(better, MatchSpec(limits, markets).used) <= 0
  {
    SidesSorted(limits);
    var i, j := Origin(limits, markets, n);
    match PhaseOf(limits, markets, n) {
      case SellPhase => var k := Earlier(BidBefore, LimitBids(limits), better, j);
      case BuyPhase => assert false;
      case LimitPhase => var k := Earlier(BidBefore, LimitBids(limits), better, i);
    }
  }

  lemma PriorityAmongAsks(limits: seq<Order>, markets: seq<Order>, n: nat, better: Order)
    requires Loaded(limits, markets) && n < |MatchSpec(limits, markets).out|
    requires better in limits && !better.isLong
    requires var m := MatchSpec(limits, markets).out[n];
      m.Ask() in limits && better.owner != m.Bid().owner && BetterAsk(better, m.Ask())
    ensures Left(better, MatchSpec(limits, markets).used) <= 0
  {
    SidesSorted(limits);
    var i, j := Origin(limits, markets, n);
    match PhaseOf(limits, markets, n) {
      case SellPhase => assert false;
      case BuyPhase => var k := Earlier(AskBefore, LimitAsks(limits), better, j);
      case LimitPhase => var k := Earlier(AskBefore, LimitAsks(limits), better, j);
    }
  }

  /**
   * Price-time priority. If match `n` trades a resting limit, then every strictly better limit on
   * that side is exhausted unless its owner is the counterparty's; if two limits traded, this
   * holds on both sides.
   */
  lemma PriceTimePriority(limits: seq<Order>, markets: seq<Order>, n: nat, better: Order)
    requires Loaded(limits, markets) && n < |MatchSpec(limits, markets).out|
    requires better in limits
    requires var m := MatchSpec(limits, markets).out[n];
      if better.isLong then m.Bid() in limits && better.owner != m.Ask().owner && BetterBid(better, m.Bid())
      else m.Ask() in limits && better.owner != m.Bid().owner && BetterAsk(better, m.Ask())
    ensures Remaining(better, MatchSpec(limits, markets).out) == 0
  {
    MatchSpecInv(limits, markets);
    LeftRemains(limits, markets);
    if better.isLong {
      PriorityAmongBids(limits, markets, n, better);
    } else {
      PriorityAmongAsks(limits, markets, n, better);
    }
  }

  lemma MarketTakerPhase(limits: seq<Order>, markets: seq<Order>, n: nat, i: nat, j: nat)
    requires Loaded(limits, markets) && n < |MatchSpec(limits, markets).out|
    requires OriginAt(limits, markets, n, i, j)
    requires MatchSpec(limits, markets).out[n].taker in markets
    ensures var m := MatchSpec(limits, markets).out[n];
      var phase := if m.taker.isLong then BuyPhase else SellPhase;
      && PhaseOf(limits, markets, n) == phase
      && Outer(phase, limits, markets)[i] == m.taker && Inner(phase, limits)[j] == m.maker && m.maker in limits
  {
    SidesSorted(limits);
    match PhaseOf(limits, markets, n) {
      case SellPhase => assert !MarketSells(markets)[i].isLong;
      case BuyPhase => assert MarketBuys(markets)[i].isLong;
      case LimitPhase => assert false;
    }
  }

  function OnSide(long: bool): Order -> bool { (o: Order) => o.isLong == long }

  lemma {:induction false} SameFilter(a: Order -> bool, b: Order -> bool, s: seq<Order>)
    requires forall o :: a(o) == b(o)
    ensures Filter(a, s) == Filter(b, s)
  {
    if s != [] { SameFilter(a, b, s[1..]); }
  }

  lemma MarketSides(markets: seq<Order>)
    ensures MarketBuys(markets) == Filter(OnSide(true), markets)
    ensures MarketSells(markets) == Filter(OnSide(false), markets)
  {
    SameFilter((o: Order) => o.isLong, OnSide(true), markets);
    SameFilter((o: Order) => !o.isLong, OnSide(false), markets);
  }

  /** The market taker of match `n` is number `i` of its side; who is before it and could trade is exhausted. */
  ghost predicate QueuedAt(limits: seq<Order>, markets: seq<Order>, n: nat, i: nat)
    requires n < |MatchSpec(limits, markets).out|
  {
    var m, b := MatchSpec(limits, markets).out[n], MatchSpec(limits, markets);
    var queue := Filter(OnSide(m.taker.isLong), markets);
    && i < |queue| && queue[i] == m.taker && m.maker in limits
    && forall k :: 0 <= k < i && queue[k].owner != m.maker.owner ==> Left(queue[k], b.used) <= 0
  }

  lemma Queued(limits: seq<Order>, markets: seq<Order>, n: nat) returns (i: nat)
    requires Loaded(limits, markets) && n < |MatchSpec(limits, markets).out|
    requires MatchSpec(limits, markets).out[n].taker in markets
    ensures QueuedAt(limits, markets, n, i)
  {
    var j;
    i, j := Origin(limits, markets, n);
    MarketTakerPhase(limits, markets, n, i, j);
    MarketSides(markets);
  }

  /** Of two market orders of one side, the one loaded first is served first, unless it cannot trade with the limit. */
  lemma MarketQueuePriority(limits: seq<Order>, markets: seq<Order>, n: nat) returns (p: nat)
    requires Loaded(limits, markets) && n < |MatchSpec(limits, markets).out|
    requires MatchSpec(limits, markets).out[n].taker in markets
    ensures var out := MatchSpec(limits, markets).out;
      var m := out[n];
      && p < |markets| && markets[p] == m.taker && m.maker in limits
      && forall k :: 0 <= k < p && markets[k].isLong == m.taker.isLong && markets[k].owner != m.maker.owner ==>
           Remaining(markets[k], out) <= 0
  {
    var b := MatchSpec(limits, markets);
    var m := b.out[n];
    var i := Queued(limits, markets, n);
    LeftRemains(limits, markets);
    FilterPlaces(OnSide(m.taker.isLong), markets);
    p := Places(OnSide(m.taker.isLong), markets)[i];
    forall k | 0 <= k < p && markets[k].isLong == m.taker.isLong && markets[k].owner != m.maker.owner
      ensures Remaining(markets[k], b.out) <= 0
    {
      var k' := KeptBefore(OnSide(m.taker.isLong), markets, i, k);
      assert Left(markets[k], b.used) <= 0;
    }
  }

  // ----- ties -----

  function Before(long: bool): (Order, Order) -> bool { if long then BidBefore else AskBefore }

  function LimitSide(limits: seq<Order>, long: bool): seq<Order> {
    if long then LimitBids(limits) else LimitAsks(limits)
  }

  lemma LimitSides(limits: seq<Order>, long: bool)
    ensures LimitSide(limits, long) == Sort(Before(long), Filter(OnSide(long), limits))
    ensures TotalPreorder(Before(long))
  {
    SameFilter((o: Order) => o.isLong, OnSide(true), limits);
    SameFilter((o: Order) => !o.isLong, OnSide(false), limits);
  }

  /** The limit `o` stands at `at` on its sorted side; who is before it at its price and could trade is exhausted. */
  ghost predicate StandsAt(limits: seq<Order>, used: Usage, o: Order, other: Order, at: nat) {
    var side := LimitSide(limits, o.isLong);
    && at < |side| && side[at] == o
    && forall k :: 0 <= k < at && side[k].owner != other.owner && side[k].limitPrice == o.limitPrice ==>
         Left(side[k], used) <= 0
  }

  lemma Stands(limits: seq<Order>, markets: seq<Order>, n: nat, o: Order, other: Order) returns (at: nat)
    requires Loaded(limits, markets) && n < |MatchSpec(limits, markets).out| && o in limits
    requires var m := MatchSpec(limits, markets).out[n];
      (o == m.maker && other == m.taker) || (o == m.taker && other == m.maker)
    ensures StandsAt(limits, MatchSpec(limits, markets).used, o, other, at)
  {
    SidesSorted(limits);
    var i, j := Origin(limits, markets, n);
    var phase := PhaseOf(limits, markets, n);
    if phase == LimitPhase && o.isLong {
      at := i;
      assert o == LimitBids(limits)[i] && other == LimitAsks(limits)[j];
    } else {
      at := j;
      OuterInner(limits, markets, phase, Outer(phase, limits, markets)[i], o);
      assert o == Inner(phase, limits)[j] && other == Outer(phase, limits, markets)[i];
      assert Inner(phase, limits) == LimitSide(limits, o.isLong);
    }
  }

  /** Of the side, price and age of `o`, and able to trade with its counterparty. */
  predicate Ties(a: Order, o: Order, other: Order) {
    && a.isLong == o.isLong && a.owner != other.owner
    && a.limitPrice == o.limitPrice && a.createdAt == o.createdAt
  }

  /** Limits of the same side, price and age are served in the order in which they were loaded. */
  lemma TiesInOrder(limits: seq<Order>, markets: seq<Order>, n: nat, o: Order, other: Order) returns (q: nat)
    requires Loaded(limits, markets) && n < |MatchSpec(limits, markets).out| && o in limits
    requires var m := MatchSpec(limits, markets).out[n];
      (o == m.maker && other == m.taker) || (o == m.taker && other == m.maker)
    ensures q < |limits| && limits[q] == o
    ensures forall p :: 0 <= p < q && Ties(limits[p], o, other) ==>
      Remaining(limits[p], MatchSpec(limits, markets).out) <= 0
  {
    var b := MatchSpec(limits, markets);
    var at := Stands(limits, markets, n, o, other);
    LeftRemains(limits, markets);
    q := TiedBefore(limits, b.used, o, other, at);
  }

  lemma TiedBefore(limits: seq<Order>, used: Usage, o: Order, other: Order, at: nat) returns (q: nat)
    requires StandsAt(limits, used, o, other, at)
    ensures q < |limits| && limits[q] == o
    ensures forall p :: 0 <= p < q && Ties(limits[p], o, other) ==> Left(limits[p], used) <= 0
  {
    var kept, le := Filter(OnSide(o.isLong), limits), Before(o.isLong);
    LimitSides(limits, o.isLong);
    var f := TiesKeepOrder(le, kept, at);
    FilterPlaces(OnSide(o.isLong), limits);
    q := Places(OnSide(o.isLong), limits)[f];
    forall p | 0 <= p < q && Ties(limits[p], o, other)
      ensures Left(limits[p], used) <= 0
    {
      var f' := KeptBefore(OnSide(o.isLong), limits, f, p);
      assert le(kept[f], kept[f']) && le(kept[f'], kept[f]);
      var k :| 0 <= k < at && Sort(le, kept)[k] == kept[f'];
    }
  }

  // ----- the stages of one call -----

  /** Market sells, then market buys, then limits against limits. */
  function Stage(m: Match): nat {
    if m.taker.limitPrice != 0 then 2 else if m.taker.isLong then 1 else 0
  }

  function StageOf(phase: Phase): nat {
    match phase case SellPhase => 0 case BuyPhase => 1 case LimitPhase => 2
  }

  lemma OuterInner(limits: seq<Order>, markets: seq<Order>, phase: Phase, x: Order, y: Order)
    requires Loaded(limits, markets) && x in Outer(phase, limits, markets) && y in Inner(phase, limits)
    ensures y.limitPrice != 0
    ensures match phase
      case SellPhase => x.limitPrice == 0 && !x.isLong
      case BuyPhase => x.limitPrice == 0 && x.isLong
      case LimitPhase => x.limitPrice != 0
  {
    SidesSorted(limits);
  }

  lemma StageSeen(limits: seq<Order>, markets: seq<Order>, n: nat)
    requires Loaded(limits, markets) && n < |MatchSpec(limits, markets).out|
    ensures Stage(MatchSpec(limits, markets).out[n]) == StageOf(PhaseOf(limits, markets, n))
  {
    var i, j := Origin(limits, markets, n);
    var phase := PhaseOf(limits, markets, n);
    var x, y := Outer(phase, limits, markets)[i], Inner(phase, limits)[j];
    OuterInner(limits, markets, phase, x, y);
  }

  /** Market orders take their liquidity before any limits cross, and sells before buys. */
  lemma StagesInOrder(limits: seq<Order>, markets: seq<Order>, k: nat, n: nat)
    requires Loaded(limits, markets) && k <= n < |MatchSpec(limits, markets).out|
    ensures Stage(MatchSpec(limits, markets).out[k]) <= Stage(MatchSpec(limits, markets).out[n])
  {
    PassesExtend(limits, markets);
    StageSeen(limits, markets, k);
    StageSeen(limits, markets, n);
  }

  // ----- each match exhausts an order -----

  ghost function Open(all: set<Order>, used: Usage): set<Order> {
    set o | o in all && Left(o, used) > 0
  }

  /** Every match closed an open order, and the last one left fewer open orders than it found. */
  ghost predicate Counted(all: set<Order>, total: nat, b: Book) {
    |b.out| + |Open(all, b.used)| <= total && (b.out != [] ==> |b.out| < total)
  }

  lemma VisitCounted(all: set<Order>, total: nat, pass: Pass, x: Order, y: Order, b: Book)
    requires x in all && y in all && Counted(all, total, b)
    ensures Counted(all, total, Visit(pass, x, y, b))
  {
    if Fillable(pass, x, y, b.used) {
      var b' := Visit(pass, x, y, b);
      var before, after := Open(all, b.used), Open(all, b'.used);
      assert Extends(b, b');
      forall o | o in after ensures o in before { Stays(o, b, b'); }
      assert x in before && y in before && (x !in after || y !in after);
      if y !in after {
        Fewer(after, before, y);
        if x !in after { Fewer(after + {y}, before, x); }
      } else {
        Fewer(after, before, x);
        assert |after| >= |{y}| by { Subset({y}, after); }
      }
      if y !in after && x in after { Subset({x}, after); }
    }
  }

  lemma Subset<T>(a: set<T>, b: set<T>)
    requires a <= b
    ensures |a| <= |b|
  {
    assert b == a + (b - a);
  }

  lemma Fewer<T>(a: set<T>, b: set<T>, x: T)
    requires a <= b && x in b && x !in a
    ensures |a| + 1 <= |b|
  {
    assert |a + {x}| == |a| + 1;
    Subset(a + {x}, b);
  }

  lemma {:induction false} RowCounted(all: set<Order>, total: nat, pass: Pass, x: Order, ys: seq<Order>, b: Book)
    requires x in all && (forall y :: y in ys ==> y in all) && Counted(all, total, b)
    ensures Counted(all, total, Row(pass, x, ys, b))
  {
    if ys != [] {
      VisitCounted(all, total, pass, x, ys[0], b);
      RowCounted(all, total, pass, x, ys[1..], Visit(pass, x, ys[0], b));
    }
  }

  lemma {:induction false} ScanCounted(all: set<Order>, total: nat, pass: Pass, xs: seq<Order>, ys: seq<Order>, b: Book)
    requires (forall x :: x in xs ==> x in all) && (forall y :: y in ys ==> y in all) && Counted(all, total, b)
    ensures Counted(all, total, Scan(pass, xs, ys, b))
  {
    if xs != [] {
      RowCounted(all, total, pass, xs[0], ys, b);
      ScanCounted(all, total, pass, xs[1..], ys, Row(pass, xs[0], ys, b));
    }
  }

  /** One call emits fewer matches than it was given orders with size left. */
  lemma FewerMatchesThanOrders(limits: seq<Order>, markets: seq<Order>)
    requires MatchSpec(limits, markets).out != []
    ensures |MatchSpec(limits, markets).out| < |Open(AllOrders(limits, markets), map[])|
  {
    var all := AllOrders(limits, markets);
    var total := |Open(all, map[])|;
    SidesSorted(limits);
    ScanCounted(all, total, MarketPass, MarketSells(markets), LimitBids(limits), EMPTY_BOOK);
    ScanCounted(all, total, MarketPass, MarketBuys(markets), LimitAsks(limits), AfterSells(limits, markets));
    ScanCounted(all, total, LimitPass, LimitBids(limits), LimitAsks(limits), AfterMarkets(limits, markets));
  }

  // ----- price bounds -----

  /**
   * The maker's price rules. Two limits trade between the ask's limit and the bid's limit, and the
   * maker is the older one (the bid, if they are of the same age); a market order trades at the
   * resting limit.
   */
  lemma PriceWithinLimits(limits: seq<Order>, markets: seq<Order>, n: nat)
    requires n < |MatchSpec(limits, markets).out|
    ensures var m := MatchSpec(limits, markets).out[n];
      && m.maker in limits && m.fillPrice == m.maker.limitPrice
      && (m.taker in markets || (m.taker in limits && m.Ask().limitPrice <= m.fillPrice <= m.Bid().limitPrice
            && m.maker.createdAt <= m.taker.createdAt && (m.maker.createdAt == m.taker.createdAt ==> m.maker.isLong)))
  {
    SidesSorted(limits);
    var i, j := Origin(limits, markets, n);
  }

  lemma LoadedInBand(limits: seq<Order>, markets: seq<Order>, oracle: Option<nat>, maxDeviationBps: nat)
    requires Loaded(limits, markets)
    ensures Loaded(InBand(limits, oracle, maxDeviationBps), markets)
  {
  }

  /** The price deviates from the oracle's by at most so many basis points. */
  predicate Deviates(price: int, oracle: nat, maxDeviationBps: nat) {
    -(oracle * maxDeviationBps) <= 10_000 * (price - oracle) <= oracle * maxDeviationBps
  }

  /** The floored band holds exactly the prices that deviate no more. */
  lemma BandMeaning(price: int, oracle: nat, maxDeviationBps: nat)
    ensures WithinOracleBand(price, oracle, maxDeviationBps) <==> Deviates(price, oracle, maxDeviationBps)
  {
    var product := oracle * maxDeviationBps;
    assert product == 10_000 * (product / 10_000) + product % 10_000;
  }

  /** The tick's filter keeps exactly the limits inside the band, in the order in which they were loaded. */
  lemma PreFilterIff(limits: seq<Order>, oracle: nat, maxDeviationBps: nat, o: Order)
    ensures o in InBand(limits, Some(oracle), maxDeviationBps)
       <==> o in limits && Deviates(o.limitPrice, oracle, maxDeviationBps)
    ensures InBand(limits, None, maxDeviationBps) == []
  {
    BandMeaning(o.limitPrice, oracle, maxDeviationBps);
  }

  lemma PreFilterInOrder(limits: seq<Order>, oracle: nat, maxDeviationBps: nat, i: nat, j: nat) returns (p: nat, q: nat)
    requires i < j < |InBand(limits, Some(oracle), maxDeviationBps)|
    ensures p < q < |limits|
    ensures limits[p] == InBand(limits, Some(oracle), maxDeviationBps)[i]
    ensures limits[q] == InBand(limits, Some(oracle), maxDeviationBps)[j]
  {
    var source := Some(oracle);
    var near := (o: Order) => WithinOracleBand(o.limitPrice, oracle, maxDeviationBps);
    SameFilter((o: Order) => WithinOracleBand(o.limitPrice, source.value, maxDeviationBps), near, limits);
    FilterPlaces(near, limits);
    p, q := Places(near, limits)[i], Places(near, limits)[j];
  }

  /**
   * A tick matches only inside the oracle band, so its second band check discards nothing, and
   * without an oracle price it matches nothing at all.
   */
  lemma TickStaysInBand(limits: seq<Order>, markets: seq<Order>, oracle: Option<nat>, maxDeviationBps: nat, n: nat)
    requires Loaded(limits, markets)
    ensures var out := MatchSpec(InBand(limits, oracle, maxDeviationBps), markets).out;
      n < |out| ==>
        && oracle.Some? && Deviates(out[n].fillPrice, oracle.value, maxDeviationBps)
        && WithinOracleBand(out[n].fillPrice, oracle.value, maxDeviationBps)
  {
    LoadedInBand(limits, markets, oracle, maxDeviationBps);
    var out := MatchSpec(InBand(limits, oracle, maxDeviationBps), markets).out;
    if n < |out| {
      PriceWithinLimits(InBand(limits, oracle, maxDeviationBps), markets, n);
      if oracle.Some? { BandMeaning(out[n].fillPrice, oracle.value, maxDeviationBps); }
    }
  }
}
