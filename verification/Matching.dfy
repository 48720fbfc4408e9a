/**
 * The order book of client/scripts/matcher-service.ts: two-pass price-time-priority matching.
 *
 * `MatchAll` is the service's algorithm with its early exits. `MatchSpec` visits every pair of
 * orders and exits nowhere. The method's contract says that both produce the same matches, and
 * MatchingTheorems.dfy proves what those matches are worth.
 */
module Matching {
  import opened Wrappers
  import opened Sequences

  /** The primary key `owner:nonce` of an order. */
  datatype OrderId = OrderId(owner: string, nonce: nat)

  /** Sizes are in 1e7 units, prices in 1e18 units; limit price 0 marks a market order. */
  datatype Order = Order(
    owner: string, nonce: nat, marketId: nat, isLong: bool, size: int, limitPrice: int,
    reduceOnly: bool, expiryTs: nat, filledSize: int, createdAt: int, signature: Option<string>)
  {
    function Id(): OrderId { OrderId(owner, nonce) }
  }

  datatype Match = Match(maker: Order, taker: Order, fillSize: int, fillPrice: int)
  {
    predicate Touches(id: OrderId) { maker.Id() == id || taker.Id() == id }

    function Bid(): Order { if maker.isLong then maker else taker }

    function Ask(): Order { if maker.isLong then taker else maker }
  }

  // ----- price-time priority -----

  predicate BidBefore(a: Order, b: Order) {
    a.limitPrice > b.limitPrice || (a.limitPrice == b.limitPrice && a.createdAt <= b.createdAt)
  }

  predicate AskBefore(a: Order, b: Order) {
    a.limitPrice < b.limitPrice || (a.limitPrice == b.limitPrice && a.createdAt <= b.createdAt)
  }

  function LimitBids(limits: seq<Order>): seq<Order> {
    Sort(BidBefore, Filter((o: Order) => o.isLong, limits))
  }

  function LimitAsks(limits: seq<Order>): seq<Order> {
    Sort(AskBefore, Filter((o: Order) => !o.isLong, limits))
  }

  function MarketSells(markets: seq<Order>): seq<Order> {
    Filter((o: Order) => !o.isLong, markets)
  }

  function MarketBuys(markets: seq<Order>): seq<Order> {
    Filter((o: Order) => o.isLong, markets)
  }

  lemma SidesSorted(limits: seq<Order>)
    ensures Sorted(BidBefore, LimitBids(limits)) && Sorted(AskBefore, LimitAsks(limits))
    ensures forall o :: o in LimitBids(limits) <==> o in limits && o.isLong
    ensures forall o :: o in LimitAsks(limits) <==> o in limits && !o.isLong
  {
    SortSorted(BidBefore, Filter((o: Order) => o.isLong, limits));
    SortSorted(AskBefore, Filter((o: Order) => !o.isLong, limits));
  }

  // ----- the book: what is used up so far, and the matches so far -----

  type Usage = map<OrderId, int>

  datatype Book = Book(used: Usage, out: seq<Match>)

  const EMPTY_BOOK := Book(map[], [])

  function UsedBy(used: Usage, id: OrderId): int {
    if id in used then used[id] else 0
  }

  function Add(used: Usage, id: OrderId, delta: int): Usage {
    used[id := UsedBy(used, id) + delta]
  }

  function Left(o: Order, used: Usage): int {
    o.size - o.filledSize - UsedBy(used, o.Id())
  }

  function Min(a: int, b: int): int { if a < b then a else b }

  // ----- the simple form: visit every pair -----

  /** MarketPass pairs a market order (x) with a resting limit (y), LimitPass a bid (x) with an ask (y). */
  datatype Pass = MarketPass | LimitPass

  predicate Pairable(pass: Pass, x: Order, y: Order) {
    x.owner != y.owner && (pass.LimitPass? ==> x.limitPrice >= y.limitPrice)
  }

  /** The resting limit makes the market in MarketPass, the older order in LimitPass; the maker's price rules. */
  function MakeMatch(pass: Pass, x: Order, y: Order, fillSize: int): Match {
    if pass.LimitPass? && x.createdAt <= y.createdAt
    then Match(x, y, fillSize, x.limitPrice)
    else Match(y, x, fillSize, y.limitPrice)
  }

  predicate Fillable(pass: Pass, x: Order, y: Order, used: Usage) {
    Pairable(pass, x, y) && Left(x, used) > 0 && Left(y, used) > 0
  }

  function Visit(pass: Pass, x: Order, y: Order, b: Book): Book {
    if Fillable(pass, x, y, b.used) then
      var f := Min(Left(x, b.used), Left(y, b.used));
      Book(Add(Add(b.used, x.Id(), f), y.Id(), f), b.out + [MakeMatch(pass, x, y, f)])
    else b
  }

  function Row(pass: Pass, x: Order, ys: seq<Order>, b: Book): Book {
    if ys == [] then b else Row(pass, x, ys[1..], Visit(pass, x, ys[0], b))
  }

  function Scan(pass: Pass, xs: seq<Order>, ys: seq<Order>, b: Book): Book {
    if xs == [] then b else Scan(pass, xs[1..], ys, Row(pass, xs[0], ys, b))
  }

  function AfterSells(limits: seq<Order>, markets: seq<Order>): Book {
    Scan(MarketPass, MarketSells(markets), LimitBids(limits), EMPTY_BOOK)
  }

  function AfterMarkets(limits: seq<Order>, markets: seq<Order>): Book {
    Scan(MarketPass, MarketBuys(markets), LimitAsks(limits), AfterSells(limits, markets))
  }

  function MatchSpec(limits: seq<Order>, markets: seq<Order>): Book {
    Scan(LimitPass, LimitBids(limits), LimitAsks(limits), AfterMarkets(limits, markets))
  }

  // ----- why the early exits lose nothing -----

  lemma AddCommutes(used: Usage, a: OrderId, b: OrderId, delta: int)
    ensures Add(Add(used, a, delta), b, delta) == Add(Add(used, b, delta), a, delta)
  {
    if a != b {
      assert used[a := UsedBy(used, a) + delta][b := UsedBy(used, b) + delta]
          == used[b := UsedBy(used, b) + delta][a := UsedBy(used, a) + delta];
    }
  }

  /** `break` once the outer order is exhausted: the rest of its row changes nothing. */
  lemma {:induction false} ExhaustedRowIdle(pass: Pass, x: Order, ys: seq<Order>, b: Book)
    requires Left(x, b.used) <= 0
    ensures Row(pass, x, ys, b) == b
  {
    if ys != [] {
      ExhaustedRowIdle(pass, x, ys[1..], b);
    }
  }

  /** `break` at the first ask above the bid: sorted asks only get dearer. */
  lemma {:induction false} UncrossedRowIdle(x: Order, ys: seq<Order>, b: Book)
    requires Sorted(AskBefore, ys)
    requires ys != [] && x.limitPrice < ys[0].limitPrice
    ensures Row(LimitPass, x, ys, b) == b
  {
    if |ys| > 1 {
      assert AskBefore(ys[0], ys[1]);
      UncrossedRowIdle(x, ys[1..], b);
    } else {
      assert ys[1..] == [];
    }
  }

  // ----- the service's form -----

  method MatchAll(limitOrders: seq<Order>, marketOrders: seq<Order>) returns (results: seq<Match>)
    ensures results == MatchSpec(limitOrders, marketOrders).out
  {
    var pendingFills: Usage := map[];
    results := [];
    var limitBids := LimitBids(limitOrders);
    var limitAsks := LimitAsks(limitOrders);
    SidesSorted(limitOrders);

    var sells := MarketSells(marketOrders);
    ghost var target := AfterSells(limitOrders, marketOrders);
    for i := 0 to |sells|
      invariant Scan(MarketPass, sells[i..], limitBids, Book(pendingFills, results)) == target
    {
      pendingFills, results := TakeLiquidity(sells[i], limitBids, pendingFills, results);
    }

    var buys := MarketBuys(marketOrders);
    target := AfterMarkets(limitOrders, marketOrders);
    for i := 0 to |buys|
      invariant Scan(MarketPass, buys[i..], limitAsks, Book(pendingFills, results)) == target
    {
      pendingFills, results := TakeLiquidity(buys[i], limitAsks, pendingFills, results);
    }

    target := MatchSpec(limitOrders, marketOrders);
    for i := 0 to |limitBids|
      invariant Scan(LimitPass, limitBids[i..], limitAsks, Book(pendingFills, results)) == target
    {
      pendingFills, results := CrossBid(limitBids[i], limitAsks, pendingFills, results);
    }
  }

  /** The inner loop of both market-order passes (lines 197-207 and 212-222 differ in names only). */
  method TakeLiquidity(mo: Order, resting: seq<Order>, pending: Usage, matches: seq<Match>)
    returns (pendingFills: Usage, results: seq<Match>)
    ensures Book(pendingFills, results) == Row(MarketPass, mo, resting, Book(pending, matches))
  {
    pendingFills, results := pending, matches;
    ghost var target := Row(MarketPass, mo, resting, Book(pending, matches));
    for j := 0 to |resting|
      invariant Row(MarketPass, mo, resting[j..], Book(pendingFills, results)) == target
    {
      var lim := resting[j];
      if lim.owner == mo.owner { continue; }
      var limRem := Left(lim, pendingFills);
      var moRem := Left(mo, pendingFills);
      if limRem <= 0 || moRem <= 0 { continue; }
      var fillSize := if limRem < moRem then limRem else moRem;
      AddCommutes(pendingFills, lim.Id(), mo.Id(), fillSize);
      pendingFills := Add(pendingFills, lim.Id(), fillSize);
      pendingFills := Add(pendingFills, mo.Id(), fillSize);
      results := results + [Match(lim, mo, fillSize, lim.limitPrice)];
      if Left(mo, pendingFills) <= 0 {
        ExhaustedRowIdle(MarketPass, mo, resting[j + 1..], Book(pendingFills, results));
        break;
      }
    }
  }

  /** The inner loop of the limit-against-limit pass. */
  method CrossBid(bid: Order, asks: seq<Order>, pending: Usage, matches: seq<Match>)
    returns (pendingFills: Usage, results: seq<Match>)
    requires Sorted(AskBefore, asks)
    ensures Book(pendingFills, results) == Row(LimitPass, bid, asks, Book(pending, matches))
  {
    pendingFills, results := pending, matches;
    ghost var target := Row(LimitPass, bid, asks, Book(pending, matches));
    for j := 0 to |asks|
      invariant Row(LimitPass, bid, asks[j..], Book(pendingFills, results)) == target
    {
      var ask := asks[j];
      if bid.owner == ask.owner { continue; }
      if bid.limitPrice < ask.limitPrice {
        UncrossedRowIdle(bid, asks[j..], Book(pendingFills, results));
        break;
      }
      var bidRem := Left(bid, pendingFills);
      var askRem := Left(ask, pendingFills);
      if bidRem <= 0 || askRem <= 0 { continue; }
      var fillSize := if bidRem < askRem then bidRem else askRem;
      var makerFirst := bid.createdAt <= ask.createdAt;
      var maker := if makerFirst then bid else ask;
      var taker := if makerFirst then ask else bid;
      pendingFills := Add(pendingFills, bid.Id(), fillSize);
      pendingFills := Add(pendingFills, ask.Id(), fillSize);
      results := results + [Match(maker, taker, fillSize, maker.limitPrice)];
      if Left(bid, pendingFills) <= 0 {
        ExhaustedRowIdle(LimitPass, bid, asks[j + 1..], Book(pendingFills, results));
        break;
      }
    }
  }

  // ----- the oracle band -----

  /** Prices and the deviation are non-negative here, so the source's truncating division is the floor. */
  predicate WithinOracleBand(price: int, oracle: nat, maxDeviationBps: nat) {
    var delta := oracle * maxDeviationBps / 10_000;
    oracle - delta <= price <= oracle + delta
  }

  function InBand(limits: seq<Order>, oracle: Option<nat>, maxDeviationBps: nat): seq<Order> {
    if oracle.None? then []
    else Filter((o: Order) => WithinOracleBand(o.limitPrice, oracle.value, maxDeviationBps), limits)
  }
}
