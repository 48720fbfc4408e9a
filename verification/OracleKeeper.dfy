/**
 * Price aggregation and the publish gate of client/scripts/oracle-keeper.ts. Source prices are
 * rationals here, not floating-point numbers; what the sources answer, whether the cross-check
 * allows publication, whether the write confirms, and the clock are parameters.
 */
module OracleKeeper {
  import opened Wrappers
  import opened Sequences
  import opened BigInt

  datatype Config = Config(minSources: nat, maxSourceDeviationBps: real)

  datatype Aggregated = Aggregated(mid: real, price: int, confidence: int, sources: nat)

  predicate AtMost(a: real, b: real) { a <= b }

  /** The prices of the sources that answered. */
  function Fulfilled(responses: seq<Option<real>>): seq<real> {
    if responses == [] then []
    else (if responses[0].Some? then [responses[0].value] else []) + Fulfilled(responses[1..])
  }

  function Median(sorted: seq<real>): real
    requires sorted != []
  {
    var n := |sorted|;
    if n % 2 == 1 then sorted[(n - 1) / 2] else (sorted[n / 2 - 1] + sorted[n / 2]) / 2.0
  }

  /** Math.round */
  function Round(x: real): int { (x + 0.5).Floor }

  function SpreadBps(low: real, high: real): real
    requires low > 0.0
  {
    (high - low) / low * 10000.0
  }

  function Built(prices: seq<real>): Aggregated
    requires prices != []
  {
    var mid := Median(prices);
    var price := Round(mid * (PRICE_PRECISION as real));
    var spreadConfidence := Round((prices[|prices| - 1] - prices[0]) / 2.0 * (PRICE_PRECISION as real));
    Aggregated(mid, price, Max(spreadConfidence, TruncDiv(price, 1000)), |prices|)
  }

  /** The aggregate of at least one price, in ascending order. */
  function Combine(prices: seq<real>, config: Config): Option<Aggregated>
    requires prices != [] && prices[0] > 0.0
  {
    if SpreadBps(prices[0], prices[|prices| - 1]) > config.maxSourceDeviationBps then None else Some(Built(prices))
  }

  ghost predicate Positive(prices: seq<real>) { forall p :: p in prices ==> p > 0.0 }

  /** Too few answers, or answers too far apart, give no aggregate; the fetchers only answer with positive prices. */
  function Aggregate(responses: seq<Option<real>>, config: Config): Option<Aggregated>
    requires config.minSources > 0 && Positive(Fulfilled(responses))
  {
    var prices := Sort(AtMost, Fulfilled(responses));
    SortedPositive(Fulfilled(responses));
    if |prices| < config.minSources then None else Combine(prices, config)
  }

  lemma SortedPositive(prices: seq<real>)
    requires Positive(prices)
    ensures Sort(AtMost, prices) != [] ==> Sort(AtMost, prices)[0] > 0.0
  {
    SortSorted(AtMost, prices);
    if Sort(AtMost, prices) != [] { assert Sort(AtMost, prices)[0] in Sort(AtMost, prices); }
  }

  // ----- when there is an aggregate, and what it says -----

  /** No two answers are further apart than the deviation bound allows, measured against the lower. */
  ghost predicate Agree(prices: seq<real>, bps: real) {
    forall p, q :: p in prices && q in prices ==> 10000.0 * (q - p) <= bps * p
  }

  lemma AgreeIff(prices: seq<real>, bps: real)
    requires prices != [] && prices[0] > 0.0 && Sorted(AtMost, prices)
    ensures Agree(prices, bps) <==> SpreadBps(prices[0], prices[|prices| - 1]) <= bps
  {
    var low, high := prices[0], prices[|prices| - 1];
    assert low in prices && high in prices;
    InSorted(prices, high);
    SpreadMeaning(low, high);
    if SpreadBps(low, high) <= bps {
      forall p, q | p in prices && q in prices ensures 10000.0 * (q - p) <= bps * p {
        InSorted(prices, p);
        InSorted(prices, q);
        Widest(low, high, SpreadBps(low, high), bps, p, q);
      }
    } else {
      Wider(low, high, SpreadBps(low, high), bps);
    }
  }

  lemma Widest(low: real, high: real, spread: real, bps: real, p: real, q: real)
    requires 0.0 < low <= p <= high && low <= q <= high
    requires spread * low == 10000.0 * (high - low) && 0.0 <= spread <= bps
    ensures 10000.0 * (q - p) <= bps * p
  {
    assert (bps - spread) * low >= 0.0;
    assert bps * (p - low) >= 0.0;
  }

  lemma Wider(low: real, high: real, spread: real, bps: real)
    requires 0.0 < low && spread * low == 10000.0 * (high - low) && spread > bps
    ensures 10000.0 * (high - low) > bps * low
  {
    assert (spread - bps) * low > 0.0;
  }

  /** There is an aggregate exactly when enough sources answered and no two of them disagree, and it counts them. */
  lemma AggregateIff(responses: seq<Option<real>>, config: Config)
    requires config.minSources > 0 && Positive(Fulfilled(responses))
    ensures Aggregate(responses, config).Some?
       <==> |Fulfilled(responses)| >= config.minSources && Agree(Fulfilled(responses), config.maxSourceDeviationBps)
    ensures Aggregate(responses, config).Some? ==> Aggregate(responses, config).value.sources == |Fulfilled(responses)|
  {
    var answers := Fulfilled(responses);
    SortedAnswers(answers);
    SortedPositive(answers);
    SameAgree(answers, Sort(AtMost, answers), config.maxSourceDeviationBps);
    if |answers| >= config.minSources { CombineIff(Sort(AtMost, answers), config); }
  }

  lemma CombineIff(prices: seq<real>, config: Config)
    requires prices != [] && prices[0] > 0.0 && Sorted(AtMost, prices)
    ensures Combine(prices, config).Some? <==> Agree(prices, config.maxSourceDeviationBps)
    ensures Combine(prices, config).Some? ==> Combine(prices, config).value.sources == |prices|
  {
    AgreeIff(prices, config.maxSourceDeviationBps);
  }

  lemma SortedAnswers(answers: seq<real>)
    ensures Sorted(AtMost, Sort(AtMost, answers)) && |Sort(AtMost, answers)| == |answers|
    ensures forall p :: p in Sort(AtMost, answers) <==> p in answers
  {
    SortSorted(AtMost, answers);
    assert |multiset(Sort(AtMost, answers))| == |multiset(answers)|;
  }

  lemma SameAgree(a: seq<real>, b: seq<real>, bps: real)
    requires forall p :: p in a <==> p in b
    ensures Agree(a, bps) <==> Agree(b, bps)
  {
  }

  /** How many of the answers are at most, less than, at least, greater than x. */
  function CountLe(prices: seq<real>, x: real): nat { |Filter((p: real) => p <= x, prices)| }

  function CountLt(prices: seq<real>, x: real): nat { |Filter((p: real) => p < x, prices)| }

  function CountGe(prices: seq<real>, x: real): nat { |Filter((p: real) => p >= x, prices)| }

  function CountGt(prices: seq<real>, x: real): nat { |Filter((p: real) => p > x, prices)| }

  lemma SortedRanks(s: seq<real>, h: nat)
    requires Sorted(AtMost, s) && h < |s|
    ensures CountLt(s, s[h]) <= h < CountLe(s, s[h])
    ensures CountGt(s, s[h]) <= |s| - 1 - h < CountGe(s, s[h])
  {
    var le, lt := (p: real) => p <= s[h], (p: real) => p < s[h];
    var ge, gt := (p: real) => p >= s[h], (p: real) => p > s[h];
    forall i | 0 <= i < h ensures le(s[i]) { assert AtMost(s[i], s[h]); }
    forall i | h < i < |s| ensures ge(s[i]) { assert AtMost(s[h], s[i]); }
    CountAtLeast(le, s, 0, h + 1);
    CountAtLeast(ge, s, h, |s|);
    CountSplits(le, gt, s);
    CountSplits(ge, lt, s);
  }

  lemma RanksKept(prices: seq<real>, x: real)
    ensures CountLe(Sort(AtMost, prices), x) == CountLe(prices, x)
    ensures CountLt(Sort(AtMost, prices), x) == CountLt(prices, x)
    ensures CountGe(Sort(AtMost, prices), x) == CountGe(prices, x)
    ensures CountGt(Sort(AtMost, prices), x) == CountGt(prices, x)
  {
    SortCounts(AtMost, (p: real) => p <= x, prices);
    SortCounts(AtMost, (p: real) => p < x, prices);
    SortCounts(AtMost, (p: real) => p >= x, prices);
    SortCounts(AtMost, (p: real) => p > x, prices);
  }

  /**
   * The mid price is halfway between two answers (one and the same, for an odd number of them):
   * half of all are not above the first and less than half below it, half are not below the
   * second and less than half above it.
   */
  lemma MedianMeaning(responses: seq<Option<real>>, config: Config) returns (a: real, b: real)
    requires config.minSources > 0 && Positive(Fulfilled(responses)) && Aggregate(responses, config).Some?
    ensures var answers := Fulfilled(responses);
      && a in answers && b in answers && 2.0 * Aggregate(responses, config).value.mid == a + b
      && 2 * CountLt(answers, a) < |answers| <= 2 * CountLe(answers, a)
      && 2 * CountGt(answers, b) < |answers| <= 2 * CountGe(answers, b)
  {
    var answers := Fulfilled(responses);
    SortedAnswers(answers);
    a, b := Middles(answers);
  }

  lemma Middles(answers: seq<real>) returns (a: real, b: real)
    requires answers != [] && |Sort(AtMost, answers)| == |answers|
    ensures a in answers && b in answers && 2.0 * Median(Sort(AtMost, answers)) == a + b
    ensures 2 * CountLt(answers, a) < |answers| <= 2 * CountLe(answers, a)
    ensures 2 * CountGt(answers, b) < |answers| <= 2 * CountGe(answers, b)
  {
    SortedAnswers(answers);
    var s, i, j := Sort(AtMost, answers), (|answers| - 1) / 2, |answers| / 2;
    MedianOfTwo(s);
    a, b := s[i], s[j];
    assert a in s && b in s;
    MiddleRanks(answers, i);
    MiddleRanks(answers, j);
  }

  lemma MedianOfTwo(s: seq<real>)
    requires s != []
    ensures 2.0 * Median(s) == s[(|s| - 1) / 2] + s[|s| / 2]
  {
  }

  lemma MiddleRanks(answers: seq<real>, h: nat)
    requires h < |answers| == |Sort(AtMost, answers)|
    ensures CountLt(answers, Sort(AtMost, answers)[h]) <= h < CountLe(answers, Sort(AtMost, answers)[h])
    ensures CountGt(answers, Sort(AtMost, answers)[h]) <= |answers| - 1 - h < CountGe(answers, Sort(AtMost, answers)[h])
  {
    SortedAnswers(answers);
    SortedRanks(Sort(AtMost, answers), h);
    RanksKept(answers, Sort(AtMost, answers)[h]);
  }

  // ----- the order of the answers is irrelevant -----

  lemma {:induction false} CountFulfilled(responses: seq<Option<real>>, p: real)
    ensures multiset(Fulfilled(responses))[p] == multiset(responses)[Some(p)]
  {
    if responses != [] {
      CountFulfilled(responses[1..], p);
      assert responses == [responses[0]] + responses[1..];
    }
  }

  lemma FirstIsLeast(a: seq<real>, b: seq<real>)
    requires a != [] && Sorted(AtMost, b) && multiset(a) == multiset(b)
    ensures b != [] && b[0] <= a[0]
  {
    assert a[0] in multiset(b);
    var i :| 0 <= i < |b| && b[i] == a[0];
    assert i == 0 || AtMost(b[0], b[i]);
  }

  lemma RestOf(a: seq<real>)
    requires a != []
    ensures multiset(a[1..]) == multiset(a) - multiset{a[0]}
  {
    assert a == [a[0]] + a[1..];
  }

  lemma {:induction false} SortedUnique(a: seq<real>, b: seq<real>)
    requires Sorted(AtMost, a) && Sorted(AtMost, b) && multiset(a) == multiset(b)
    ensures a == b
  {
    if a == [] {
      assert |multiset(b)| == 0;
    } else {
      FirstIsLeast(a, b);
      FirstIsLeast(b, a);
      RestOf(a);
      RestOf(b);
      SortedUnique(a[1..], b[1..]);
      assert a == [a[0]] + a[1..];
    }
  }

  lemma SameFulfilled(a: seq<Option<real>>, b: seq<Option<real>>)
    requires multiset(a) == multiset(b)
    ensures Sort(AtMost, Fulfilled(a)) == Sort(AtMost, Fulfilled(b))
  {
    forall p ensures multiset(Fulfilled(a))[p] == multiset(Fulfilled(b))[p] {
      CountFulfilled(a, p);
      CountFulfilled(b, p);
    }
    assert multiset(Fulfilled(a)) == multiset(Fulfilled(b));
    SortSorted(AtMost, Fulfilled(a));
    SortSorted(AtMost, Fulfilled(b));
    SortedUnique(Sort(AtMost, Fulfilled(a)), Sort(AtMost, Fulfilled(b)));
  }

  /** Which source answers first makes no difference. */
  lemma OrderIrrelevant(a: seq<Option<real>>, b: seq<Option<real>>, config: Config)
    requires config.minSources > 0 && multiset(a) == multiset(b)
    requires Positive(Fulfilled(a)) && Positive(Fulfilled(b))
    ensures Aggregate(a, config) == Aggregate(b, config)
  {
    SameFulfilled(a, b);
  }

  // ----- the aggregate is close to every source -----

  lemma MedianBetween(sorted: seq<real>)
    requires sorted != [] && Sorted(AtMost, sorted)
    ensures sorted[0] <= Median(sorted) <= sorted[|sorted| - 1]
  {
    var n := |sorted|;
    forall k | 0 <= k < n ensures sorted[0] <= sorted[k] <= sorted[n - 1] {
      assert k == 0 || AtMost(sorted[0], sorted[k]);
      assert k == n - 1 || AtMost(sorted[k], sorted[n - 1]);
    }
  }

  /** The two prices differ by at most `bps` of the second. */
  predicate CloseTo(mid: real, p: real, bps: real) {
    -(bps * p) <= 10000.0 * (mid - p) <= bps * p
  }

  lemma SpreadMeaning(low: real, high: real)
    requires 0.0 < low <= high
    ensures SpreadBps(low, high) * low == 10000.0 * (high - low) && SpreadBps(low, high) >= 0.0
  {
    var q := (high - low) / low;
    assert q * low == high - low && q >= 0.0;
  }

  lemma SpreadBounds(low: real, high: real, spread: real, bps: real, mid: real, p: real)
    requires 0.0 < low <= mid <= high && low <= p <= high
    requires spread * low == 10000.0 * (high - low) && 0.0 <= spread <= bps
    ensures CloseTo(mid, p, bps)
  {
    assert (bps - spread) * low >= 0.0;
    assert bps * (p - low) >= 0.0;
  }

  lemma InSorted(prices: seq<real>, p: real)
    requires Sorted(AtMost, prices) && p in prices
    ensures prices[0] <= p <= prices[|prices| - 1]
  {
    var k :| 0 <= k < |prices| && prices[k] == p;
    assert k == 0 || AtMost(prices[0], prices[k]);
    assert k == |prices| - 1 || AtMost(prices[k], prices[|prices| - 1]);
  }

  lemma MedianClose(prices: seq<real>, bps: real, p: real)
    requires prices != [] && prices[0] > 0.0 && Sorted(AtMost, prices) && p in prices
    requires SpreadBps(prices[0], prices[|prices| - 1]) <= bps
    ensures CloseTo(Median(prices), p, bps)
  {
    MedianBetween(prices);
    InSorted(prices, p);
    CloseFrom(prices[0], prices[|prices| - 1], bps, Median(prices), p);
  }

  lemma CloseFrom(low: real, high: real, bps: real, mid: real, p: real)
    requires 0.0 < low <= mid <= high && low <= p <= high && SpreadBps(low, high) <= bps
    ensures CloseTo(mid, p, bps)
  {
    SpreadMeaning(low, high);
    SpreadBounds(low, high, SpreadBps(low, high), bps, mid, p);
  }

  /** Every source that answered is within the deviation bound of the published mid price. */
  lemma CloseToEverySource(responses: seq<Option<real>>, config: Config, p: real)
    requires config.minSources > 0 && Positive(Fulfilled(responses))
    requires Aggregate(responses, config).Some? && p in Fulfilled(responses)
    ensures var mid, bps := Aggregate(responses, config).value.mid, config.maxSourceDeviationBps;
      CloseTo(mid, p, bps)
  {
    SortSorted(AtMost, Fulfilled(responses));
    SortedPositive(Fulfilled(responses));
    MedianClose(Sort(AtMost, Fulfilled(responses)), config.maxSourceDeviationBps, p);
  }

  lemma MiddleOfThree(a: real, b: real, c: real, s: multiset<real>, x: real, y: real)
    requires a <= b <= c && s == multiset{a, b, c} && multiset{x, y} <= s
    ensures x <= b <= y || y <= b <= x
  {
    assert multiset{x, y}[x] >= 1 && multiset{x, y}[y] >= 1;
    assert x in s && y in s;
    if x == y { assert multiset{x, y}[x] == 2; assert s[x] >= 2; }
  }

  lemma PairInSeq(s: seq<real>, i: nat, j: nat)
    requires i < j < |s|
    ensures multiset{s[i], s[j]} <= multiset(s)
  {
    assert s == s[..i] + [s[i]] + s[i + 1..j] + [s[j]] + s[j + 1..];
  }

  /** With three answers, no single one can pull the aggregate outside the other two. */
  lemma OneLiarIsContained(responses: seq<Option<real>>, config: Config, i: nat, j: nat)
    requires config.minSources > 0 && Positive(Fulfilled(responses))
    requires |Fulfilled(responses)| == 3 && i < j < 3 && Aggregate(responses, config).Some?
    ensures var mid, x, y := Aggregate(responses, config).value.mid, Fulfilled(responses)[i], Fulfilled(responses)[j];
      x <= mid <= y || y <= mid <= x
  {
    var f := Fulfilled(responses);
    var s := Sort(AtMost, f);
    SortSorted(AtMost, f);
    assert |multiset(s)| == |s| && |multiset(f)| == |f|;
    assert s == [s[0], s[1], s[2]];
    assert AtMost(s[0], s[1]) && AtMost(s[1], s[2]);
    PairInSeq(f, i, j);
    MiddleOfThree(s[0], s[1], s[2], multiset(s), f[i], f[j]);
  }

  /** What is published is the mid price to within half a unit of the 18th decimal, and never negative. */
  lemma RoundedPrice(responses: seq<Option<real>>, config: Config)
    requires config.minSources > 0 && Positive(Fulfilled(responses)) && Aggregate(responses, config).Some?
    ensures var r := Aggregate(responses, config).value;
      && r.price >= 0 && r.mid > 0.0
      && -0.5 <= (r.price as real) - r.mid * (PRICE_PRECISION as real) <= 0.5
  {
    SortSorted(AtMost, Fulfilled(responses));
    SortedPositive(Fulfilled(responses));
    MedianBetween(Sort(AtMost, Fulfilled(responses)));
  }

  lemma RoundClose(x: real)
    ensures x - 0.5 <= Round(x) as real <= x + 0.5
  {
  }

  /** Every source lies within twice the published confidence, up to one unit of the 18th decimal. */
  lemma ConfidenceCovers(responses: seq<Option<real>>, config: Config, p: real)
    requires config.minSources > 0 && Positive(Fulfilled(responses))
    requires Aggregate(responses, config).Some? && p in Fulfilled(responses)
    ensures var r, unit := Aggregate(responses, config).value, PRICE_PRECISION as real;
      && -(2.0 * r.confidence as real + 1.0) <= (r.mid - p) * unit <= 2.0 * r.confidence as real + 1.0
      && r.confidence >= TruncDiv(r.price, 1000)
  {
    var prices := Sort(AtMost, Fulfilled(responses));
    SortSorted(AtMost, Fulfilled(responses));
    SortedPositive(Fulfilled(responses));
    MedianBetween(prices);
    InSorted(prices, p);
    RoundClose((prices[|prices| - 1] - prices[0]) / 2.0 * (PRICE_PRECISION as real));
  }

  /**
   * The confidence is half the distance of the two outermost answers, to half a unit of the 18th
   * decimal, or a floored thousandth of the price, whichever is more.
   */
  lemma ConfidenceExact(responses: seq<Option<real>>, config: Config) returns (low: real, high: real)
    requires config.minSources > 0 && Positive(Fulfilled(responses)) && Aggregate(responses, config).Some?
    ensures low in Fulfilled(responses) && high in Fulfilled(responses)
    ensures forall p :: p in Fulfilled(responses) ==> low <= p <= high
    ensures var r := Aggregate(responses, config).value;
      var half, least := (high - low) / 2.0 * 1000000000000000000.0, r.price / 1000;
      && r.confidence >= least && r.confidence as real >= half - 0.5
      && (r.confidence == least || r.confidence as real <= half + 0.5)
  {
    var prices := Sort(AtMost, Fulfilled(responses));
    SortSorted(AtMost, Fulfilled(responses));
    RoundedPrice(responses, config);
    low, high := prices[0], prices[|prices| - 1];
    assert low in prices && high in prices;
    forall p | p in Fulfilled(responses) ensures low <= p <= high { InSorted(prices, p); }
    RoundClose((high - low) / 2.0 * (PRICE_PRECISION as real));
  }

  // ----- the publish gate -----

  datatype LastPrice = LastPrice(price: int, ts: int)

  datatype Gate = Gate(deviationBps: int, heartbeatSecs: int)

  /** A BigInt division by zero throws, which the caller turns into no publication. */
  datatype Decision = Publish | Skip | Throws

  function ShouldPublish(last: map<string, LastPrice>, asset: string, price: int, gate: Gate, now: int): Decision {
    if asset !in last then Publish
    else
      var l := last[asset];
      if now - l.ts >= gate.heartbeatSecs * 1000 then Publish
      else if l.price == 0 then Throws
      else
        var diff := if price > l.price then price - l.price else l.price - price;
        if TruncDiv(diff * 10_000, l.price) >= gate.deviationBps then Publish else Skip
  }

  /** The published price differs by less than the threshold and is younger than the heartbeat. */
  predicate Fresh(last: map<string, LastPrice>, asset: string, price: int, gate: Gate, now: int) {
    && asset in last
    && -(gate.deviationBps * last[asset].price) < 10_000 * (price - last[asset].price)
    && 10_000 * (price - last[asset].price) < gate.deviationBps * last[asset].price
    && now - last[asset].ts < gate.heartbeatSecs * 1000
  }

  lemma QuotientBelow(a: int, b: int, c: int)
    requires a >= 0 && b > 0
    ensures TruncDiv(a, b) < c <==> a < c * b
  {
    var q := TruncDiv(a, b);
    DivBounds(a, b);
    if q < c { MulLe(q + 1, c, b); } else { MulLe(c, q, b); }
  }

  /** The gate skips exactly when the last published price is still fresh. */
  lemma SkipIffFresh(last: map<string, LastPrice>, asset: string, price: int, gate: Gate, now: int)
    requires asset in last ==> last[asset].price >= 0
    ensures ShouldPublish(last, asset, price, gate, now) == Skip
       <==> Fresh(last, asset, price, gate, now) && last[asset].price > 0
    ensures ShouldPublish(last, asset, price, gate, now) == Throws
       <==> asset in last && last[asset].price == 0 && now - last[asset].ts < gate.heartbeatSecs * 1000
  {
    if asset in last && last[asset].price > 0 {
      var l := last[asset].price;
      QuotientBelow((if price > l then price - l else l - price) * 10_000, l, gate.deviationBps);
    }
  }

  datatype Outcome = NoPrice | Halted | Skipped | Threw | Failed | Published

  class Keeper {
    var lastPublished: map<string, LastPrice>

    ghost predicate Valid()
      reads this
    {
      forall a :: a in lastPublished ==> lastPublished[a].price >= 0
    }

    constructor ()
      ensures Valid() && lastPublished == map[]
    {
      lastPublished := map[];
    }

    /**
     * `publishMarket` for one asset: only a confirmed write changes what counts as published, a
     * skip means that what is published is fresh, and a publication makes it fresh.
     */
    method PublishMarket(asset: string, agg: Option<Aggregated>, allowed: bool, gate: Gate, now: int,
      confirms: bool, confirmedAt: int)
      returns (outcome: Outcome)
      requires Valid() && (agg.Some? ==> agg.value.price >= 0)
      modifies this
      ensures Valid()
      ensures outcome == NoPrice <==> agg.None?
      ensures outcome == Halted <==> agg.Some? && !allowed
      ensures outcome == Skipped ==> Fresh(lastPublished, asset, agg.value.price, gate, now)
      ensures agg.Some? && allowed && asset in old(lastPublished) && old(lastPublished)[asset].price > 0
        ==> (outcome == Skipped <==> Fresh(old(lastPublished), asset, agg.value.price, gate, now))
      ensures outcome == Threw ==> asset in old(lastPublished) && old(lastPublished)[asset].price == 0
      ensures outcome == Published ==> confirms
      ensures outcome == Failed ==> !confirms
      ensures lastPublished == if outcome == Published
        then old(lastPublished)[asset := LastPrice(agg.value.price, confirmedAt)] else old(lastPublished)
      ensures outcome == Published && gate.deviationBps > 0 && gate.heartbeatSecs > 0 && agg.value.price > 0
        ==> Fresh(lastPublished, asset, agg.value.price, gate, confirmedAt)
    {
      if agg.None? { return NoPrice; }
      if !allowed { return Halted; }
      SkipIffFresh(lastPublished, asset, agg.value.price, gate, now);
      var decision := ShouldPublish(lastPublished, asset, agg.value.price, gate, now);
      if decision == Throws { return Threw; }
      if decision == Skip { return Skipped; }
      if confirms {
        lastPublished := lastPublished[asset := LastPrice(agg.value.price, confirmedAt)];
        if gate.deviationBps > 0 { MulLe(1, gate.deviationBps, agg.value.price); }
        return Published;
      }
      return Failed;
    }
  }
}
