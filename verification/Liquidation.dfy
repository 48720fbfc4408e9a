/**
 * How much of a position a liquidation closes (client/lib/market/liquidation-sizing.ts) and which
 * position it closes (client/scripts/liquidation-keeper.ts). The contract is an acceptance
 * predicate; oracle prices are a parameter.
 */
module Liquidation {
  import opened Wrappers
  import opened Sequences
  import opened BigInt

  const SAFETY_NUM := 125
  const SAFETY_DEN := 100

  datatype Health = Health(equity: int, maintenanceMarginRequired: int)

  function NotionalAt(size: int, price: int): int { TruncDiv(size * price, PRICE_PRECISION) }

  /** The bare minimum close, before the safety margin. */
  function BareMin(size: int, price: int, shortfall: int): int
    requires NotionalAt(size, price) > 0
  {
    TruncDiv(size * shortfall, NotionalAt(size, price))
  }

  function MinSize(size: int, price: int, shortfall: int): int
    requires NotionalAt(size, price) > 0
  {
    TruncDiv(BareMin(size, price, shortfall) * SAFETY_NUM, SAFETY_DEN)
  }

  predicate HasMinSize(size: int, price: int, shortfall: int) {
    shortfall > 0 && NotionalAt(size, price) > 0 && 0 < MinSize(size, price, shortfall) < size
  }

  /** The close sizes worth trying: the minimum if there is one, half, and all. */
  function Rungs(size: int, price: int, shortfall: int): set<int> {
    if size <= 0 then {}
    else
      (if HasMinSize(size, price, shortfall) then {MinSize(size, price, shortfall)} else {})
      + (if size / 2 > 0 then {size / 2} else {}) + {size}
  }

  ghost predicate StrictlyAscending(s: seq<int>) {
    forall i, j :: 0 <= i < j < |s| ==> s[i] < s[j]
  }

  predicate AtMost(a: int, b: int) { a <= b }

  lemma SortDistinct(s: seq<int>)
    requires forall i, j :: 0 <= i < j < |s| ==> s[i] != s[j]
    ensures StrictlyAscending(Sort(AtMost, s))
    ensures forall c :: c in Sort(AtMost, s) <==> c in s
    ensures |Sort(AtMost, s)| == |s|
  {
    var t := Sort(AtMost, s);
    SortSorted(AtMost, s);
    assert |multiset(t)| == |t| && |multiset(s)| == |s|;
    forall i, j | 0 <= i < j < |t| ensures t[i] < t[j] {
      assert AtMost(t[i], t[j]);
      if t[i] == t[j] {
        OccursOnce(s, t[i]);
        OccursTwice(t, i, j);
        assert false;
      }
    }
  }

  lemma {:induction false} OccursOnce(s: seq<int>, c: int)
    requires forall i, j :: 0 <= i < j < |s| ==> s[i] != s[j]
    ensures multiset(s)[c] <= 1
  {
    if s != [] {
      var n := |s| - 1;
      OccursOnce(s[..n], c);
      assert s == s[..n] + [s[n]];
      assert s[n] !in s[..n];
    }
  }

  lemma OccursTwice(s: seq<int>, i: nat, j: nat)
    requires i < j < |s| && s[i] == s[j]
    ensures multiset(s)[s[i]] >= 2
  {
    assert s == s[..j] + [s[j]] + s[j + 1..];
    assert s[i] in s[..j];
  }

  /** The candidates as they are pushed, before filtering. */
  method Candidates(size: int, price: int, health: Health) returns (candidates: seq<int>)
    requires size > 0
    ensures var shortfall := health.maintenanceMarginRequired - health.equity;
      forall c :: c in candidates && 0 < c <= size <==> c in Rungs(size, price, shortfall)
    ensures |candidates| <= 3
  {
    candidates := [];
    var shortfall := health.maintenanceMarginRequired - health.equity;
    var notional := TruncDiv(size * price, PRICE_PRECISION);
    if shortfall > 0 && notional > 0 {
      var minSize := TruncDiv(TruncDiv(size * shortfall, notional) * SAFETY_NUM, SAFETY_DEN);
      if minSize > 0 && minSize < size { candidates := candidates + [minSize]; }
    }
    candidates := candidates + [size / 2, size];
  }

  lemma RungsInRange(size: int, price: int, shortfall: int)
    ensures forall c :: c in Rungs(size, price, shortfall) ==> 0 < c <= size
    ensures size > 0 ==> size in Rungs(size, price, shortfall)
  {
  }

  /** The sizes to attempt, smallest first; the last one closes the position. */
  method CloseSizeLadder(size: int, price: int, health: Health) returns (ladder: seq<int>)
    ensures StrictlyAscending(ladder)
    ensures forall c :: c in ladder <==> c in Rungs(size, price, health.maintenanceMarginRequired - health.equity)
    ensures size > 0 ==> 1 <= |ladder| <= 3 && ladder[|ladder| - 1] == size
    ensures forall c :: c in ladder ==> 0 < c <= size
  {
    if size <= 0 { return []; }
    var candidates := Candidates(size, price, health);
    var distinct := Distinct(candidates, size);
    ladder := Sort(AtMost, distinct);
    SortDistinct(distinct);
    RungsInRange(size, price, health.maintenanceMarginRequired - health.equity);
    LastIsLargest(ladder, size);
  }

  lemma LastIsLargest(ladder: seq<int>, size: int)
    requires StrictlyAscending(ladder) && size in ladder && forall c :: c in ladder ==> c <= size
    ensures ladder[|ladder| - 1] == size
  {
    var i :| 0 <= i < |ladder| && ladder[i] == size;
    assert ladder[|ladder| - 1] in ladder;
  }

  /** `[...new Set(candidates.filter(…))]` */
  method Distinct(candidates: seq<int>, size: int) returns (kept: seq<int>)
    ensures forall c :: c in kept <==> c in candidates && 0 < c <= size
    ensures forall i, j :: 0 <= i < j < |kept| ==> kept[i] != kept[j]
    ensures |kept| <= |candidates|
  {
    kept := [];
    for i := 0 to |candidates|
      invariant forall c :: c in kept <==> c in candidates[..i] && 0 < c <= size
      invariant forall i, j :: 0 <= i < j < |kept| ==> kept[i] != kept[j]
      invariant |kept| <= i
    {
      assert candidates[..i + 1] == candidates[..i] + [candidates[i]];
      if 0 < candidates[i] <= size && candidates[i] !in kept {
        kept := kept + [candidates[i]];
      }
    }
    assert candidates[..|candidates|] == candidates;
  }

  // ----- what the first rung is worth -----

  lemma MulLt(a: int, b: int, c: int)
    requires a * c < b * c && c > 0
    ensures a < b
  {
    if a >= b { MulLe(b, a, c); }
  }

  lemma PositiveNotional(size: int, price: int)
    requires size > 0 && NotionalAt(size, price) > 0
    ensures price > 0 && NotionalAt(size, price) * PRICE_PRECISION <= size * price
  {
    if size * price >= 0 {
      DivBounds(size * price, PRICE_PRECISION);
      if price <= 0 { MulLe(price, 0, size); }
    }
  }

  /** One unit more than the bare minimum is always enough. */
  lemma OneMoreRestores(size: int, price: int, shortfall: int)
    requires size > 0 && shortfall > 0 && NotionalAt(size, price) > 0
    ensures (BareMin(size, price, shortfall) + 1) * price > shortfall * PRICE_PRECISION
  {
    var notional, x := NotionalAt(size, price), BareMin(size, price, shortfall);
    PositiveNotional(size, price);
    assert size * shortfall >= 0;
    DivBounds(size * shortfall, notional);
    assert (x + 1) * notional > size * shortfall;
    MulLe(notional * PRICE_PRECISION, size * price, x + 1);
    assert (x + 1) * (size * price) >= (x + 1) * (notional * PRICE_PRECISION) by {
      Commute(x + 1, size * price);
      Commute(x + 1, notional * PRICE_PRECISION);
    }
    assert (x + 1) * (notional * PRICE_PRECISION) == ((x + 1) * notional) * PRICE_PRECISION;
    assert ((x + 1) * notional) * PRICE_PRECISION > (size * shortfall) * PRICE_PRECISION;
    Regroup(x + 1, size, price);
    Regroup2(size, shortfall, PRICE_PRECISION);
    MulLt(shortfall * PRICE_PRECISION, (x + 1) * price, size);
  }

  lemma Regroup(a: int, b: int, c: int) ensures a * (b * c) == (a * c) * b { }

  lemma Regroup2(a: int, b: int, c: int) ensures (a * b) * c == (b * c) * a { }

  /**
   * From a bare minimum of 4 on, the first rung covers the shortfall at the oracle price, and it is
   * never more than a quarter above the exact quotient.
   */
  lemma FirstRungBounds(size: int, price: int, shortfall: int)
    requires HasMinSize(size, price, shortfall) && BareMin(size, price, shortfall) >= 4
    ensures MinSize(size, price, shortfall) * price > shortfall * PRICE_PRECISION
    ensures 100 * MinSize(size, price, shortfall) * NotionalAt(size, price) <= 125 * size * shortfall
  {
    var x, m, notional := BareMin(size, price, shortfall), MinSize(size, price, shortfall), NotionalAt(size, price);
    OneMoreRestores(size, price, shortfall);
    PositiveNotional(size, price);
    assert m >= x + 1;
    MulLe(x + 1, m, price);
    assert size * shortfall >= 0;
    DivBounds(size * shortfall, notional);
    assert 100 * m <= 125 * x;
    MulLe(100 * m, 125 * x, notional);
    assert 125 * x * notional == 125 * (x * notional);
    assert 125 * size * shortfall == 125 * (size * shortfall);
  }

  /** A size covers the shortfall at the oracle price exactly when its own notional does. */
  lemma CoversIff(size: int, price: int, shortfall: int)
    requires size * price >= 0
    ensures size * price >= shortfall * PRICE_PRECISION <==> NotionalAt(size, price) >= shortfall
  {
    DivBounds(size * price, PRICE_PRECISION);
    var n := NotionalAt(size, price);
    if n >= shortfall { MulLe(shortfall, n, PRICE_PRECISION); } else { MulLe(n + 1, shortfall, PRICE_PRECISION); }
  }

  /**
   * Below 4 the quarter is rounded away. The first rung covers the shortfall if and only if the
   * bare minimum is at least 4, or its own notional, floored again, still covers it.
   */
  lemma FirstRungRestoresIff(size: int, price: int, shortfall: int)
    requires HasMinSize(size, price, shortfall)
    ensures MinSize(size, price, shortfall) * price >= shortfall * PRICE_PRECISION
       <==> BareMin(size, price, shortfall) >= 4 || NotionalAt(BareMin(size, price, shortfall), price) >= shortfall
  {
    var x := BareMin(size, price, shortfall);
    if x >= 4 {
      FirstRungBounds(size, price, shortfall);
    } else {
      assert MinSize(size, price, shortfall) == x > 0;
      PositiveNotional(size, price);
      MulLe(0, x, price);
      CoversIff(x, price, shortfall);
    }
  }

  /** A bare minimum that was not rounded is enough. */
  lemma UnroundedRestores(size: int, price: int, shortfall: int)
    requires HasMinSize(size, price, shortfall)
    requires size * shortfall % NotionalAt(size, price) == 0
    ensures MinSize(size, price, shortfall) * price >= shortfall * PRICE_PRECISION
  {
    var x, notional := BareMin(size, price, shortfall), NotionalAt(size, price);
    if x >= 4 {
      FirstRungBounds(size, price, shortfall);
    } else {
      PositiveNotional(size, price);
      assert size * shortfall >= 0;
      DivBounds(size * shortfall, notional);
      assert x * notional == size * shortfall;
      MulLe(notional * PRICE_PRECISION, size * price, x);
      // shortfall * PP <= x * price, times size on both sides
      assert (x * price) * size >= (shortfall * PRICE_PRECISION) * size by {
        assert (x * price) * size == (size * price) * x;
        assert (notional * PRICE_PRECISION) * x == (x * notional) * PRICE_PRECISION;
        Regroup2(size, shortfall, PRICE_PRECISION);
      }
      if x * price < shortfall * PRICE_PRECISION { MulLe(x * price + 1, shortfall * PRICE_PRECISION, size); }
    }
  }

  /** Where the notional of the position is exact, these two cases are all there are. */
  lemma ExactNotionalIff(size: int, price: int, shortfall: int)
    requires HasMinSize(size, price, shortfall)
    requires NotionalAt(size, price) * PRICE_PRECISION == size * price
    ensures MinSize(size, price, shortfall) * price >= shortfall * PRICE_PRECISION
       <==> BareMin(size, price, shortfall) >= 4 || size * shortfall % NotionalAt(size, price) == 0
  {
    var x, notional := BareMin(size, price, shortfall), NotionalAt(size, price);
    if x >= 4 {
      FirstRungBounds(size, price, shortfall);
    } else if size * shortfall % notional == 0 {
      UnroundedRestores(size, price, shortfall);
    } else {
      assert size * shortfall >= 0;
      DivBounds(size * shortfall, notional);
      assert size * shortfall > x * notional && MinSize(size, price, shortfall) == x;
      assert (x * price) * size == (x * notional) * PRICE_PRECISION by {
        assert (x * price) * size == x * (size * price);
        assert x * (notional * PRICE_PRECISION) == (x * notional) * PRICE_PRECISION;
      }
      Regroup2(size, shortfall, PRICE_PRECISION);
      if x * price >= shortfall * PRICE_PRECISION { MulLe(shortfall * PRICE_PRECISION, x * price, size); }
    }
  }

  /** Ten units at price 2, short by 3: the first rung closes one unit and covers only 2. */
  lemma FirstRungTooSmall()
    ensures HasMinSize(10, 2 * PRICE_PRECISION, 3)
    ensures MinSize(10, 2 * PRICE_PRECISION, 3) * (2 * PRICE_PRECISION) < 3 * PRICE_PRECISION
  {
    assert NotionalAt(10, 2 * PRICE_PRECISION) == 20;
    assert BareMin(10, 2 * PRICE_PRECISION, 3) == 1;
  }

  // ----- the first rung grows with the shortfall -----

  function Half(size: int): int { if size / 2 > 0 then size / 2 else size }

  function Smallest(size: int, price: int, shortfall: int): int
    requires size > 0
  {
    if HasMinSize(size, price, shortfall) && MinSize(size, price, shortfall) < Half(size)
    then MinSize(size, price, shortfall)
    else Half(size)
  }

  lemma LadderHead(size: int, price: int, shortfall: int, ladder: seq<int>)
    requires size > 0 && StrictlyAscending(ladder) && forall c :: c in ladder <==> c in Rungs(size, price, shortfall)
    ensures ladder != [] && ladder[0] == Smallest(size, price, shortfall)
  {
    var m := Smallest(size, price, shortfall);
    assert m in Rungs(size, price, shortfall) && m in ladder;
    var i :| 0 <= i < |ladder| && ladder[i] == m;
    assert ladder[0] in ladder && ladder[0] in Rungs(size, price, shortfall);
  }

  lemma DivMonotone(a: int, b: int, c: int)
    requires 0 <= a <= b && c > 0
    ensures TruncDiv(a, c) <= TruncDiv(b, c)
  {
    DivBounds(a, c);
    DivBounds(b, c);
    if TruncDiv(a, c) > TruncDiv(b, c) { MulLe(TruncDiv(b, c) + 1, TruncDiv(a, c), c); }
  }

  lemma MinSizeMonotone(size: int, price: int, s1: int, s2: int)
    requires size > 0 && 0 < s1 <= s2 && NotionalAt(size, price) > 0
    ensures 0 <= MinSize(size, price, s1) <= MinSize(size, price, s2)
  {
    MulLe(s1, s2, size);
    Commute(size, s1);
    Commute(size, s2);
    assert size * s1 >= 0;
    DivMonotone(size * s1, size * s2, NotionalAt(size, price));
    DivBounds(size * s1, NotionalAt(size, price));
    DivMonotone(BareMin(size, price, s1) * SAFETY_NUM, BareMin(size, price, s2) * SAFETY_NUM, SAFETY_DEN);
  }

  /**
   * A deeper shortfall starts no lower, as long as the shallower one does not round to nothing; if
   * it does, it starts at half the position, above any deeper one whose minimum is below half.
   */
  lemma HeadMonotoneIff(size: int, price: int, s1: int, s2: int)
    requires size > 0 && 0 < s1 <= s2 && NotionalAt(size, price) > 0
    ensures Smallest(size, price, s1) <= Smallest(size, price, s2)
       <==> MinSize(size, price, s1) > 0 || !(0 < MinSize(size, price, s2) < Half(size))
  {
    MinSizeMonotone(size, price, s1, s2);
  }

  /** Short by 1 the keeper starts by closing half of the position; short by 1000 it starts with a hundredth. */
  lemma SmallShortfallClosesHalf()
    ensures Smallest(100, 1000 * PRICE_PRECISION, 1) == 50
    ensures Smallest(100, 1000 * PRICE_PRECISION, 1000) == 1
  {
    assert NotionalAt(100, 1000 * PRICE_PRECISION) == 100_000;
    assert BareMin(100, 1000 * PRICE_PRECISION, 1) == 0;
    assert BareMin(100, 1000 * PRICE_PRECISION, 1000) == 1;
  }

  // ----- which position is closed -----

  datatype Position = Position(id: nat, marketId: nat, size: int, entryPrice: int)

  predicate LargerFirst(a: Position, b: Position) { a.size * a.entryPrice >= b.size * b.entryPrice }

  predicate WorthMore(q: Position, p: Position) { q.size * q.entryPrice > p.size * p.entryPrice }

  predicate WorthTheSame(q: Position, p: Position) { q.size * q.entryPrice == p.size * p.entryPrice }

  lemma RankMeaning()
    ensures forall q, p :: WorthMore(q, p) <==> !LargerFirst(p, q)
    ensures forall q, p :: WorthTheSame(q, p) <==> LargerFirst(p, q) && LargerFirst(q, p)
    ensures TotalPreorder(LargerFirst)
  {
  }

  /** A position in a market with an oracle feed and a positive price. */
  predicate Priced(p: Position, priceOf: nat -> Option<int>) {
    priceOf(p.marketId).Some? && priceOf(p.marketId).value > 0
  }

  function RungsOf(p: Position, priceOf: nat -> Option<int>, health: Health): set<int>
    requires Priced(p, priceOf)
  {
    Rungs(p.size, priceOf(p.marketId).value, health.maintenanceMarginRequired - health.equity)
  }

  /** The contract refuses every close of this position that the keeper would try. */
  predicate Refused(p: Position, priceOf: nat -> Option<int>, health: Health, accepts: (Position, int) -> bool) {
    Priced(p, priceOf) ==> forall c | c in RungsOf(p, priceOf, health) :: !accepts(p, c)
  }

  /** What is of the same value and was listed before some occurrence of `p` is refused. */
  ghost predicate FirstOfItsValue(positions: seq<Position>, p: Position, priceOf: nat -> Option<int>, health: Health,
                                  accepts: (Position, int) -> bool) {
    exists q: nat :: q < |positions| && positions[q] == p &&
      forall k :: 0 <= k < q && WorthTheSame(positions[k], p) ==> Refused(positions[k], priceOf, health, accepts)
  }

  lemma RankedFirst(positions: seq<Position>, i: nat, priceOf: nat -> Option<int>, health: Health,
                    accepts: (Position, int) -> bool)
    requires i < |Sort(LargerFirst, positions)|
    requires forall k :: 0 <= k < i ==> Refused(Sort(LargerFirst, positions)[k], priceOf, health, accepts)
    ensures var p := Sort(LargerFirst, positions)[i];
      && FirstOfItsValue(positions, p, priceOf, health, accepts)
      && forall q :: q in positions && WorthMore(q, p) ==> Refused(q, priceOf, health, accepts)
  {
    var ranked := Sort(LargerFirst, positions);
    RankMeaning();
    SortSorted(LargerFirst, positions);
    var at := TiesKeepOrder(LargerFirst, positions, i);
    forall k | 0 <= k < at && WorthTheSame(positions[k], ranked[i])
      ensures Refused(positions[k], priceOf, health, accepts)
    {
      assert LargerFirst(positions[at], positions[k]) && LargerFirst(positions[k], positions[at]);
    }
    forall q | q in positions && WorthMore(q, ranked[i]) ensures Refused(q, priceOf, health, accepts) {
      assert q in ranked;
      var k :| 0 <= k < |ranked| && ranked[k] == q;
      if k > i { assert false; }
    }
  }

  /**
   * Size `c` of position `p` is accepted, no smaller rung of it is, and no position that is worth
   * more, or worth the same and listed before it, has a rung that the contract would take.
   */
  ghost predicate Best(positions: seq<Position>, p: Position, c: int, priceOf: nat -> Option<int>, health: Health,
                       accepts: (Position, int) -> bool) {
    && p in positions && Priced(p, priceOf) && c in RungsOf(p, priceOf, health) && accepts(p, c)
    && (forall d :: d in RungsOf(p, priceOf, health) && d < c ==> !accepts(p, d))
    && (forall q :: q in positions && WorthMore(q, p) ==> Refused(q, priceOf, health, accepts))
    && FirstOfItsValue(positions, p, priceOf, health, accepts)
  }

  lemma BestFound(positions: seq<Position>, i: nat, ladder: seq<int>, n: nat, priceOf: nat -> Option<int>,
                  health: Health, accepts: (Position, int) -> bool)
    requires i < |Sort(LargerFirst, positions)| && Priced(Sort(LargerFirst, positions)[i], priceOf)
    requires forall k :: 0 <= k < i ==> Refused(Sort(LargerFirst, positions)[k], priceOf, health, accepts)
    requires forall c :: c in ladder <==> c in RungsOf(Sort(LargerFirst, positions)[i], priceOf, health)
    requires StrictlyAscending(ladder) && n < |ladder|
    requires forall k :: 0 <= k < n ==> !accepts(Sort(LargerFirst, positions)[i], ladder[k])
    requires accepts(Sort(LargerFirst, positions)[i], ladder[n])
    ensures Best(positions, Sort(LargerFirst, positions)[i], ladder[n], priceOf, health, accepts)
  {
    var p := Sort(LargerFirst, positions)[i];
    RankedFirst(positions, i, priceOf, health, accepts);
    assert p in positions && ladder[n] in ladder;
    forall d | d in RungsOf(p, priceOf, health) && d < ladder[n] ensures !accepts(p, d) {
      assert d in ladder;
      var k :| 0 <= k < |ladder| && ladder[k] == d;
      assert k < n;
    }
  }

  lemma AllRungsRefused(p: Position, ladder: seq<int>, priceOf: nat -> Option<int>, health: Health,
                        accepts: (Position, int) -> bool)
    requires Priced(p, priceOf) && forall c :: c in ladder <==> c in RungsOf(p, priceOf, health)
    requires forall k :: 0 <= k < |ladder| ==> !accepts(p, ladder[k])
    ensures Refused(p, priceOf, health, accepts)
  {
  }

  lemma NotBest(positions: seq<Position>, p: Position, c: int, priceOf: nat -> Option<int>, health: Health,
                accepts: (Position, int) -> bool)
    requires Best(positions, p, c, priceOf, health, accepts)
    ensures exists q :: q in positions && !Refused(q, priceOf, health, accepts)
  {
    assert !Refused(p, priceOf, health, accepts);
  }

  lemma AllRefused(positions: seq<Position>, priceOf: nat -> Option<int>, health: Health,
                   accepts: (Position, int) -> bool)
    requires forall k :: 0 <= k < |Sort(LargerFirst, positions)| ==>
      Refused(Sort(LargerFirst, positions)[k], priceOf, health, accepts)
    ensures forall p :: p in positions ==> Refused(p, priceOf, health, accepts)
  {
    RankMeaning();
    SortSorted(LargerFirst, positions);
    forall p | p in positions ensures Refused(p, priceOf, health, accepts) {
      assert p in Sort(LargerFirst, positions);
    }
  }

  /**
   * Closes the smallest accepted size of the largest position that has one: no larger size is used
   * where a smaller rung is accepted, and no smaller position is touched before a larger one that
   * the contract would take, nor one of the same value that was listed before it.
   */
  method LiquidateAccount(positions: seq<Position>, priceOf: nat -> Option<int>, health: Health,
                          accepts: (Position, int) -> bool) returns (r: Option<(Position, int)>)
    ensures r.None? <==> forall p :: p in positions ==> Refused(p, priceOf, health, accepts)
    ensures r.Some? ==> Best(positions, r.value.0, r.value.1, priceOf, health, accepts)
  {
    var ranked := Sort(LargerFirst, positions);
    for i := 0 to |ranked|
      invariant forall k :: 0 <= k < i ==> Refused(ranked[k], priceOf, health, accepts)
    {
      var p := ranked[i];
      if !Priced(p, priceOf) { continue; }
      var ladder := CloseSizeLadder(p.size, priceOf(p.marketId).value, health);
      for n := 0 to |ladder|
        invariant forall k :: 0 <= k < n ==> !accepts(p, ladder[k])
      {
        assert ladder[n] in ladder;
        if ladder[n] <= 0 { continue; }
        if accepts(p, ladder[n]) {
          BestFound(positions, i, ladder, n, priceOf, health, accepts);
          NotBest(positions, p, ladder[n], priceOf, health, accepts);
          return Some((p, ladder[n]));
        }
      }
      AllRungsRefused(p, ladder, priceOf, health, accepts);
    }
    AllRefused(positions, priceOf, health, accepts);
    return None;
  }
}
