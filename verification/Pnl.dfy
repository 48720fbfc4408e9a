/** Profit and loss in raw units: client/lib/stats.ts and client/lib/math.ts. Divisions truncate toward zero. */
module Pnl {
  import opened Wrappers
  import opened BigInt

  datatype RawPos = RawPos(marketId: nat, isLong: bool, size: int, entryPrice: int)

  predicate Opposes(p: RawPos, marketId: nat, fillIsLong: bool) {
    p.marketId == marketId && p.isLong != fillIsLong && p.size > 0
  }

  function Find(positions: seq<RawPos>, marketId: nat, fillIsLong: bool): Option<RawPos> {
    if positions == [] then None
    else if Opposes(positions[0], marketId, fillIsLong) then Some(positions[0])
    else Find(positions[1..], marketId, fillIsLong)
  }

  function PriceDelta(isLong: bool, entry: int, exit: int): int { if isLong then exit - entry else entry - exit }

  function RealizedPnlForFill(positions: seq<RawPos>, marketId: nat, fillIsLong: bool, fillSize: int,
    fillPrice: int): int {
    match Find(positions, marketId, fillIsLong)
    case None => 0
    case Some(p) =>
      var closeSize := if p.size < fillSize then p.size else fillSize;
      if closeSize <= 0 then 0
      else TruncDiv(closeSize * PriceDelta(p.isLong, p.entryPrice, fillPrice), PRICE_PRECISION)
  }

  function CalcUnrealizedPnl(isLong: bool, size: int, entryPrice: int, markPrice: int): int {
    if markPrice <= 0 || entryPrice <= 0 || size <= 0 then 0
    else TruncDiv(size * PriceDelta(isLong, entryPrice, markPrice), PRICE_PRECISION)
  }

  lemma {:induction false} FindFirst(positions: seq<RawPos>, marketId: nat, fillIsLong: bool, i: nat)
    requires i < |positions| && Opposes(positions[i], marketId, fillIsLong)
    requires forall k :: 0 <= k < i ==> !Opposes(positions[k], marketId, fillIsLong)
    ensures Find(positions, marketId, fillIsLong) == Some(positions[i])
  {
    if i > 0 { FindFirst(positions[1..], marketId, fillIsLong, i - 1); }
  }

  lemma {:induction false} FindNone(positions: seq<RawPos>, marketId: nat, fillIsLong: bool)
    requires forall k :: 0 <= k < |positions| ==> !Opposes(positions[k], marketId, fillIsLong)
    ensures Find(positions, marketId, fillIsLong) == None
  {
    if positions != [] { FindNone(positions[1..], marketId, fillIsLong); }
  }

  /**
   * A fill against a position realizes exactly what the part it closes shows as unrealized at that
   * price: at most the whole of the first open position of the market on the other side.
   */
  lemma CloseRealizesUnrealized(positions: seq<RawPos>, i: nat, marketId: nat, fillIsLong: bool, fillSize: int,
    price: int)
    requires i < |positions| && price > 0 && positions[i].entryPrice > 0
    requires var p := positions[i]; p.marketId == marketId && p.isLong == !fillIsLong && p.size > 0
    requires forall k :: 0 <= k < i ==>
      positions[k].marketId != marketId || positions[k].isLong == fillIsLong || positions[k].size <= 0
    ensures var p := positions[i];
      var closed := if fillSize < p.size then fillSize else p.size;
      RealizedPnlForFill(positions, marketId, fillIsLong, fillSize, price)
        == CalcUnrealizedPnl(!fillIsLong, closed, p.entryPrice, price)
  {
    FindFirst(positions, marketId, fillIsLong, i);
  }

  /** Where no position is open on the other side, a fill opens or adds to one and realizes nothing. */
  lemma OpeningRealizesNothing(positions: seq<RawPos>, marketId: nat, fillIsLong: bool, fillSize: int, price: int)
    requires forall k :: 0 <= k < |positions| ==>
      positions[k].marketId != marketId || positions[k].isLong == fillIsLong || positions[k].size <= 0
    ensures RealizedPnlForFill(positions, marketId, fillIsLong, fillSize, price) == 0
  {
    FindNone(positions, marketId, fillIsLong);
  }

  /** `pnl` is this product of size and price difference in raw units, rounded toward zero. */
  predicate RoundsTo(product: int, pnl: int) {
    if product >= 0 then pnl >= 0 && 0 <= product - pnl * 1_000_000_000_000_000_000 < 1_000_000_000_000_000_000
    else pnl <= 0 && 0 <= pnl * 1_000_000_000_000_000_000 - product < 1_000_000_000_000_000_000
  }

  lemma TruncRounds(a: int)
    ensures RoundsTo(a, TruncDiv(a, PRICE_PRECISION))
  {
    if a >= 0 {
      DivBounds(a, PRICE_PRECISION);
    } else {
      DivBounds(-a, PRICE_PRECISION);
      TruncDivOdd(-a, PRICE_PRECISION);
    }
  }

  /** A long gains with a rising mark and a short with a falling one: size times move, rounded toward zero. */
  lemma ProfitBySide(isLong: bool, size: int, entryPrice: int, markPrice: int)
    requires size > 0 && entryPrice > 0 && markPrice > 0
    ensures var pnl := CalcUnrealizedPnl(isLong, size, entryPrice, markPrice);
      && (isLong ==> RoundsTo(size * (markPrice - entryPrice), pnl))
      && (!isLong ==> RoundsTo(size * (entryPrice - markPrice), pnl))
  {
    TruncRounds(size * (markPrice - entryPrice));
    TruncRounds(size * (entryPrice - markPrice));
  }

  /** A long and a short opened and closed together at the same prices cancel to the last unit. */
  lemma LegsCancel(size: int, entryPrice: int, markPrice: int)
    ensures CalcUnrealizedPnl(true, size, entryPrice, markPrice) +
      CalcUnrealizedPnl(false, size, entryPrice, markPrice) == 0
  {
    var d := markPrice - entryPrice;
    assert size * -d == -(size * d);
    TruncDivOdd(size * d, PRICE_PRECISION);
  }

  // ----- closing in parts -----

  function Sum(sizes: seq<nat>): nat { if sizes == [] then 0 else sizes[0] + Sum(sizes[1..]) }

  /** What a series of closes books, each rounded on its own. */
  function Booked(sizes: seq<nat>, delta: int): int {
    if sizes == [] then 0 else TruncDiv(sizes[0] * delta, PRICE_PRECISION) + Booked(sizes[1..], delta)
  }

  lemma FloorAdds(a: int, b: int, c: int)
    requires a >= 0 && b >= 0 && c > 0
    ensures 0 <= TruncDiv(a + b, c) - TruncDiv(a, c) - TruncDiv(b, c) <= 1
  {
    var x, y, z := TruncDiv(a, c), TruncDiv(b, c), TruncDiv(a + b, c);
    DivBounds(a, c);
    DivBounds(b, c);
    DivBounds(a + b, c);
    assert (x + y) * c == x * c + y * c && (x + y + 2) * c == (x + 1) * c + (y + 1) * c;
    if z < x + y { MulLe(z + 1, x + y, c); }
    if z > x + y + 1 { MulLe(x + y + 2, z, c); }
  }

  lemma {:induction false} PartsGain(sizes: seq<nat>, delta: int)
    requires delta >= 0
    ensures var whole := TruncDiv(Sum(sizes) * delta, PRICE_PRECISION);
      0 <= whole - Booked(sizes, delta) <= (if sizes == [] then 0 else |sizes| - 1)
    ensures Sum(sizes) * delta >= 0
  {
    if sizes != [] {
      var a, rest := sizes[0], Sum(sizes[1..]);
      PartsGain(sizes[1..], delta);
      assert Sum(sizes) * delta == a * delta + rest * delta;
      assert a * delta >= 0;
      FloorAdds(a * delta, rest * delta, PRICE_PRECISION);
      if sizes[1..] == [] { assert rest * delta == 0; }
    } else {
      assert Sum(sizes) * delta == 0;
    }
  }

  lemma {:induction false} BookedOdd(sizes: seq<nat>, delta: int)
    ensures Booked(sizes, -delta) == -Booked(sizes, delta)
  {
    if sizes != [] {
      BookedOdd(sizes[1..], delta);
      assert sizes[0] * -delta == -(sizes[0] * delta);
      TruncDivOdd(sizes[0] * delta, PRICE_PRECISION);
    }
  }

  lemma NegateProduct(a: int, b: int)
    ensures a * -b == -(a * b)
  {
  }

  lemma PartsLoss(sizes: seq<nat>, delta: int)
    requires delta < 0 && sizes != []
    ensures 0 <= Booked(sizes, delta) - TruncDiv(Sum(sizes) * delta, PRICE_PRECISION) < |sizes|
  {
    PartsGain(sizes, -delta);
    BookedOdd(sizes, -delta);
    NegateProduct(Sum(sizes), -delta);
    TruncDivOdd(Sum(sizes) * -delta, PRICE_PRECISION);
  }

  /**
   * Closing in k parts never books more than closing at once, in profit or in loss, and at most
   * k - 1 raw units less.
   */
  lemma SplitCloseLoss(sizes: seq<nat>, delta: int)
    requires sizes != []
    ensures var whole := TruncDiv(Sum(sizes) * delta, PRICE_PRECISION);
      if delta >= 0 then 0 <= whole - Booked(sizes, delta) < |sizes|
      else 0 <= Booked(sizes, delta) - whole < |sizes|
  {
    if delta >= 0 {
      PartsGain(sizes, delta);
    } else {
      PartsLoss(sizes, delta);
    }
  }
}
