/** Aggregates over a list of trading positions: their total value at a price,
    their total cost, the token-weighted average purchase price and the
    aggregate return on investment.

    The totals add the positions' exact amounts and rebuild one Asset from the
    sum, which truncates it to the precision of the result's symbol.
 */
module PositionCalculator {
  import opened Outcomes
  import opened Decimals
  import opened Symbols
  import opened Quantities
  import Positions
  import Pairs

  type Position = Positions.Position

  // ---------------------------------------------------------------------------
  // Sums, left to right
  // ---------------------------------------------------------------------------

  /** `sum(xs)`, adding from the left. */
  function Sum(xs: seq<real>): real
  {
    if xs == [] then 0.0 else Sum(xs[..|xs| - 1]) + xs[|xs| - 1]
  }

  /** The gross value of each position at one price. */
  function Grosses(ps: seq<Position>, current: Price): (xs: seq<real>)
    ensures |xs| == |ps|
    ensures forall i :: 0 <= i < |ps| ==> xs[i] == Positions.GrossValue(ps[i], current).amount
  {
    seq(|ps|, i requires 0 <= i < |ps| => Positions.GrossValue(ps[i], current).amount)
  }

  /** The cost basis of each position. */
  function Costs(ps: seq<Position>): (xs: seq<real>)
    ensures |xs| == |ps|
    ensures forall i :: 0 <= i < |ps| ==> xs[i] == Positions.CostBasis(ps[i]).amount
  {
    seq(|ps|, i requires 0 <= i < |ps| => Positions.CostBasis(ps[i]).amount)
  }

  /** The token amount of each position. */
  function Tokens(ps: seq<Position>): (xs: seq<real>)
    ensures |xs| == |ps|
    ensures forall i :: 0 <= i < |ps| ==> xs[i] == ps[i].numberOfTokens.amount
  {
    seq(|ps|, i requires 0 <= i < |ps| => ps[i].numberOfTokens.amount)
  }

  /** A sum of multiples of 10^-p is one. */
  lemma {:induction false} SumOfMultiples(xs: seq<real>, p: nat)
    requires forall i :: 0 <= i < |xs| ==> IsMultiple(xs[i], p)
    ensures IsMultiple(Sum(xs), p)
  {
    if xs == [] {
      IntegerIsMultiple(0, p);
    } else {
      SumOfMultiples(xs[..|xs| - 1], p);
      MultipleAdd(Sum(xs[..|xs| - 1]), xs[|xs| - 1], p);
    }
  }

  /** A prefix one longer adds the next element. */
  lemma SumPrefix(xs: seq<real>, i: nat)
    requires i < |xs|
    ensures Sum(xs[..i + 1]) == Sum(xs[..i]) + xs[i]
  {
    assert xs[..i + 1][..i] == xs[..i];
  }

  /** Every gross value is quoted in the price's symbol, so their sum already
      has that symbol's precision. */
  lemma GrossSumIsMultiple(ps: seq<Position>, current: Price)
    ensures IsMultiple(Sum(Grosses(ps, current)), AssetPrecision(current.quoteSymbol))
  {
    var xs := Grosses(ps, current);
    forall i | 0 <= i < |xs|
      ensures IsMultiple(xs[i], AssetPrecision(current.quoteSymbol))
    {
      assert Positions.GrossValue(ps[i], current).Valid();
    }
    SumOfMultiples(xs, AssetPrecision(current.quoteSymbol));
  }

  /** When every cost basis has precision p, so does their sum. */
  lemma CostSumIsMultiple(ps: seq<Position>, p: nat)
    requires forall i :: 0 <= i < |ps| ==> AssetPrecision(ps[i].purchasePrice.quoteSymbol) == p
    ensures IsMultiple(Sum(Costs(ps)), p)
  {
    var xs := Costs(ps);
    forall i | 0 <= i < |xs|
      ensures IsMultiple(xs[i], p)
    {
      assert Positions.CostBasis(ps[i]).Valid();
    }
    SumOfMultiples(xs, p);
  }

  // ---------------------------------------------------------------------------
  // Totals
  // ---------------------------------------------------------------------------

  /** The value of all positions at one price, in the price's quote symbol; the
      sum is exact, no truncation is lost. */
  function TotalValue(ps: seq<Position>, current: Price): (a: Asset)
    ensures a.symbol == current.quoteSymbol && a.Valid()
    ensures a.amount == Sum(Grosses(ps, current))
  {
    var p := AssetPrecision(current.quoteSymbol);
    GrossSumIsMultiple(ps, current);
    TruncOfMultiple(Sum(Grosses(ps, current)), p);
    if ps == [] then MakeAsset(0.0, current.quoteSymbol)
    else MakeAsset(Sum(Grosses(ps, current)), current.quoteSymbol)
  }

  /** The cost of all positions, in the first position's quote symbol, or zero
      USDT for no positions. */
  function TotalCostBasis(ps: seq<Position>): (a: Asset)
    ensures ps == [] ==> a == Asset(0.0, "USDT")
    ensures ps != [] ==> a.symbol == ps[0].pair.quoteSymbol
    ensures a.Valid() && a.amount == Trunc(Sum(Costs(ps)), a.Precision())
  {
    if ps == [] then
      IntegerIsMultiple(0, AssetPrecision("USDT"));
      TruncOfMultiple(0.0, AssetPrecision("USDT"));
      MakeAsset(0.0, "USDT")
    else MakeAsset(Sum(Costs(ps)), ps[0].pair.quoteSymbol)
  }

  /** When every position's cost is kept at the precision of the first pair's
      quote symbol, the total cost is the exact sum. */
  lemma TotalCostIsExact(ps: seq<Position>)
    requires forall i :: 0 <= i < |ps| ==>
      AssetPrecision(ps[i].purchasePrice.quoteSymbol) == TotalCostBasis(ps).Precision()
    ensures TotalCostBasis(ps).amount == Sum(Costs(ps))
  {
    var p := TotalCostBasis(ps).Precision();
    CostSumIsMultiple(ps, p);
    TruncOfMultiple(Sum(Costs(ps)), p);
  }

  // ---------------------------------------------------------------------------
  // Weighted average price
  // ---------------------------------------------------------------------------

  /** Total cost over total tokens as a Price of the pair; refused for zero
      tokens or an empty symbol. */
  function AverageOf(totalCost: real, totalTokens: real, bp: Pairs.BotPair): (r: Result<Price>)
    ensures r.Ok? <==> totalTokens != 0.0 && bp.baseSymbol != [] && bp.quoteSymbol != []
    ensures r.Err? ==> r.error.Validation?
    ensures r.Ok? ==> r.value.value * totalTokens == totalCost
    ensures r.Ok? ==> r.value.baseSymbol == Upper(bp.baseSymbol) && r.value.quoteSymbol == Upper(bp.quoteSymbol)
  {
    if totalTokens == 0.0 then Err(Validation("Cannot calculate average: total tokens is zero"))
    else NewPrice(Ratio(totalCost, totalTokens), bp.baseSymbol, bp.quoteSymbol, true)
  }

  function Ratio(c: real, n: real): (r: real)
    requires n != 0.0
    ensures r * n == c
  {
    DivMulCancel(c, n);
    c / n
  }

  /** The reference definition: refused for no positions, otherwise the
      average of the summed costs and tokens in the first position's pair. */
  function AveragePrice(ps: seq<Position>): (r: Result<Price>)
    ensures ps == [] ==> r.Err? && r.error.Validation?
    ensures ps != [] ==> r == AverageOf(Sum(Costs(ps)), Sum(Tokens(ps)), ps[0].pair)
  {
    if ps == [] then Err(Validation("Cannot calculate average of empty positions"))
    else AverageOf(Sum(Costs(ps)), Sum(Tokens(ps)), ps[0].pair)
  }

  /** The accumulating loop over the positions computes the reference average. */
  method WeightedAveragePrice(ps: seq<Position>) returns (r: Result<Price>)
    ensures r == AveragePrice(ps)
  {
    if ps == [] {
      return Err(Validation("Cannot calculate average of empty positions"));
    }
    var totalCost := 0.0;
    var totalTokens := 0.0;
    var i := 0;
    while i < |ps|
      invariant 0 <= i <= |ps|
      invariant totalCost == Sum(Costs(ps)[..i])
      invariant totalTokens == Sum(Tokens(ps)[..i])
    {
      SumPrefix(Costs(ps), i);
      SumPrefix(Tokens(ps), i);
      totalCost := totalCost + Positions.CostBasis(ps[i]).amount;
      totalTokens := totalTokens + ps[i].numberOfTokens.amount;
      i := i + 1;
    }
    assert Costs(ps)[..|ps|] == Costs(ps);
    assert Tokens(ps)[..|ps|] == Tokens(ps);
    if totalTokens == 0.0 {
      return Err(Validation("Cannot calculate average: total tokens is zero"));
    }
    r := NewPrice(Ratio(totalCost, totalTokens), ps[0].pair.baseSymbol, ps[0].pair.quoteSymbol, true);
  }

  /** When every position cost exactly p per token, the average is p. */
  lemma {:induction false} AverageOfUniformPrice(cs: seq<real>, ts: seq<real>, p: real, bp: Pairs.BotPair)
    requires |cs| == |ts| && forall i :: 0 <= i < |cs| ==> cs[i] == p * ts[i]
    requires AverageOf(Sum(cs), Sum(ts), bp).Ok?
    ensures AverageOf(Sum(cs), Sum(ts), bp).value.value == p
  {
    SumScaled(cs, ts, p);
    var a := AverageOf(Sum(cs), Sum(ts), bp).value.value;
    assert (a - p) * Sum(ts) == 0.0;
  }

  /** Termwise `c == p * t` sums to `Sum(cs) == p * Sum(ts)`. */
  lemma {:induction false} SumScaled(cs: seq<real>, ts: seq<real>, p: real)
    requires |cs| == |ts| && forall i :: 0 <= i < |cs| ==> cs[i] == p * ts[i]
    ensures Sum(cs) == p * Sum(ts)
  {
    if cs != [] {
      var n := |cs| - 1;
      SumScaled(cs[..n], ts[..n], p);
      assert p * (Sum(ts[..n]) + ts[n]) == p * Sum(ts[..n]) + p * ts[n];
    }
  }

  /** n copies of c sum to n * c. */
  lemma {:induction false} SumConstant(xs: seq<real>, c: real)
    requires forall i :: 0 <= i < |xs| ==> xs[i] == c
    ensures Sum(xs) == (|xs| as real) * c
  {
    if xs != [] {
      SumConstant(xs[..|xs| - 1], c);
      assert (|xs| as real) * c == ((|xs| - 1) as real) * c + c;
    }
  }

  /** A hundred positions of 0.01 BTC bought at 50000 USDT cost exactly
      50000.00 USDT together. */
  lemma HundredPositionsExample(pos: Position)
    requires pos.pair == Pairs.BotPair("BTC/USDT", "BTC", "USDT")
    requires pos.purchasePrice == Price(50000.0, "BTC", "USDT") && pos.numberOfTokens == Token(0.01, "BTC")
    ensures TotalCostBasis(seq(100, _ => pos)) == Asset(50000.0, "USDT")
  {
    var ps := seq(100, _ => pos);
    assert AssetPrecision("USDT") == 2;
    assert Scale(2) == 100.0;
    assert TruncCoefficient(500.0, 2) == 50000;
    assert Positions.CostBasis(pos).amount == 500.0;
    SumConstant(Costs(ps), 500.0);
    TotalCostIsExact(ps);
  }

  // ---------------------------------------------------------------------------
  // Aggregate ROI
  // ---------------------------------------------------------------------------

  /** The percentage gained over all positions at one price: the percentage
      change from the total cost to the total value, zero for no positions. */
  function AggregateRoi(ps: seq<Position>, current: Price): (r: real)
    ensures ps == [] ==> r == 0.0
    ensures ps != [] ==> r == RoiOf(TotalValue(ps, current).amount, TotalCostBasis(ps).amount)
  {
    if ps == [] then 0.0 else RoiOf(TotalValue(ps, current).amount, TotalCostBasis(ps).amount)
  }

  /** The percentage change from cost to value; zero when nothing was spent. */
  function RoiOf(value: real, cost: real): (r: real)
    ensures cost == 0.0 ==> r == 0.0
    ensures cost != 0.0 ==> r * cost == (value - cost) * 100.0
    ensures cost > 0.0 ==> (r > 0.0 <==> value > cost) && (r == 0.0 <==> value == cost)
  {
    if cost == 0.0 then 0.0
    else
      var r := Positions.PercentChange(value, cost);
      if cost > 0.0 then Positions.SignOfProduct(r, cost); r else r
  }

  /** With a positive total cost, the aggregate ROI is positive exactly when the
      positions are worth more than they cost. */
  lemma AggregateRoiSign(ps: seq<Position>, current: Price)
    requires ps != [] && TotalCostBasis(ps).amount > 0.0
    ensures AggregateRoi(ps, current) > 0.0 <==> TotalValue(ps, current).amount > TotalCostBasis(ps).amount
    ensures AggregateRoi(ps, current) == 0.0 <==> TotalValue(ps, current).amount == TotalCostBasis(ps).amount
  {
  }
}
