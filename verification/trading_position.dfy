/** A trading position: tokens bought at a purchase price, with a target sale
    price and a next purchase (DCA) price, all bound to one pair.

    The position computes its return on investment, its profit and its value at
    a price, decides whether to sell, to buy more or whether it is in profit,
    and produces adjusted copies of itself: a new target sale price, or a
    trailing stop that only ever raises the target. Two positions are the same
    position when their identifiers agree.
 */
module Positions {
  import opened Outcomes
  import opened Decimals
  import opened Symbols
  import opened Quantities
  import AssetOps
  import PriceOps
  import Pairs

  datatype Position = Position(
    id: string,
    pair: Pairs.BotPair,
    purchasePrice: Price,
    numberOfTokens: Token,
    expectedSalePrice: Price,
    nextPurchasePrice: Price,
    variations: map<string, real>,
    strategyTag: string,
    shortId: Option<int>,
    notes: Option<string>)

  // ---------------------------------------------------------------------------
  // Valuation
  // ---------------------------------------------------------------------------

  /** `price * tokens`: an Asset of the price's quote symbol. */
  function ValueAt(price: Price, tokens: Token): (a: Asset)
    ensures a.symbol == price.quoteSymbol && a.Valid()
    ensures a.amount == Trunc(Product(price.value, tokens.amount), AssetPrecision(price.quoteSymbol))
  {
    MakeAsset(Product(price.value, tokens.amount), price.quoteSymbol)
  }

  /** The valuation is the Price operator applied to the Token. */
  lemma ValueAtIsPriceTimesTokens(price: Price, tokens: Token)
    ensures PriceOps.Mul(price, Tok(tokens)) == Ok(Ast(ValueAt(price, tokens)))
  {
  }

  /** The percentage gained selling at `sale`; refused for a zero purchase price. */
  function Roi(pos: Position, sale: Price): (r: Result<real>)
    ensures r.Err? <==> pos.purchasePrice.value == 0.0
    ensures r.Err? ==> r.error == DivisionByZero
    ensures r.Ok? ==> r.value * pos.purchasePrice.value == (sale.value - pos.purchasePrice.value) * 100.0
  {
    var p := pos.purchasePrice.value;
    if p == 0.0 then Err(DivisionByZero) else Ok(PercentChange(sale.value, p))
  }

  /** `(to - from) / from * 100`. */
  function PercentChange(to: real, from: real): (r: real)
    requires from != 0.0
    ensures r * from == (to - from) * 100.0
  {
    DivMulCancel(to - from, from);
    (to - from) / from * 100.0
  }

  /** The value of the tokens at the purchase price. */
  function CostBasis(pos: Position): (a: Asset)
    ensures a.symbol == pos.purchasePrice.quoteSymbol && a.Valid()
    ensures a == ValueAt(pos.purchasePrice, pos.numberOfTokens)
  {
    ValueAt(pos.purchasePrice, pos.numberOfTokens)
  }

  function GrossValue(pos: Position, current: Price): (a: Asset)
    ensures a.symbol == current.quoteSymbol && a.Valid()
    ensures a == ValueAt(current, pos.numberOfTokens)
  {
    ValueAt(current, pos.numberOfTokens)
  }

  /** Sale value minus cost, as an Asset subtraction: refused when the sale price
      is quoted in another symbol than the purchase price. */
  function Profit(pos: Position, sale: Price): (r: Result<Asset>)
    ensures r.Ok? <==> sale.quoteSymbol == pos.purchasePrice.quoteSymbol
    ensures r.Err? ==> r.error == CurrencyMismatch(pos.purchasePrice.quoteSymbol, sale.quoteSymbol)
    ensures r.Ok? ==> r.value == Asset(GrossValue(pos, sale).amount - CostBasis(pos).amount, sale.quoteSymbol)
  {
    var saleValue := ValueAt(sale, pos.numberOfTokens);
    var cost := ValueAt(pos.purchasePrice, pos.numberOfTokens);
    if saleValue.symbol == cost.symbol then AssetOps.AddSubExact(saleValue, cost); AssetOps.Sub(saleValue, Ast(cost))
    else AssetOps.Sub(saleValue, Ast(cost))
  }

  function PotentialProfit(pos: Position): (r: Result<Asset>)
    ensures r == Profit(pos, pos.expectedSalePrice)
    ensures r.Ok? <==> pos.expectedSalePrice.quoteSymbol == pos.purchasePrice.quoteSymbol
  {
    Profit(pos, pos.expectedSalePrice)
  }

  function PotentialRoi(pos: Position): (r: Result<real>)
    ensures r == Roi(pos, pos.expectedSalePrice)
    ensures r.Err? <==> pos.purchasePrice.value == 0.0
  {
    Roi(pos, pos.expectedSalePrice)
  }

  // ---------------------------------------------------------------------------
  // Decisions
  // ---------------------------------------------------------------------------

  /** Sell once the price reaches the target sale price. */
  function ShouldSellAt(pos: Position, current: Price): (b: bool)
    ensures b <==> current.value >= pos.expectedSalePrice.value
  {
    PriceOps.Ge(current, Prc(pos.expectedSalePrice)).value
  }

  /** Buy more once the price falls to the next purchase price. */
  function ShouldBuyDcaAt(pos: Position, current: Price): (b: bool)
    ensures b <==> current.value <= pos.nextPurchasePrice.value
  {
    PriceOps.Le(current, Prc(pos.nextPurchasePrice)).value
  }

  /** In profit strictly above the purchase price. */
  function IsProfitableAt(pos: Position, current: Price): (b: bool)
    ensures b <==> current.value > pos.purchasePrice.value
  {
    PriceOps.Gt(current, Prc(pos.purchasePrice)).value
  }

  /** With the buy-more price below the sale target, no price both sells and buys more;
      with the sale target above the purchase price, every selling price is in profit. */
  lemma DecisionsConsistent(pos: Position, current: Price)
    ensures pos.nextPurchasePrice.value < pos.expectedSalePrice.value ==>
              !(ShouldSellAt(pos, current) && ShouldBuyDcaAt(pos, current))
    ensures pos.expectedSalePrice.value > pos.purchasePrice.value && ShouldSellAt(pos, current) ==>
              IsProfitableAt(pos, current)
  {
  }

  /** For a positive purchase price, the ROI is positive exactly when the position
      is profitable, and zero exactly at the purchase price. */
  lemma RoiAgreesWithProfitability(pos: Position, sale: Price)
    requires pos.purchasePrice.value > 0.0
    ensures Roi(pos, sale).Ok?
    ensures Roi(pos, sale).value > 0.0 <==> IsProfitableAt(pos, sale)
    ensures Roi(pos, sale).value == 0.0 <==> sale.value == pos.purchasePrice.value
  {
    var r := Roi(pos, sale).value;
    var p := pos.purchasePrice.value;
    assert r * p == (sale.value - p) * 100.0;
    SignOfProduct(r, p);
  }

  lemma SignOfProduct(r: real, p: real)
    requires p > 0.0
    ensures r > 0.0 <==> r * p > 0.0
    ensures r == 0.0 <==> r * p == 0.0
  {
    if r < 0.0 {
      assert r * p < 0.0;
    }
  }

  /** Selling at or above the purchase price with a non-negative holding never
      makes a loss. */
  lemma NoLossAtOrAbovePurchase(pos: Position, sale: Price)
    requires sale.quoteSymbol == pos.purchasePrice.quoteSymbol
    requires sale.value >= pos.purchasePrice.value && pos.numberOfTokens.amount >= 0.0
    ensures Profit(pos, sale).Ok? && Profit(pos, sale).value.amount >= 0.0
  {
    var prec := AssetPrecision(sale.quoteSymbol);
    ProductMonotone(pos.purchasePrice.value, sale.value, pos.numberOfTokens.amount);
    TruncMonotone(Product(pos.purchasePrice.value, pos.numberOfTokens.amount), Product(sale.value, pos.numberOfTokens.amount), prec);
  }

  lemma ProductMonotone(a: real, b: real, t: real)
    requires a <= b && t >= 0.0
    ensures Product(a, t) <= Product(b, t)
  {
    assert (b - a) * t >= 0.0;
  }

  // ---------------------------------------------------------------------------
  // Adjusted copies
  // ---------------------------------------------------------------------------

  /** A copy with a new target sale price; every other field is kept. */
  function AdjustExpectedSalePrice(pos: Position, newPrice: Price): (r: Position)
    ensures r.expectedSalePrice == newPrice
    ensures r.(expectedSalePrice := pos.expectedSalePrice) == pos
    ensures SamePosition(r, pos)
  {
    pos.(expectedSalePrice := newPrice)
  }

  /** Adjusting twice keeps the last price; adjusting back restores the position. */
  lemma AdjustComposes(pos: Position, p1: Price, p2: Price)
    ensures AdjustExpectedSalePrice(AdjustExpectedSalePrice(pos, p1), p2) == AdjustExpectedSalePrice(pos, p2)
    ensures AdjustExpectedSalePrice(AdjustExpectedSalePrice(pos, p1), pos.expectedSalePrice) == pos
  {
  }

  /** The trailing stop: the target becomes `current * (1 - trail)`, built
      through the pair, when that is strictly higher; otherwise the position is
      returned as it is. It fails when the pair has an empty symbol. */
  function ApplyTrailingStop(pos: Position, current: Price, trail: real): (r: Result<Position>)
    ensures r.Ok? <==> pos.pair.baseSymbol != [] && pos.pair.quoteSymbol != []
    ensures r.Err? ==> r.error.Validation?
    ensures r.Ok? ==> r.value.(expectedSalePrice := pos.expectedSalePrice) == pos
    ensures r.Ok? ==> r.value.expectedSalePrice.value >= pos.expectedSalePrice.value
    ensures r.Ok? ==> r.value.expectedSalePrice.value >= Product(current.value, 1.0 - trail)
    ensures r.Ok? && r.value != pos ==> r.value.expectedSalePrice.value == Product(current.value, 1.0 - trail)
    ensures r.Ok? ==> (r.value == pos <==> Product(current.value, 1.0 - trail) <= pos.expectedSalePrice.value)
  {
    var candidate := Pairs.CreatePrice(pos.pair, Product(current.value, 1.0 - trail));
    if candidate.Err? then Err(candidate.error)
    else if PriceOps.Gt(candidate.value, Prc(pos.expectedSalePrice)).value then
      Ok(AdjustExpectedSalePrice(pos, candidate.value))
    else Ok(pos)
  }

  /** Applying the same trailing stop twice changes nothing the second time. */
  lemma TrailingStopIdempotent(pos: Position, current: Price, trail: real)
    requires ApplyTrailingStop(pos, current, trail).Ok?
    ensures ApplyTrailingStop(ApplyTrailingStop(pos, current, trail).value, current, trail)
            == ApplyTrailingStop(pos, current, trail)
  {
  }

  // ---------------------------------------------------------------------------
  // Identity
  // ---------------------------------------------------------------------------

  /** Positions are the same position when their identifiers agree. */
  predicate SamePosition(a: Position, b: Position)
  {
    a.id == b.id
  }

  /** Identity is an equivalence that ignores every field but the identifier. */
  lemma IdentityIsEquivalence(a: Position, b: Position, c: Position)
    ensures SamePosition(a, a)
    ensures SamePosition(a, b) ==> SamePosition(b, a)
    ensures SamePosition(a, b) && SamePosition(b, c) ==> SamePosition(a, c)
    ensures SamePosition(a, a.(purchasePrice := b.purchasePrice, numberOfTokens := b.numberOfTokens, notes := b.notes))
  {
  }
}
