/** Swap records: a request between two symbols, a quote for it and the result
    of executing it.

    A request classifies itself as a buy (quote currency into anything else), a
    sell (the reverse) or a generic swap, using its own list of quote symbols.
    The validators refuse empty symbols (and upper-case the others) and negative
    amounts, rates, fees and slippage. A quote estimates the output of an input
    amount; a result derives the expected rate and the realised slippage.
 */
module Swaps {
  import opened Outcomes
  import opened Decimals
  import Symbols

  /** The swap module's own lists: EUR and GBP count as stablecoins here, and
      TUSD and USDP, which the Asset classification knows, are absent. */
  const SwapStablecoins: seq<string> := ["USD", "USDC", "USDT", "DAI", "BUSD", "EUR", "GBP"]
  const SwapFiats: seq<string> := ["USD", "EUR", "GBP", "JPY", "CHF", "CAD", "AUD"]

  predicate IsQuoteSymbol(s: string) {
    s in SwapStablecoins + SwapFiats
  }

  datatype Direction = Buy | Sell | Swap

  datatype SwapType = Market | Limit | Twap | Stop

  /** The direction of a swap from `fromSymbol` to `toSymbol`. */
  function DetermineDirection(fromSymbol: string, toSymbol: string): (d: Direction)
    ensures d == Buy <==> IsQuoteSymbol(fromSymbol) && !IsQuoteSymbol(toSymbol)
    ensures d == Sell <==> !IsQuoteSymbol(fromSymbol) && IsQuoteSymbol(toSymbol)
    ensures d == Swap <==> (IsQuoteSymbol(fromSymbol) <==> IsQuoteSymbol(toSymbol))
  {
    var fromIsQuote := IsQuoteSymbol(fromSymbol);
    var toIsQuote := IsQuoteSymbol(toSymbol);
    if fromIsQuote && !toIsQuote then Buy
    else if !fromIsQuote && toIsQuote then Sell
    else Swap
  }

  function Reverse(d: Direction): Direction {
    match d
    case Buy => Sell
    case Sell => Buy
    case Swap => Swap
  }

  /** Exchanging the two symbols turns a buy into a sell and back, and keeps a swap. */
  lemma DirectionOfExchange(a: string, b: string)
    ensures DetermineDirection(b, a) == Reverse(DetermineDirection(a, b))
  {
  }

  /** The swap lists are not the Asset classification: EUR is a quote symbol
      here although it is not a stablecoin there, and TUSD is a stablecoin
      there but not a quote symbol here. */
  lemma ListsDifferFromAssetClassification()
    ensures IsQuoteSymbol("EUR") && !Symbols.IsStablecoin("EUR")
    ensures Symbols.IsStablecoin("TUSD") && !IsQuoteSymbol("TUSD")
    ensures DetermineDirection("TUSD", "BTC") == Swap
  {
    assert (SwapStablecoins + SwapFiats)[5] == "EUR";
  }

  // ---------------------------------------------------------------------------
  // Swap request
  // ---------------------------------------------------------------------------

  datatype SwapRequest = SwapRequest(
    fromSymbol: string,
    toSymbol: string,
    amount: real,
    swapType: SwapType,
    pair: string,
    reversePair: string,
    direction: Direction)
  {
    predicate IsBuy() { direction == Buy }
    predicate IsSell() { direction == Sell }
    predicate IsSwap() { direction == Swap }

    /** The stored pair and direction describe the stored symbols. */
    predicate Consistent() {
      pair == fromSymbol + "/" + toSymbol && reversePair == toSymbol + "/" + fromSymbol
      && direction == DetermineDirection(fromSymbol, toSymbol)
    }
  }

  /** The symbol validator: non-empty, then upper-cased. */
  function ValidateSymbol(s: string): (r: Result<string>)
    ensures r.Ok? <==> s != []
    ensures r.Err? ==> r.error.Validation?
    ensures r.Ok? ==> r.value == Symbols.Upper(s) && Symbols.IsUpper(r.value) && |r.value| == |s|
  {
    if s == [] then Err(Validation("Symbol must be a non-empty string")) else Ok(Symbols.Upper(s))
  }

  /** A swap request as the constructor builds it: the pair, the reverse pair and
      the direction are computed from the symbols AS GIVEN, before the validators
      upper-case them. */
  function NewSwapRequest(fromSymbol: string, toSymbol: string, amount: real, swapType: SwapType): (r: Result<SwapRequest>)
    ensures r.Ok? <==> fromSymbol != [] && toSymbol != [] && amount >= 0.0
    ensures r.Err? ==> r.error.Validation?
    ensures r.Ok? ==> r.value.fromSymbol == Symbols.Upper(fromSymbol) && r.value.toSymbol == Symbols.Upper(toSymbol)
    ensures r.Ok? ==> r.value.amount == amount && r.value.swapType == swapType
    ensures r.Ok? ==> r.value.pair == fromSymbol + "/" + toSymbol && r.value.reversePair == toSymbol + "/" + fromSymbol
    ensures r.Ok? ==> r.value.direction == DetermineDirection(fromSymbol, toSymbol)
  {
    var pair := fromSymbol + "/" + toSymbol;
    var reversePair := toSymbol + "/" + fromSymbol;
    var direction := DetermineDirection(fromSymbol, toSymbol);
    var f :- ValidateSymbol(fromSymbol);
    var t :- ValidateSymbol(toSymbol);
    if amount < 0.0 then Err(Validation("amount must be greater than or equal to 0"))
    else Ok(SwapRequest(f, t, amount, swapType, pair, reversePair, direction))
  }

  /** The request as evidently intended: the same validation, with the pair and
      the direction computed from the normalised symbols. */
  function NewSwapRequestNormalised(fromSymbol: string, toSymbol: string, amount: real, swapType: SwapType): (r: Result<SwapRequest>)
    ensures r.Ok? <==> NewSwapRequest(fromSymbol, toSymbol, amount, swapType).Ok?
    ensures r.Ok? ==> r.value.Consistent()
    ensures r.Ok? ==> r.value.fromSymbol == Symbols.Upper(fromSymbol) && r.value.toSymbol == Symbols.Upper(toSymbol)
    ensures r.Ok? ==> r.value.amount == amount && r.value.swapType == swapType
  {
    var f :- ValidateSymbol(fromSymbol);
    var t :- ValidateSymbol(toSymbol);
    if amount < 0.0 then Err(Validation("amount must be greater than or equal to 0"))
    else Ok(SwapRequest(f, t, amount, swapType, f + "/" + t, t + "/" + f, DetermineDirection(f, t)))
  }

  /** Exactly one of the three direction predicates holds. */
  lemma ExactlyOneDirection(r: SwapRequest)
    ensures r.IsBuy() || r.IsSell() || r.IsSwap()
    ensures !(r.IsBuy() && r.IsSell()) && !(r.IsBuy() && r.IsSwap()) && !(r.IsSell() && r.IsSwap())
  {
  }

  /** On symbols written in upper case both constructors agree. */
  lemma NormalisedAgreesOnUpperCase(fromSymbol: string, toSymbol: string, amount: real, swapType: SwapType)
    requires Symbols.IsUpper(fromSymbol) && Symbols.IsUpper(toSymbol)
    ensures NewSwapRequest(fromSymbol, toSymbol, amount, swapType) == NewSwapRequestNormalised(fromSymbol, toSymbol, amount, swapType)
  {
    Symbols.UpperOfUpper(fromSymbol);
    Symbols.UpperOfUpper(toSymbol);
  }

  /** Membership in the quote lists is case-sensitive. */
  lemma QuoteSymbolExamples()
    ensures IsQuoteSymbol("USDC") && !IsQuoteSymbol("usdc")
    ensures !IsQuoteSymbol("BTC") && !IsQuoteSymbol("btc")
  {
    assert (SwapStablecoins + SwapFiats)[1] == "USDC";
    assert "usdc" !in SwapStablecoins && "usdc" !in SwapFiats;
    assert "BTC" !in SwapStablecoins && "BTC" !in SwapFiats;
    assert "btc" !in SwapStablecoins && "btc" !in SwapFiats;
  }

  /** "usdc" into "btc": the stored symbols are USDC and BTC, a buy, but the
      request computed its direction from the lower-case text and says swap, and
      its pair is still "usdc/btc". */
  lemma LowerCaseRequestMisclassified()
    ensures NewSwapRequest("usdc", "btc", 1.0, Market).Ok?
    ensures var r := NewSwapRequest("usdc", "btc", 1.0, Market).value;
      r.fromSymbol == "USDC" && r.toSymbol == "BTC" &&
      r.direction == Swap && DetermineDirection(r.fromSymbol, r.toSymbol) == Buy &&
      !r.Consistent()
    ensures NewSwapRequestNormalised("usdc", "btc", 1.0, Market).Ok?
    ensures NewSwapRequestNormalised("usdc", "btc", 1.0, Market).value.direction == Buy
  {
    Symbols.UpperExamples();
    QuoteSymbolExamples();
  }

  // ---------------------------------------------------------------------------
  // Swap quote
  // ---------------------------------------------------------------------------

  datatype SwapQuote = SwapQuote(
    rate: real,
    fromSymbol: string,
    toSymbol: string,
    fees: real,
    slippage: real,
    gasEstimate: Option<real>)

  /** A quote as the constructor builds it: non-empty symbols, upper-cased, and
      a rate, fees and slippage that are not negative. */
  function NewSwapQuote(rate: real, fromSymbol: string, toSymbol: string, fees: real, slippage: real, gasEstimate: Option<real>): (r: Result<SwapQuote>)
    ensures r.Ok? <==> rate >= 0.0 && fromSymbol != [] && toSymbol != [] && fees >= 0.0 && slippage >= 0.0
    ensures r.Err? ==> r.error.Validation?
    ensures r.Ok? ==> r.value == SwapQuote(rate, Symbols.Upper(fromSymbol), Symbols.Upper(toSymbol), fees, slippage, gasEstimate)
  {
    if rate < 0.0 then Err(Validation("Value must be non-negative"))
    else
      var f :- ValidateSymbol(fromSymbol);
      var t :- ValidateSymbol(toSymbol);
      if fees < 0.0 || slippage < 0.0 then Err(Validation("Value must be non-negative"))
      else Ok(SwapQuote(rate, f, t, fees, slippage, gasEstimate))
  }

  /** The output of `input` after the rate, the fees and the slippage. */
  function EstimateOutput(q: SwapQuote, input: real): (out: real)
    ensures input == 0.0 ==> out == 0.0
    ensures input >= 0.0 && q.rate >= 0.0 && 0.0 <= q.fees <= 1.0 && 0.0 <= q.slippage <= 1.0 ==>
              0.0 <= out <= input * q.rate
  {
    var gross := input * q.rate;
    var afterFees := gross * (1.0 - q.fees);
    if input >= 0.0 && q.rate >= 0.0 && 0.0 <= q.fees <= 1.0 && 0.0 <= q.slippage <= 1.0 then
      ShrinkByFraction(gross, 1.0 - q.fees);
      ShrinkByFraction(afterFees, 1.0 - q.slippage);
      afterFees * (1.0 - q.slippage)
    else
      afterFees * (1.0 - q.slippage)
  }

  lemma ShrinkByFraction(a: real, f: real)
    requires a >= 0.0 && 0.0 <= f <= 1.0
    ensures 0.0 <= a * f <= a
  {
  }

  /** A larger input never gives a smaller estimate when fees and slippage are at most one. */
  lemma EstimateMonotone(q: SwapQuote, x: real, y: real)
    requires 0.0 <= x <= y && q.rate >= 0.0 && q.fees <= 1.0 && q.slippage <= 1.0
    ensures EstimateOutput(q, x) <= EstimateOutput(q, y)
  {
    var c := q.rate * (1.0 - q.fees) * (1.0 - q.slippage);
    assert c >= 0.0 by {
      assert q.rate * (1.0 - q.fees) >= 0.0;
    }
    assert EstimateOutput(q, x) == x * c;
    assert EstimateOutput(q, y) == y * c;
  }

  // ---------------------------------------------------------------------------
  // Swap result
  // ---------------------------------------------------------------------------

  datatype SwapResult = SwapResult(
    request: SwapRequest,
    executedRate: real,
    fromAmount: real,
    toAmount: real,
    feesPaid: real,
    transactionId: string,
    gasUsed: Option<real>,
    expectedRate: real,
    slippage: real)

  /** The rate the amounts imply: received over given, or 0 when nothing was given. */
  function ExpectedRate(fromAmount: real, toAmount: real): (rate: real)
    ensures fromAmount > 0.0 ==> rate * fromAmount == toAmount
    ensures fromAmount <= 0.0 ==> rate == 0.0
  {
    if fromAmount > 0.0 then toAmount / fromAmount else 0.0
  }

  /** The relative distance between the expected and the executed rate, or 0
      unless both are positive. */
  function Slippage(expectedRate: real, executedRate: real): (s: real)
    ensures s >= 0.0
    ensures expectedRate > 0.0 && executedRate > 0.0 ==> s * executedRate == Abs(expectedRate - executedRate)
    ensures !(expectedRate > 0.0 && executedRate > 0.0) ==> s == 0.0
  {
    if expectedRate > 0.0 && executedRate > 0.0 then
      DivMulCancel(expectedRate - executedRate, executedRate);
      Abs((expectedRate - executedRate) / executedRate)
    else 0.0
  }

  /** A result as the constructor builds it: expected rate and slippage derived
      from the amounts, and the amounts and fees refused when negative. */
  function NewSwapResult(request: SwapRequest, executedRate: real, fromAmount: real, toAmount: real,
                         feesPaid: real, transactionId: string, gasUsed: Option<real>): (r: Result<SwapResult>)
    ensures r.Ok? <==> fromAmount >= 0.0 && toAmount >= 0.0 && feesPaid >= 0.0
    ensures r.Err? ==> r.error.Validation?
    ensures r.Ok? ==> r.value.slippage >= 0.0 && r.value.expectedRate >= 0.0
    ensures r.Ok? ==> r.value.expectedRate == ExpectedRate(fromAmount, toAmount)
    ensures r.Ok? ==> r.value.slippage == Slippage(r.value.expectedRate, executedRate)
  {
    var expected := ExpectedRate(fromAmount, toAmount);
    var slippage := Slippage(expected, executedRate);
    if fromAmount < 0.0 || toAmount < 0.0 || feesPaid < 0.0 then Err(Validation("Amount must be non-negative"))
    else
      assert expected >= 0.0 by {
        if fromAmount > 0.0 {
          NonNegativeQuotient(toAmount, fromAmount);
        }
      }
      Ok(SwapResult(request, executedRate, fromAmount, toAmount, feesPaid, transactionId, gasUsed, expected, slippage))
  }

  lemma NonNegativeQuotient(a: real, b: real)
    requires a >= 0.0 && b > 0.0
    ensures a / b >= 0.0
  {
  }

  lemma PositiveQuotient(a: real, b: real)
    requires a > 0.0 && b > 0.0
    ensures a / b > 0.0
  {
  }

  /** With positive amounts and rate, the slippage is zero exactly when the
      executed rate is the rate the amounts imply. */
  lemma SlippageZeroIffExact(fromAmount: real, toAmount: real, executedRate: real)
    requires fromAmount > 0.0 && toAmount > 0.0 && executedRate > 0.0
    ensures Slippage(ExpectedRate(fromAmount, toAmount), executedRate) == 0.0 <==> executedRate * fromAmount == toAmount
  {
    var e := ExpectedRate(fromAmount, toAmount);
    assert e * fromAmount == toAmount;
    PositiveQuotient(toAmount, fromAmount);
    var s := Slippage(e, executedRate);
    assert s * executedRate == Abs(e - executedRate);
    if executedRate * fromAmount == toAmount {
      assert (e - executedRate) * fromAmount == 0.0;
      assert e == executedRate;
    }
    if s == 0.0 {
      assert e == executedRate;
    }
  }
}
