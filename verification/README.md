# Exact-decimal trading quantities

A model of the quantity algebra of `python_trading_objects` and of the two
domain services built on it.

The library has three kinds of quantity:

- a **Token** is an amount of a pair's base symbol, kept at 5 fractional digits;
- an **Asset** is an amount of any symbol, kept at 2 digits for fiat currencies
  and stablecoins and at 8 for everything else;
- a **Price** is a base/quote rate and is never truncated.

Every quantity is created through a **BotPair**, the factory that parses
`"BASE/QUOTE"`. A constructor called without the factory flag refuses to build
anything. Every arithmetic result is rebuilt through the same constructors,
which truncate toward zero (ROUND_DOWN).

On top of the algebra, a **TradingPosition** records one purchase: its ROI,
profit, cost basis and sell/DCA thresholds, and the trailing stop that raises
its expected sale price. The **PositionCalculator** aggregates positions:
total value, total cost basis, weighted average purchase price and aggregate
ROI. The swap records (request, quote, result) classify and price an exchange
between two symbols.

Amounts are Dafny `real`s, so every value is exact and rounding happens only
where the program truncates. `Trunc(x, p)` cuts `x` to `p` fractional digits
toward zero. `IsMultiple(x, p)` says that `x` has at most `p` fractional
digits, which is the representation invariant of Tokens and Assets (`Valid()`).

Each operator of the source becomes a function over the operand sum type
`Value = Num | Tok | Ast | Prc`, which stands for its `isinstance` dispatch.
Every raised exception becomes an `Err` of `Outcomes.Result`:

| Python exception | `Err` value |
|---|---|
| TypeError from a wrong operand kind | `TypeMismatch` |
| TypeError from a constructor called without the factory flag | `ConstructionDiscipline` |
| TypeError from mixing two Asset symbols | `CurrencyMismatch(left, right)` |
| ZeroDivisionError | `DivisionByZero` |
| other ValueError and pydantic validation errors | `Validation(message)` |

Modules, one per source concern:

| module | file | models |
|---|---|---|
| `Outcomes` | `outcomes.dfy` | result and option types |
| `Decimals` | `decimals.dfy` | ROUND_DOWN truncation and its laws |
| `Symbols` | `symbols.dfy` | stablecoin and fiat lists, precision by symbol, ASCII upper-casing |
| `Quantities` | `quantities.dfy` | the three kinds and their construction |
| `AssetOps` | `asset_ops.dfy` | Asset operators |
| `TokenOps` | `token_ops.dfy` | Token operators |
| `PriceOps` | `price_ops.dfy` | Price operators |
| `DecimalText` | `decimal_text.dfy` | the text form of a decimal (`str(Decimal)` and `Decimal(text)`) |
| `Serialization` | `serialization.dfy` | the serialized form of Tokens and Assets |
| `Pairs` | `pair.dfy` | the pair factory |
| `Swaps` | `swap.dfy` | swap request, quote and result |
| `Positions` | `trading_position.dfy` | one trading position |
| `PositionCalculator` | `position_calculator.dfy` | aggregates over positions |

## Model

| member | source | states |
|---|---|---|
| Decimals.TruncTowardZero | src/python_trading_objects/quotes/quote.py:79-97 | ROUND_DOWN moves toward zero: the result lies between 0 and x and loses less than one unit of the last kept digit |
| Decimals.TruncIsMultiple | src/python_trading_objects/quotes/quote.py:79-97 | a truncated amount has at most p fractional digits |
| Decimals.TruncOfMultiple | src/python_trading_objects/quotes/quote.py:79-97 | truncating an amount that already has at most p digits changes nothing |
| Decimals.TruncIdempotent | src/python_trading_objects/quotes/quote.py:79-97 | truncating twice is truncating once |
| Decimals.TruncNeg | src/python_trading_objects/quotes/quote.py:79-97 | truncation is symmetric in the sign: cutting -x gives minus the cut of x |
| Decimals.TruncMonotone | src/python_trading_objects/quotes/quote.py:79-97 | truncation preserves order |
| Decimals.TruncIsGreatestBelow | src/python_trading_objects/quotes/quote.py:79-97 | for x >= 0 the result is the largest p-digit amount not above x |
| Decimals.TruncTimesInteger | src/python_trading_objects/quotes/quote.py:79-97 | a p-digit amount times a whole number needs no truncation |
| Quantities.ResolvePrecision | src/python_trading_objects/quotes/quote.py:24-50 | an explicit precision wins; otherwise a Token gets 5 digits and any other class 2 |
| Quantities.InitQuote | src/python_trading_objects/quotes/quote.py:44-59 | a computed precision truncates the amount to that many digits; an explicit precision stores the amount untouched |
| Quantities.NewToken | src/python_trading_objects/quotes/coin.py:27-45 | fails exactly when the factory flag is missing; otherwise the Token keeps its symbol and the amount cut to 5 digits |
| Quantities.NewAsset | src/python_trading_objects/quotes/asset.py:13-54 | fails exactly when the factory flag is missing; otherwise the amount is cut to 2 digits for a fiat or stablecoin symbol and to 8 otherwise |
| Quantities.NewPrice | src/python_trading_objects/quotes/price.py:27-69 | fails without the factory flag or with an empty symbol; otherwise the value is kept exactly and both symbols are upper-cased |
| Quantities.MakeToken | src/python_trading_objects/quotes/coin.py:27-45 | a rebuilt Token is valid, keeps its symbol, and lies between 0 and the exact amount |
| Quantities.MakeAsset | src/python_trading_objects/quotes/asset.py:45-54 | a rebuilt Asset is valid, keeps its symbol, and lies between 0 and the exact amount |
| Quantities.RebuildValidQuotes | src/python_trading_objects/quotes/asset.py:45-54 | rebuilding a valid Token or Asset from its own amount returns it unchanged |
| Quantities.RebuildValidPrice | src/python_trading_objects/quotes/price.py:63-69 | rebuilding a valid Price with a new value keeps its symbols |
| Quantities.QuoteEquals | src/python_trading_objects/quotes/quote.py:122-127 | defined exactly on Token and Asset operands and compares amounts only, so symbols are ignored |
| Quantities.QuoteEqualsEquivalence | src/python_trading_objects/quotes/quote.py:122-127 | quote equality is reflexive, symmetric and transitive |
| Quantities.ExactlyOneSign | src/python_trading_objects/quotes/quote.py:181-206 | exactly one of positive, zero and negative holds of a quantity |
| Quantities.IsPositive | src/python_trading_objects/quotes/quote.py:181-188 | a quantity is positive when its amount is above zero |
| Quantities.IsZero | src/python_trading_objects/quotes/quote.py:190-197 | a quantity is zero when its amount is zero |
| Quantities.IsNegative | src/python_trading_objects/quotes/quote.py:199-206 | a quantity is negative when its amount is below zero |
| Symbols.AssetPrecision | src/python_trading_objects/quotes/asset.py:34-51 | 2 digits exactly for fiat or stablecoin symbols, 8 exactly for all others |
| Symbols.ClassificationExamples | src/python_trading_objects/quotes/asset.py:34-43 | USD is in both lists, USDC is only a stablecoin, EUR is only fiat, BTC is in neither |
| Symbols.PrecisionExamples | src/python_trading_objects/quotes/asset.py:47-51 | USDC and EUR are kept at 2 digits, BTC and ETH at 8 |
| Symbols.Upper | src/python_trading_objects/quotes/price.py:63-69 | upper-casing keeps the length, maps each letter to its capital, and leaves no lower-case letter |
| Symbols.UpperExamples | src/python_trading_objects/quotes/price.py:63-69 | "btc", "usdc" and "usdt" upper-case to "BTC", "USDC" and "USDT" |
| Symbols.UpperIdempotent | src/python_trading_objects/quotes/price.py:63-69 | upper-casing twice is upper-casing once |
| AssetOps.Less | src/python_trading_objects/quotes/asset.py:77-98 | an Asset compares with a number or a same-symbol Asset; a different symbol is a currency mismatch and any other kind is a type error |
| AssetOps.Add | src/python_trading_objects/quotes/asset.py:100-122 | succeeds exactly for a same-symbol Asset, giving the sum cut to the symbol's precision; a different symbol is a currency mismatch naming both symbols |
| AssetOps.RAdd | src/python_trading_objects/quotes/asset.py:124-139 | a number on the left gives a valid Asset of the same symbol holding the sum cut to the symbol's precision |
| AssetOps.Sub | src/python_trading_objects/quotes/asset.py:141-165 | succeeds exactly for a same-symbol Asset, giving the difference cut to the symbol's precision; the mismatch error names the subtrahend's symbol first |
| AssetOps.Neg | src/python_trading_objects/quotes/asset.py:167-177 | negation keeps the symbol and gives a valid Asset |
| AssetOps.Mul | src/python_trading_objects/quotes/asset.py:179-196 | accepts only numbers and gives the exact product cut to the symbol's precision |
| AssetOps.Div | src/python_trading_objects/quotes/asset.py:198-239 | a number gives a same-symbol Asset of the quotient cut to its precision, an Asset gives a plain ratio, a Price gives a Token of the price's base holding the quotient cut to 5 digits; every zero divisor fails and a Token is refused |
| AssetOps.AddSubExact | src/python_trading_objects/quotes/asset.py:100-165 | adding or subtracting valid same-symbol Assets loses no digit |
| AssetOps.SubUndoesAdd | src/python_trading_objects/quotes/asset.py:100-165 | subtracting y undoes adding y, and same-symbol addition commutes |
| AssetOps.NegInvolution | src/python_trading_objects/quotes/asset.py:167-177 | negation is exact, negating twice gives the Asset back, and x + (-x) is zero |
| AssetOps.MismatchBothWays | src/python_trading_objects/quotes/asset.py:100-165 | mixing symbols fails in both operand orders, for +, - and < |
| AssetOps.LessIsStrictOrder | src/python_trading_objects/quotes/asset.py:77-98 | on one symbol, < is irreflexive, asymmetric, transitive and total up to equal amounts |
| AssetOps.MulByIntegerExact | src/python_trading_objects/quotes/asset.py:179-196 | scaling a valid Asset by a whole number is exact |
| AssetOps.DivUndoesMul | src/python_trading_objects/quotes/asset.py:179-239 | dividing by the whole number just multiplied by gives the Asset back |
| AssetOps.RAddMatchesAdd | src/python_trading_objects/quotes/asset.py:100-139 | a number on the left adds like a same-symbol Asset of that amount on the right |
| AssetOps.RAddExact | src/python_trading_objects/quotes/asset.py:124-139 | adding a number with at most the symbol's precision in digits is exact |
| AssetOps.RatioAcrossSymbols | src/python_trading_objects/quotes/asset.py:223-229 | the Asset-by-Asset ratio ignores symbols, and the ratio times the divisor gives back the dividend |
| TokenOps.Less | src/python_trading_objects/quotes/coin.py:68-87 | a Token compares with any Token (symbols ignored) or a number, and refuses anything else |
| TokenOps.Add | src/python_trading_objects/quotes/coin.py:89-103 | succeeds exactly for a Token operand, keeps the left symbol and holds the sum cut to 5 digits |
| TokenOps.RAdd | src/python_trading_objects/quotes/coin.py:105-118 | a number on the left gives a valid Token of the same symbol holding the sum cut to 5 digits |
| TokenOps.Sub | src/python_trading_objects/quotes/coin.py:120-134 | succeeds exactly for a Token operand, keeps the left symbol and holds the difference cut to 5 digits |
| TokenOps.Neg | src/python_trading_objects/quotes/coin.py:136-143 | negation keeps the symbol and gives a valid Token |
| TokenOps.Mul | src/python_trading_objects/quotes/coin.py:145-179 | a number gives a Token of the product cut to 5 digits; a Price gives an Asset of the price's quote symbol holding the product cut to that symbol's precision, so no larger than the exact product when that is non-negative |
| TokenOps.Div | src/python_trading_objects/quotes/coin.py:181-205 | a number gives a Token of the quotient cut to 5 digits, a Token gives a plain ratio; zero divisors fail and other kinds are refused |
| TokenOps.ValueAt | src/python_trading_objects/quotes/coin.py:215-231 | defined exactly for a Price and gives an Asset of its quote symbol |
| TokenOps.ValueAtMatchesMul | src/python_trading_objects/quotes/coin.py:215-231 | ValueAt agrees with * on Prices and refuses the numbers that * accepts |
| TokenOps.SplitBy | src/python_trading_objects/quotes/coin.py:233-252 | fails exactly when the ratio is outside [0, 1]; the parts are a·r and a·c cut to 5 digits, both in the Token's symbol, where c is the complement the floating-point subtraction produced |
| TokenOps.FloatComplementOverSplits | src/python_trading_objects/quotes/coin.py:246-251 | with the floating-point complement of 0.7, splitting 10^12 gives parts whose sum exceeds the whole, while the exact complement does not |
| TokenOps.FloatComplementLosesUnit | src/python_trading_objects/quotes/coin.py:246-251 | with the floating-point complement of 0.9, splitting 1 leaves a second part of 0.09999 where the exact complement gives 0.1 |
| TokenOps.Split | src/python_trading_objects/quotes/coin.py:233-252 | the split with the exact complement: fails exactly when the ratio is outside [0, 1]; the parts are a·r and a·(1-r) cut to 5 digits, both in the Token's symbol |
| TokenOps.SplitEndpoints | src/python_trading_objects/quotes/coin.py:233-252 | ratio 0 puts everything in the second part, ratio 1 in the first |
| TokenOps.SplitConservation | src/python_trading_objects/quotes/coin.py:233-252 | with the exact complement, for a non-negative Token the parts never exceed the whole and lose nothing or exactly one unit of the fifth digit |
| TokenOps.AddSubExact | src/python_trading_objects/quotes/coin.py:89-134 | adding and subtracting valid Tokens is exact and keeps the left symbol |
| TokenOps.SubUndoesAdd | src/python_trading_objects/quotes/coin.py:89-134 | subtracting y undoes adding y, whatever the symbols |
| TokenOps.AddIgnoresOperandSymbol | src/python_trading_objects/quotes/coin.py:89-103 | adding Tokens of two different symbols succeeds in both orders and keeps the left symbol |
| TokenOps.NegInvolution | src/python_trading_objects/quotes/coin.py:136-143 | negation is exact and negating twice gives the Token back |
| TokenOps.RAddMatchesAdd | src/python_trading_objects/quotes/coin.py:89-118 | a number on the left adds like a Token of that amount on the right |
| TokenOps.RAddExact | src/python_trading_objects/quotes/coin.py:105-118 | adding a number with at most 5 fractional digits is exact |
| TokenOps.DivUndoesMul | src/python_trading_objects/quotes/coin.py:145-205 | multiplying a valid Token by a non-zero whole number is exact, and dividing by it gives the Token back |
| PriceOps.Add | src/python_trading_objects/quotes/price.py:83-102 | only a Price is accepted; the values add and the left operand's symbols are kept |
| PriceOps.Sub | src/python_trading_objects/quotes/price.py:104-123 | only a Price is accepted; the values subtract and the left operand's symbols are kept |
| PriceOps.Div | src/python_trading_objects/quotes/price.py:125-153 | by a number gives a Price, by a Price gives a plain ratio; zero divisors fail; the quotient times the divisor gives back the value |
| PriceOps.Mul | src/python_trading_objects/quotes/price.py:155-187 | by a number gives a Price; by a Token gives an Asset of the quote symbol holding the exact product cut to that symbol's precision |
| PriceOps.Eq | src/python_trading_objects/quotes/price.py:189-200 | defined exactly for a Price operand and compares values only |
| PriceOps.Ne | src/python_trading_objects/quotes/price.py:202-204 | the negation of ==, refusing the same operands |
| PriceOps.Lt | src/python_trading_objects/quotes/price.py:206-217 | defined exactly for a Price operand and compares values |
| PriceOps.Gt | src/python_trading_objects/quotes/price.py:223-234 | defined exactly for a Price operand and compares values |
| PriceOps.Le | src/python_trading_objects/quotes/price.py:219-221 | < or ==, that is the value is at most the other's |
| PriceOps.Ge | src/python_trading_objects/quotes/price.py:236-238 | > or ==, that is the value is at least the other's |
| PriceOps.ComparisonsRefuseNonPrices | src/python_trading_objects/quotes/price.py:189-238 | all six comparisons fail with a type error on a non-Price operand |
| PriceOps.TotalOrder | src/python_trading_objects/quotes/price.py:189-238 | the comparisons form a total order on the value, with <= the complement of > |
| PriceOps.SubUndoesAdd | src/python_trading_objects/quotes/price.py:83-123 | subtracting q undoes adding q |
| PriceOps.NoPairCheck | src/python_trading_objects/quotes/price.py:83-123 | Prices of different pairs still add and subtract, keeping the left operand's pair |
| PriceOps.MulCommutesWithToken | src/python_trading_objects/quotes/price.py:181-186 | Price times Token and Token times Price give the same Asset |
| PriceOps.ExactlyOneSign | src/python_trading_objects/quotes/price.py:261-286 | exactly one of positive, zero and negative holds of a Price |
| PriceOps.IsPositive | src/python_trading_objects/quotes/price.py:261-268 | a Price is positive when its value is above zero |
| PriceOps.IsZero | src/python_trading_objects/quotes/price.py:270-277 | a Price is zero when its value is zero |
| PriceOps.IsNegative | src/python_trading_objects/quotes/price.py:279-286 | a Price is negative when its value is below zero |
| PriceOps.Examples | src/python_trading_objects/quotes/price.py:125-187 | 20000 × 0.5 is a Price of 10000, and 50000 / 25000 is the plain ratio 2 |
| DecimalText.ParseFormat | src/python_trading_objects/quotes/quote.py:71-77 | reading back the text of a decimal gives the same coefficient and exponent |
| DecimalText.FormatInjective | src/python_trading_objects/quotes/quote.py:71-77 | two different decimals never share a text |
| DecimalText.DigitsRoundTrip | src/python_trading_objects/quotes/quote.py:71-77 | reading the digit string of a natural number gives the number back |
| DecimalText.PlainExamples | src/python_trading_objects/quotes/quote.py:71-77 | 1.23456, -1.50 and 0.000001 are written positionally, with trailing zeros kept |
| DecimalText.SciExamples | src/python_trading_objects/quotes/quote.py:71-77 | an adjusted exponent below -6 switches to scientific text: 1E-8, 1.2E-7, 0E-8 |
| Serialization.SerializeAsset | src/python_trading_objects/quotes/quote.py:71-77 | the amount text reads back as the amount cut to the Asset's precision, with exactly that many fractional digits |
| Serialization.SerializeToken | src/python_trading_objects/quotes/coin.py:56-62 | the amount text reads back as the amount cut to 5 digits, next to the precision and base symbol |
| Serialization.TokenRoundTrip | src/python_trading_objects/quotes/coin.py:56-62 | a valid Token's text reads back as its exact amount, and rebuilding from it gives the same Token |
| Serialization.AssetRoundTrip | src/python_trading_objects/quotes/quote.py:71-77 | a valid Asset's text reads back as its exact amount, and rebuilding from it gives the same Asset |
| Serialization.TokenTextDeterminesAmount | src/python_trading_objects/quotes/coin.py:56-62 | two valid Tokens with the same text have the same amount |
| Serialization.TokenTextIsPositional | src/python_trading_objects/quotes/coin.py:56-62 | a Token's text never uses an exponent and has its point five characters from the end |
| Serialization.TokenExample | src/python_trading_objects/quotes/coin.py:56-62 | 1.23456789 as a Token is serialized as "1.23456" |
| Serialization.SatoshiExample | src/python_trading_objects/quotes/quote.py:71-77 | one satoshi is serialized as "1E-8" |
| Serialization.StablecoinExample | src/python_trading_objects/quotes/quote.py:71-77 | 50000 USDT is serialized as "50000.00" at precision 2 |
| Pairs.Parse | src/python_trading_objects/quotes/pair.py:11-21 | succeeds exactly when the text has one '/'; the base and quote are the pieces on either side |
| Pairs.BotPair.FriendlyName | src/python_trading_objects/quotes/pair.py:20 | the base symbol followed by the quote symbol, without the separator |
| Pairs.ParseJoined | src/python_trading_objects/quotes/pair.py:11-21 | two separator-free symbols joined by '/' parse back to themselves |
| Pairs.JoinSplit | src/python_trading_objects/quotes/pair.py:11-21 | joining the pieces of a split with the separator gives back the text |
| Pairs.SplitCount | src/python_trading_objects/quotes/pair.py:11-21 | a split has one more piece than there are separators |
| Pairs.CreateBaseAsset | src/python_trading_objects/quotes/pair.py:23-27 | an Asset of the base symbol, cut to that symbol's precision |
| Pairs.CreateQuoteAsset | src/python_trading_objects/quotes/pair.py:29-33 | an Asset of the quote symbol, cut to that symbol's precision |
| Pairs.ZeroBase | src/python_trading_objects/quotes/pair.py:35-37 | exactly zero of the base symbol |
| Pairs.ZeroQuote | src/python_trading_objects/quotes/pair.py:39-41 | exactly zero of the quote symbol |
| Pairs.CreateToken | src/python_trading_objects/quotes/pair.py:44-48 | a Token of the base symbol, cut to 5 digits |
| Pairs.CreatePrice | src/python_trading_objects/quotes/pair.py:50-54 | fails exactly when a symbol of the pair is empty; otherwise the exact value with upper-cased symbols |
| Pairs.CreateUsd | src/python_trading_objects/quotes/pair.py:56-60 | the same Asset as the quote-asset factory |
| Pairs.ZeroToken | src/python_trading_objects/quotes/pair.py:62-66 | exactly zero of the base symbol, as a Token |
| Pairs.ZeroUsd | src/python_trading_objects/quotes/pair.py:68-72 | exactly zero of the quote symbol |
| Pairs.ZeroPrice | src/python_trading_objects/quotes/pair.py:74-78 | a valid zero Price whenever both symbols are non-empty |
| Pairs.FactoryBinding | src/python_trading_objects/quotes/pair.py:23-54 | for an upper-case pair, Token times Price has the quote Asset's symbol and the Price's base is the Token's symbol |
| Pairs.LowerCasePairSplitsSymbols | src/python_trading_objects/quotes/pair.py:29-54 | for "btc/usdt", Token times Price is in "USDT" while the quote Asset is in "usdt" |
| Swaps.DetermineDirection | src/python_trading_objects/quotes/swap.py:87-103 | buy exactly when only the source is a quote symbol, sell exactly when only the target is, swap otherwise |
| Swaps.DirectionOfExchange | src/python_trading_objects/quotes/swap.py:87-103 | exchanging the two symbols turns a buy into a sell and back, and keeps a swap |
| Swaps.ListsDifferFromAssetClassification | src/python_trading_objects/quotes/swap.py:91-93 | the swap lists count EUR as a quote symbol and do not know TUSD, unlike the Asset lists |
| Swaps.ValidateSymbol | src/python_trading_objects/quotes/swap.py:105-111 | fails exactly on the empty symbol; otherwise the upper-cased symbol |
| Swaps.NewSwapRequest | src/python_trading_objects/quotes/swap.py:51-111 | fails exactly on an empty symbol or a negative amount; the pair and direction come from the symbols as given, the stored symbols are upper-cased |
| Swaps.NewSwapRequestNormalised | src/python_trading_objects/quotes/swap.py:51-111 | fails on the same inputs, and the stored pair and direction always describe the stored symbols |
| Swaps.NormalisedAgreesOnUpperCase | src/python_trading_objects/quotes/swap.py:51-111 | on upper-case symbols both request constructors give the same request |
| Swaps.LowerCaseRequestMisclassified | src/python_trading_objects/quotes/swap.py:68-111 | "usdc" into "btc" is stored as USDC into BTC yet classified as a swap, not a buy |
| Swaps.ExactlyOneDirection | src/python_trading_objects/quotes/swap.py:113-123 | exactly one of buy, sell and swap holds of a request |
| Swaps.SwapRequest.IsBuy | src/python_trading_objects/quotes/swap.py:113-115 | a request is a buy when its direction is BUY |
| Swaps.SwapRequest.IsSell | src/python_trading_objects/quotes/swap.py:117-119 | a request is a sell when its direction is SELL |
| Swaps.SwapRequest.IsSwap | src/python_trading_objects/quotes/swap.py:121-123 | a request is a generic swap when its direction is SWAP |
| Swaps.QuoteSymbolExamples | src/python_trading_objects/quotes/swap.py:91-96 | membership in the quote lists is case-sensitive: USDC is a quote symbol, usdc, BTC and btc are not |
| Swaps.NewSwapQuote | src/python_trading_objects/quotes/swap.py:170-213 | fails exactly on an empty symbol or a negative rate, fee or slippage; otherwise stores them with upper-cased symbols |
| Swaps.EstimateOutput | src/python_trading_objects/quotes/swap.py:215-221 | zero input gives zero, and with fees and slippage in [0, 1] the output is between 0 and input times rate |
| Swaps.EstimateMonotone | src/python_trading_objects/quotes/swap.py:215-221 | with fees and slippage at most one, a larger input never gives a smaller estimate |
| Swaps.ExpectedRate | src/python_trading_objects/quotes/swap.py:305 | the implied rate times the amount given is the amount received, or 0 when nothing was given |
| Swaps.Slippage | src/python_trading_objects/quotes/swap.py:306-309 | never negative; with both rates positive it is the distance between them relative to the executed rate, otherwise 0 |
| Swaps.NewSwapResult | src/python_trading_objects/quotes/swap.py:272-331 | fails exactly on a negative amount or fee; the stored expected rate and slippage are the ones the amounts imply |
| Swaps.SlippageZeroIffExact | src/python_trading_objects/quotes/swap.py:305-309 | with positive amounts and rate, slippage is zero exactly when the executed rate is the implied rate |
| Positions.ValueAt | src/python_trading_objects/domain/trading_position.py:70-85 | price times tokens as an Asset of the quote symbol, cut to its precision |
| Positions.ValueAtIsPriceTimesTokens | src/python_trading_objects/domain/trading_position.py:70-85 | the position's valuation is the Price-times-Token operator |
| Positions.Roi | src/python_trading_objects/domain/trading_position.py:44-54 | fails exactly when the purchase price is zero; otherwise ROI times the purchase price is 100 times the price change |
| Positions.CostBasis | src/python_trading_objects/domain/trading_position.py:82-85 | the purchase price times the tokens, in the purchase quote symbol |
| Positions.GrossValue | src/python_trading_objects/domain/trading_position.py:70-80 | the current price times the tokens, in the current quote symbol |
| Positions.Profit | src/python_trading_objects/domain/trading_position.py:56-68 | succeeds exactly when the sale and purchase quote symbols agree, and is gross value minus cost basis |
| Positions.PotentialProfit | src/python_trading_objects/domain/trading_position.py:87-90 | the profit at the expected sale price |
| Positions.PotentialRoi | src/python_trading_objects/domain/trading_position.py:92-95 | the ROI at the expected sale price, failing exactly when the purchase price is zero |
| Positions.ShouldSellAt | src/python_trading_objects/domain/trading_position.py:99-101 | sell exactly when the price is at or above the expected sale price |
| Positions.ShouldBuyDcaAt | src/python_trading_objects/domain/trading_position.py:103-105 | buy more exactly when the price is at or below the next purchase price |
| Positions.IsProfitableAt | src/python_trading_objects/domain/trading_position.py:107-109 | profitable exactly when the price is strictly above the purchase price |
| Positions.DecisionsConsistent | src/python_trading_objects/domain/trading_position.py:99-109 | when the buy-more price lies below the sale target no price both sells and buys more, and when the sale target lies above the purchase price every selling price is profitable |
| Positions.RoiAgreesWithProfitability | src/python_trading_objects/domain/trading_position.py:44-54 | with a positive purchase price, ROI is positive exactly when profitable and zero exactly at the purchase price |
| Positions.NoLossAtOrAbovePurchase | src/python_trading_objects/domain/trading_position.py:56-85 | selling non-negative tokens at or above the purchase price, in the same quote, never shows a loss |
| Positions.AdjustExpectedSalePrice | src/python_trading_objects/domain/trading_position.py:113-130 | only the expected sale price changes, and the result is the same position by identity |
| Positions.AdjustComposes | src/python_trading_objects/domain/trading_position.py:113-130 | a second adjustment overrides the first, and restoring the old price gives the position back |
| Positions.ApplyTrailingStop | src/python_trading_objects/domain/trading_position.py:132-152 | fails only on an empty pair symbol; never lowers the expected price, leaves it at least the trailed price, changes only that field, and returns the position unchanged exactly when the trailed price is not strictly higher |
| Positions.TrailingStopIdempotent | src/python_trading_objects/domain/trading_position.py:132-152 | applying the same trailing stop twice is applying it once |
| Positions.IdentityIsEquivalence | src/python_trading_objects/domain/trading_position.py:203-207 | identity by id is an equivalence and ignores prices, tokens and notes |
| Positions.SamePosition | src/python_trading_objects/domain/trading_position.py:203-207 | two positions are the same position exactly when their ids agree |
| PositionCalculator.TotalValue | src/python_trading_objects/domain/position_calculator.py:16-30 | the exact sum of the gross values, in the current quote symbol, with no digit lost |
| PositionCalculator.TotalCostBasis | src/python_trading_objects/domain/position_calculator.py:32-42 | zero USDT when empty; otherwise the sum of cost bases cut to the first position's quote precision |
| PositionCalculator.TotalCostIsExact | src/python_trading_objects/domain/position_calculator.py:32-42 | when every purchase quote has the first position's precision, the total cost basis loses nothing |
| PositionCalculator.AverageOf | src/python_trading_objects/domain/position_calculator.py:59-69 | fails exactly on zero total tokens or an empty pair symbol; otherwise the price times the total tokens is the total cost |
| PositionCalculator.AveragePrice | src/python_trading_objects/domain/position_calculator.py:44-69 | fails on no positions; otherwise the average of the summed cost bases over the summed tokens |
| PositionCalculator.WeightedAveragePrice | src/python_trading_objects/domain/position_calculator.py:44-69 | the accumulating loop computes the average price |
| PositionCalculator.AverageOfUniformPrice | src/python_trading_objects/domain/position_calculator.py:44-69 | when every cost is one price times its tokens, the weighted average is that price |
| PositionCalculator.HundredPositionsExample | src/python_trading_objects/domain/position_calculator.py:32-42 | one hundred purchases of 0.01 BTC at 50000 USDT cost exactly 50000 USDT |
| PositionCalculator.AggregateRoi | src/python_trading_objects/domain/position_calculator.py:71-83 | 0 for no positions; otherwise the percentage change from total cost to total value |
| PositionCalculator.RoiOf | src/python_trading_objects/domain/position_calculator.py:80-83 | 0 at zero cost; otherwise ROI times cost is 100 times the gain, positive exactly on a gain |
| PositionCalculator.AggregateRoiSign | src/python_trading_objects/domain/position_calculator.py:71-83 | with a positive total cost, aggregate ROI is positive exactly when value exceeds cost and zero exactly when they are equal |

## Left out

- Prices are floats in the source; here a Price value is an exact real. Float rounding of prices, and float-to-decimal conversion through `str`, are not modelled.
- Several operations mix a float with a Decimal, which raises TypeError in Python: a Price times a Token (price.py:182), an Asset divided by a Price (asset.py:231-237), and the trailing-stop candidate (trading_position.py:146). The model computes these exactly, as the surrounding code evidently intends.
- AssetOps.Less: compares with every number, whereas asset.py:94-95 admit only a float, so an int or a Decimal on the right raises TypeError.
- PriceOps.Div: divides by every non-zero number, whereas price.py:140 admits only an int or a float, so a Decimal divisor raises TypeError (price.py:153).
- AssetOps.Mul: succeeds on every number, whereas asset.py:192 admits only a float and asset.py:195-196 then multiply a Decimal by that float, which raises; as written, Asset times anything fails.
- AssetOps.Div: divides by every non-zero number, whereas asset.py:220-221 divide a Decimal by an int or float, which raises for a float divisor.
- AssetOps.RAdd: adds every number, whereas asset.py:137-138 add a Decimal and a float, which raises for a float on the left.
- PositionCalculator.AverageOf: builds the average Price from the exact quotient, whereas price.py:49 admits only a float or an int and so refuses the Decimal average that position_calculator.py:62-69 passes in.
- TokenOps.Split: takes the complement `1 - ratio` exactly, whereas coin.py:247 computes it in binary floating point before reading it back as a decimal (`1 - 0.9` reads back as 0.09999999999999998, so 1 BTC at 0.9 gives a second part of 0.09999, not 0.1). TokenOps.SplitBy keeps that complement as a parameter; binary64 arithmetic itself is not modelled.
- TokenOps.SplitConservation: holds for the exact complement only; with the floating-point complement the parts can exceed the whole (10^12 at 0.7, TokenOps.FloatComplementOverSplits).
- Some operand type gates go through `bot_assert`, others test `isinstance` directly; src/python_trading_objects/quotes/assertion.py is not part of this model. The Asset gate admits only float and int, which would refuse the Decimal amounts that the arithmetic passes back in. The model treats every number alike (`Num`) and checks only the operand kind.
- `zero_*` factories pass `Decimal("0")` to float-only gates; the model builds the zeros directly.
- Decimal's 28-digit context, signalled conditions and negative zero are not modelled: arithmetic is exact and `-0` equals `0`.
- `set_precision` is left out: it re-truncates an existing quote to a caller-chosen precision outside the factory discipline.
- `to_dict`, `to_json`, `__str__`, `__repr__` and `__hash__` are output or hashing helpers and are left out. Only the serialized amount field is modelled.
- Positions.Position has no timestamp field: the creation time (trading_position.py:39) comes from the clock and no modelled operation reads it. Swaps.SwapResult has no timestamp either (swap.py:265). Position ids and transaction ids are plain parameters.
- The legacy trees (quotes/, business/, venantvr/) duplicate the modelled classes and are not part of this model.
- DecimalText.Parse reads only the forms that `str(Decimal)` writes, plus a leading '+'. It does not read the full `Decimal(text)` grammar (spaces, lower-case 'e', infinities, NaN).
- Symbols.Upper upper-cases ASCII letters only; Python's `str.upper` also maps other Unicode letters.
- The `USD` subclass is treated as an Asset of symbol "USD": it shares Asset's arithmetic and precision rule.
- Pydantic collects all validation errors; the swap constructors report only the first one.
- The gas fields of swap quotes and results are stored without validation, as in the source.
- PositionCalculator.AggregateRoi: does not model the final conversion to float; the exact percentage is returned.
- Positions.Roi: does not model the conversion to float; the exact percentage is returned.
- Swaps.EstimateOutput: states bounds only when fees and slippage lie in [0, 1], because the source does not bound fees or slippage above.

## Findings

| source | as written | input that shows it | evidently intended | confidence | as-written member | corrected member |
|---|---|---|---|---|---|---|
| src/python_trading_objects/quotes/swap.py:68-73,105-111 | the pair and direction are computed from the raw symbols before the validators upper-case them | `SwapRequest("usdc", "btc", 1)`: stored as USDC into BTC, yet its direction is SWAP and its pair is "usdc/btc" | direction BUY and pair "USDC/BTC", from the normalised symbols | high (not executed) | Swaps.NewSwapRequest, Swaps.LowerCaseRequestMisclassified | Swaps.NewSwapRequestNormalised |
| src/python_trading_objects/quotes/coin.py:246-251 | the second part uses `1 - ratio` computed in binary floating point, then read back as a decimal | `Token(10^12).split(0.7)`: 1 - 0.7 reads back as 0.30000000000000004, so the parts are 700000000000 and 300000000000.00004, which sum to more than the whole | the exact complement, so the parts never exceed the whole | medium (not executed) | TokenOps.SplitBy, TokenOps.FloatComplementOverSplits | TokenOps.Split, TokenOps.SplitConservation |
