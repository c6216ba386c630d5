/** Symbol classification and case normalisation.

    An Asset's precision depends only on whether its symbol is a stablecoin or
    a fiat currency; the two closed lists live here. Symbols of prices and swap
    records are upper-cased by their validators; `Upper` models that for ASCII.
 */
module Symbols {

  const Stablecoins: seq<string> := ["USD", "USDC", "USDT", "DAI", "BUSD", "TUSD", "USDP"]
  const Fiats: seq<string> := ["USD", "EUR", "GBP", "JPY", "CHF", "CAD", "AUD"]

  /** Digits kept for a fiat or stablecoin amount. */
  const QuotePrecision: nat := 2
  /** Digits kept for any other asset amount. */
  const CryptoPrecision: nat := 8

  predicate IsStablecoin(symbol: string) {
    symbol in Stablecoins
  }

  predicate IsFiat(symbol: string) {
    symbol in Fiats
  }

  /** Precision an Asset of this symbol is stored at: 2 digits for the quote-like
      symbols (fiat or stablecoin), 8 for everything else. */
  function AssetPrecision(symbol: string): (p: nat)
    ensures p == QuotePrecision <==> IsStablecoin(symbol) || IsFiat(symbol)
    ensures p == CryptoPrecision <==> !IsStablecoin(symbol) && !IsFiat(symbol)
  {
    if IsFiat(symbol) || IsStablecoin(symbol) then QuotePrecision else CryptoPrecision
  }

  /** USD is both lists, USDC only a stablecoin, EUR only fiat, BTC neither. */
  lemma ClassificationExamples()
    ensures IsStablecoin("USD") && IsFiat("USD")
    ensures IsStablecoin("USDC") && !IsFiat("USDC")
    ensures IsFiat("EUR") && !IsStablecoin("EUR")
    ensures !IsFiat("BTC") && !IsStablecoin("BTC")
  {
    assert Stablecoins[0] == "USD" && Fiats[0] == "USD";
    assert Stablecoins[1] == "USDC";
    assert Fiats[1] == "EUR";
    UsdcIsNotFiat();
    EurIsNotStablecoin();
    BtcIsNeither();
  }

  lemma BtcIsNeither()
    ensures "BTC" !in Stablecoins && "BTC" !in Fiats
  {
    assert "BTC" != "USD" && "BTC" != "USDC" && "BTC" != "USDT" && "BTC" != "DAI";
    assert "BTC" != "BUSD" && "BTC" != "TUSD" && "BTC" != "USDP";
    assert "BTC" != "EUR" && "BTC" != "GBP" && "BTC" != "JPY";
    assert "BTC" != "CHF" && "BTC" != "CAD" && "BTC" != "AUD";
  }

  lemma UsdcIsNotFiat()
    ensures "USDC" !in Fiats
  {
    assert "USDC" != "USD" && "USDC" != "EUR" && "USDC" != "GBP" && "USDC" != "JPY";
    assert "USDC" != "CHF" && "USDC" != "CAD" && "USDC" != "AUD";
  }

  lemma EurIsNotStablecoin()
    ensures "EUR" !in Stablecoins
  {
    assert "EUR" != "USD" && "EUR" != "USDC" && "EUR" != "USDT" && "EUR" != "DAI";
    assert "EUR" != "BUSD" && "EUR" != "TUSD" && "EUR" != "USDP";
  }

  /** Quote-like symbols keep two digits, the others eight. */
  lemma PrecisionExamples()
    ensures AssetPrecision("USDC") == 2 && AssetPrecision("EUR") == 2
    ensures AssetPrecision("BTC") == 8 && AssetPrecision("ETH") == 8
  {
    ClassificationExamples();
  }

  // ---------------------------------------------------------------------------
  // Upper-casing (ASCII)
  // ---------------------------------------------------------------------------

  function UpperChar(c: char): (u: char)
    ensures 'a' <= c <= 'z' ==> u as int == c as int - 32
    ensures !('a' <= c <= 'z') ==> u == c
    ensures !('a' <= u <= 'z')
  {
    if 'a' <= c <= 'z' then (c as int - 32) as char else c
  }

  predicate IsUpper(s: string) {
    forall i :: 0 <= i < |s| ==> !('a' <= s[i] <= 'z')
  }

  /** The symbol validators' `v.upper()`, restricted to ASCII letters. */
  function Upper(s: string): (u: string)
    ensures |u| == |s|
    ensures forall i :: 0 <= i < |s| ==> u[i] == UpperChar(s[i])
    ensures IsUpper(u)
  {
    if s == [] then [] else [UpperChar(s[0])] + Upper(s[1..])
  }

  /** Upper-casing an already upper-case symbol changes nothing. */
  lemma UpperOfUpper(s: string)
    requires IsUpper(s)
    ensures Upper(s) == s
  {
  }

  /** Upper-casing is idempotent. */
  lemma UpperIdempotent(s: string)
    ensures Upper(Upper(s)) == Upper(s)
  {
    UpperOfUpper(Upper(s));
  }

  /** Lower-case ASCII letters are raised one by one. */
  lemma UpperExamples()
    ensures Upper("btc") == "BTC" && Upper("usdc") == "USDC" && Upper("usdt") == "USDT"
  {
    UpperOfThree('b', 't', 'c');
    UpperOfFour('u', 's', 'd', 'c');
    UpperOfFour('u', 's', 'd', 't');
  }

  lemma UpperOfThree(a: char, b: char, c: char)
    ensures Upper([a, b, c]) == [UpperChar(a), UpperChar(b), UpperChar(c)]
  {
  }

  lemma UpperOfFour(a: char, b: char, c: char, d: char)
    ensures Upper([a, b, c, d]) == [UpperChar(a), UpperChar(b), UpperChar(c), UpperChar(d)]
  {
  }
}
