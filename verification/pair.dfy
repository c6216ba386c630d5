/** The pair factory: "BASE/QUOTE" parsing and the constructors bound to it.

    A pair is parsed by splitting on '/', which must give exactly two pieces
    (empty pieces are accepted here). Every quantity is then created through the
    pair, so a Token, a base Asset and the price's base all carry the base
    symbol, and a quote Asset and the price's quote carry the quote symbol.
    Only Price upper-cases its symbols; Tokens and Assets keep them as written.
 */
module Pairs {
  import opened Outcomes
  import opened Decimals
  import opened Symbols
  import opened Quantities
  import TokenOps

  // ---------------------------------------------------------------------------
  // Splitting on a separator
  // ---------------------------------------------------------------------------

  /** `s.split(sep)`: the pieces between occurrences of sep, empty ones included. */
  function SplitOn(s: string, sep: char): (parts: seq<string>)
    ensures |parts| >= 1
    ensures forall i :: 0 <= i < |parts| ==> sep !in parts[i]
  {
    if s == [] then [[]]
    else if s[0] == sep then [[]] + SplitOn(s[1..], sep)
    else
      var rest := SplitOn(s[1..], sep);
      [[s[0]] + rest[0]] + rest[1..]
  }

  /** `sep.join(parts)`. */
  function JoinWith(parts: seq<string>, sep: char): string
    requires |parts| >= 1
  {
    if |parts| == 1 then parts[0] else parts[0] + [sep] + JoinWith(parts[1..], sep)
  }

  /** The number of occurrences of c in s. */
  function Occurrences(s: string, c: char): nat
  {
    if s == [] then 0 else (if s[0] == c then 1 else 0) + Occurrences(s[1..], c)
  }

  /** Joining the pieces with the separator gives back the string. */
  lemma {:induction false} JoinSplit(s: string, sep: char)
    ensures JoinWith(SplitOn(s, sep), sep) == s
  {
    if s == [] {
    } else if s[0] == sep {
      JoinSplit(s[1..], sep);
      assert s == [sep] + s[1..];
    } else {
      JoinSplit(s[1..], sep);
      var rest := SplitOn(s[1..], sep);
      if |rest| == 1 {
        assert JoinWith(rest, sep) == rest[0];
      } else {
        assert JoinWith(rest, sep) == rest[0] + [sep] + JoinWith(rest[1..], sep);
        assert ([[s[0]] + rest[0]] + rest[1..])[1..] == rest[1..];
      }
      assert s == [s[0]] + s[1..];
    }
  }

  /** There is one more piece than there are separators. */
  lemma {:induction false} SplitCount(s: string, sep: char)
    ensures |SplitOn(s, sep)| == Occurrences(s, sep) + 1
  {
    if s != [] {
      SplitCount(s[1..], sep);
    }
  }

  /** A string without the separator splits into itself. */
  lemma {:induction false} SplitWithoutSeparator(s: string, sep: char)
    requires sep !in s
    ensures SplitOn(s, sep) == [s]
  {
    if s != [] {
      assert sep !in s[1..];
      SplitWithoutSeparator(s[1..], sep);
      assert s == [s[0]] + s[1..];
    }
  }

  /** Splitting `a + [sep] + b` with no separator in a puts a first. */
  lemma {:induction false} SplitAfterPrefix(a: string, b: string, sep: char)
    requires sep !in a
    ensures SplitOn(a + [sep] + b, sep) == [a] + SplitOn(b, sep)
  {
    if a == [] {
      assert a + [sep] + b == [sep] + b;
    } else {
      assert (a + [sep] + b)[1..] == a[1..] + [sep] + b;
      assert sep !in a[1..];
      SplitAfterPrefix(a[1..], b, sep);
      assert a == [a[0]] + a[1..];
    }
  }

  // ---------------------------------------------------------------------------
  // The pair
  // ---------------------------------------------------------------------------

  datatype BotPair = BotPair(pair: string, baseSymbol: string, quoteSymbol: string) {
    /** The pair without its separator: base then quote. */
    function FriendlyName(): string {
      baseSymbol + quoteSymbol
    }
  }

  /** `BotPair(pair)`: exactly two pieces around a single '/'. */
  function Parse(pair: string): (r: Result<BotPair>)
    ensures r.Ok? <==> Occurrences(pair, '/') == 1
    ensures r.Err? ==> r.error.Validation?
    ensures r.Ok? ==> r.value.pair == pair && r.value.baseSymbol + "/" + r.value.quoteSymbol == pair
    ensures r.Ok? ==> '/' !in r.value.baseSymbol && '/' !in r.value.quoteSymbol
  {
    var parts := SplitOn(pair, '/');
    SplitCount(pair, '/');
    JoinSplit(pair, '/');
    if |parts| != 2 then Err(Validation("a pair is two symbols around a single '/'"))
    else
      assert JoinWith(parts, '/') == parts[0] + "/" + parts[1];
      Ok(BotPair(pair, parts[0], parts[1]))
  }

  /** Writing two separator-free symbols around '/' and parsing gives them back. */
  lemma ParseJoined(base: string, quote: string)
    requires '/' !in base && '/' !in quote
    ensures Parse(base + "/" + quote) == Ok(BotPair(base + "/" + quote, base, quote))
    ensures Parse(base + "/" + quote).value.FriendlyName() == base + quote
  {
    SplitAfterPrefix(base, quote, '/');
    SplitWithoutSeparator(quote, '/');
  }

  // ---------------------------------------------------------------------------
  // Factories
  // ---------------------------------------------------------------------------

  function CreateBaseAsset(bp: BotPair, amount: real): (a: Asset)
    ensures a.symbol == bp.baseSymbol && a.Valid()
    ensures a.amount == Trunc(amount, AssetPrecision(bp.baseSymbol))
  {
    MakeAsset(amount, bp.baseSymbol)
  }

  function CreateQuoteAsset(bp: BotPair, amount: real): (a: Asset)
    ensures a.symbol == bp.quoteSymbol && a.Valid()
    ensures a.amount == Trunc(amount, AssetPrecision(bp.quoteSymbol))
  {
    MakeAsset(amount, bp.quoteSymbol)
  }

  function ZeroBase(bp: BotPair): (a: Asset)
    ensures a == Asset(0.0, bp.baseSymbol)
  {
    ZeroTruncates(AssetPrecision(bp.baseSymbol));
    CreateBaseAsset(bp, 0.0)
  }

  function ZeroQuote(bp: BotPair): (a: Asset)
    ensures a == Asset(0.0, bp.quoteSymbol)
  {
    ZeroTruncates(AssetPrecision(bp.quoteSymbol));
    CreateQuoteAsset(bp, 0.0)
  }

  function CreateToken(bp: BotPair, amount: real): (t: Token)
    ensures t.baseSymbol == bp.baseSymbol && t.Valid()
    ensures t.amount == Trunc(amount, TokenPrecision)
  {
    MakeToken(amount, bp.baseSymbol)
  }

  /** The price of the pair; it fails when a symbol of the pair is empty. */
  function CreatePrice(bp: BotPair, value: real): (r: Result<Price>)
    ensures r.Ok? <==> bp.baseSymbol != [] && bp.quoteSymbol != []
    ensures r.Err? ==> r.error.Validation?
    ensures r.Ok? ==> r.value == Price(value, Upper(bp.baseSymbol), Upper(bp.quoteSymbol))
  {
    NewPrice(value, bp.baseSymbol, bp.quoteSymbol, true)
  }

  /** The legacy quote-currency constructor: an Asset of the quote symbol. */
  function CreateUsd(bp: BotPair, amount: real): (a: Asset)
    ensures a == CreateQuoteAsset(bp, amount)
  {
    MakeAsset(amount, bp.quoteSymbol)
  }

  function ZeroToken(bp: BotPair): (t: Token)
    ensures t == Token(0.0, bp.baseSymbol)
  {
    ZeroTruncates(TokenPrecision);
    CreateToken(bp, 0.0)
  }

  function ZeroUsd(bp: BotPair): (a: Asset)
    ensures a == Asset(0.0, bp.quoteSymbol)
  {
    ZeroTruncates(AssetPrecision(bp.quoteSymbol));
    CreateUsd(bp, 0.0)
  }

  function ZeroPrice(bp: BotPair): (r: Result<Price>)
    ensures r.Ok? <==> bp.baseSymbol != [] && bp.quoteSymbol != []
    ensures r.Ok? ==> r.value.value == 0.0 && r.value.Valid()
  {
    CreatePrice(bp, 0.0)
  }

  lemma ZeroTruncates(p: nat)
    ensures Trunc(0.0, p) == 0.0
  {
    IntegerIsMultiple(0, p);
    TruncOfMultiple(0.0, p);
  }

  // ---------------------------------------------------------------------------
  // Binding
  // ---------------------------------------------------------------------------

  /** For a pair written in upper case, a Token times the pair's Price is an
      Asset of the same symbol as the pair's quote Assets, and dividing a quote
      Asset by the Price gives a Token of the pair's base symbol. */
  lemma FactoryBinding(bp: BotPair, amount: real, value: real)
    requires bp.baseSymbol != [] && bp.quoteSymbol != []
    requires IsUpper(bp.baseSymbol) && IsUpper(bp.quoteSymbol)
    ensures CreatePrice(bp, value).Ok?
    ensures var p := CreatePrice(bp, value).value;
      TokenOps.Mul(CreateToken(bp, amount), Prc(p)).value.a.symbol == CreateQuoteAsset(bp, amount).symbol &&
      p.baseSymbol == CreateToken(bp, amount).baseSymbol
  {
    UpperOfUpper(bp.baseSymbol);
    UpperOfUpper(bp.quoteSymbol);
  }

  /** For a pair written in lower case, the Price upper-cases the quote symbol
      while the quote Asset keeps it: the two no longer agree. */
  lemma LowerCasePairSplitsSymbols()
    ensures Parse("btc/usdt").Ok?
    ensures var bp := Parse("btc/usdt").value;
      CreatePrice(bp, 1.0).Ok? &&
      TokenOps.Mul(CreateToken(bp, 1.0), Prc(CreatePrice(bp, 1.0).value)).value.a.symbol == "USDT" &&
      CreateQuoteAsset(bp, 1.0).symbol == "usdt"
  {
    ParseLowerCasePair();
    UpperExamples();
  }

  lemma ParseLowerCasePair()
    ensures Parse("btc/usdt") == Ok(BotPair("btc/usdt", "btc", "usdt"))
  {
    ParseJoined("btc", "usdt");
    assert "btc" + "/" + "usdt" == "btc/usdt";
  }
}
