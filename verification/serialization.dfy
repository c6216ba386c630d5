/** The serialized form of Tokens and Assets.

    Every Token and Asset serializes its amount as the decimal's own text, so no
    binary floating point ever touches it, next to its precision (and, for a
    Token, its base symbol). A quantized amount keeps exactly `precision`
    fractional digits in its exponent, and the text keeps them too: reading it
    back recovers the same decimal, trailing zeros and exponent included.
 */
module Serialization {
  import opened Outcomes
  import opened Decimals
  import opened DecimalText
  import opened Symbols
  import opened Quantities

  /** The decimal an amount is stored as after quantizing to p digits with
      ROUND_DOWN: the surviving digits as coefficient, exponent -p. */
  function Stored(x: real, p: nat): (d: Dec)
    ensures d.scale == p
    ensures d.Value() == Trunc(x, p)
  {
    Dec(TruncCoefficient(x, p), p)
  }

  /** The serialized fields of the quantity base (what an Asset writes). */
  datatype QuoteRecord = QuoteRecord(amount: string, precision: nat)

  /** The serialized fields of a Token. */
  datatype TokenRecord = TokenRecord(amount: string, precision: nat, baseSymbol: string)

  /** `Decimal(text)`, as the amount validator reads a string back. */
  function ReadAmount(s: string): Option<real>
  {
    match Parse(s)
    case Some(d) => Some(d.Value())
    case None => None
  }

  function SerializeAsset(a: Asset): (r: QuoteRecord)
    ensures r.precision == a.Precision()
    ensures Parse(r.amount) == Some(Stored(a.amount, a.Precision()))
    ensures ReadAmount(r.amount) == Some(Trunc(a.amount, a.Precision()))
  {
    ParseFormat(Stored(a.amount, a.Precision()));
    QuoteRecord(Format(Stored(a.amount, a.Precision())), a.Precision())
  }

  function SerializeToken(t: Token): (r: TokenRecord)
    ensures r.precision == TokenPrecision && r.baseSymbol == t.baseSymbol
    ensures Parse(r.amount) == Some(Stored(t.amount, TokenPrecision))
    ensures ReadAmount(r.amount) == Some(Trunc(t.amount, TokenPrecision))
  {
    ParseFormat(Stored(t.amount, TokenPrecision));
    TokenRecord(Format(Stored(t.amount, TokenPrecision)), TokenPrecision, t.baseSymbol)
  }

  // ---------------------------------------------------------------------------
  // Round trips
  // ---------------------------------------------------------------------------

  /** A valid Token's text reads back as its exact amount with exactly five
      fractional digits, and rebuilding a Token from it gives the same Token. */
  lemma TokenRoundTrip(t: Token)
    requires t.Valid()
    ensures ReadAmount(SerializeToken(t).amount) == Some(t.amount)
    ensures Parse(SerializeToken(t).amount).value.scale == SerializeToken(t).precision
    ensures MakeToken(ReadAmount(SerializeToken(t).amount).value, SerializeToken(t).baseSymbol) == t
  {
    TruncOfMultiple(t.amount, TokenPrecision);
  }

  /** A valid Asset's text reads back as its exact amount at its symbol's precision. */
  lemma AssetRoundTrip(a: Asset)
    requires a.Valid()
    ensures ReadAmount(SerializeAsset(a).amount) == Some(a.amount)
    ensures Parse(SerializeAsset(a).amount).value.scale == SerializeAsset(a).precision
    ensures MakeAsset(ReadAmount(SerializeAsset(a).amount).value, a.symbol) == a
  {
    TruncOfMultiple(a.amount, a.Precision());
  }

  /** Two Tokens with the same serialized amount have the same amount. */
  lemma TokenTextDeterminesAmount(t1: Token, t2: Token)
    requires t1.Valid() && t2.Valid()
    requires SerializeToken(t1).amount == SerializeToken(t2).amount
    ensures t1.amount == t2.amount
  {
    TokenRoundTrip(t1);
    TokenRoundTrip(t2);
  }

  // ---------------------------------------------------------------------------
  // Shape of Token text
  // ---------------------------------------------------------------------------

  /** A Token amount is always written positionally: no exponent, and the point
      sits exactly five characters from the end. */
  lemma TokenTextIsPositional(t: Token)
    ensures var s := SerializeToken(t).amount;
      |s| >= 7 && s[|s| - 6] == '.' && Find(s, 'E') == |s|
  {
    var d := Stored(t.amount, TokenPrecision);
    var digits := NatToDigits(AbsInt(d.coef));
    assert UnsignedText(AbsInt(d.coef), 5) == PlainText(digits, 5);
    PlainShape(digits, 5);
    PlainHasNoExponent(digits, 5);
    var body := PlainText(digits, 5);
    var s := Format(d);
    assert s == body || s == "-" + body;
    NoExponentFound(s);
  }

  /** Positional text with a positive scale ends in the point and `scale` digits. */
  lemma PlainShape(digits: string, scale: nat)
    requires |digits| >= 1 && scale > 0
    ensures var s := PlainText(digits, scale);
      |s| >= scale + 2 && s[|s| - scale - 1] == '.'
  {
    if |digits| <= scale {
      var s := "0." + Zeros(scale - |digits|) + digits;
      assert |s| == scale + 2;
      assert s[1] == '.';
    }
  }

  lemma NoExponentFound(s: string)
    requires forall j :: 0 <= j < |s| ==> s[j] != 'E'
    ensures Find(s, 'E') == |s|
  {
  }

  // ---------------------------------------------------------------------------
  // Examples
  // ---------------------------------------------------------------------------

  /** 1.23456789 BTC as a Token keeps five digits and is written "1.23456". */
  lemma TokenExample()
    ensures SerializeToken(MakeToken(1.23456789, "BTC")).amount == "1.23456"
  {
    assert Scale(5) == 100000.0;
    assert TruncCoefficient(1.23456789, 5) == 123456;
    assert MakeToken(1.23456789, "BTC").amount == 1.23456;
    assert TruncCoefficient(1.23456, 5) == 123456;
    assert Stored(1.23456, 5) == Dec(123456, 5);
    PlainExamples();
  }

  /** One satoshi as an Asset is written in scientific notation, "1E-8". */
  lemma SatoshiExample()
    ensures SerializeAsset(MakeAsset(0.00000001, "BTC")).amount == "1E-8"
  {
    assert AssetPrecision("BTC") == 8;
    assert Scale(8) == 100000000.0;
    assert TruncCoefficient(0.00000001, 8) == 1;
    assert MakeAsset(0.00000001, "BTC").amount == 0.00000001;
    assert Stored(0.00000001, 8) == Dec(1, 8);
    SciExamples();
  }

  /** 50000 USDT keeps its two zero decimals: "50000.00" at precision 2. */
  lemma StablecoinExample()
    ensures SerializeAsset(MakeAsset(50000.0, "USDT")) == QuoteRecord("50000.00", 2)
  {
    assert AssetPrecision("USDT") == 2;
    assert Scale(2) == 100.0;
    assert TruncCoefficient(50000.0, 2) == 5000000;
    assert MakeAsset(50000.0, "USDT").amount == 50000.0;
    assert Stored(50000.0, 2) == Dec(5000000, 2);
    assert NatToDigits(5000000) == "5000000";
    assert Format(Dec(5000000, 2)) == "50000.00";
  }
}
