/** The quantity kinds: Token, Asset and Price, the operand sum type, and the
    construction discipline every kind enforces.

    A Token is an amount of a pair's base symbol kept at 5 digits; an Asset is an
    amount of any symbol kept at 2 digits (fiat, stablecoin) or 8 (other); a
    Price is an exact base/quote rate that is never truncated. Quantities are
    only built by the pair factory: each constructor takes the factory flag and
    fails without it. Inside the algebra every result is rebuilt with the flag
    set, which `MakeToken` and `MakeAsset` stand for.
 */
module Quantities {
  import opened Outcomes
  import opened Decimals
  import opened Symbols

  // ---------------------------------------------------------------------------
  // Precision resolution of the quantity base
  // ---------------------------------------------------------------------------

  /** Default precisions by concrete class name. */
  const PrecisionTable: map<string, nat> := map["Token" := 5, "USD" := 2]

  /** Precision chosen by the quantity base: the explicit one when given, otherwise
      the class-name table, falling back to 8 for "Token" and 2 for anything else. */
  function ResolvePrecision(className: string, explicit: Option<nat>): (p: nat)
    ensures explicit.Some? ==> p == explicit.value
    ensures explicit.None? && className == "Token" ==> p == 5
    ensures explicit.None? && className != "Token" ==> p == 2
  {
    match explicit
    case Some(q) => q
    case None =>
      if className in PrecisionTable then PrecisionTable[className] else FallbackPrecision(className)
  }

  /** The default passed to the table lookup: 8 for "Token", 2 for anything else. */
  function FallbackPrecision(className: string): nat
  {
    if className == "Token" then 8 else 2
  }

  datatype QuoteFields = QuoteFields(amount: real, precision: nat)

  /** The quantity base's initialisation: a computed precision truncates the amount,
      an explicit precision stores the amount as given. */
  function InitQuote(amount: real, className: string, explicit: Option<nat>): (q: QuoteFields)
    ensures q.precision == ResolvePrecision(className, explicit)
    ensures explicit.None? ==> IsMultiple(q.amount, q.precision) && Abs(q.amount) <= Abs(amount)
    ensures explicit.None? ==> -1.0 < (amount - q.amount) * Scale(q.precision) < 1.0
    ensures explicit.Some? ==> q.amount == amount
  {
    var p := ResolvePrecision(className, explicit);
    if explicit.None? then
      TruncIsMultiple(amount, p);
      TruncTowardZero(amount, p);
      QuoteFields(Trunc(amount, p), p)
    else
      QuoteFields(amount, p)
  }

  /** Tokens are kept at 5 digits. */
  const TokenPrecision: nat := 5

  lemma TokenPrecisionResolved()
    ensures ResolvePrecision("Token", None) == TokenPrecision
  {
  }

  // ---------------------------------------------------------------------------
  // The kinds
  // ---------------------------------------------------------------------------

  datatype Token = Token(amount: real, baseSymbol: string) {
    /** The representation invariant: at most 5 fractional digits. */
    predicate Valid() {
      IsMultiple(amount, TokenPrecision)
    }
  }

  datatype Asset = Asset(amount: real, symbol: string) {
    function Precision(): nat {
      AssetPrecision(symbol)
    }

    predicate IsStablecoin() {
      Symbols.IsStablecoin(symbol)
    }

    predicate IsFiat() {
      Symbols.IsFiat(symbol)
    }

    /** The representation invariant: at most `Precision()` fractional digits. */
    predicate Valid() {
      IsMultiple(amount, Precision())
    }
  }

  datatype Price = Price(value: real, baseSymbol: string, quoteSymbol: string) {
    /** What the symbol validators guarantee of every constructed price. */
    predicate Valid() {
      baseSymbol != [] && quoteSymbol != [] && IsUpper(baseSymbol) && IsUpper(quoteSymbol)
    }
  }

  /** An operand or result of the arithmetic: a plain number, or one of the kinds.
      It stands for the isinstance dispatch of the operators. */
  datatype Value = Num(n: real) | Tok(t: Token) | Ast(a: Asset) | Prc(p: Price)

  /** Tokens and Assets share the quantity base; Prices do not. */
  predicate IsQuote(v: Value) {
    v.Tok? || v.Ast?
  }

  function QuoteAmount(v: Value): real
    requires IsQuote(v)
  {
    if v.Tok? then v.t.amount else v.a.amount
  }

  /** The exact product of an amount and a factor, before any truncation. */
  function Product(x: real, y: real): real
  {
    x * y
  }

  /** The order of the factors does not matter. */
  lemma ProductCommutes(x: real, y: real)
    ensures Product(x, y) == Product(y, x)
  {
  }

  // ---------------------------------------------------------------------------
  // Construction
  // ---------------------------------------------------------------------------

  /** A Token as the algebra rebuilds it: the amount cut to 5 digits. */
  function MakeToken(amount: real, baseSymbol: string): (t: Token)
    ensures t.baseSymbol == baseSymbol && t.Valid()
    ensures amount >= 0.0 ==> 0.0 <= t.amount <= amount
    ensures amount < 0.0 ==> amount <= t.amount <= 0.0
    ensures -1.0 < (amount - t.amount) * Scale(TokenPrecision) < 1.0
  {
    TruncIsMultiple(amount, TokenPrecision);
    TruncTowardZero(amount, TokenPrecision);
    Token(Trunc(amount, TokenPrecision), baseSymbol)
  }

  /** An Asset as the algebra rebuilds it: the amount cut to its symbol's precision. */
  function MakeAsset(amount: real, symbol: string): (a: Asset)
    ensures a.symbol == symbol && a.Valid()
    ensures amount >= 0.0 ==> 0.0 <= a.amount <= amount
    ensures amount < 0.0 ==> amount <= a.amount <= 0.0
    ensures -1.0 < (amount - a.amount) * Scale(AssetPrecision(symbol)) < 1.0
  {
    TruncIsMultiple(amount, AssetPrecision(symbol));
    TruncTowardZero(amount, AssetPrecision(symbol));
    Asset(Trunc(amount, AssetPrecision(symbol)), symbol)
  }

  /** Token construction: refused without the factory flag. */
  function NewToken(amount: real, baseSymbol: string, fromFactory: bool): (r: Result<Token>)
    ensures r.Err? <==> !fromFactory
    ensures r.Err? ==> r.error == ConstructionDiscipline
    ensures r.Ok? ==> r.value.baseSymbol == baseSymbol && r.value.Valid()
    ensures r.Ok? ==> r.value.amount == Trunc(amount, TokenPrecision)
  {
    if !fromFactory then Err(ConstructionDiscipline) else Ok(MakeToken(amount, baseSymbol))
  }

  /** Asset construction: refused without the factory flag; precision by classification. */
  function NewAsset(amount: real, symbol: string, fromFactory: bool): (r: Result<Asset>)
    ensures r.Err? <==> !fromFactory
    ensures r.Err? ==> r.error == ConstructionDiscipline
    ensures r.Ok? ==> r.value.symbol == symbol && r.value.Valid()
    ensures r.Ok? ==> r.value.amount == Trunc(amount, if IsFiat(symbol) || IsStablecoin(symbol) then 2 else 8)
  {
    if !fromFactory then Err(ConstructionDiscipline) else Ok(MakeAsset(amount, symbol))
  }

  /** Price construction: refused without the factory flag; both symbols must be
      non-empty and are upper-cased; the value is stored exactly. */
  function NewPrice(value: real, baseSymbol: string, quoteSymbol: string, fromFactory: bool): (r: Result<Price>)
    ensures !fromFactory ==> r == Err(ConstructionDiscipline)
    ensures fromFactory ==> (r.Ok? <==> baseSymbol != [] && quoteSymbol != [])
    ensures r.Err? && fromFactory ==> r.error.Validation?
    ensures r.Ok? ==> r.value.Valid() && r.value.value == value
    ensures r.Ok? ==> r.value.baseSymbol == Upper(baseSymbol) && r.value.quoteSymbol == Upper(quoteSymbol)
  {
    if !fromFactory then Err(ConstructionDiscipline)
    else if baseSymbol == [] || quoteSymbol == [] then Err(Validation("Symbol must be a non-empty string"))
    else Ok(Price(value, Upper(baseSymbol), Upper(quoteSymbol)))
  }

  /** Rebuilding a valid price with a new value, as every Price operator does,
      passes validation and keeps the symbols. */
  lemma RebuildValidPrice(p: Price, v: real)
    requires p.Valid()
    ensures NewPrice(v, p.baseSymbol, p.quoteSymbol, true) == Ok(p.(value := v))
  {
    UpperOfUpper(p.baseSymbol);
    UpperOfUpper(p.quoteSymbol);
  }

  /** Rebuilding a valid Token or Asset with its own amount changes nothing. */
  lemma RebuildValidQuotes(t: Token, a: Asset)
    requires t.Valid() && a.Valid()
    ensures MakeToken(t.amount, t.baseSymbol) == t
    ensures MakeAsset(a.amount, a.symbol) == a
  {
    TruncOfMultiple(t.amount, TokenPrecision);
    TruncOfMultiple(a.amount, a.Precision());
  }

  // ---------------------------------------------------------------------------
  // Equality and sign of the quantity base
  // ---------------------------------------------------------------------------

  /** Quote equality: defined against any Token or Asset (symbols are ignored, so a
      Token can equal an Asset), a type error against anything else. */
  function QuoteEquals(self: Value, other: Value): (r: Result<bool>)
    requires IsQuote(self)
    ensures r.Err? <==> !IsQuote(other)
    ensures r.Err? ==> r.error == TypeMismatch
    ensures r.Ok? ==> (r.value <==> QuoteAmount(self) == QuoteAmount(other))
  {
    if !IsQuote(other) then Err(TypeMismatch) else Ok(QuoteAmount(self) == QuoteAmount(other))
  }

  /** Quote equality on quotes is an equivalence relation. */
  lemma QuoteEqualsEquivalence(a: Value, b: Value, c: Value)
    requires IsQuote(a) && IsQuote(b) && IsQuote(c)
    ensures QuoteEquals(a, a) == Ok(true)
    ensures QuoteEquals(a, b) == QuoteEquals(b, a)
    ensures QuoteEquals(a, b) == Ok(true) && QuoteEquals(b, c) == Ok(true) ==> QuoteEquals(a, c) == Ok(true)
  {
  }

  predicate IsPositive(q: Value)
    requires IsQuote(q)
  {
    QuoteAmount(q) > 0.0
  }

  predicate IsZero(q: Value)
    requires IsQuote(q)
  {
    QuoteAmount(q) == 0.0
  }

  predicate IsNegative(q: Value)
    requires IsQuote(q)
  {
    QuoteAmount(q) < 0.0
  }

  /** Exactly one of the three sign predicates holds of every quote. */
  lemma ExactlyOneSign(q: Value)
    requires IsQuote(q)
    ensures IsPositive(q) || IsZero(q) || IsNegative(q)
    ensures !(IsPositive(q) && IsZero(q)) && !(IsPositive(q) && IsNegative(q)) && !(IsZero(q) && IsNegative(q))
  {
  }
}
