/** Price arithmetic: an exact base/quote rate.

    Prices add and subtract with other Prices (keeping the left operand's
    symbols, with no pair check), scale by numbers, divide into a plain ratio,
    and turn a Token into an Asset of the quote symbol. Comparisons look at the
    value only and refuse anything that is not a Price. Every Price result is
    rebuilt through the constructor, which re-validates the symbols.
 */
module PriceOps {
  import opened Outcomes
  import opened Decimals
  import opened Symbols
  import opened Quantities
  import TokenOps

  /** A Price rebuilt with the same symbols and a new value, as every operator does. */
  function Rebuild(self: Price, value: real): (r: Result<Price>)
    ensures self.Valid() ==> r == Ok(Price(value, self.baseSymbol, self.quoteSymbol))
    ensures r.Ok? ==> r.value.value == value
  {
    var r := NewPrice(value, self.baseSymbol, self.quoteSymbol, true);
    if self.Valid() then RebuildValidPrice(self, value); r else r
  }

  /** `self + other`: any Price is accepted; self's symbols are kept. */
  function Add(self: Price, other: Value): (r: Result<Price>)
    ensures !other.Prc? ==> r == Err(TypeMismatch)
    ensures other.Prc? && self.Valid() ==> r == Ok(Price(self.value + other.p.value, self.baseSymbol, self.quoteSymbol))
  {
    match other
    case Prc(o) => Rebuild(self, self.value + o.value)
    case _ => Err(TypeMismatch)
  }

  /** `self - other`: any Price is accepted; self's symbols are kept. */
  function Sub(self: Price, other: Value): (r: Result<Price>)
    ensures !other.Prc? ==> r == Err(TypeMismatch)
    ensures other.Prc? && self.Valid() ==> r == Ok(Price(self.value - other.p.value, self.baseSymbol, self.quoteSymbol))
  {
    match other
    case Prc(o) => Rebuild(self, self.value - o.value)
    case _ => Err(TypeMismatch)
  }

  /** `self / other`: by a number (a Price) or by a Price (a plain ratio). */
  function Div(self: Price, other: Value): (r: Result<Value>)
    ensures other.Tok? || other.Ast? ==> r == Err(TypeMismatch)
    ensures (other.Num? && other.n == 0.0) || (other.Prc? && other.p.value == 0.0) ==> r == Err(DivisionByZero)
    ensures self.Valid() ==> (r.Ok? <==> (other.Num? && other.n != 0.0) || (other.Prc? && other.p.value != 0.0))
    ensures r.Ok? && other.Num? ==> r.value.Prc? && r.value.p.value * other.n == self.value
    ensures r.Ok? && other.Num? && self.Valid() ==> r.value.p.baseSymbol == self.baseSymbol && r.value.p.quoteSymbol == self.quoteSymbol
    ensures r.Ok? && other.Prc? ==> r.value.Num? && r.value.n * other.p.value == self.value
  {
    match other
    case Num(k) =>
      if k == 0.0 then Err(DivisionByZero)
      else
        DivMulCancel(self.value, k);
        var rebuilt := Rebuild(self, self.value / k);
        if rebuilt.Ok? then Ok(Prc(rebuilt.value)) else Err(rebuilt.error)
    case Prc(o) =>
      if o.value == 0.0 then Err(DivisionByZero)
      else
        DivMulCancel(self.value, o.value);
        Ok(Num(self.value / o.value))
    case _ => Err(TypeMismatch)
  }

  /** `self * other`: by a number (a Price) or by a Token (an Asset of the quote
      symbol, cut to that symbol's precision). */
  function Mul(self: Price, other: Value): (r: Result<Value>)
    ensures other.Ast? || other.Prc? ==> r == Err(TypeMismatch)
    ensures other.Tok? ==> r.Ok? && r.value.Ast? && r.value.a.symbol == self.quoteSymbol && r.value.a.Valid()
    ensures other.Tok? ==> r.value.a.amount == Trunc(Product(self.value, other.t.amount), AssetPrecision(self.quoteSymbol))
    ensures other.Tok? && Product(self.value, other.t.amount) >= 0.0 ==> 0.0 <= r.value.a.amount <= Product(self.value, other.t.amount)
    ensures other.Num? && self.Valid() ==> r == Ok(Prc(Price(Product(self.value, other.n), self.baseSymbol, self.quoteSymbol)))
  {
    match other
    case Num(k) =>
      var rebuilt := Rebuild(self, Product(self.value, k));
      if rebuilt.Ok? then Ok(Prc(rebuilt.value)) else Err(rebuilt.error)
    case Tok(t) => Ok(Ast(MakeAsset(Product(self.value, t.amount), self.quoteSymbol)))
    case _ => Err(TypeMismatch)
  }

  // ---------------------------------------------------------------------------
  // Comparison and sign
  // ---------------------------------------------------------------------------

  function Eq(self: Price, other: Value): (r: Result<bool>)
    ensures r.Ok? <==> other.Prc?
    ensures r.Err? ==> r.error == TypeMismatch
    ensures r.Ok? ==> (r.value <==> self.value == other.p.value)
  {
    if other.Prc? then Ok(self.value == other.p.value) else Err(TypeMismatch)
  }

  /** `!=` is the negation of `==`, so it refuses the same operands. */
  function Ne(self: Price, other: Value): (r: Result<bool>)
    ensures r.Ok? <==> other.Prc?
    ensures r.Ok? ==> (r.value <==> self.value != other.p.value)
  {
    match Eq(self, other)
    case Ok(e) => Ok(!e)
    case Err(x) => Err(x)
  }

  function Lt(self: Price, other: Value): (r: Result<bool>)
    ensures r.Ok? <==> other.Prc?
    ensures r.Err? ==> r.error == TypeMismatch
    ensures r.Ok? ==> (r.value <==> self.value < other.p.value)
  {
    if other.Prc? then Ok(self.value < other.p.value) else Err(TypeMismatch)
  }

  function Gt(self: Price, other: Value): (r: Result<bool>)
    ensures r.Ok? <==> other.Prc?
    ensures r.Err? ==> r.error == TypeMismatch
    ensures r.Ok? ==> (r.value <==> self.value > other.p.value)
  {
    if other.Prc? then Ok(self.value > other.p.value) else Err(TypeMismatch)
  }

  /** `<=` is `<` or `==`. */
  function Le(self: Price, other: Value): (r: Result<bool>)
    ensures r.Ok? <==> other.Prc?
    ensures r.Ok? ==> (r.value <==> self.value <= other.p.value)
  {
    match (Lt(self, other), Eq(self, other))
    case (Ok(lt), Ok(eq)) => Ok(lt || eq)
    case _ => Err(TypeMismatch)
  }

  /** `>=` is `>` or `==`. */
  function Ge(self: Price, other: Value): (r: Result<bool>)
    ensures r.Ok? <==> other.Prc?
    ensures r.Ok? ==> (r.value <==> self.value >= other.p.value)
  {
    match (Gt(self, other), Eq(self, other))
    case (Ok(gt), Ok(eq)) => Ok(gt || eq)
    case _ => Err(TypeMismatch)
  }

  predicate IsPositive(p: Price) {
    p.value > 0.0
  }

  predicate IsZero(p: Price) {
    p.value == 0.0
  }

  predicate IsNegative(p: Price) {
    p.value < 0.0
  }

  // ---------------------------------------------------------------------------
  // Laws
  // ---------------------------------------------------------------------------

  /** Exactly one of the three sign predicates holds of every Price. */
  lemma ExactlyOneSign(p: Price)
    ensures IsPositive(p) || IsZero(p) || IsNegative(p)
    ensures !(IsPositive(p) && IsZero(p)) && !(IsPositive(p) && IsNegative(p)) && !(IsZero(p) && IsNegative(p))
  {
  }

  /** Every comparison refuses an operand that is not a Price. */
  lemma ComparisonsRefuseNonPrices(p: Price, v: Value)
    requires !v.Prc?
    ensures Eq(p, v) == Err(TypeMismatch) && Ne(p, v) == Err(TypeMismatch)
    ensures Lt(p, v) == Err(TypeMismatch) && Le(p, v) == Err(TypeMismatch)
    ensures Gt(p, v) == Err(TypeMismatch) && Ge(p, v) == Err(TypeMismatch)
  {
  }

  /** The comparisons form a total order on the value: trichotomy, duality, and
      `<=` as the complement of `>`. */
  lemma TotalOrder(p: Price, q: Price, s: Price)
    ensures Lt(p, Prc(q)).Ok? && Eq(p, Prc(q)).Ok? && Gt(p, Prc(q)).Ok?
    ensures Lt(p, Prc(q)).value || Eq(p, Prc(q)).value || Gt(p, Prc(q)).value
    ensures !(Lt(p, Prc(q)).value && Gt(p, Prc(q)).value)
    ensures Lt(p, Prc(q)) == Gt(q, Prc(p)) && Eq(p, Prc(q)) == Eq(q, Prc(p))
    ensures Le(p, Prc(q)) == Ok(!Gt(p, Prc(q)).value) && Ge(p, Prc(q)) == Ok(!Lt(p, Prc(q)).value)
    ensures Ne(p, Prc(q)) == Ok(!Eq(p, Prc(q)).value)
    ensures Le(p, Prc(q)) == Ok(true) && Le(q, Prc(s)) == Ok(true) ==> Le(p, Prc(s)) == Ok(true)
    ensures Le(p, Prc(q)) == Ok(true) && Le(q, Prc(p)) == Ok(true) ==> Eq(p, Prc(q)) == Ok(true)
  {
  }

  /** Subtraction undoes addition, and neither looks at the operand's pair. */
  lemma SubUndoesAdd(p: Price, q: Price)
    requires p.Valid()
    ensures Add(p, Prc(q)).Ok? && Sub(Add(p, Prc(q)).value, Prc(q)) == Ok(p)
  {
    var s := Price(p.value + q.value, p.baseSymbol, p.quoteSymbol);
    assert s.Valid();
    assert s.value - q.value == p.value;
  }

  /** Adding a Price of another pair succeeds and keeps the left operand's pair. */
  lemma NoPairCheck(p: Price, q: Price)
    requires p.Valid() && q.Valid()
    requires p.baseSymbol != q.baseSymbol || p.quoteSymbol != q.quoteSymbol
    ensures Add(p, Prc(q)).Ok? && Add(p, Prc(q)).value.baseSymbol == p.baseSymbol
    ensures Sub(p, Prc(q)).Ok? && Sub(p, Prc(q)).value.quoteSymbol == p.quoteSymbol
    ensures Add(p, Prc(q)).value.value == Add(q, Prc(p)).value.value
  {
  }

  /** Price times Token and Token times Price give the same Asset. */
  lemma MulCommutesWithToken(p: Price, t: Token)
    ensures Mul(p, Tok(t)) == TokenOps.Mul(t, Prc(p))
  {
    ProductCommutes(p.value, t.amount);
  }

  /** Every zero divisor fails. */
  lemma ZeroDivisorsFail(p: Price, base: string, quote: string)
    ensures Div(p, Num(0.0)) == Err(DivisionByZero)
    ensures Div(p, Prc(Price(0.0, base, quote))) == Err(DivisionByZero)
  {
  }

  /** Two prices of the suite's style: 20000 × 0.5 is 10000 and 50000 / 25000 is 2. */
  lemma Examples()
    ensures Mul(Price(20000.0, "BTC", "USDT"), Num(0.5)) == Ok(Prc(Price(10000.0, "BTC", "USDT")))
    ensures Div(Price(50000.0, "BTC", "USDT"), Prc(Price(25000.0, "BTC", "USDT"))) == Ok(Num(2.0))
  {
    assert IsUpper("BTC") && IsUpper("USDT");
  }
}
