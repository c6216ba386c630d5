/** Asset arithmetic: an amount of one named symbol.

    Addition, subtraction and comparison only combine Assets of the same symbol
    and fail with a currency mismatch naming both symbols otherwise. Scaling by
    a number keeps the symbol; division by a number, by an Asset or by a Price
    yields an Asset, a plain ratio or a Token respectively. Every Asset result is
    rebuilt through the constructor, so it is cut to its symbol's precision.
 */
module AssetOps {
  import opened Outcomes
  import opened Decimals
  import opened Symbols
  import opened Quantities

  /** `self < other`: against an Asset of the same symbol or a number. */
  function Less(self: Asset, other: Value): (r: Result<bool>)
    ensures r.Ok? <==> other.Num? || (other.Ast? && other.a.symbol == self.symbol)
    ensures other.Ast? && other.a.symbol != self.symbol ==> r == Err(CurrencyMismatch(self.symbol, other.a.symbol))
    ensures other.Tok? || other.Prc? ==> r == Err(TypeMismatch)
    ensures r.Ok? ==> (r.value <==> self.amount < (if other.Num? then other.n else other.a.amount))
  {
    match other
    case Ast(o) =>
      if o.symbol != self.symbol then Err(CurrencyMismatch(self.symbol, o.symbol))
      else Ok(self.amount < o.amount)
    case Num(n) => Ok(self.amount < n)
    case _ => Err(TypeMismatch)
  }

  /** `self + other`: only an Asset of the same symbol is accepted. */
  function Add(self: Asset, other: Value): (r: Result<Asset>)
    ensures r.Ok? <==> other.Ast? && other.a.symbol == self.symbol
    ensures other.Ast? && other.a.symbol != self.symbol ==> r == Err(CurrencyMismatch(self.symbol, other.a.symbol))
    ensures !other.Ast? ==> r == Err(TypeMismatch)
    ensures r.Ok? ==> r.value.symbol == self.symbol && r.value.Valid()
    ensures r.Ok? ==> r.value.amount == Trunc(self.amount + other.a.amount, self.Precision())
  {
    match other
    case Ast(o) =>
      if o.symbol != self.symbol then Err(CurrencyMismatch(self.symbol, o.symbol))
      else Ok(MakeAsset(self.amount + o.amount, self.symbol))
    case _ => Err(TypeMismatch)
  }

  /** `n + self` with a plain number on the left. */
  function RAdd(self: Asset, n: real): (r: Asset)
    ensures r.symbol == self.symbol && r.Valid()
    ensures r.amount == Trunc(self.amount + n, self.Precision())
  {
    MakeAsset(self.amount + n, self.symbol)
  }

  /** `self - other`: only an Asset of the same symbol is accepted. */
  function Sub(self: Asset, other: Value): (r: Result<Asset>)
    ensures r.Ok? <==> other.Ast? && other.a.symbol == self.symbol
    ensures other.Ast? && other.a.symbol != self.symbol ==> r == Err(CurrencyMismatch(other.a.symbol, self.symbol))
    ensures !other.Ast? ==> r == Err(TypeMismatch)
    ensures r.Ok? ==> r.value.symbol == self.symbol && r.value.Valid()
    ensures r.Ok? ==> r.value.amount == Trunc(self.amount - other.a.amount, self.Precision())
  {
    match other
    case Ast(o) =>
      if o.symbol != self.symbol then Err(CurrencyMismatch(o.symbol, self.symbol))
      else Ok(MakeAsset(self.amount - o.amount, self.symbol))
    case _ => Err(TypeMismatch)
  }

  function Neg(self: Asset): (r: Asset)
    ensures r.symbol == self.symbol && r.Valid()
  {
    MakeAsset(-self.amount, self.symbol)
  }

  /** `self * other`: only a number is accepted. */
  function Mul(self: Asset, other: Value): (r: Result<Asset>)
    ensures r.Ok? <==> other.Num?
    ensures !other.Num? ==> r == Err(TypeMismatch)
    ensures r.Ok? ==> r.value.symbol == self.symbol && r.value.Valid()
    ensures r.Ok? ==> r.value.amount == Trunc(Product(self.amount, other.n), self.Precision())
  {
    match other
    case Num(k) => Ok(MakeAsset(Product(self.amount, k), self.symbol))
    case _ => Err(TypeMismatch)
  }

  /** `self / other`: by a number (same-symbol Asset), by an Asset of any symbol
      (plain ratio) or by a Price (Token of the price's base symbol). */
  function Div(self: Asset, other: Value): (r: Result<Value>)
    ensures other.Tok? ==> r == Err(TypeMismatch)
    ensures r.Err? && !other.Tok? ==> r.error == DivisionByZero
    ensures other.Num? ==> (r.Ok? <==> other.n != 0.0)
    ensures other.Ast? ==> (r.Ok? <==> other.a.amount != 0.0)
    ensures other.Prc? ==> (r.Ok? <==> other.p.value != 0.0)
    ensures r.Ok? && other.Num? ==> r.value.Ast? && r.value.a.symbol == self.symbol && r.value.a.Valid()
    ensures r.Ok? && other.Num? ==> r.value.a.amount == Trunc(self.amount / other.n, self.Precision())
    ensures r.Ok? && other.Ast? ==> r.value == Num(self.amount / other.a.amount)
    ensures r.Ok? && other.Prc? ==> r.value.Tok? && r.value.t.baseSymbol == other.p.baseSymbol && r.value.t.Valid()
    ensures r.Ok? && other.Prc? ==> r.value.t.amount == Trunc(self.amount / other.p.value, TokenPrecision)
  {
    match other
    case Num(k) =>
      if k == 0.0 then Err(DivisionByZero) else Ok(Ast(MakeAsset(self.amount / k, self.symbol)))
    case Ast(o) =>
      if o.amount == 0.0 then Err(DivisionByZero) else Ok(Num(self.amount / o.amount))
    case Prc(p) =>
      if p.value == 0.0 then Err(DivisionByZero) else Ok(Tok(MakeToken(self.amount / p.value, p.baseSymbol)))
    case Tok(_) => Err(TypeMismatch)
  }

  // ---------------------------------------------------------------------------
  // Laws
  // ---------------------------------------------------------------------------

  /** Adding and subtracting valid same-symbol Assets is exact: no digit is lost. */
  lemma AddSubExact(x: Asset, y: Asset)
    requires x.Valid() && y.Valid() && x.symbol == y.symbol
    ensures Add(x, Ast(y)) == Ok(Asset(x.amount + y.amount, x.symbol))
    ensures Sub(x, Ast(y)) == Ok(Asset(x.amount - y.amount, x.symbol))
  {
    MultipleAdd(x.amount, y.amount, x.Precision());
    TruncOfMultiple(x.amount + y.amount, x.Precision());
    MultipleSub(x.amount, y.amount, x.Precision());
    TruncOfMultiple(x.amount - y.amount, x.Precision());
  }

  /** Subtraction undoes addition, and addition commutes. */
  lemma SubUndoesAdd(x: Asset, y: Asset)
    requires x.Valid() && y.Valid() && x.symbol == y.symbol
    ensures Add(x, Ast(y)).Ok? && Sub(Add(x, Ast(y)).value, Ast(y)) == Ok(x)
    ensures Add(x, Ast(y)) == Add(y, Ast(x))
  {
    AddSubExact(x, y);
    var s := Asset(x.amount + y.amount, x.symbol);
    AddSubExact(s, y);
  }

  /** Negation is exact and an involution on valid Assets; x + (-x) is zero. */
  lemma NegInvolution(x: Asset)
    requires x.Valid()
    ensures Neg(x) == Asset(-x.amount, x.symbol)
    ensures Neg(Neg(x)) == x
    ensures Add(x, Ast(Neg(x))) == Ok(Asset(0.0, x.symbol))
  {
    MultipleNeg(x.amount, x.Precision());
    TruncOfMultiple(-x.amount, x.Precision());
    assert - -x.amount == x.amount;
    TruncOfMultiple(x.amount, x.Precision());
    AddSubExact(x, Neg(x));
  }

  /** A mismatch fails in both directions and names both symbols. */
  lemma MismatchBothWays(x: Asset, y: Asset)
    requires x.symbol != y.symbol
    ensures Add(x, Ast(y)) == Err(CurrencyMismatch(x.symbol, y.symbol))
    ensures Add(y, Ast(x)) == Err(CurrencyMismatch(y.symbol, x.symbol))
    ensures Sub(x, Ast(y)).Err? && Less(x, Ast(y)).Err?
  {
  }

  /** On one symbol, `<` is a strict total order on amounts. */
  lemma LessIsStrictOrder(x: Asset, y: Asset, z: Asset)
    requires x.symbol == y.symbol == z.symbol
    ensures Less(x, Ast(x)) == Ok(false)
    ensures Less(x, Ast(y)) == Ok(true) ==> Less(y, Ast(x)) == Ok(false)
    ensures Less(x, Ast(y)) == Ok(true) && Less(y, Ast(z)) == Ok(true) ==> Less(x, Ast(z)) == Ok(true)
    ensures Less(x, Ast(y)) == Ok(true) || Less(y, Ast(x)) == Ok(true) || x.amount == y.amount
  {
  }

  /** Scaling a valid Asset by a whole number is exact: nothing is truncated. */
  lemma MulByIntegerExact(x: Asset, k: int)
    requires x.Valid()
    ensures Mul(x, Num(k as real)) == Ok(Asset(x.amount * (k as real), x.symbol))
  {
    TruncTimesInteger(x.amount, k, Product(x.amount, k as real), x.Precision());
  }

  /** Dividing by the whole number just multiplied by gives the Asset back. */
  lemma DivUndoesMul(x: Asset, k: int)
    requires x.Valid() && k != 0
    ensures Mul(x, Num(k as real)).Ok?
    ensures Div(Mul(x, Num(k as real)).value, Num(k as real)) == Ok(Ast(x))
  {
    MulByIntegerExact(x, k);
    var y := x.amount * (k as real);
    assert y / (k as real) == x.amount by { DivMulCancel(y, k as real); }
    TruncOfMultiple(x.amount, x.Precision());
  }

  /** A number on the left adds like an Asset of that amount and the same symbol on the right. */
  lemma RAddMatchesAdd(x: Asset, n: real)
    ensures Add(x, Ast(Asset(n, x.symbol))) == Ok(RAdd(x, n))
  {
  }

  /** Adding a number that already has at most the symbol's precision in digits is exact. */
  lemma RAddExact(x: Asset, n: real)
    requires x.Valid() && IsMultiple(n, x.Precision())
    ensures RAdd(x, n) == Asset(x.amount + n, x.symbol)
  {
    MultipleAdd(x.amount, n, x.Precision());
    TruncOfMultiple(x.amount + n, x.Precision());
  }

  /** Every zero divisor fails, whatever the symbols involved. */
  lemma ZeroDivisorsFail(x: Asset, sym: string, base: string, quote: string)
    ensures Div(x, Num(0.0)) == Err(DivisionByZero)
    ensures Div(x, Ast(Asset(0.0, sym))) == Err(DivisionByZero)
    ensures Div(x, Prc(Price(0.0, base, quote))) == Err(DivisionByZero)
  {
  }

  /** The Asset-by-Asset ratio ignores the symbols, and scaling back recovers the dividend. */
  lemma RatioAcrossSymbols(x: Asset, y: Asset)
    requires y.amount != 0.0
    ensures Div(x, Ast(y)).Ok? && Div(x, Ast(y)).value.Num?
    ensures Div(x, Ast(y)).value.n * y.amount == x.amount
  {
    DivMulCancel(x.amount, y.amount);
  }
}
