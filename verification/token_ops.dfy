/** Token arithmetic: an amount of a pair's base symbol, kept at 5 digits.

    Unlike Assets, Tokens never compare symbols: adding or subtracting any two
    Tokens succeeds and the result carries the left operand's symbol. A Token
    times a Price is an Asset in the price's quote symbol; a Token over a Token
    is a plain ratio. `Split` cuts a Token into two parts by a ratio in [0, 1].
 */
module TokenOps {
  import opened Outcomes
  import opened Decimals
  import opened Symbols
  import opened Quantities

  /** `self < other`: against any Token (symbols ignored) or a number. */
  function Less(self: Token, other: Value): (r: Result<bool>)
    ensures r.Ok? <==> other.Tok? || other.Num?
    ensures r.Err? ==> r.error == TypeMismatch
    ensures r.Ok? ==> (r.value <==> self.amount < (if other.Tok? then other.t.amount else other.n))
  {
    match other
    case Tok(o) => Ok(self.amount < o.amount)
    case Num(n) => Ok(self.amount < n)
    case _ => Err(TypeMismatch)
  }

  /** `self + other`: any Token is accepted; the result keeps self's symbol. */
  function Add(self: Token, other: Value): (r: Result<Token>)
    ensures r.Ok? <==> other.Tok?
    ensures r.Err? ==> r.error == TypeMismatch
    ensures r.Ok? ==> r.value.baseSymbol == self.baseSymbol && r.value.Valid()
    ensures r.Ok? ==> r.value.amount == Trunc(self.amount + other.t.amount, TokenPrecision)
  {
    match other
    case Tok(o) => Ok(MakeToken(self.amount + o.amount, self.baseSymbol))
    case _ => Err(TypeMismatch)
  }

  /** `n + self` with a plain number on the left. */
  function RAdd(self: Token, n: real): (r: Token)
    ensures r.baseSymbol == self.baseSymbol && r.Valid()
    ensures r.amount == Trunc(self.amount + n, TokenPrecision)
  {
    MakeToken(self.amount + n, self.baseSymbol)
  }

  /** `self - other`: any Token is accepted; the result keeps self's symbol. */
  function Sub(self: Token, other: Value): (r: Result<Token>)
    ensures r.Ok? <==> other.Tok?
    ensures r.Err? ==> r.error == TypeMismatch
    ensures r.Ok? ==> r.value.baseSymbol == self.baseSymbol && r.value.Valid()
    ensures r.Ok? ==> r.value.amount == Trunc(self.amount - other.t.amount, TokenPrecision)
  {
    match other
    case Tok(o) => Ok(MakeToken(self.amount - o.amount, self.baseSymbol))
    case _ => Err(TypeMismatch)
  }

  function Neg(self: Token): (r: Token)
    ensures r.baseSymbol == self.baseSymbol && r.Valid()
  {
    MakeToken(-self.amount, self.baseSymbol)
  }

  /** `self * other`: by a number (a Token) or by a Price (an Asset in the
      price's quote symbol, cut to that symbol's precision). */
  function Mul(self: Token, other: Value): (r: Result<Value>)
    ensures r.Ok? <==> other.Num? || other.Prc?
    ensures r.Err? ==> r.error == TypeMismatch
    ensures r.Ok? && other.Num? ==> r.value.Tok? && r.value.t.baseSymbol == self.baseSymbol && r.value.t.Valid()
    ensures r.Ok? && other.Num? ==> r.value.t.amount == Trunc(Product(self.amount, other.n), TokenPrecision)
    ensures r.Ok? && other.Prc? ==> r.value.Ast? && r.value.a.symbol == other.p.quoteSymbol && r.value.a.Valid()
    ensures r.Ok? && other.Prc? ==> r.value.a.amount == Trunc(Product(self.amount, other.p.value), AssetPrecision(other.p.quoteSymbol))
    ensures r.Ok? && other.Prc? && Product(self.amount, other.p.value) >= 0.0 ==>
              0.0 <= r.value.a.amount <= Product(self.amount, other.p.value)
  {
    match other
    case Num(k) => Ok(Tok(MakeToken(Product(self.amount, k), self.baseSymbol)))
    case Prc(p) => Ok(Ast(MakeAsset(Product(self.amount, p.value), p.quoteSymbol)))
    case _ => Err(TypeMismatch)
  }

  /** `self / other`: by a number (a Token) or by a Token (a plain ratio). */
  function Div(self: Token, other: Value): (r: Result<Value>)
    ensures (other.Num? && other.n == 0.0) || (other.Tok? && other.t.amount == 0.0) ==> r == Err(DivisionByZero)
    ensures other.Ast? || other.Prc? ==> r == Err(TypeMismatch)
    ensures r.Ok? <==> (other.Num? && other.n != 0.0) || (other.Tok? && other.t.amount != 0.0)
    ensures r.Ok? && other.Num? ==> r.value.Tok? && r.value.t.baseSymbol == self.baseSymbol && r.value.t.Valid()
    ensures r.Ok? && other.Num? ==> r.value.t.amount == Trunc(self.amount / other.n, TokenPrecision)
    ensures r.Ok? && other.Tok? ==> r.value.Num? && r.value.n * other.t.amount == self.amount
  {
    match other
    case Num(k) =>
      if k == 0.0 then Err(DivisionByZero) else Ok(Tok(MakeToken(self.amount / k, self.baseSymbol)))
    case Tok(o) =>
      if o.amount == 0.0 then Err(DivisionByZero)
      else
        DivMulCancel(self.amount, o.amount);
        Ok(Num(self.amount / o.amount))
    case _ => Err(TypeMismatch)
  }

  /** The value of the Token at a price: `self * price`, refusing anything but a Price. */
  function ValueAt(self: Token, price: Value): (r: Result<Asset>)
    ensures r.Ok? <==> price.Prc?
    ensures r.Err? ==> r.error == TypeMismatch
    ensures r.Ok? ==> r.value.symbol == price.p.quoteSymbol && r.value.Valid()
  {
    if !price.Prc? then Err(TypeMismatch) else Ok(Mul(self, price).value.a)
  }

  /** Cuts the Token into a `ratio` part and a `complement` part, each truncated to
      5 digits. As written, the complement is `1 - ratio` evaluated in binary floating
      point and then read back as a decimal; floating point is not modelled, so that
      value is a parameter here. */
  function SplitBy(self: Token, ratio: real, complement: real): (r: Result<(Token, Token)>)
    ensures r.Ok? <==> 0.0 <= ratio <= 1.0
    ensures r.Err? ==> r.error.Validation?
    ensures r.Ok? ==> r.value.0.baseSymbol == self.baseSymbol && r.value.1.baseSymbol == self.baseSymbol
    ensures r.Ok? ==> r.value.0.Valid() && r.value.1.Valid()
    ensures r.Ok? ==> r.value.0.amount == Trunc(Product(self.amount, ratio), TokenPrecision)
    ensures r.Ok? ==> r.value.1.amount == Trunc(Product(self.amount, complement), TokenPrecision)
  {
    if !(0.0 <= ratio <= 1.0) then Err(Validation("ratio must be between 0 and 1"))
    else Ok((MakeToken(Product(self.amount, ratio), self.baseSymbol), MakeToken(Product(self.amount, complement), self.baseSymbol)))
  }

  /** Cuts the Token into `ratio` and `1 - ratio` parts, each truncated to 5 digits,
      with the complement taken exactly. */
  function Split(self: Token, ratio: real): (r: Result<(Token, Token)>)
    ensures r.Ok? <==> 0.0 <= ratio <= 1.0
    ensures r.Err? ==> r.error.Validation?
    ensures r.Ok? ==> r.value.0.baseSymbol == self.baseSymbol && r.value.1.baseSymbol == self.baseSymbol
    ensures r.Ok? ==> r.value.0.Valid() && r.value.1.Valid()
    ensures r.Ok? ==> r.value.0.amount == Trunc(Product(self.amount, ratio), TokenPrecision)
    ensures r.Ok? ==> r.value.1.amount == Trunc(Product(self.amount, 1.0 - ratio), TokenPrecision)
  {
    SplitBy(self, ratio, 1.0 - ratio)
  }

  // ---------------------------------------------------------------------------
  // Laws
  // ---------------------------------------------------------------------------

  /** Adding and subtracting valid Tokens is exact, and the operand's symbol is ignored. */
  lemma AddSubExact(x: Token, y: Token)
    requires x.Valid() && y.Valid()
    ensures Add(x, Tok(y)) == Ok(Token(x.amount + y.amount, x.baseSymbol))
    ensures Sub(x, Tok(y)) == Ok(Token(x.amount - y.amount, x.baseSymbol))
  {
    MultipleAdd(x.amount, y.amount, TokenPrecision);
    TruncOfMultiple(x.amount + y.amount, TokenPrecision);
    MultipleSub(x.amount, y.amount, TokenPrecision);
    TruncOfMultiple(x.amount - y.amount, TokenPrecision);
  }

  /** Subtraction undoes addition, whatever the symbols of the operands. */
  lemma SubUndoesAdd(x: Token, y: Token)
    requires x.Valid() && y.Valid()
    ensures Add(x, Tok(y)).Ok? && Sub(Add(x, Tok(y)).value, Tok(y)) == Ok(x)
  {
    AddSubExact(x, y);
    AddSubExact(Token(x.amount + y.amount, x.baseSymbol), y);
  }

  /** A number on the left adds like a Token of that amount on the right. */
  lemma RAddMatchesAdd(x: Token, n: real, sym: string)
    ensures Add(x, Tok(Token(n, sym))) == Ok(RAdd(x, n))
  {
  }

  /** Adding a number that already has at most 5 fractional digits is exact. */
  lemma RAddExact(x: Token, n: real)
    requires x.Valid() && IsMultiple(n, TokenPrecision)
    ensures RAdd(x, n) == Token(x.amount + n, x.baseSymbol)
  {
    MultipleAdd(x.amount, n, TokenPrecision);
    TruncOfMultiple(x.amount + n, TokenPrecision);
  }

  /** Multiplying a valid Token by a non-zero integer is exact, and dividing by the
      same integer gives the Token back. */
  lemma DivUndoesMul(x: Token, k: int)
    requires x.Valid() && k != 0
    ensures Mul(x, Num(k as real)) == Ok(Tok(Token(x.amount * (k as real), x.baseSymbol)))
    ensures Div(Mul(x, Num(k as real)).value.t, Num(k as real)) == Ok(Tok(x))
  {
    var y := Product(x.amount, k as real);
    TruncTimesInteger(x.amount, k, y, TokenPrecision);
    assert y / (k as real) == x.amount by { DivMulCancel(y, k as real); }
    TruncOfMultiple(x.amount, TokenPrecision);
  }

  /** Adding a Token of another symbol succeeds and keeps the left symbol. */
  lemma AddIgnoresOperandSymbol(x: Token, y: Token)
    requires x.baseSymbol != y.baseSymbol
    ensures Add(x, Tok(y)).Ok? && Add(x, Tok(y)).value.baseSymbol == x.baseSymbol
    ensures Add(y, Tok(x)).Ok? && Add(y, Tok(x)).value.baseSymbol == y.baseSymbol
  {
  }

  /** Negation is exact and an involution on valid Tokens. */
  lemma NegInvolution(x: Token)
    requires x.Valid()
    ensures Neg(x) == Token(-x.amount, x.baseSymbol)
    ensures Neg(Neg(x)) == x
  {
    MultipleNeg(x.amount, TokenPrecision);
    TruncOfMultiple(-x.amount, TokenPrecision);
    assert - -x.amount == x.amount;
    TruncOfMultiple(x.amount, TokenPrecision);
  }

  /** `ValueAt` agrees with `*` on Prices and refuses the numbers `*` accepts. */
  lemma ValueAtMatchesMul(t: Token, v: Value)
    ensures v.Prc? ==> Mul(t, v).Ok? && ValueAt(t, v) == Ok(Mul(t, v).value.a)
    ensures v.Num? ==> Mul(t, v).Ok? && ValueAt(t, v) == Err(TypeMismatch)
    ensures v.Tok? || v.Ast? ==> Mul(t, v) == ValueAt(t, v).PropagateFailure()
  {
  }

  /** Split at the endpoints: ratio 0 keeps everything in the second part, ratio 1 in the first. */
  lemma SplitEndpoints(t: Token)
    requires t.Valid()
    ensures Split(t, 0.0) == Ok((Token(0.0, t.baseSymbol), t))
    ensures Split(t, 1.0) == Ok((t, Token(0.0, t.baseSymbol)))
  {
    TruncOfMultiple(t.amount, TokenPrecision);
    TruncOfMultiple(0.0, TokenPrecision);
    assert Product(t.amount, 0.0) == 0.0 && Product(t.amount, 1.0 - 0.0) == t.amount;
    assert Product(t.amount, 1.0) == t.amount && Product(t.amount, 1.0 - 1.0) == 0.0;
  }

  /** For a non-negative Token the two parts never exceed the whole, and the shortfall
      is either nothing or exactly one unit of the fifth decimal place. */
  lemma SplitConservation(t: Token, ratio: real)
    requires t.Valid() && t.amount >= 0.0
    requires 0.0 <= ratio <= 1.0
    ensures Split(t, ratio).Ok?
    ensures Split(t, ratio).value.0.amount + Split(t, ratio).value.1.amount <= t.amount
    ensures var s := Split(t, ratio).value.0.amount + Split(t, ratio).value.1.amount;
      s == t.amount || (t.amount - s) * Scale(TokenPrecision) == 1.0
  {
    var u := Product(t.amount, ratio);
    var v := Product(t.amount, 1.0 - ratio);
    ProductSplit(t.amount, ratio);
    var x := MakeToken(u, t.baseSymbol);
    var y := MakeToken(v, t.baseSymbol);
    SplitParts(t, ratio);
    PartsConservation(t.amount, u, v, x.amount, y.amount, TokenPrecision);
  }

  /** As written, `1 - 0.7` in binary floating point reads back as 0.30000000000000004,
      and splitting 10^12 by 0.7 with that complement gives two parts whose sum exceeds
      the whole; the exact complement keeps the sum within it. */
  lemma FloatComplementOverSplits()
    ensures var t := Token(1000000000000.0, "BTC");
      var r := SplitBy(t, 0.7, 0.30000000000000004);
      r.Ok? && r.value.0.amount + r.value.1.amount > t.amount
    ensures var t := Token(1000000000000.0, "BTC");
      Split(t, 0.7).Ok? && Split(t, 0.7).value.0.amount + Split(t, 0.7).value.1.amount <= t.amount
  {
    var t := Token(1000000000000.0, "BTC");
    IntegerIsMultiple(700000000000, TokenPrecision);
    assert Product(t.amount, 0.7) == 700000000000.0;
    TruncOfMultiple(700000000000.0, TokenPrecision);
    GridPoint(30000000000000004, 300000000000.00004);
    TruncOfMultiple(300000000000.00004, TokenPrecision);
    assert Product(t.amount, 0.30000000000000004) == 300000000000.00004;
    IntegerIsMultiple(1000000000000, TokenPrecision);
    SplitConservation(t, 0.7);
  }

  /** As written, `1 - 0.9` reads back as 0.09999999999999998, so splitting 1 by 0.9
      leaves a second part of 0.09999 where the exact complement gives 0.1. */
  lemma FloatComplementLosesUnit()
    ensures var t := Token(1.0, "BTC");
      var r := SplitBy(t, 0.9, 0.09999999999999998);
      r.Ok? && r.value.1.amount == 0.09999
    ensures Split(Token(1.0, "BTC"), 0.9).Ok? && Split(Token(1.0, "BTC"), 0.9).value.1.amount == 0.1
  {
    var t := Token(1.0, "BTC");
    assert Scale(TokenPrecision) == 100000.0;
    assert Product(t.amount, 0.09999999999999998) * 100000.0 == 9999.999999999998;
    FloorBounds(9999.999999999998);
    assert TruncCoefficient(0.09999999999999998, TokenPrecision) == 9999;
    assert Product(t.amount, 1.0 - 0.9) == 0.1;
    GridPoint(10000, 0.1);
    TruncOfMultiple(0.1, TokenPrecision);
  }

  /** `x` is the grid point `k` units of the fifth decimal place. */
  lemma GridPoint(k: int, x: real)
    requires x * 100000.0 == k as real
    ensures IsMultiple(x, TokenPrecision)
  {
    assert Scale(TokenPrecision) == 100000.0;
    FloorOfInteger(k);
  }

  lemma SplitParts(t: Token, ratio: real)
    requires 0.0 <= ratio <= 1.0
    ensures Split(t, ratio) == Ok((MakeToken(Product(t.amount, ratio), t.baseSymbol), MakeToken(Product(t.amount, 1.0 - ratio), t.baseSymbol)))
  {
  }

  /** The two shares `a * r` and `a * (1 - r)` of a non-negative amount are non-negative and sum to it. */
  lemma ProductSplit(a: real, r: real)
    requires a >= 0.0 && 0.0 <= r <= 1.0
    ensures Product(a, r) + Product(a, 1.0 - r) == a
    ensures Product(a, r) >= 0.0 && Product(a, 1.0 - r) >= 0.0
  {
  }

  /** Two non-negative parts of a grid amount, each truncated down to the grid,
      lose nothing or exactly one grid unit. */
  lemma PartsConservation(a: real, u: real, v: real, x: real, y: real, p: nat)
    requires u + v == a && 0.0 <= u && 0.0 <= v
    requires 0.0 <= x <= u && 0.0 <= y <= v
    requires -1.0 < (u - x) * Scale(p) < 1.0 && -1.0 < (v - y) * Scale(p) < 1.0
    requires IsMultiple(a, p) && IsMultiple(x, p) && IsMultiple(y, p)
    ensures x + y <= a
    ensures x + y == a || (a - (x + y)) * Scale(p) == 1.0
  {
    ShortfallBelowTwoUnits(a, u, v, x, y, p);
    MultipleAdd(x, y, p);
    GridPointBelowTwo(a, x + y, p);
  }

  lemma ShortfallBelowTwoUnits(a: real, u: real, v: real, x: real, y: real, p: nat)
    requires u + v == a
    requires -1.0 < (u - x) * Scale(p) < 1.0 && -1.0 < (v - y) * Scale(p) < 1.0
    ensures (a - (x + y)) * Scale(p) < 2.0
  {
    assert (a - (x + y)) * Scale(p) == (u - x) * Scale(p) + (v - y) * Scale(p);
  }

  /** A grid amount less than two units below another grid amount is equal to it
      or exactly one unit below it. */
  lemma GridPointBelowTwo(a: real, s: real, p: nat)
    requires IsMultiple(a, p) && IsMultiple(s, p) && s <= a && (a - s) * Scale(p) < 2.0
    ensures s == a || (a - s) * Scale(p) == 1.0
  {
    if s < a {
      MultipleGap(s, a, p);
      var ka := (a * Scale(p)).Floor;
      var ks := (s * Scale(p)).Floor;
      assert (a - s) * Scale(p) == (ka - ks) as real;
    }
  }
}
