/**
  Conversion of computed charges to whole quota, saturating at the bounds. Floating-point values are reals
  with infinities and NaN; where a decimal goes through a float, that conversion is a parameter.
 */
module QuotaMath {
  import opened Numbers

  const MAX_QUOTA := 0x7FFF_FFFF
  const MIN_QUOTA := -0x8000_0000
  const MAX_WALLET_QUOTA := 0x1F_FFFF_FFFF_FFFF
  const QUOTA_PER_UNIT := 500000.0

  datatype Float = NaN | PosInf | NegInf | Finite(value: real)

  /** The order of numbers that are not NaN. */
  predicate AtMost(a: Float, b: Float) {
    !a.NaN? && !b.NaN? && (a.NegInf? || b.PosInf? || (a.Finite? && b.Finite? && a.value <= b.value))
  }

  predicate Above(a: Float, n: int) {
    a.PosInf? || (a.Finite? && a.value > n as real)
  }

  predicate Below(a: Float, n: int) {
    a.NegInf? || (a.Finite? && a.value < n as real)
  }

  datatype Clamp = Unclamped | Overflow | Underflow | NotANumber

  datatype Conversion = Conversion(quota: int, clamp: Clamp)

  /** `saturateQuotaBounded` */
  function Saturate(value: Float, max: int, min: int): Conversion {
    if value.NaN? then Conversion(0, NotANumber)
    else if Above(value, max) then Conversion(max, Overflow)
    else if Below(value, min) then Conversion(min, Underflow)
    else match value case Finite(x) => Conversion(Truncate(x), Unclamped) case _ => Conversion(0, Unclamped)
  }

  datatype Result = Ok(quota: int) | Err(clamp: Clamp)

  /** `strictQuota` */
  function Strict(c: Conversion): Result {
    if c.clamp != Unclamped then Err(c.clamp) else Ok(c.quota)
  }

  function RoundFloat(value: Float): Float {
    if value.Finite? then Finite(Round(value.value) as real) else value
  }

  function FromFloat(value: Float): Conversion {
    Saturate(value, MAX_QUOTA, MIN_QUOTA)
  }

  function FromRounded(value: Float): Conversion {
    Saturate(RoundFloat(value), MAX_QUOTA, MIN_QUOTA)
  }

  function FromDecimal(d: real, toFloat: int -> Float): Conversion {
    Saturate(toFloat(Round(d)), MAX_QUOTA, MIN_QUOTA)
  }

  function WalletFromDecimal(d: real, toFloat: int -> Float): Conversion {
    Saturate(toFloat(Round(d)), MAX_WALLET_QUOTA, -MAX_WALLET_QUOTA)
  }

  const EXACT := 0x20_0000_0000_0000

  /** What is used of the conversion of whole decimals to floats: it keeps order and is exact up to 2^53. */
  ghost predicate Faithful(toFloat: int -> Float) {
    && (forall n :: !toFloat(n).NaN?)
    && (forall m, n :: m <= n ==> AtMost(toFloat(m), toFloat(n)))
    && (forall n :: -EXACT <= n <= EXACT ==> toFloat(n) == Finite(n as real))
  }

  // ---------------------------------------------------------------- saturation

  predicate InRange(n: int, max: int, min: int) {
    min <= n <= max
  }

  lemma SaturateBounded(value: Float, max: int, min: int)
    requires min <= 0 <= max
    ensures InRange(Saturate(value, max, min).quota, max, min)
  {
  }

  lemma SaturateMonotone(a: Float, b: Float, max: int, min: int)
    requires min <= 0 <= max && AtMost(a, b)
    ensures Saturate(a, max, min).quota <= Saturate(b, max, min).quota
  {
    SaturateBounded(a, max, min);
    SaturateBounded(b, max, min);
    if a.Finite? && b.Finite? {
      TruncateMonotone(a.value, b.value);
    }
  }

  /** The kind of clamp reported says exactly on which side of the range the value lay, before truncation. */
  lemma ClampExactly(value: Float, max: int, min: int)
    requires min <= 0 <= max
    ensures var c := Saturate(value, max, min);
            && (c.clamp == Overflow <==> Above(value, max))
            && (c.clamp == Underflow <==> Below(value, min))
            && (c.clamp == NotANumber <==> value.NaN?)
            && (c.clamp == Unclamped <==> value.Finite? && min as real <= value.value <= max as real)
            && (c.clamp == Unclamped ==>
                  Abs(c.quota as real) <= Abs(value.value) && Abs(c.quota as real - value.value) < 1.0)
  {
  }

  /** A finite value is rounded and then moved to the nearest number in range, and only a move is reported. */
  lemma RoundedIsNearest(x: real, n: int)
    requires InRange(n, MAX_QUOTA, MIN_QUOTA)
    ensures var c := FromRounded(Finite(x));
            && InRange(c.quota, MAX_QUOTA, MIN_QUOTA)
            && (if c.quota >= Round(x) then c.quota - Round(x) else Round(x) - c.quota)
               <= (if n >= Round(x) then n - Round(x) else Round(x) - n)
            && (c.clamp == Unclamped <==> InRange(Round(x), MAX_QUOTA, MIN_QUOTA))
            && (c.clamp == Unclamped <==> c.quota == Round(x))
  {
    RoundInteger(Round(x));
  }

  lemma RoundFloatMonotone(a: Float, b: Float)
    requires AtMost(a, b)
    ensures AtMost(RoundFloat(a), RoundFloat(b))
  {
    if a.Finite? && b.Finite? {
      RoundMonotone(a.value, b.value);
    }
  }

  /** Every conversion to request quota is monotone. */
  lemma ConversionsMonotone(a: Float, b: Float, toFloat: int -> Float, d: real, e: real)
    requires AtMost(a, b) && d <= e && Faithful(toFloat)
    ensures FromFloat(a).quota <= FromFloat(b).quota
    ensures FromRounded(a).quota <= FromRounded(b).quota
    ensures FromDecimal(d, toFloat).quota <= FromDecimal(e, toFloat).quota
    ensures WalletFromDecimal(d, toFloat).quota <= WalletFromDecimal(e, toFloat).quota
  {
    SaturateMonotone(a, b, MAX_QUOTA, MIN_QUOTA);
    RoundFloatMonotone(a, b);
    SaturateMonotone(RoundFloat(a), RoundFloat(b), MAX_QUOTA, MIN_QUOTA);
    RoundMonotone(d, e);
    SaturateMonotone(toFloat(Round(d)), toFloat(Round(e)), MAX_QUOTA, MIN_QUOTA);
    SaturateMonotone(toFloat(Round(d)), toFloat(Round(e)), MAX_WALLET_QUOTA, -MAX_WALLET_QUOTA);
  }

  // ---------------------------------------------------------------- strict forms

  /** Through a float that is exact to 2^53, a whole number is accepted exactly when it is in range. */
  lemma StrictExact(n: int, toFloat: int -> Float, max: int, min: int)
    requires Faithful(toFloat) && -EXACT < min <= 0 <= max < EXACT
    ensures Strict(Saturate(toFloat(n), max, min))
            == if n > max then Err(Overflow) else if n < min then Err(Underflow) else Ok(n)
  {
    RoundInteger(n);
    if n > EXACT {
      assert AtMost(toFloat(EXACT), toFloat(n));
    } else if n < -EXACT {
      assert AtMost(toFloat(n), toFloat(-EXACT));
    }
  }

  /** The wallet form accepts exactly the decimals that round into ±(2^53 - 1), and returns that number. */
  lemma WalletStrictExact(d: real, toFloat: int -> Float, n: int)
    requires Faithful(toFloat)
    ensures Strict(WalletFromDecimal(d, toFloat)) == Ok(n)
            <==> n == Round(d) && -9007199254740991 <= n <= 9007199254740991
  {
    StrictExact(Round(d), toFloat, MAX_WALLET_QUOTA, -MAX_WALLET_QUOTA);
  }

  /** So does the request form on its own range. */
  lemma DecimalStrictExact(d: real, toFloat: int -> Float, n: int)
    requires Faithful(toFloat)
    ensures Strict(FromDecimal(d, toFloat)) == Ok(n) <==> n == Round(d) && -2147483648 <= n <= 2147483647
  {
    StrictExact(Round(d), toFloat, MAX_QUOTA, MIN_QUOTA);
  }

  /** The float form tests the value before it drops the fraction: above the maximum, any fraction is refused. */
  lemma FloatStrictExact(x: real, n: int)
    ensures Strict(FromFloat(Finite(x))) == Ok(n) <==> n == Truncate(x) && -2147483648.0 <= x <= 2147483647.0
  {
    ClampExactly(Finite(x), MAX_QUOTA, MIN_QUOTA);
  }

  lemma RoundStrictExact(x: real, n: int)
    ensures Strict(FromRounded(Finite(x))) == Ok(n) <==> n == Round(x) && -2147483648 <= n <= 2147483647
  {
    RoundInteger(Round(x));
  }

  // ---------------------------------------------------------------- the charge for a channel test

  datatype Price = Price(usePrice: bool, modelPrice: real, modelRatio: real, completionRatio: real)

  function QuotaRound(x: real): int {
    FromRounded(Finite(x)).quota
  }

  /** A token count at a ratio, before and after rounding. */
  function Share(n: int, ratio: real): real {
    n as real * ratio
  }

  function Scaled(n: int, ratio: real): int {
    QuotaRound(Share(n, ratio))
  }

  function Tokens(price: Price, prompt: int, completion: int): int {
    QuotaRound(prompt as real + Scaled(completion, price.completionRatio) as real)
  }

  function Settled(price: Price, prompt: int, completion: int): int {
    if price.usePrice then FromFloat(Finite(price.modelPrice * QUOTA_PER_UNIT)).quota
    else
      var charge := Scaled(Tokens(price, prompt, completion), price.modelRatio);
      if price.modelRatio != 0.0 && charge <= 0 then 1 else charge
  }

  /** The fallback of `settleTestQuota`. */
  method SettleTestQuota(price: Price, prompt: int, completion: int) returns (quota: int)
    ensures quota == Settled(price, prompt, completion)
  {
    quota := 0;
    if !price.usePrice {
      var completionQuota := Scaled(completion, price.completionRatio);
      quota := QuotaRound(prompt as real + completionQuota as real);
      quota := Scaled(quota, price.modelRatio);
      if price.modelRatio != 0.0 && quota <= 0 {
        quota := 1;
      }
      return;
    }
    quota := FromFloat(Finite(price.modelPrice * QUOTA_PER_UNIT)).quota;
  }

  lemma QuotaRoundMonotone(x: real, y: real)
    requires x <= y
    ensures QuotaRound(x) <= QuotaRound(y)
  {
    RoundFloatMonotone(Finite(x), Finite(y));
    SaturateMonotone(RoundFloat(Finite(x)), RoundFloat(Finite(y)), MAX_QUOTA, MIN_QUOTA);
  }

  /** A ratio charge is never negative, whatever the ratios, and a price charge has the sign of the price. */
  lemma SettledNonnegative(price: Price, prompt: int, completion: int)
    requires price.usePrice ==> price.modelPrice >= 0.0
    ensures Settled(price, prompt, completion) >= 0
    ensures !price.usePrice && price.modelRatio != 0.0 ==> Settled(price, prompt, completion) >= 1
    ensures Settled(price, prompt, completion) <= MAX_QUOTA
  {
    if price.usePrice {
      var x := price.modelPrice * QUOTA_PER_UNIT;
      SaturateMonotone(Finite(0.0), Finite(x), MAX_QUOTA, MIN_QUOTA);
      SaturateBounded(Finite(x), MAX_QUOTA, MIN_QUOTA);
    } else {
      var tokens := Tokens(price, prompt, completion);
      SaturateBounded(RoundFloat(Finite(tokens as real * price.modelRatio)), MAX_QUOTA, MIN_QUOTA);
      if price.modelRatio == 0.0 {
        assert tokens as real * price.modelRatio == 0.0;
        RoundInteger(0);
      }
    }
  }

  lemma ScaledMonotone(a: int, b: int, ratio: real)
    requires a <= b && ratio >= 0.0
    ensures Scaled(a, ratio) <= Scaled(b, ratio)
  {
    assert (b - a) as real * ratio >= 0.0;
    assert b as real * ratio == a as real * ratio + (b - a) as real * ratio;
    QuotaRoundMonotone(a as real * ratio, b as real * ratio);
  }

  lemma TokensMonotone(price: Price, prompt: int, prompt': int, completion: int, completion': int)
    requires price.completionRatio >= 0.0 && prompt <= prompt' && completion <= completion'
    ensures Tokens(price, prompt, completion) <= Tokens(price, prompt', completion')
  {
    ScaledMonotone(completion, completion', price.completionRatio);
    var a, b := Scaled(completion, price.completionRatio), Scaled(completion', price.completionRatio);
    QuotaRoundMonotone(prompt as real + a as real, prompt' as real + b as real);
  }

  /** More tokens never cost less. */
  lemma SettledMonotone(price: Price, prompt: int, prompt': int, completion: int, completion': int)
    requires price.modelRatio >= 0.0 && price.completionRatio >= 0.0
    requires prompt <= prompt' && completion <= completion'
    ensures Settled(price, prompt, completion) <= Settled(price, prompt', completion')
  {
    if !price.usePrice {
      TokensMonotone(price, prompt, prompt', completion, completion');
      ScaledMonotone(Tokens(price, prompt, completion), Tokens(price, prompt', completion'), price.modelRatio);
    }
  }

  /** What is no number counts zero, and the infinities count as the bounds; each is reported. */
  lemma SpecialsWrittenOut()
    ensures FromFloat(NaN) == FromRounded(NaN) == Conversion(0, NotANumber)
    ensures FromFloat(PosInf) == FromRounded(PosInf) == Conversion(2147483647, Overflow)
    ensures FromFloat(NegInf) == FromRounded(NegInf) == Conversion(-2147483648, Underflow)
  {
  }

  /** A product of a ratio and a rounding error. */
  lemma RatioTimesError(ratio: real, error: real)
    requires -0.5 <= error <= 0.5
    ensures -(0.5 * Abs(ratio)) <= ratio * error <= 0.5 * Abs(ratio)
  {
    var size := Abs(ratio);
    ProductNonNegative(size, 0.5 - error);
    ProductNonNegative(size, 0.5 + error);
    assert size * (0.5 - error) == 0.5 * size - size * error;
    assert size * (0.5 + error) == 0.5 * size + size * error;
    assert ratio * error == if ratio >= 0.0 then size * error else -(size * error);
  }

  /** Within the range of request quota rounding is all that happens. */
  lemma QuotaRoundInRange(x: real)
    requires -2147483648.0 <= x <= 2147483647.0
    ensures QuotaRound(x) == Round(x) && -0.5 <= QuotaRound(x) as real - x <= 0.5
  {
    RoundInteger(Round(x));
  }

  /** The prompt tokens and the completion tokens at their ratio. */
  function Expected(prompt: int, completion: int, completionRatio: real): real {
    prompt as real + Share(completion, completionRatio)
  }

  lemma RoundedSum(prompt: int, share: real)
    requires -2147483648.0 <= share <= 2147483647.0
    requires -2147483647.0 <= prompt as real + share <= 2147483646.0
    ensures var tokens := QuotaRound(prompt as real + QuotaRound(share) as real);
            tokens == prompt + Round(share) && -0.5 <= tokens as real - (prompt as real + share) <= 0.5
  {
    QuotaRoundInRange(share);
    var sum := prompt + Round(share);
    assert prompt as real + Round(share) as real == sum as real;
    QuotaRoundInRange(sum as real);
    RoundInteger(sum);
  }

  /** The token count charged is that sum, up to half a token. */
  lemma TokensWithin(price: Price, prompt: int, completion: int)
    requires -2147483648.0 <= Share(completion, price.completionRatio) <= 2147483647.0
    requires -2147483647.0 <= Expected(prompt, completion, price.completionRatio) <= 2147483646.0
    ensures var tokens := Tokens(price, prompt, completion) as real;
            -0.5 <= tokens - Expected(prompt, completion, price.completionRatio) <= 0.5
  {
    RoundedSum(prompt, Share(completion, price.completionRatio));
  }

  /** modelRatio * (prompt + completionRatio * completion) */
  function ExactCharge(price: Price, prompt: int, completion: int): real {
    Product(price.modelRatio, Expected(prompt, completion, price.completionRatio))
  }

  function Product(a: real, b: real): real {
    a * b
  }

  /** Every step of a ratio charge stays in the range of request quota. */
  predicate ChargeInRange(price: Price, prompt: int, completion: int) {
    && -2147483648.0 <= Share(completion, price.completionRatio) <= 2147483647.0
    && -2147483647.0 <= Expected(prompt, completion, price.completionRatio) <= 2147483646.0
    && Abs(ExactCharge(price, prompt, completion)) + 0.5 * Abs(price.modelRatio) <= 2147483647.0
  }

  lemma RawChargeWithin(price: Price, prompt: int, completion: int)
    requires ChargeInRange(price, prompt, completion)
    ensures var raw := Scaled(Tokens(price, prompt, completion), price.modelRatio);
            Near(raw as real, ExactCharge(price, prompt, completion), 0.5 * Abs(price.modelRatio) + 0.5)
  {
    var tokens, expected := Tokens(price, prompt, completion), Expected(prompt, completion, price.completionRatio);
    TokensWithin(price, prompt, completion);
    ShareOfTokens(price.modelRatio, tokens, expected);
    RoundedNear(Share(tokens, price.modelRatio), Product(price.modelRatio, expected), 0.5 * Abs(price.modelRatio));
  }

  predicate Near(a: real, b: real, slack: real) {
    -slack <= a - b <= slack
  }

  /**
    A ratio charge in range lies within half a unit, and half the model ratio, of the exact charge; a nonzero
    ratio never charges less than one.
   */
  lemma ChargeWithin(price: Price, prompt: int, completion: int)
    requires !price.usePrice && ChargeInRange(price, prompt, completion)
    ensures var charge, slack := Settled(price, prompt, completion), 0.5 * Abs(price.modelRatio) + 0.5;
            var exact := ExactCharge(price, prompt, completion);
            Near(charge as real, exact, slack) || (charge == 1 && price.modelRatio != 0.0 && exact <= slack)
  {
    RawChargeWithin(price, prompt, completion);
    AtLeastOne(Scaled(Tokens(price, prompt, completion), price.modelRatio), price.modelRatio,
               ExactCharge(price, prompt, completion), 0.5 * Abs(price.modelRatio) + 0.5);
  }

  /** Raising a charge to one keeps it near, or the exact charge was small. */
  lemma AtLeastOne(charge: int, ratio: real, exact: real, slack: real)
    requires Near(charge as real, exact, slack)
    ensures var raised := if ratio != 0.0 && charge <= 0 then 1 else charge;
            Near(raised as real, exact, slack) || (raised == 1 && ratio != 0.0 && exact <= slack)
  {
  }

  lemma ShareOfTokens(ratio: real, tokens: int, expected: real)
    requires -0.5 <= tokens as real - expected <= 0.5
    ensures Near(Share(tokens, ratio), Product(ratio, expected), 0.5 * Abs(ratio))
  {
    var error := tokens as real - expected;
    RatioTimesError(ratio, error);
    Distribute(tokens as real, expected, error, ratio);
  }

  lemma Distribute(a: real, b: real, c: real, ratio: real)
    requires a == b + c
    ensures a * ratio == ratio * b + ratio * c
  {
  }

  lemma RoundedNear(share: real, exact: real, slack: real)
    requires Near(share, exact, slack) && Abs(exact) + slack <= 2147483647.0
    ensures Near(QuotaRound(share) as real, exact, slack + 0.5)
  {
    QuotaRoundInRange(share);
  }

  /** Where no step rounds, the charge is the product itself. */
  lemma ChargeExact(price: Price, prompt: int, completion: int, scaled: int, charge: int)
    requires !price.usePrice
    requires Share(completion, price.completionRatio) == scaled as real
    requires Share(prompt + scaled, price.modelRatio) == charge as real
    requires -2147483648 <= scaled <= 2147483647 && -2147483647 <= prompt + scaled <= 2147483646
    requires 0 < charge <= 2147483647
    ensures Settled(price, prompt, completion) == charge
  {
    RoundInteger(scaled);
    RoundedSum(prompt, scaled as real);
    RoundedCharge(Tokens(price, prompt, completion), prompt + scaled, price.modelRatio, charge);
  }

  lemma RoundedCharge(tokens: int, exact: int, ratio: real, charge: int)
    requires tokens == exact && Share(exact, ratio) == charge as real && 0 < charge <= 2147483647
    ensures Scaled(tokens, ratio) == charge
  {
    RoundInteger(charge);
    QuotaRoundInRange(charge as real);
  }

  /** A price charge is 500000 times the price without its fraction, up to the largest request quota. */
  lemma PriceCharge(price: Price, prompt: int, completion: int)
    requires price.usePrice && 0.0 <= price.modelPrice
    ensures var exact, charge := price.modelPrice * 500000.0, Settled(price, prompt, completion);
            if exact <= 2147483647.0 then charge as real <= exact < charge as real + 1.0 else charge == 2147483647
  {
  }
}
