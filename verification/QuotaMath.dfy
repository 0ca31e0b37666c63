/**
 Conversions from computed prices to integer quotas, and the settlement of a channel test.

 A `float64` is a real number, an infinity or NaN. Rounding inside a `float64` operation is not modelled.
 */
module QuotaMath {
  import opened Wrappers

  const MAX_QUOTA: int := 0x7FFF_FFFF
  const MIN_QUOTA: int := -0x8000_0000
  const MAX_WALLET_QUOTA: int := 0x1F_FFFF_FFFF_FFFF
  const QUOTA_PER_UNIT: real := 500000.0

  datatype Float = NaN | NegInf | Finite(value: real) | PosInf

  datatype ClampKind = Overflow | Underflow | NotANumber

  /** A converted quota with the clamp, if one was applied. */
  datatype Checked = Checked(quota: int, clamp: Option<ClampKind>)

  // ----- Arithmetic -----

  /** The product of a natural number and a real, written as a sum; `MultipleIsProduct`. */
  function Multiple(n: nat, x: real): real {
    if n == 0 then 0.0 else Multiple(n - 1, x) + x
  }

  function Times(n: int, x: Float): Float {
    match x
    case NaN => NaN
    case Finite(value) => Finite(if n >= 0 then Multiple(n, value) else -Multiple(-n, value))
    case PosInf => if n == 0 then NaN else if n > 0 then PosInf else NegInf
    case NegInf => if n == 0 then NaN else if n > 0 then NegInf else PosInf
  }

  function Truncate(x: real): int {
    if x >= 0.0 then x.Floor else -((-x).Floor)
  }

  /** Half away from zero. */
  function RoundReal(x: real): int {
    if x >= 0.0 then (x + 0.5).Floor else -((-x + 0.5).Floor)
  }

  function Round(x: Float): Float {
    if x.Finite? then Finite(RoundReal(x.value) as real) else x
  }

  // ----- Conversions -----

  function SaturateBounded(x: Float, max: int, min: int): Checked {
    match x
    case NaN => Checked(0, Some(NotANumber))
    case PosInf => Checked(max, Some(Overflow))
    case NegInf => Checked(min, Some(Underflow))
    case Finite(value) =>
      if value > max as real then Checked(max, Some(Overflow))
      else if value < min as real then Checked(min, Some(Underflow))
      else Checked(Truncate(value), None)
  }

  function Strict(c: Checked): Result<int, ClampKind> {
    if c.clamp.Some? then Err(c.clamp.value) else Ok(c.quota)
  }

  function QuotaFromFloatChecked(x: Float): Checked {
    SaturateBounded(x, MAX_QUOTA, MIN_QUOTA)
  }

  function QuotaRoundChecked(x: Float): Checked {
    SaturateBounded(Round(x), MAX_QUOTA, MIN_QUOTA)
  }

  /** A decimal is always finite. */
  function WalletQuotaFromDecimal(d: real): Checked {
    SaturateBounded(Round(Finite(d)), MAX_WALLET_QUOTA, -MAX_WALLET_QUOTA)
  }

  function QuotaRound(x: Float): int {
    QuotaRoundChecked(x).quota
  }

  /** The order of the floats; NaN is not comparable to anything. */
  predicate AtMost(x: Float, y: Float) {
    match (x, y)
    case (NaN, _) => false
    case (_, NaN) => false
    case (NegInf, _) => true
    case (_, PosInf) => true
    case (Finite(a), Finite(b)) => a <= b
    case _ => false
  }

  function Magnitude(x: real): real {
    if x >= 0.0 then x else -x
  }

  /** `n` is the integer closest to `x`, and of two equally close ones the one away from zero. */
  predicate NearestAway(x: real, n: int) {
    && Magnitude(n as real - x) <= 0.5
    && (Magnitude(n as real - x) == 0.5 ==> Magnitude(n as real) > Magnitude(x))
  }

  /** `n` is `x` without its fraction: the integer closest to `x` between zero and `x`. */
  predicate TowardsZero(x: real, n: int) {
    && Magnitude(n as real) <= Magnitude(x) < Magnitude(n as real) + 1.0
    && (x >= 0.0 ==> n >= 0) && (x <= 0.0 ==> n <= 0)
  }

  lemma NearestAwayIsUnique(x: real, m: int, n: int)
    requires NearestAway(x, m) && NearestAway(x, n)
    ensures m == n
  {
  }

  lemma RoundIsNearest(x: real, n: int)
    ensures RoundReal(x) == n <==> NearestAway(x, n)
  {
    if NearestAway(x, n) {
      NearestAwayIsUnique(x, RoundReal(x), n);
    }
  }

  lemma RoundKeepsOrder(x: real, y: real)
    requires x <= y
    ensures RoundReal(x) <= RoundReal(y)
  {
  }

  /** Converting keeps the order of any two comparable values and stays within the bounds, NaN included. */
  lemma SaturateKeepsOrder(x: Float, y: Float, max: int, min: int)
    requires min <= 0 <= max
    ensures min <= SaturateBounded(x, max, min).quota <= max
    ensures AtMost(x, y) ==> SaturateBounded(x, max, min).quota <= SaturateBounded(y, max, min).quota
  {
  }

  /** What is outside the bounds becomes the nearest bound, and what is not a number becomes zero. */
  lemma SaturatesToTheNearest(x: Float, max: int, min: int)
    requires min <= 0 <= max
    ensures var c := SaturateBounded(x, max, min);
            && (x.NaN? ==> c == Checked(0, Some(NotANumber)))
            && (x.PosInf? || (x.Finite? && x.value > max as real) ==> c == Checked(max, Some(Overflow)))
            && (x.NegInf? || (x.Finite? && x.value < min as real) ==> c == Checked(min, Some(Underflow)))
            && (x.Finite? && min as real <= x.value <= max as real ==> TowardsZero(x.value, c.quota) && c.clamp.None?)
  {
  }

  lemma QuotaRoundKeepsOrder(x: Float, y: Float)
    ensures MIN_QUOTA <= QuotaRound(x) <= MAX_QUOTA
    ensures AtMost(x, y) ==> QuotaRound(x) <= QuotaRound(y)
  {
    if AtMost(x, y) && x.Finite? && y.Finite? {
      RoundKeepsOrder(x.value, y.value);
    }
    SaturateKeepsOrder(Round(x), Round(y), MAX_QUOTA, MIN_QUOTA);
  }

  /** The strict truncating conversion succeeds exactly within the bounds, and then loses only the fraction. */
  lemma StrictTruncationIff(x: Float, max: int, min: int)
    requires min <= 0 <= max
    ensures var r := Strict(SaturateBounded(x, max, min));
            && (r.Ok? <==> x.Finite? && min as real <= x.value <= max as real)
            && (r.Ok? ==> TowardsZero(x.value, r.value))
            && (r == Err(Overflow) <==> x.PosInf? || (x.Finite? && x.value > max as real))
            && (r == Err(Underflow) <==> x.NegInf? || (x.Finite? && x.value < min as real))
  {
  }

  lemma RoundReaches(x: real, n: int)
    ensures n >= 0 ==> (RoundReal(x) > n <==> x >= n as real + 0.5)
    ensures n <= 0 ==> (RoundReal(x) < n <==> x <= n as real - 0.5)
  {
  }

  lemma SaturateWhole(n: int, max: int, min: int)
    requires min <= 0 <= max
    ensures SaturateBounded(Finite(n as real), max, min)
            == if n > max then Checked(max, Some(Overflow))
               else if n < min then Checked(min, Some(Underflow)) else Checked(n, None)
  {
  }

  /** The strict rounding conversion reaches half a unit further on both sides, both ends excluded. */
  lemma StrictRoundingIff(x: Float, max: int, min: int)
    requires min <= 0 <= max
    ensures var r := Strict(SaturateBounded(Round(x), max, min));
            && (r.Ok? <==> x.Finite? && min as real - 0.5 < x.value < max as real + 0.5)
            && (r.Ok? ==> NearestAway(x.value, r.value))
            && (r == Err(Overflow) <==> x.PosInf? || (x.Finite? && x.value >= max as real + 0.5))
            && (r == Err(Underflow) <==> x.NegInf? || (x.Finite? && x.value <= min as real - 0.5))
  {
    if x.Finite? {
      var n := RoundReal(x.value);
      RoundIsNearest(x.value, n);
      RoundReaches(x.value, max);
      RoundReaches(x.value, min);
      SaturateWhole(n, max, min);
    }
  }

  /** A wallet credit is accepted exactly when it rounds into the range of integers a `float64` holds exactly. */
  lemma WalletStrictIff(d: real)
    ensures Strict(WalletQuotaFromDecimal(d)).Ok? <==> Magnitude(d) < MAX_WALLET_QUOTA as real + 0.5
    ensures Strict(WalletQuotaFromDecimal(d)).Ok? ==> NearestAway(d, Strict(WalletQuotaFromDecimal(d)).value)
  {
    StrictRoundingIff(Finite(d), MAX_WALLET_QUOTA, -MAX_WALLET_QUOTA);
  }

  // ----- Settling a channel test -----

  /** The weighted tokens: the completion share and the sum are each rounded and saturated. */
  function RatioTokens(prompt: int, completion: int, completionRatio: Float): int {
    var share := QuotaRound(Times(completion, completionRatio));
    QuotaRound(Finite(prompt as real + share as real))
  }

  /** The product is rounded and saturated, and a model that is not free costs at least one unit. */
  function Charge(tokens: int, modelRatio: Float): int {
    var quota := QuotaRound(Times(tokens, modelRatio));
    if modelRatio != Finite(0.0) && quota <= 0 then 1 else quota
  }

  /** The charge by ratios. */
  function RatioQuota(prompt: int, completion: int, completionRatio: Float, modelRatio: Float): int {
    Charge(RatioTokens(prompt, completion, completionRatio), modelRatio)
  }

  function PriceQuota(modelPrice: Float): int {
    var product := if modelPrice.Finite? then Finite(modelPrice.value * QUOTA_PER_UNIT) else modelPrice;
    QuotaFromFloatChecked(product).quota
  }

  /** Everything a misconfigured ratio can be, except negative. */
  predicate NotNegative(x: Float) {
    x.NaN? || x.PosInf? || (x.Finite? && x.value >= 0.0)
  }

  lemma {:induction false} MultipleIsProduct(n: nat, x: real)
    ensures Multiple(n, x) == n as real * x
  {
    if n > 0 {
      MultipleIsProduct(n - 1, x);
      assert (n - 1) as real * x + x == n as real * x;
    }
  }

  lemma {:induction false} MultipleKeepsOrder(m: nat, n: nat, ratio: real)
    requires m <= n && ratio >= 0.0
    ensures 0.0 <= Multiple(m, ratio) <= Multiple(n, ratio)
  {
    if m < n {
      MultipleKeepsOrder(m, n - 1, ratio);
    } else if m > 0 {
      MultipleKeepsOrder(m - 1, n - 1, ratio);
    }
  }

  lemma NaturalRoundKeepsOrder(x: real, y: real)
    requires 0.0 <= x <= y
    ensures 0 <= QuotaRound(Finite(x)) <= QuotaRound(Finite(y)) <= MAX_QUOTA
  {
    assert QuotaRound(Finite(0.0)) == 0;
    QuotaRoundKeepsOrder(Finite(0.0), Finite(x));
    QuotaRoundKeepsOrder(Finite(x), Finite(y));
  }

  lemma FiniteScalingKeepsOrder(m: nat, n: nat, ratio: real)
    requires ratio >= 0.0 && m <= n
    ensures 0 <= QuotaRound(Times(m, Finite(ratio))) <= QuotaRound(Times(n, Finite(ratio))) <= MAX_QUOTA
  {
    MultipleKeepsOrder(m, n, ratio);
    NaturalRoundKeepsOrder(Multiple(m, ratio), Multiple(n, ratio));
  }

  lemma ScalingKeepsOrder(m: nat, n: nat, ratio: Float)
    requires NotNegative(ratio) && m <= n
    ensures 0 <= QuotaRound(Times(m, ratio)) <= QuotaRound(Times(n, ratio)) <= MAX_QUOTA
  {
    if ratio.Finite? {
      FiniteScalingKeepsOrder(m, n, ratio.value);
    }
  }

  lemma TokensAreNatural(prompt: nat, share: nat)
    ensures QuotaRound(Finite(prompt as real + share as real))
            == if prompt + share <= MAX_QUOTA then prompt + share else MAX_QUOTA
  {
    RoundIsNearest(prompt as real + share as real, prompt + share);
  }

  lemma RatioTokensKeepOrder(prompt: nat, prompt': nat, completion: nat, completion': nat, completionRatio: Float)
    requires prompt <= prompt' && completion <= completion' && NotNegative(completionRatio)
    ensures 0 <= RatioTokens(prompt, completion, completionRatio) <= RatioTokens(prompt', completion', completionRatio)
  {
    hide QuotaRound;
    hide Times;
    ScalingKeepsOrder(completion, completion', completionRatio);
    TokensAreNatural(prompt, QuotaRound(Times(completion, completionRatio)));
    TokensAreNatural(prompt', QuotaRound(Times(completion', completionRatio)));
  }

  lemma ChargeKeepsOrder(tokens: nat, tokens': nat, modelRatio: Float)
    requires tokens <= tokens' && NotNegative(modelRatio)
    ensures 0 <= Charge(tokens, modelRatio) <= Charge(tokens', modelRatio) <= MAX_QUOTA
  {
    ScalingKeepsOrder(tokens, tokens', modelRatio);
  }

  /** More tokens of either kind never cost less, whatever the ratios are. */
  lemma RatioQuotaIsMonotone(prompt: nat, prompt': nat, completion: nat, completion': nat, completionRatio: Float,
                             modelRatio: Float)
    requires prompt <= prompt' && completion <= completion'
    requires NotNegative(completionRatio) && NotNegative(modelRatio)
    ensures RatioQuota(prompt, completion, completionRatio, modelRatio)
            <= RatioQuota(prompt', completion', completionRatio, modelRatio)
  {
    RatioTokensKeepOrder(prompt, prompt', completion, completion', completionRatio);
    ChargeKeepsOrder(RatioTokens(prompt, completion, completionRatio),
                     RatioTokens(prompt', completion', completionRatio), modelRatio);
  }

  /** Without completion tokens only the prompt counts, whatever the ratio; with some, an infinite ratio saturates and one
      that is not a number counts nothing. */
  lemma ExtremeRatios(prompt: nat, completion: nat, ratio: Float)
    ensures RatioTokens(prompt, 0, ratio) == if prompt <= MAX_QUOTA then prompt else MAX_QUOTA
    ensures completion > 0 ==> RatioTokens(prompt, completion, PosInf) == MAX_QUOTA
    ensures RatioTokens(prompt, completion, NaN) == if prompt <= MAX_QUOTA then prompt else MAX_QUOTA
  {
    ExtremeShares(completion, ratio);
    hide QuotaRound;
    hide Times;
    TokensAreNatural(prompt, 0);
    TokensAreNatural(prompt, MAX_QUOTA);
  }

  lemma ExtremeShares(n: nat, ratio: Float)
    ensures QuotaRound(Times(0, ratio)) == 0 && QuotaRound(Times(n, NaN)) == 0
    ensures n > 0 ==> QuotaRound(Times(n, PosInf)) == MAX_QUOTA
  {
    assert QuotaRound(Finite(0.0)) == 0;
  }

  lemma {:induction false} MultipleOfZero(n: nat)
    ensures Multiple(n, 0.0) == 0.0
  {
    if n > 0 {
      MultipleOfZero(n - 1);
    }
  }

  lemma FreeIff(tokens: nat, modelRatio: Float)
    requires NotNegative(modelRatio)
    ensures Charge(tokens, modelRatio) == 0 <==> modelRatio == Finite(0.0)
  {
    MultipleOfZero(tokens);
    ChargeKeepsOrder(tokens, tokens, modelRatio);
  }

  /** The charge fits a quota, and only a model whose ratio is exactly zero is free. */
  lemma RatioQuotaIsBounded(prompt: nat, completion: nat, completionRatio: Float, modelRatio: Float)
    requires NotNegative(completionRatio) && NotNegative(modelRatio)
    ensures 0 <= RatioQuota(prompt, completion, completionRatio, modelRatio) <= MAX_QUOTA
    ensures RatioQuota(prompt, completion, completionRatio, modelRatio) == 0 <==> modelRatio == Finite(0.0)
  {
    RatioTokensKeepOrder(prompt, prompt, completion, completion, completionRatio);
    var tokens := RatioTokens(prompt, completion, completionRatio);
    ChargeKeepsOrder(tokens, tokens, modelRatio);
    FreeIff(tokens, modelRatio);
  }

  lemma ScaledErrorOf(a: real, b: real, ratio: real, product: real)
    requires ratio >= 0.0 && b - 0.5 <= a <= b + 0.5 && product == a * ratio
    ensures b * ratio - 0.5 * ratio <= product <= b * ratio + 0.5 * ratio
  {
    var low, high := a - (b - 0.5), b + 0.5 - a;
    assert low * ratio >= 0.0 && high * ratio >= 0.0;
    assert low * ratio == a * ratio - b * ratio + 0.5 * ratio;
    assert high * ratio == b * ratio + 0.5 * ratio - a * ratio;
  }

  lemma ScaledError(n: nat, x: real, ratio: real)
    requires ratio >= 0.0 && x - 0.5 <= n as real <= x + 0.5
    ensures x * ratio - 0.5 * ratio <= Multiple(n, ratio) <= x * ratio + 0.5 * ratio
  {
    ScaledErrorOf(n as real, x, ratio, Multiple(n, ratio)) by {
      MultipleIsProduct(n, ratio);
    }
  }

  /** A non-negative value under the bound is rounded, not clamped. */
  lemma RoundIsClose(x: real)
    requires 0.0 <= x <= MAX_QUOTA as real
    ensures QuotaRound(Finite(x)) >= 0 && x - 0.5 <= QuotaRound(Finite(x)) as real <= x + 0.5
  {
    StrictRoundingIff(Finite(x), MAX_QUOTA, MIN_QUOTA);
  }

  /** The last rounding: `product` is `error` or less from the exact price. */
  lemma ChargeIsClose(product: real, price: real, error: real)
    requires price - error <= product <= price + error
    requires 0.0 <= product && price + error <= MAX_QUOTA as real
    ensures var quota := QuotaRound(Finite(product));
            quota >= 0 && price - error - 0.5 <= quota as real <= price + error + 0.5
  {
    RoundIsClose(product);
  }

  /** The first two roundings, for a completion share of exactly `exact`. */
  lemma TokensAreClose(prompt: nat, exact: real)
    requires exact >= 0.0 && prompt as real + exact + 0.5 <= MAX_QUOTA as real
    ensures var share := QuotaRound(Finite(exact));
            var tokens := QuotaRound(Finite(prompt as real + share as real));
            tokens >= 0 && prompt as real + exact - 0.5 <= tokens as real <= prompt as real + exact + 0.5
  {
    RoundIsClose(exact);
    TokensAreNatural(prompt, QuotaRound(Finite(exact)));
  }

  /** The charge with its floor, for a `price` that the exact product misses by at most `error`. */
  lemma FlooredChargeIsClose(tokens: nat, ratio: real, price: real, error: real)
    requires ratio >= 0.0 && price >= 0.0 && error >= 0.0 && price + error <= MAX_QUOTA as real
    requires 0.0 <= Multiple(tokens, ratio) && price - error <= Multiple(tokens, ratio) <= price + error
    ensures price - error - 1.0 <= Charge(tokens, Finite(ratio)) as real <= price + error + 1.0
  {
    ChargeIsClose(Multiple(tokens, ratio), price, error);
  }

  lemma RatioTokensAreClose(prompt: nat, completion: nat, completionRatio: real)
    requires completionRatio >= 0.0
    requires prompt as real + Multiple(completion, completionRatio) + 0.5 <= MAX_QUOTA as real
    ensures var tokens, exact := RatioTokens(prompt, completion, Finite(completionRatio)),
                                 prompt as real + Multiple(completion, completionRatio);
            tokens >= 0 && 0.0 <= exact && exact - 0.5 <= tokens as real <= exact + 0.5
  {
    MultipleKeepsOrder(0, completion, completionRatio);
    TokensAreClose(prompt, Multiple(completion, completionRatio));
  }

  lemma Product(x: real, y: real)
    requires x >= 0.0 && y >= 0.0
    ensures x * y >= 0.0
  {
  }

  lemma PriceOfTokens(tokens: nat, exact: real, modelRatio: real)
    requires modelRatio >= 0.0 && 0.0 <= exact && exact - 0.5 <= tokens as real <= exact + 0.5
    ensures 0.0 <= exact * modelRatio && 0.0 <= Multiple(tokens, modelRatio)
    ensures exact * modelRatio - 0.5 * modelRatio <= Multiple(tokens, modelRatio)
            <= exact * modelRatio + 0.5 * modelRatio
  {
    Product(exact, modelRatio);
    MultipleKeepsOrder(0, tokens, modelRatio);
    ScaledError(tokens, exact, modelRatio);
  }

  /** With `exact` the tokens and `price` the charge before any rounding: unless a step saturates, the three
      roundings together move the charge by at most half a unit for the completion share, scaled by the model
      ratio, and half a unit for the product; the floor adds half a unit. */
  lemma RatioQuotaIsClose(prompt: nat, completion: nat, completionRatio: real, modelRatio: real, exact: real,
                          price: real)
    requires completionRatio >= 0.0 && modelRatio >= 0.0
    requires exact == prompt as real + Multiple(completion, completionRatio) && price == exact * modelRatio
    requires exact + 0.5 <= MAX_QUOTA as real && price + 0.5 * modelRatio <= MAX_QUOTA as real
    ensures var quota := RatioQuota(prompt, completion, Finite(completionRatio), Finite(modelRatio)) as real;
            price - 0.5 * modelRatio - 1.0 <= quota <= price + 0.5 * modelRatio + 1.0
  {
    RatioTokensAreClose(prompt, completion, completionRatio);
    var tokens := RatioTokens(prompt, completion, Finite(completionRatio));
    PriceOfTokens(tokens, exact, modelRatio);
    FlooredChargeIsClose(tokens, modelRatio, price, 0.5 * modelRatio);
  }

  /** A price is charged per 500000 units, towards zero, within the bounds of a quota; beyond them the bound is charged,
      and a price that is not a number costs nothing. */
  lemma PriceQuotaMeans(price: Float)
    ensures price.Finite? && MIN_QUOTA as real <= price.value * 500000.0 <= MAX_QUOTA as real ==>
              TowardsZero(price.value * 500000.0, PriceQuota(price))
    ensures price.PosInf? || (price.Finite? && price.value * 500000.0 > MAX_QUOTA as real) ==> PriceQuota(price) == 0x7FFF_FFFF
    ensures price.NegInf? || (price.Finite? && price.value * 500000.0 < MIN_QUOTA as real) ==> PriceQuota(price) == -0x8000_0000
    ensures price.NaN? ==> PriceQuota(price) == 0
  {
  }

  lemma PriceQuotaIsMonotone(p: Float, q: Float)
    ensures MIN_QUOTA <= PriceQuota(p) <= MAX_QUOTA
    ensures AtMost(p, q) ==> PriceQuota(p) <= PriceQuota(q)
  {
  }
}
