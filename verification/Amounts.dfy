/**
 Rounding of money (amounts.ts, holdings.ts): vTokens and their worth, utilisation, truncated
 decimals, shares of a holding.
 */
module Amounts {
  import opened Arithmetic
  import opened Basics
  import opened Decimals

  const ONE: nat := 1_000_000_000_000_000_000

  /******* vTokens *******/

  /** What vTokens are worth at an exchange rate scaled by `ONE`, rounded down. */
  function UnderlyingFromVTokens(vTokens: nat, rate: nat): nat {
    (vTokens * rate) / ONE
  }

  /** vTokens minted for a deposit, rounded down; none without a positive rate. */
  function VTokensForUnderlying(underlying: nat, rate: nat): Option<nat> {
    if rate == 0 then None else Some((underlying * ONE) / rate)
  }

  /** Underlying to vTokens and back never gains, and loses less than `rate / ONE + 1` units. */
  lemma UnderlyingRoundTrip(underlying: nat, rate: nat)
    requires rate > 0
    ensures var back := UnderlyingFromVTokens(VTokensForUnderlying(underlying, rate).value, rate);
            back <= underlying && (underlying - back) * ONE < rate + ONE
  {
  }

  /** vTokens to underlying and back never gains, and loses less than `ONE / rate + 1` vTokens. */
  lemma VTokensRoundTrip(vTokens: nat, rate: nat)
    requires rate > 0
    ensures var back := VTokensForUnderlying(UnderlyingFromVTokens(vTokens, rate), rate).value;
            back <= vTokens && (vTokens - back) * rate < ONE + rate
  {
  }

  lemma VTokenRoundingKeepsOrder(a: nat, b: nat, rate: nat)
    requires a <= b
    ensures UnderlyingFromVTokens(a, rate) <= UnderlyingFromVTokens(b, rate)
    ensures rate > 0 ==> VTokensForUnderlying(a, rate).value <= VTokensForUnderlying(b, rate).value
  {
    MulKeepsOrder(a, b, rate);
    QuotientKeepsOrder(a * rate, b * rate, ONE);
    if rate > 0 {
      QuotientKeepsOrder(a * ONE, b * ONE, rate);
    }
  }

  function RoundedUp(a: nat, b: nat): nat
    requires b > 0
  {
    (a + b - 1) / b
  }

  /** What redeeming a whole position asks for: the worth of all its vTokens but one (guardian.ts). */
  function WholePositionUnits(vTokens: nat, rate: nat): nat
    requires vTokens > 0
  {
    UnderlyingFromVTokens(vTokens - 1, rate)
  }

  /** However the market rounds the amount asked for, it takes fewer vTokens than the plan holds. */
  lemma WholePositionIsHeld(vTokens: nat, rate: nat)
    requires vTokens > 0 && rate > 0
    ensures RoundedUp(WholePositionUnits(vTokens, rate) * ONE, rate) < vTokens
  {
  }

  /** And it is nearly all of it: less than one unit below the worth of all its vTokens but one. */
  lemma WholePositionIsNearlyAll(vTokens: nat, rate: nat)
    requires vTokens > 0
    ensures WholePositionUnits(vTokens, rate) * 1_000_000_000_000_000_000 <= (vTokens - 1) * rate
    ensures (vTokens - 1) * rate < (WholePositionUnits(vTokens, rate) + 1) * 1_000_000_000_000_000_000
  {
  }

  /** Interest a plan may spend: what its position is worth above principal and what was harvested. */
  function InterestUnits(position: nat, principal: nat, harvested: nat): (interest: nat)
    ensures interest > 0 ==> principal + harvested + interest == position
    ensures interest == 0 <==> position <= principal + harvested
  {
    AtLeastZero(position - principal - harvested)
  }

  /******* Utilisation *******/

  /** Borrows over supply in basis points, rounded up; 0 for an empty market. */
  function UtilizationBps(cash: nat, borrows: nat, reserves: nat): nat {
    var supplied := cash + borrows - reserves;
    if borrows == 0 || supplied <= 0 then 0 else (borrows * 10_000 + supplied - 1) / supplied
  }

  /** A limit fires exactly when something is supplied and the true ratio is above the limit, by however little. */
  lemma LimitFiresAboveIt(cash: nat, borrows: nat, reserves: nat, limit: nat)
    ensures UtilizationBps(cash, borrows, reserves) > limit
            <==> reserves < cash + borrows && borrows * 10_000 > limit * (cash + borrows - reserves)
  {
    if reserves < cash + borrows {
      RatioAbove(cash, borrows, reserves, limit);
    }
  }

  lemma RatioAbove(cash: nat, borrows: nat, reserves: nat, limit: nat)
    requires reserves < cash + borrows
    ensures UtilizationBps(cash, borrows, reserves) > limit <==> borrows * 10_000 > limit * (cash + borrows - reserves)
  {
    var supplied := cash + borrows - reserves;
    var bps := (borrows * 10_000 + supplied - 1) / supplied;
    assert bps * supplied <= borrows * 10_000 + supplied - 1 < bps * supplied + supplied;
    if borrows == 0 {
      MulKeepsOrder(0, limit, supplied);
    } else if bps > limit {
      MulKeepsOrder(limit + 1, bps, supplied);
    } else {
      MulKeepsOrder(bps, limit, supplied);
    }
  }

  /** It stays within 100 % exactly when the reserves are covered by cash, nothing is borrowed, or nothing is left to supply. */
  lemma UtilizationIsAShare(cash: nat, borrows: nat, reserves: nat)
    ensures UtilizationBps(cash, borrows, reserves) <= 10_000
            <==> reserves <= cash || borrows == 0 || cash + borrows <= reserves
  {
    LimitFiresAboveIt(cash, borrows, reserves, 10_000);
  }

  /******* Truncation *******/

  /** A plain decimal as a fraction: its digits over a power of ten. */
  function Numerator(p: Plain): nat
    requires IsPlain(p)
  {
    ValueOf(p.whole) * Pow10(|p.frac|) + ValueOf(p.frac)
  }

  lemma {:induction false} PowersMultiply(a: nat, b: nat)
    ensures Pow10(a + b) == Pow10(a) * Pow10(b)
  {
    if a > 0 {
      PowersMultiply(a - 1, b);
      assert 10 * (Pow10(a - 1) * Pow10(b)) == (10 * Pow10(a - 1)) * Pow10(b);
    }
  }

  /** A decimal with enough places allowed is exactly its fraction times the scale. */
  lemma UnitsAreExact(p: Plain, decimals: nat)
    requires IsPlain(p) && |p.frac| <= decimals
    ensures UnitsOf(p, decimals) * Pow10(|p.frac|) == Numerator(p) * Pow10(decimals)
    ensures UnitsOf(p, decimals) == Numerator(p) * Pow10(decimals - |p.frac|)
  {
    var more := decimals - |p.frac|;
    ValueOfJoined(p.frac, Zeros(more));
    ZerosAreZero(more);
    assert PadEnd(p.frac, decimals) == p.frac + Zeros(more);
    PowersMultiply(|p.frac|, more);
    ScaleUp(ValueOf(p.whole), ValueOf(p.frac), Pow10(|p.frac|), Pow10(more));
  }

  lemma ScaleUp(w: nat, f: nat, a: nat, b: nat)
    ensures w * (a * b) + f * b == (w * a + f) * b
    ensures (w * (a * b) + f * b) * a == (w * a + f) * (a * b)
  {
  }

  /** Cutting a decimal to `decimals` places rounds its exact value down, and what is left always parses. */
  lemma TruncationRoundsDown(value: string, decimals: nat)
    requires Parse(value).Some?
    ensures var p, t := Parse(value).value, TruncateDecimal(value, decimals);
            t.Ok? && ToUnits(t.value, decimals) == Ok((Numerator(p) * Pow10(decimals)) / Pow10(|p.frac|))
  {
    hide Pow10, ValueOf, Parse, PadEnd, Spelled, Numerator, UnitsOf;
    var p := Parse(value).value;
    var places := |p.frac|;
    var kept := if places <= decimals then p.frac else p.frac[..decimals];
    var cut := Plain(p.whole, kept);
    ParseSpelled(cut);
    if places <= decimals {
      UnitsAreExact(cut, decimals);
      DivideExactly(Numerator(p) * Pow10(decimals), Pow10(places), UnitsOf(p, decimals));
    } else {
      CutFraction(p, decimals);
    }
  }

  lemma CutFraction(p: Plain, decimals: nat)
    requires IsPlain(p) && |p.frac| > decimals
    ensures (Numerator(p) * Pow10(decimals)) / Pow10(|p.frac|) == UnitsOf(Plain(p.whole, p.frac[..decimals]), decimals)
  {
    hide Pow10, ValueOf, PadEnd, UnitsOf;
    var kept, rest := p.frac[..decimals], p.frac[decimals..];
    assert p.frac == kept + rest;
    ValueOfJoined(kept, rest);
    ValueIsBounded(rest);
    PowersMultiply(decimals, |rest|);
    KeptUnits(p.whole, kept, decimals);
    CutRoundsDown(ValueOf(p.whole), ValueOf(kept), ValueOf(rest), Pow10(decimals), Pow10(|rest|));
  }

  lemma DivideExactly(a: nat, b: nat, q: nat)
    requires b > 0 && q * b == a
    ensures a / b == q
  {
    QuotientIs(a, b, q);
  }

  lemma KeptUnits(whole: string, kept: string, decimals: nat)
    requires AllDigits(whole) && |whole| > 0 && AllDigits(kept) && |kept| == decimals
    ensures UnitsOf(Plain(whole, kept), decimals) == ValueOf(whole) * Pow10(decimals) + ValueOf(kept)
  {
  }

  lemma CutRoundsDown(w: nat, k: nat, r: nat, a: nat, b: nat)
    requires r < b && a > 0
    ensures a * b > 0
    ensures ((w * (a * b) + (k * b + r)) * a) / (a * b) == w * a + k
  {
    var q := w * a + k;
    assert w * (a * b) == (w * a) * b;
    assert w * (a * b) + (k * b + r) == q * b + r by { assert q * b == (w * a) * b + k * b; }
    assert (q * b + r) * a == q * (a * b) + r * a;
    MulKeepsOrder(r + 1, b, a);
    assert r * a < a * b;
    QuotientIs(q * (a * b) + r * a, a * b, q);
  }

  /******* Shares (holdings.ts) *******/

  const MULTIPLIER_DECIMALS: nat := 18

  function MultiplierUnits(multiplier: string): Result<nat> {
    var t := TruncateDecimal(multiplier, MULTIPLIER_DECIMALS);
    if t.Err? then Err(t.error) else ToUnits(t.value, MULTIPLIER_DECIMALS)
  }

  function ShareUnits(tokens: nat, multiplier: nat): nat {
    (tokens * multiplier) / ONE
  }

  function SharesFromTokens(tokens: nat, decimals: nat, multiplier: string): Result<string> {
    var m := MultiplierUnits(multiplier);
    if m.Err? then Err(m.error) else Ok(FromUnits(ShareUnits(tokens, m.value), decimals))
  }

  function SameMultiplier(a: string, b: string): Result<bool> {
    var x, y := MultiplierUnits(a), MultiplierUnits(b);
    if x.Err? then Err(x.error) else if y.Err? then Err(y.error) else Ok(x.value == y.value)
  }

  lemma PowerOfOne()
    ensures Pow10(18) == ONE
  {
    PowersMultiply(9, 9);
    assert Pow10(3) == 1000 && Pow10(6) == 1000 * 1000 by {
      assert Pow10(1) == 10 && Pow10(2) == 100;
      PowersMultiply(3, 3);
    }
    PowersMultiply(3, 6);
  }

  /** Extra places are never a reason to fail: any plain decimal is a multiplier, rounded down to 18 places. */
  lemma AnyDecimalIsAMultiplier(multiplier: string)
    ensures MultiplierUnits(multiplier).Ok? <==> Parse(multiplier).Some?
    ensures Parse(multiplier).Some? ==>
              var p := Parse(multiplier).value;
              MultiplierUnits(multiplier).value == (Numerator(p) * ONE) / Pow10(|p.frac|)
  {
    PowerOfOne();
    if Parse(multiplier).Some? {
      TruncationRoundsDown(multiplier, MULTIPLIER_DECIMALS);
    }
  }

  /** Shares never exceed the exact product of tokens and multiplier, and with at most 18 places miss it by less than one unit. */
  lemma SharesRoundDown(tokens: nat, decimals: nat, multiplier: string)
    requires Parse(multiplier).Some?
    ensures var p := Parse(multiplier).value;
            var r := SharesFromTokens(tokens, decimals, multiplier);
            && r.Ok? && ToUnits(r.value, decimals).Ok?
            && var shares := ToUnits(r.value, decimals).value;
            && shares * Pow10(|p.frac|) <= tokens * Numerator(p)
            && (|p.frac| <= 18 ==> tokens * Numerator(p) < (shares + 1) * Pow10(|p.frac|))
  {
    hide Pow10, Numerator, Parse, MultiplierUnits, FromUnits, ToUnits, ShareUnits;
    var p := Parse(multiplier).value;
    AnyDecimalIsAMultiplier(multiplier);
    var m := MultiplierUnits(multiplier).value;
    var shares := ShareUnits(tokens, m);
    ParserUndoesPrinter(shares, decimals);
    var scale, num := Pow10(|p.frac|), Numerator(p);
    SharesBelow(tokens, m, num, scale);
    if |p.frac| <= 18 {
      ExactMultiplier(multiplier);
      SharesClose(tokens, m, num, scale);
    }
  }

  lemma SharesBelow(tokens: nat, m: nat, num: nat, scale: nat)
    requires scale > 0 && m == (num * ONE) / scale
    ensures ShareUnits(tokens, m) * scale <= tokens * num
  {
  }

  lemma SharesClose(tokens: nat, m: nat, num: nat, scale: nat)
    requires scale > 0 && m * scale == num * ONE
    ensures tokens * num < (ShareUnits(tokens, m) + 1) * scale
  {
    var s := ShareUnits(tokens, m);
    assert tokens * m < (s + 1) * ONE;
    ScaledStrictly(tokens * m, (s + 1) * ONE, scale);
    assert (tokens * m) * scale == tokens * (m * scale) == tokens * (num * ONE) == (tokens * num) * ONE;
    assert ((s + 1) * ONE) * scale == ((s + 1) * scale) * ONE;
    CancelStrictly(tokens * num, (s + 1) * scale, ONE);
  }

  /** More tokens are never fewer shares. */
  lemma SharesGrowWithTokens(a: nat, b: nat, multiplier: nat)
    requires a <= b
    ensures ShareUnits(a, multiplier) <= ShareUnits(b, multiplier)
  {
    MulKeepsOrder(a, b, multiplier);
    QuotientKeepsOrder(a * multiplier, b * multiplier, ONE);
  }

  /** Two texts are compared exactly when both are plain decimals, and then by their values rounded down to 18 places. */
  lemma SameMultiplierIsRounded(a: string, b: string)
    ensures SameMultiplier(a, b).Ok? <==> Parse(a).Some? && Parse(b).Some?
    ensures SameMultiplier(a, b).Ok? ==>
              var p, q := Parse(a).value, Parse(b).value;
              SameMultiplier(a, b).value <==>
              (Numerator(p) * ONE) / Pow10(|p.frac|) == (Numerator(q) * ONE) / Pow10(|q.frac|)
  {
    hide Pow10, Numerator, Parse, MultiplierUnits;
    AnyDecimalIsAMultiplier(a);
    AnyDecimalIsAMultiplier(b);
  }

  /** So the same number is always the same multiplier, however it is written. */
  lemma SameNumberSameMultiplier(a: string, b: string)
    requires Parse(a).Some? && Parse(b).Some?
    requires var p, q := Parse(a).value, Parse(b).value; Numerator(p) * Pow10(|q.frac|) == Numerator(q) * Pow10(|p.frac|)
    ensures SameMultiplier(a, b) == Ok(true)
  {
    hide Pow10, Numerator, Parse, MultiplierUnits, SameMultiplier;
    var p, q := Parse(a).value, Parse(b).value;
    SameMultiplierIsRounded(a, b);
    SameRateSamePrice(ONE, Numerator(p), Pow10(|p.frac|), Numerator(q), Pow10(|q.frac|));
  }

  /** With at most 18 places nothing is cut: two texts are the same multiplier exactly when they are the same number. */
  lemma SameMultiplierIsNumeric(a: string, b: string)
    requires Parse(a).Some? && Parse(b).Some?
    requires |Parse(a).value.frac| <= 18 && |Parse(b).value.frac| <= 18
    ensures var p, q := Parse(a).value, Parse(b).value;
            SameMultiplier(a, b) == Ok(Numerator(p) * Pow10(|q.frac|) == Numerator(q) * Pow10(|p.frac|))
  {
    var p, q := Parse(a).value, Parse(b).value;
    ExactMultiplier(a);
    ExactMultiplier(b);
    var x, y := MultiplierUnits(a).value, MultiplierUnits(b).value;
    SameFraction(x, Numerator(p), Pow10(|p.frac|), y, Numerator(q), Pow10(|q.frac|));
  }

  lemma ExactMultiplier(a: string)
    requires Parse(a).Some? && |Parse(a).value.frac| <= 18
    ensures var p := Parse(a).value;
            MultiplierUnits(a).Ok? && MultiplierUnits(a).value * Pow10(|p.frac|) == Numerator(p) * ONE
  {
    hide Pow10, UnitsOf, Numerator, Parse, MultiplierUnits;
    var p := Parse(a).value;
    AnyDecimalIsAMultiplier(a);
    PowerOfOne();
    UnitsAreExact(p, 18);
    ExactQuotient(Numerator(p), UnitsOf(p, 18), Pow10(|p.frac|));
  }

  lemma ExactQuotient(n: nat, u: nat, scale: nat)
    requires scale > 0 && u * scale == n * ONE
    ensures (n * ONE) / scale == u
  {
    QuotientIs(n * ONE, scale, u);
  }

  lemma SameFraction(x: nat, n: nat, d: nat, y: nat, n': nat, d': nat)
    requires d > 0 && d' > 0 && x * d == n * ONE && y * d' == n' * ONE
    ensures x == y <==> n * d' == n' * d
  {
  }

  lemma Regroup(x: nat, d: nat, n: nat, d': nat)
    requires x * d == n * ONE
    ensures x * (d * d') == (n * d') * ONE
  {
  }
}
