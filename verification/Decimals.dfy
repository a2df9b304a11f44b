/**
 Decimal strings and base units (amounts.ts): the parser `ToUnits`, the printer `FromUnits` and
 `TruncateDecimal`. Proved: the parser undoes the printer, and printing what was parsed gives the one
 canonical spelling of the number.
 */
module Decimals {
  import opened Arithmetic
  import opened Basics

  datatype Error = NotADecimal | TooManyDecimals

  datatype Result<+T> = Ok(value: T) | Err(error: Error)

  /******* Digits *******/

  predicate IsDigit(c: char) {
    '0' <= c <= '9'
  }

  predicate AllDigits(s: string) {
    forall i :: 0 <= i < |s| ==> IsDigit(s[i])
  }

  function DigitChar(d: nat): (c: char)
    requires d < 10
    ensures IsDigit(c) && DigitValue(c) == d
  {
    "0123456789"[d]
  }

  function DigitValue(c: char): (d: nat)
    requires IsDigit(c)
    ensures d < 10 && c == "0123456789"[d]
  {
    c as int - '0' as int
  }

  function Pow10(n: nat): (p: nat)
    ensures p > 0
  {
    if n == 0 then 1 else 10 * Pow10(n - 1)
  }

  /** The digits of `n`, without leading zeros. */
  function DigitsOf(n: nat): (s: string)
    ensures |s| > 0 && AllDigits(s)
  {
    if n < 10 then [DigitChar(n)] else DigitsOf(n / 10) + [DigitChar(n % 10)]
  }

  /** The number a row of digits spells; an empty one is zero. */
  function ValueOf(s: string): nat
    requires AllDigits(s)
  {
    if |s| == 0 then 0 else ValueOf(s[..|s| - 1]) * 10 + DigitValue(s[|s| - 1])
  }

  function Zeros(n: nat): (s: string)
    ensures |s| == n && AllDigits(s) && forall i :: 0 <= i < n ==> s[i] == '0'
  {
    seq(n, _ => '0')
  }

  function PadStart(s: string, n: nat): string {
    if |s| >= n then s else Zeros(n - |s|) + s
  }

  function PadEnd(s: string, n: nat): string {
    if |s| >= n then s else s + Zeros(n - |s|)
  }

  function StripZeros(s: string): (r: string)
    ensures |r| <= |s| && r == s[..|r|]
    ensures |r| > 0 ==> r[|r| - 1] != '0'
  {
    if |s| > 0 && s[|s| - 1] == '0' then StripZeros(s[..|s| - 1]) else s
  }

  /******* The parser and the printer *******/

  /** What a script's trim takes off either end. */
  predicate IsSpace(c: char) {
    || '\t' <= c <= '\r' || c == ' ' || c == '\U{00A0}' || c == '\U{1680}' || '\U{2000}' <= c <= '\U{200A}'
    || c in {'\U{2028}', '\U{2029}', '\U{202F}', '\U{205F}', '\U{3000}', '\U{FEFF}'}
  }

  function Trim(s: string): string {
    if |s| > 0 && IsSpace(s[0]) then Trim(s[1..])
    else if |s| > 0 && IsSpace(s[|s| - 1]) then Trim(s[..|s| - 1])
    else s
  }

  function DotAt(s: string): (k: nat)
    ensures k <= |s| && (k < |s| ==> s[k] == '.') && forall i :: 0 <= i < k ==> s[i] != '.'
  {
    if |s| == 0 || s[0] == '.' then 0 else DotAt(s[1..]) + 1
  }

  /** A plain non-negative decimal: digits, and perhaps a dot and more digits. */
  datatype Plain = Plain(whole: string, frac: string)

  predicate IsPlain(p: Plain) {
    |p.whole| > 0 && AllDigits(p.whole) && AllDigits(p.frac)
  }

  function Spelled(p: Plain): string {
    if |p.frac| > 0 then p.whole + "." + p.frac else p.whole
  }

  function Parse(s: string): (r: Option<Plain>)
    ensures r.Some? ==> IsPlain(r.value) && Spelled(r.value) == Trim(s)
  {
    var t := Trim(s);
    var dot := DotAt(t);
    var whole, frac := t[..dot], if dot < |t| then t[dot + 1..] else "";
    if |whole| == 0 || !AllDigits(whole) || !AllDigits(frac) || (dot < |t| && |frac| == 0) then None
    else Some(Plain(whole, frac))
  }

  function ToUnits(amount: string, decimals: nat): Result<nat> {
    var p := Parse(amount);
    if p.None? then Err(NotADecimal)
    else if |p.value.frac| > decimals then Err(TooManyDecimals)
    else Ok(UnitsOf(p.value, decimals))
  }

  /** The units of a plain decimal with no more than `decimals` places. */
  function UnitsOf(p: Plain, decimals: nat): nat
    requires IsPlain(p)
  {
    PaddedIsDigits(p.frac, decimals);
    ValueOf(p.whole) * Pow10(decimals) + ValueOf(PadEnd(p.frac, decimals))
  }

  lemma PaddedIsDigits(s: string, n: nat)
    requires AllDigits(s)
    ensures AllDigits(PadEnd(s, n)) && AllDigits(PadStart(s, n))
  {
  }

  /** The one spelling of `units` with `decimals` places. */
  function PlainOf(units: nat, decimals: nat): Plain {
    var base := Pow10(decimals);
    DivisionSplits(units, base);
    Plain(DigitsOf(units / base), StripZeros(PadStart(DigitsOf(units % base), decimals)))
  }

  function FromUnits(units: int, decimals: nat): string {
    if units < 0 then "-" + Spelled(PlainOf(-units, decimals)) else Spelled(PlainOf(units, decimals))
  }

  /** Cut to `decimals` places. */
  function TruncateDecimal(value: string, decimals: nat): Result<string> {
    var p := Parse(value);
    if p.None? then Err(NotADecimal)
    else
      var kept := if |p.value.frac| <= decimals then p.value.frac else p.value.frac[..decimals];
      Ok(Spelled(Plain(p.value.whole, kept)))
  }

  /******* Digits and values *******/

  lemma {:induction false} DigitsSpellTheNumber(n: nat)
    ensures ValueOf(DigitsOf(n)) == n
    ensures n > 0 ==> DigitsOf(n)[0] != '0'
  {
    if n >= 10 {
      DigitsSpellTheNumber(n / 10);
      assert DigitsOf(n)[..|DigitsOf(n)| - 1] == DigitsOf(n / 10);
    } else {
      assert DigitsOf(n)[..0] == "";
    }
  }

  lemma {:induction false} ValueOfJoined(s: string, t: string)
    requires AllDigits(s) && AllDigits(t)
    ensures AllDigits(s + t) && ValueOf(s + t) == ValueOf(s) * Pow10(|t|) + ValueOf(t)
  {
    if |t| == 0 {
      assert s + t == s;
    } else {
      var u := t[..|t| - 1];
      ValueOfJoined(s, u);
      assert (s + t)[..|s + t| - 1] == s + u;
      TenTimes(ValueOf(s), Pow10(|u|));
    }
  }

  lemma {:induction false} ZerosAreZero(n: nat)
    ensures ValueOf(Zeros(n)) == 0
  {
    if n > 0 {
      assert Zeros(n)[..n - 1] == Zeros(n - 1);
      ZerosAreZero(n - 1);
    }
  }

  lemma {:induction false} ValueIsBounded(s: string)
    requires AllDigits(s)
    ensures ValueOf(s) < Pow10(|s|)
  {
    if |s| > 0 {
      ValueIsBounded(s[..|s| - 1]);
    }
  }

  /** Rows of digits of one length with one value are the same. */
  lemma {:induction false} SameValueSameDigits(s: string, t: string)
    requires AllDigits(s) && AllDigits(t) && |s| == |t| && ValueOf(s) == ValueOf(t)
    ensures s == t
  {
    if |s| > 0 {
      var n := |s| - 1;
      SameValueSameDigits(s[..n], t[..n]);
      assert s == s[..n] + [s[n]] && t == t[..n] + [t[n]];
    }
  }

  lemma {:induction false} DigitsAreFew(n: nat, d: nat)
    requires n < Pow10(d) && d > 0
    ensures |DigitsOf(n)| <= d
  {
    if n >= 10 {
      DigitsAreFew(n / 10, d - 1);
    }
  }

  lemma PadStartKeepsValue(s: string, n: nat)
    requires AllDigits(s)
    ensures AllDigits(PadStart(s, n)) && ValueOf(PadStart(s, n)) == ValueOf(s)
  {
    if |s| < n {
      ValueOfJoined(Zeros(n - |s|), s);
      ZerosAreZero(n - |s|);
    }
  }

  lemma PadOneMore(s: string, n: nat)
    requires |s| <= n
    ensures PadEnd(s, n + 1) == PadEnd(s, n) + "0"
  {
  }

  lemma {:induction false} PadEndUndoesStrip(s: string)
    ensures PadEnd(StripZeros(s), |s|) == s
  {
    var n := |s| - 1;
    if |s| > 0 && s[n] == '0' {
      PadEndUndoesStrip(s[..n]);
      PadOneMore(StripZeros(s[..n]), n);
      assert s == s[..n] + "0";
    }
  }

  lemma {:induction false} StripUndoesPadEnd(s: string, n: nat)
    requires |s| <= n && (|s| > 0 ==> s[|s| - 1] != '0')
    ensures StripZeros(PadEnd(s, n)) == s
  {
    if |s| < n {
      PadOneMore(s, n - 1);
      assert PadEnd(s, n)[..n - 1] == PadEnd(s, n - 1);
      StripUndoesPadEnd(s, n - 1);
    }
  }

  lemma NoPlaces()
    ensures PadStart(DigitsOf(0), 0) == "0" && StripZeros("0") == ""
  {
  }

  /** The fraction of a printed number, before its zeros are stripped: `decimals` digits. */
  lemma FractionDigits(r: nat, decimals: nat)
    requires r < Pow10(decimals)
    ensures var f := PadStart(DigitsOf(r), decimals);
            && AllDigits(f) && ValueOf(f) == r
            && PadEnd(StripZeros(f), decimals) == (if decimals == 0 then "" else f)
            && |StripZeros(f)| <= decimals
  {
    hide DigitsOf, ValueOf, StripZeros, Zeros;
    var f := PadStart(DigitsOf(r), decimals);
    PadStartKeepsValue(DigitsOf(r), decimals);
    DigitsSpellTheNumber(r);
    if decimals == 0 {
      NoPlaces();
    } else {
      DigitsAreFew(r, decimals);
      PadEndUndoesStrip(f);
    }
  }

  /******* Parsing what was printed *******/

  lemma TrimKeeps(s: string)
    requires |s| > 0 && !IsSpace(s[0]) && !IsSpace(s[|s| - 1])
    ensures Trim(s) == s
  {
  }

  lemma ParseSpelled(p: Plain)
    requires IsPlain(p)
    ensures Parse(Spelled(p)) == Some(p)
  {
    var s := Spelled(p);
    TrimKeeps(s);
    var dot := DotAt(s);
    assert forall i :: 0 <= i < |p.whole| ==> s[i] == p.whole[i];
    if |p.frac| > 0 {
      assert s[|p.whole|] == '.';
      assert dot == |p.whole|;
      assert s[dot + 1..] == p.frac;
    } else {
      assert dot == |s|;
    }
    assert s[..dot] == p.whole;
  }

  lemma UnitsOfPlainOf(units: nat, decimals: nat)
    ensures IsPlain(PlainOf(units, decimals)) && |PlainOf(units, decimals).frac| <= decimals
    ensures UnitsOf(PlainOf(units, decimals), decimals) == units
  {
    hide DigitsOf, StripZeros, PadStart, PadEnd, ValueOf, Zeros;
    var base := Pow10(decimals);
    DivisionSplits(units, base);
    UnitsOfParts(units / base, units % base, decimals);
  }

  lemma UnitsOfParts(q: nat, r: nat, decimals: nat)
    requires r < Pow10(decimals)
    ensures var p := Plain(DigitsOf(q), StripZeros(PadStart(DigitsOf(r), decimals)));
            && IsPlain(p) && |p.frac| <= decimals && UnitsOf(p, decimals) == q * Pow10(decimals) + r
  {
    FractionDigits(r, decimals);
    DigitsSpellTheNumber(q);
    assert decimals == 0 ==> r == 0;
  }

  /** The parser undoes the printer, for every amount and every number of decimals. */
  lemma ParserUndoesPrinter(units: nat, decimals: nat)
    ensures ToUnits(FromUnits(units, decimals), decimals) == Ok(units)
  {
    UnitsOfPlainOf(units, decimals);
    ParseSpelled(PlainOf(units, decimals));
  }

  /** A negative amount prints as its opposite with a sign, and the parser refuses it. */
  lemma NegativesAreRefused(units: int, decimals: nat)
    requires units < 0
    ensures FromUnits(units, decimals) == "-" + FromUnits(-units, decimals)
    ensures ToUnits(FromUnits(units, decimals), decimals) == Err(NotADecimal)
  {
    UnitsOfPlainOf(-units, decimals);
    SignIsRefused(PlainOf(-units, decimals));
  }

  lemma SignIsRefused(p: Plain)
    requires IsPlain(p)
    ensures Parse("-" + Spelled(p)) == None
  {
  }

  /******* The one spelling *******/

  /** No leading zero but a lone one, no trailing zero after the dot. */
  predicate IsCanonical(p: Plain) {
    && IsPlain(p)
    && (|p.whole| > 1 ==> p.whole[0] != '0')
    && (|p.frac| > 0 ==> p.frac[|p.frac| - 1] != '0')
  }

  lemma {:induction false} CanonicalDigits(s: string)
    requires |s| > 0 && AllDigits(s) && (|s| > 1 ==> s[0] != '0')
    ensures DigitsOf(ValueOf(s)) == s
  {
    var n := |s| - 1;
    if n == 0 {
      assert s[..0] == "" && s == [s[0]];
    } else {
      var v, d := ValueOf(s[..n]), DigitValue(s[n]);
      CanonicalDigits(s[..n]);
      NotZero(s[..n]);
      assert ValueOf(s) == v * 10 + d && (v * 10 + d) / 10 == v && (v * 10 + d) % 10 == d;
      assert DigitsOf(v * 10 + d) == DigitsOf(v) + [DigitChar(d)];
      assert s == s[..n] + [s[n]];
    }
  }

  lemma {:induction false} NotZero(s: string)
    requires |s| > 0 && AllDigits(s) && s[0] != '0'
    ensures ValueOf(s) > 0
  {
    if |s| > 1 {
      NotZero(s[..|s| - 1]);
    }
  }

  lemma PrintedIsCanonical(units: nat, decimals: nat)
    ensures IsCanonical(PlainOf(units, decimals))
  {
    UnitsOfPlainOf(units, decimals);
    DigitsSpellTheNumber(units / Pow10(decimals));
  }

  /** A canonical spelling is the printer's. */
  lemma CanonicalIsPrinted(p: Plain, decimals: nat)
    requires IsCanonical(p) && |p.frac| <= decimals
    ensures PlainOf(UnitsOf(p, decimals), decimals) == p
  {
    hide DigitsOf, StripZeros, PadStart, Zeros, Pow10;
    var base, padded := Pow10(decimals), PadEnd(p.frac, decimals);
    var w, r := ValueOf(p.whole), ValueOf(padded);
    ValueIsBounded(padded);
    WholeAndRest(w, r, base);
    CanonicalDigits(p.whole);
    CanonicalFraction(p.frac, decimals);
  }

  lemma WholeAndRest(w: nat, r: nat, base: nat)
    requires r < base
    ensures (w * base + r) / base == w && (w * base + r) % base == r
  {
    QuotientIs(w * base + r, base, w);
  }

  lemma CanonicalFraction(frac: string, decimals: nat)
    requires AllDigits(frac) && |frac| <= decimals && (|frac| > 0 ==> frac[|frac| - 1] != '0')
    ensures AllDigits(PadEnd(frac, decimals))
    ensures StripZeros(PadStart(DigitsOf(ValueOf(PadEnd(frac, decimals))), decimals)) == frac
  {
    var padded := PadEnd(frac, decimals);
    var r := ValueOf(padded);
    ValueIsBounded(padded);
    FractionDigits(r, decimals);
    if decimals > 0 {
      DigitsAreFew(r, decimals);
      SameValueSameDigits(PadStart(DigitsOf(r), decimals), padded);
      StripUndoesPadEnd(frac, decimals);
    } else {
      assert StripZeros("0") == StripZeros("") == "";
    }
  }

  /**
   Printing what was parsed: the amount is kept, the spelling is canonical, and it is the only
   canonical one. So normalising a text twice is normalising it once.
   */
  lemma NormalisedSpelling(amount: string, decimals: nat)
    requires ToUnits(amount, decimals).Ok?
    ensures var units := ToUnits(amount, decimals).value;
            var text := FromUnits(units, decimals);
            && ToUnits(text, decimals) == Ok(units)
            && Parse(text).Some? && IsCanonical(Parse(text).value)
            && (Parse(amount).Some? && IsCanonical(Parse(amount).value) ==> text == Trim(amount))
  {
    var units, p := ToUnits(amount, decimals).value, Parse(amount).value;
    ParserUndoesPrinter(units, decimals);
    PrintedIsCanonical(units, decimals);
    ParseSpelled(PlainOf(units, decimals));
    if IsCanonical(p) {
      CanonicalIsPrinted(p, decimals);
    }
  }

  /** Two texts of one amount are printed alike, and of two amounts differently. */
  lemma OneSpellingEach(a: string, b: string, decimals: nat)
    requires ToUnits(a, decimals).Ok? && ToUnits(b, decimals).Ok?
    ensures FromUnits(ToUnits(a, decimals).value, decimals) == FromUnits(ToUnits(b, decimals).value, decimals)
            <==> ToUnits(a, decimals) == ToUnits(b, decimals)
  {
    ParserUndoesPrinter(ToUnits(a, decimals).value, decimals);
    ParserUndoesPrinter(ToUnits(b, decimals).value, decimals);
  }
}
