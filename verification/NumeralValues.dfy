/**
 What truncation does to the value of a numeral: when the decimal that the recogniser keeps is the number itself, and
 what is then charged when float parsers read a number by its value, however it is written.
 */
module NumeralValues {
  import opened Base
  import opened Numerals

  // ----- when the kept decimal is the number -----

  ghost predicate Zeros(s: seq<byte>) { forall i :: 0 <= i < |s| ==> s[i] == ZERO }

  /** The significant digits that were not kept. */
  function OmittedDigits(n: Numeral): seq<byte> {
    var s := Significant(Mantissa(n)); s[Min(|s|, MAX_DIGITS)..]
  }

  /** `d` units. */
  function Units(d: nat, unit: real): real { d as real * unit }

  /** The number that the kept digits and the computed exponent stand for. */
  function KeptValue(n: Numeral): real
    requires WellFormed(n)
  {
    KeptCut(n);
    Units(DigitsValue(Kept(n)), Scale(KeptExponent(n)))
  }

  lemma {:induction false} SplitValue(s: seq<byte>, k: nat)
    requires Digits(s) && k <= |s|
    ensures DigitsValue(s) == DigitsValue(s[..k]) * Pow10(|s| - k) + DigitsValue(s[k..])
    decreases |s|
  {
    if k == |s| {
      assert s[..k] == s && s[k..] == [];
    } else {
      var init, last := s[..|s| - 1], s[|s| - 1];
      SplitValue(init, k);
      assert init[..k] == s[..k];
      assert s[k..][..|s[k..]| - 1] == init[k..];
      TenfoldExactly(DigitsValue(s[..k]), Pow10(|init| - k), DigitsValue(init[k..]), last - ZERO);
    }
  }

  lemma TenfoldExactly(d: nat, p: nat, r: nat, x: nat)
    ensures 10 * (d * p + r) + x == d * (10 * p) + (10 * r + x)
  {
    assert d * (10 * p) == 10 * (d * p);
  }

  lemma {:induction false} ZeroValue(s: seq<byte>)
    requires Digits(s)
    ensures DigitsValue(s) == 0 <==> Zeros(s)
  {
    if s != [] {
      var init := s[..|s| - 1];
      ZeroValue(init);
      assert forall i :: 0 <= i < |init| ==> init[i] == s[i];
    }
  }

  lemma KeptAndOmitted(n: Numeral)
    requires Prefix(n)
    ensures Digits(Mantissa(n)) && Digits(Kept(n)) && Digits(OmittedDigits(n))
    ensures DigitsValue(Mantissa(n)) == DigitsValue(Kept(n)) * Pow10(Omitted(n)) + DigitsValue(OmittedDigits(n))
  {
    hide Mantissa, Significant, DigitsValue, Prefix, Pow10;
    MantissaDigits(n);
    var s := Significant(Mantissa(n));
    SignificantValue(Mantissa(n));
    SplitValue(s, Min(|s|, MAX_DIGITS));
  }

  lemma CancelScale(d: nat, p: nat, v: nat, scale: real)
    requires scale > 0.0
    ensures d as real * (scale * p as real) == v as real * scale <==> d * p == v
  {
    assert (d * p) as real == d as real * p as real;
    assert d as real * (scale * p as real) == (d * p) as real * scale;
    assert (d * p) as real * scale - v as real * scale == ((d * p) as real - v as real) * scale;
  }

  lemma KeptWithinRange(n: Numeral)
    requires WellFormed(n) && WrittenExponent(n) <= MAX_EXPONENT
    ensures KeptValue(n) == Magnitude(n) <==> Zeros(OmittedDigits(n))
  {
    hide Kept, Omitted, Scale, DigitsValue, Mantissa, TrueExponent, KeptExponent, Zeros, OmittedDigits, Pow10, Digits;
    KeptCut(n);
    KeptAndOmitted(n);
    KeptScale(n);
    CancelScale(DigitsValue(Kept(n)), Pow10(Omitted(n)), DigitsValue(Mantissa(n)), Scale(TrueExponent(n)));
    ZeroValue(OmittedDigits(n));
  }

  lemma ScaleGap(a: int, d: nat)
    requires d > 0
    ensures Scale(a + d) >= 10.0 * Scale(a)
  {
    hide Scale;
    ScaleAdd(a, d);
    PowerOfTen(d);
    RealAtLeast(Scale(a), Pow10(d));
  }

  lemma {:induction false} PowerOfTen(d: nat)
    requires d > 0
    ensures Pow10(d) >= 10
  {
    if d > 1 { PowerOfTen(d - 1); }
  }

  lemma RealAtLeast(x: real, p: nat)
    requires x > 0.0 && p >= 10
    ensures x * p as real >= 10.0 * x
  {
    assert x * p as real - 10.0 * x == x * (p as real - 10.0);
  }

  lemma MoreUnits(d: nat, x: real, y: real)
    requires x <= y
    ensures Units(d, x) <= Units(d, y)
  {
  }

  lemma TenUnits(d: nat, x: real)
    requires d > 0 && x > 0.0
    ensures Units(d, 10.0 * x) == 10.0 * Units(d, x) && Units(d, x) > 0.0
  {
  }

  lemma NonNegative(a: real, b: real)
    requires a >= 0.0 && b >= 0.0
    ensures a * b >= 0.0
  {
  }

  lemma OneMoreUnit(d: nat, unit: real)
    ensures Units(d + 1, unit) == Units(d, unit) + unit
  {
  }

  lemma OneOrMore(d: nat, unit: real)
    requires d > 0 && unit > 0.0
    ensures unit <= Units(d, unit)
  {
    hide Units;
    OneMoreUnit(d - 1, unit);
    SomeUnits(d - 1, unit);
  }

  lemma SomeUnits(d: nat, unit: real)
    requires unit > 0.0
    ensures Units(d, unit) >= 0.0
  {
    NonNegative(d as real, unit);
  }

  lemma BracketsAreUnits(d: nat, unit: real, m: real)
    requires Brackets(d, unit, m, false)
    ensures Units(d, unit) <= m < Units(d + 1, unit)
  {
    assert (d + 1) as real == d as real + 1.0;
  }

  lemma BracketsUnits(d: nat, unit: real, m: real)
    requires d > 0 && unit > 0.0 && Brackets(d, unit, m, false)
    ensures Units(d, unit) <= m < 2.0 * Units(d, unit)
  {
    hide Units, Brackets;
    BracketsAreUnits(d, unit, m);
    OneMoreUnit(d, unit);
    OneOrMore(d, unit);
  }

  /** A number between d and d + 1 units, d positive, is not d of a unit ten times larger or smaller. */
  lemma UnitsApart(d: nat, unit: real, m: real, other: real)
    requires d > 0 && unit > 0.0 && other > 0.0 && Brackets(d, unit, m, false)
    requires unit >= 10.0 * other || other >= 10.0 * unit
    ensures m != Units(d, other)
  {
    hide Units, Brackets;
    BracketsUnits(d, unit, m);
    if unit >= 10.0 * other {
      MoreUnits(d, 10.0 * other, unit);
      TenUnits(d, other);
    } else {
      MoreUnits(d, 10.0 * unit, other);
      TenUnits(d, unit);
    }
  }

  lemma KeptBeyondRange(n: Numeral)
    requires WellFormed(n) && WrittenExponent(n) > MAX_EXPONENT && Magnitude(n) != 0.0
    ensures KeptValue(n) != Magnitude(n)
  {
    hide Kept, Omitted, Scale, DigitsValue, TrueExponent, KeptExponent, Digits, WrittenExponent, Units, Brackets,
         Magnitude;
    KeptDecimalZero(n);
    ExponentGap(n);
    KeptCut(n);
    KeptUnits(n);
    UnitsApart(DigitsValue(Kept(n)), Scale(TrueExponent(n) + Omitted(n)), Magnitude(n), Scale(KeptExponent(n)));
  }

  /** The kept digits bracket the number in units of the last of them. */
  lemma KeptUnits(n: Numeral)
    requires WellFormed(n)
    ensures Digits(Kept(n))
    ensures Brackets(DigitsValue(Kept(n)), Scale(TrueExponent(n) + Omitted(n)), Magnitude(n), false)
  {
    hide Cut, Kept, Omitted, Scale, DigitsValue, Mantissa, TrueExponent, Pow10;
    KeptCut(n);
    var unit := Scale(TrueExponent(n) + Omitted(n));
    ScaleAdd(TrueExponent(n), Omitted(n));
    BracketScaled(DigitsValue(Kept(n)), DigitsValue(Mantissa(n)), Omitted(n), Scale(TrueExponent(n)), unit);
  }

  lemma ExponentGap(n: Numeral)
    requires Prefix(n) && WrittenExponent(n) > MAX_EXPONENT
    ensures var unit, kept := Scale(TrueExponent(n) + Omitted(n)), Scale(KeptExponent(n));
      unit >= 10.0 * kept || kept >= 10.0 * unit
  {
    hide Scale, Omitted, WrittenExponent;
    var d := WrittenExponent(n) - MAX_EXPONENT;
    if NegativeExponent(n) {
      ScaleGap(TrueExponent(n) + Omitted(n), d);
      assert TrueExponent(n) + Omitted(n) + d == KeptExponent(n);
    } else {
      ScaleGap(KeptExponent(n), d);
      assert KeptExponent(n) + d == TrueExponent(n) + Omitted(n);
    }
  }

  /** The number is zero, or its written exponent is at most 10^9 and every digit that was not kept is 0. */
  ghost predicate KeptExactly(n: Numeral)
    requires WellFormed(n)
  {
    Magnitude(n) == 0.0 || (WrittenExponent(n) <= MAX_EXPONENT && Zeros(OmittedDigits(n)))
  }

  /** The kept decimal is the number itself exactly for these numerals. */
  lemma KeptIsTheNumber(n: Numeral)
    requires WellFormed(n)
    ensures KeptValue(n) == Magnitude(n) <==> KeptExactly(n)
  {
    hide Zeros, OmittedDigits, WrittenExponent;
    if Magnitude(n) == 0.0 {
      KeptDecimalZero(n);
      KeptCut(n);
      hide Kept, DigitsValue, Scale, KeptExponent, Magnitude;
      NonzeroScaled(DigitsValue(Kept(n)), Scale(KeptExponent(n)));
    } else if WrittenExponent(n) <= MAX_EXPONENT {
      KeptWithinRange(n);
    } else {
      KeptBeyondRange(n);
    }
  }

  /** 129 ones: the last 65 are lost, and the kept decimal falls short of the number. */
  lemma OnesAreCut(n: Numeral)
    requires n == Numeral(false, seq(129, _ => 0x31), None, None)
    ensures WellFormed(n) && |Text(n)| == 129 && !KeptExactly(n) && KeptValue(n) != Magnitude(n)
  {
    var ones := Mantissa(n);
    assert ones == n.whole;
    AllSignificant(ones);
    assert OmittedDigits(n)[0] == 0x31;
    KeptIsTheNumber(n);
    OnesAreNotZero(n);
  }

  lemma OnesAreNotZero(n: Numeral)
    requires WellFormed(n) && Mantissa(n) != [] && Mantissa(n)[0] != ZERO
    ensures Magnitude(n) != 0.0
  {
    MantissaDigits(n);
    hide Mantissa, Scale, TrueExponent, Digits;
    LeadingDigit(Mantissa(n));
    NonzeroScaled(DigitsValue(Mantissa(n)), Scale(TrueExponent(n)));
  }

  lemma {:induction false} AllSignificant(s: seq<byte>)
    requires s != [] && s[0] != ZERO
    ensures Significant(s) == s
  {
    var init := s[..|s| - 1];
    if init != [] { AllSignificant(init); }
    assert s == init + [s[|s| - 1]];
  }

  // ----- reading numbers by value -----

  /** What a number of this sign and magnitude is read as. */
  type Reading = (bool, real) -> Option<Float>

  /** Both float parsers charge a numeral for the number it denotes, however it is written. */
  ghost predicate ByValue(dec: Decoder, read: Reading) {
    && (forall n :: WellFormed(n) ==> Positive(dec.short(Text(n))) == Positive(read(n.minus, Magnitude(n))))
    && (forall minus, ds, e :: Digits(ds) && ds != [] ==>
          Positive(dec.long(minus, ds, e)) == Positive(read(minus, Units(DigitsValue(ds), Scale(e)))))
  }

  /** The numeral is read whole, or what is kept of it is the number. */
  ghost predicate Unharmed(n: Numeral)
    requires WellFormed(n)
  {
    |Text(n)| <= 128 || KeptExactly(n)
  }

  lemma LongIsReadAsKept(dec: Decoder, read: Reading, n: Numeral)
    requires ByValue(dec, read) && WellFormed(n) && |Text(n)| > 128
    ensures Positive(Decode(dec, n)) == Positive(read(n.minus, KeptValue(n)))
  {
    hide Text, Kept, KeptExponent, Scale, Positive, Magnitude, Prefix, Units;
    var ds := if Kept(n) == [] then [ZERO] else Kept(n);
    KeptCut(n);
    NoDigitsAreZero();
    assert Positive(dec.long(n.minus, ds, KeptExponent(n))) ==
           Positive(read(n.minus, Units(DigitsValue(ds), Scale(KeptExponent(n)))));
  }

  lemma NoDigitsAreZero()
    ensures Digits([ZERO]) && DigitsValue([ZERO]) == 0 && DigitsValue([]) == 0
  {
  }

  /** A numeral that truncation does not harm is charged for the number it denotes. */
  lemma UnharmedIsReadByValue(dec: Decoder, read: Reading, n: Numeral)
    requires ByValue(dec, read) && WellFormed(n) && Unharmed(n)
    ensures Positive(Decode(dec, n)) == Positive(read(n.minus, Magnitude(n)))
  {
    hide Text, Kept, KeptExponent, Positive, Magnitude, WellFormed, KeptValue, KeptExactly;
    if |Text(n)| > 128 {
      LongIsReadAsKept(dec, read, n);
      KeptIsTheNumber(n);
    }
  }

  /** A reading that loses nothing of a positive number. */
  ghost predicate Lossless(read: Reading) { forall v :: v > 0.0 ==> Positive(read(false, v)) == Some(v) }

  /** Without rounding, a positive numeral is charged for its number exactly if truncation does not harm it. */
  lemma ChargedByValueExactly(dec: Decoder, read: Reading, n: Numeral)
    requires ByValue(dec, read) && Lossless(read) && WellFormed(n) && !n.minus && Magnitude(n) > 0.0
    ensures Positive(Decode(dec, n)) == Some(Magnitude(n)) <==> Unharmed(n)
  {
    if Unharmed(n) {
      hide ByValue, Unharmed, WellFormed, Magnitude;
      UnharmedIsReadByValue(dec, read, n);
    } else {
      KeptIsTheNumber(n);
      LongIsReadAsKept(dec, read, n);
      KeptIsPositive(n);
    }
  }

  lemma KeptIsPositive(n: Numeral)
    requires WellFormed(n) && Magnitude(n) > 0.0
    ensures KeptValue(n) > 0.0
  {
    hide Kept, Magnitude, KeptExponent, Scale, DigitsValue, Units, Prefix;
    KeptDecimalZero(n);
    PositiveUnits(DigitsValue(Kept(n)), Scale(KeptExponent(n)));
  }

  lemma PositiveUnits(d: nat, unit: real)
    requires d > 0 && unit > 0.0
    ensures Units(d, unit) > 0.0
  {
  }

  // ----- every reading has its decoder -----

  function LeadingDigits(t: seq<byte>): (k: nat) { if t != [] && Digit(t[0]) then 1 + LeadingDigits(t[1..]) else 0 }

  lemma {:induction false} RunLength(a: seq<byte>, x: seq<byte>)
    requires Digits(a) && (x != [] ==> !Digit(x[0]))
    ensures LeadingDigits(a + x) == |a|
  {
    if a == [] {
      assert a + x == x;
    } else {
      assert (a + x)[1..] == a[1..] + x;
      RunLength(a[1..], x);
    }
  }

  /** Where a run of digits ends is determined by the text. */
  lemma DigitRun(a: seq<byte>, x: seq<byte>, b: seq<byte>, y: seq<byte>)
    requires Digits(a) && Digits(b) && a + x == b + y
    requires (x != [] ==> !Digit(x[0])) && (y != [] ==> !Digit(y[0]))
    ensures a == b && x == y
  {
    hide Digits;
    RunLength(a, x);
    RunLength(b, y);
    var t := a + x;
    assert t[..|a|] == a && t[..|b|] == b && t[|a|..] == x && t[|b|..] == y;
  }

  function AfterWhole(n: Numeral): seq<byte> { FractionText(n.fraction) + ExponentText(n.exponent) }

  lemma AfterWholeStarts(n: Numeral)
    requires WellFormed(n)
    ensures AfterWhole(n) != [] ==> !Digit(AfterWhole(n)[0])
    ensures ExponentText(n.exponent) != [] ==> !Digit(ExponentText(n.exponent)[0])
    ensures n.fraction.Some? <==> AfterWhole(n) != [] && AfterWhole(n)[0] == DOT
  {
  }

  lemma SignIsVisible(n: Numeral)
    requires WellFormed(n)
    ensures Text(n) != [] && (n.minus <==> Text(n)[0] == MINUS)
    ensures Text(n)[if n.minus then 1 else 0..] == n.whole + AfterWhole(n)
  {
    hide FractionText, ExponentText;
    var body := n.whole + AfterWhole(n);
    assert body[0] == n.whole[0] && Digit(n.whole[0]);
    assert Text(n) == if n.minus then [MINUS] + body else body;
  }

  lemma WholeIsDetermined(m: Numeral, n: Numeral)
    requires WellFormed(m) && WellFormed(n) && Text(m) == Text(n)
    ensures m.minus == n.minus && m.whole == n.whole && AfterWhole(m) == AfterWhole(n)
  {
    hide Text, AfterWhole, Digits;
    SignIsVisible(m);
    SignIsVisible(n);
    AfterWholeStarts(m);
    AfterWholeStarts(n);
    DigitRun(m.whole, AfterWhole(m), n.whole, AfterWhole(n));
  }

  lemma FractionTail(n: Numeral)
    requires WellFormed(n)
    ensures n.fraction.Some? ==>
      && Digits(n.fraction.value)
      && AfterWhole(n) != [] && AfterWhole(n)[1..] == n.fraction.value + ExponentText(n.exponent)
    ensures n.fraction.None? ==> AfterWhole(n) == ExponentText(n.exponent)
  {
    hide ExponentText;
    if n.fraction.Some? {
      assert AfterWhole(n) == [DOT] + (n.fraction.value + ExponentText(n.exponent));
    }
  }

  lemma FractionIsDetermined(m: Numeral, n: Numeral)
    requires WellFormed(m) && WellFormed(n) && AfterWhole(m) == AfterWhole(n)
    ensures m.fraction == n.fraction && ExponentText(m.exponent) == ExponentText(n.exponent)
  {
    hide AfterWhole, ExponentText, WellFormed, Digits;
    AfterWholeStarts(m);
    AfterWholeStarts(n);
    FractionTail(m);
    FractionTail(n);
    if m.fraction.Some? {
      DigitRun(m.fraction.value, ExponentText(m.exponent), n.fraction.value, ExponentText(n.exponent));
    }
  }

  lemma ExponentParts(e: Exponent)
    requires e.digits != [] && Digits(e.digits)
    ensures var t := ExponentText(Some(e));
      && |t| > 1 && t[0] == e.marker && (e.sign == Plus <==> t[1] == PLUS) && (e.sign == Minus <==> t[1] == MINUS)
      && t[if e.sign == Unsigned then 1 else 2..] == e.digits
  {
    var t := ExponentText(Some(e));
    assert Digit(e.digits[0]);
    assert t == if e.sign == Unsigned then [e.marker] + e.digits else [e.marker] + SignText(e.sign) + e.digits;
  }

  lemma ExponentIsDetermined(m: Numeral, n: Numeral)
    requires WellFormed(m) && WellFormed(n) && ExponentText(m.exponent) == ExponentText(n.exponent)
    ensures m.exponent == n.exponent
  {
    assert m.exponent.Some? <==> n.exponent.Some?;
    if m.exponent.Some? {
      hide ExponentText, Digits;
      ExponentParts(m.exponent.value);
      ExponentParts(n.exponent.value);
    }
  }

  /** A numeral is determined by its text. */
  lemma TextDetermines(m: Numeral, n: Numeral)
    requires WellFormed(m) && WellFormed(n) && Text(m) == Text(n)
    ensures m == n
  {
    hide Text, WellFormed, AfterWhole, ExponentText;
    WholeIsDetermined(m, n);
    FractionIsDetermined(m, n);
    ExponentIsDetermined(m, n);
  }

  ghost predicate Spells(n: Numeral, text: seq<byte>) { WellFormed(n) && Text(n) == text }

  ghost function ReadText(read: Reading, text: seq<byte>): Option<Float> {
    if exists n :: Spells(n, text) then
      var n :| Spells(n, text); read(n.minus, Magnitude(n))
    else None
  }

  ghost function ReadDecimal(read: Reading, minus: bool, ds: seq<byte>, e: int): Option<Float> {
    if Digits(ds) then read(minus, Units(DigitsValue(ds), Scale(e))) else None
  }

  ghost function DecoderOf(read: Reading): Decoder {
    Decoder((text: seq<byte>) => ReadText(read, text),
        (minus: bool, ds: seq<byte>, e: int) => ReadDecimal(read, minus, ds, e))
  }

  /** Numbers can be read by value in any way: the parsers that do so exist. */
  lemma EveryReadingHasADecoder(read: Reading)
    ensures ByValue(DecoderOf(read), read)
  {
    hide Text, WellFormed, Magnitude, Scale, DigitsValue, Units, Positive;
    var dec := DecoderOf(read);
    forall n | WellFormed(n) ensures dec.short(Text(n)) == read(n.minus, Magnitude(n)) {
      assert Spells(n, Text(n));
      var m :| Spells(m, Text(n)) && ReadText(read, Text(n)) == read(m.minus, Magnitude(m));
      TextDetermines(m, n);
    }
  }
}
