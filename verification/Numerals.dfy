/**
 JSON numerals (section 6 of RFC 8259) and the bounded `Scalar` recogniser of response_cost.rs.
 A numeral may be arbitrarily long; the recogniser keeps at most 129 raw bytes and 64 digits.
 */
module Numerals {
  import opened Base

  const MINUS: byte := 0x2D
  const PLUS: byte := 0x2B
  const DOT: byte := 0x2E
  const ZERO: byte := 0x30

  predicate Digit(b: byte) { 0x30 <= b <= 0x39 }

  predicate ExponentMarker(b: byte) { b == 0x65 || b == 0x45 }

  ghost predicate Digits(s: seq<byte>) { forall i :: 0 <= i < |s| ==> Digit(s[i]) }

  // ----- the numeral grammar -----

  datatype Sign = Unsigned | Plus | Minus

  datatype Exponent = Exponent(marker: byte, sign: Sign, digits: seq<byte>)

  /** A numeral, or one cut off before its end: see Prefix and WellFormed. */
  datatype Numeral = Numeral(minus: bool, whole: seq<byte>, fraction: Option<seq<byte>>, exponent: Option<Exponent>)

  function SignText(s: Sign): seq<byte> {
    match s case Unsigned => [] case Plus => [PLUS] case Minus => [MINUS]
  }

  function FractionText(f: Option<seq<byte>>): seq<byte> {
    if f.None? then [] else [DOT] + f.value
  }

  function ExponentText(e: Option<Exponent>): seq<byte> {
    if e.None? then [] else [e.value.marker] + SignText(e.value.sign) + e.value.digits
  }

  function Text(n: Numeral): seq<byte> {
    (if n.minus then [MINUS] else []) + n.whole + FractionText(n.fraction) + ExponentText(n.exponent)
  }

  /** `n` is some numeral cut off after any number of bytes. */
  ghost predicate Prefix(n: Numeral) {
    && Digits(n.whole)
    && (|n.whole| > 1 ==> n.whole[0] != ZERO)
    && (n.fraction.Some? ==> n.whole != [] && Digits(n.fraction.value))
    && (n.exponent.Some? ==>
          && n.whole != []
          && (n.fraction.Some? ==> n.fraction.value != [])
          && ExponentMarker(n.exponent.value.marker)
          && Digits(n.exponent.value.digits))
  }

  /** RFC 8259, section 6: number = [ minus ] int [ frac ] [ exp ]. */
  ghost predicate WellFormed(n: Numeral) {
    && Prefix(n)
    && n.whole != []
    && (n.fraction.Some? ==> n.fraction.value != [])
    && (n.exponent.Some? ==> n.exponent.value.digits != [])
  }

  function DigitsValue(s: seq<byte>): nat
    requires Digits(s)
  {
    if s == [] then 0 else 10 * DigitsValue(s[..|s| - 1]) + (s[|s| - 1] - ZERO)
  }

  // ----- the recogniser -----

  const MAX_RAW := 129
  const MAX_DIGITS := 64
  const MAX_EXPONENT := 1_000_000_000
  const BROKEN := 255

  datatype Scalar = Scalar(
    raw: seq<byte>, state: nat, literal: seq<byte>, offset: nat, digits: seq<byte>,
    fraction: nat, omitted: nat, exponent: nat, exponentNegative: bool, negative: bool)

  const TRUE: seq<byte> := [0x74, 0x72, 0x75, 0x65]
  const FALSE: seq<byte> := [0x66, 0x61, 0x6C, 0x73, 0x65]
  const NULL: seq<byte> := [0x6E, 0x75, 0x6C, 0x6C]

  function LiteralFor(first: byte): seq<byte> {
    if first == 0x74 then TRUE else if first == 0x66 then FALSE else if first == 0x6E then NULL else []
  }

  function Blank(first: byte): Scalar {
    Scalar([], 0, LiteralFor(first), 0, [], 0, 0, 0, false, first == MINUS)
  }

  function NextState(state: nat, b: byte): nat {
    if state == 0 && b == MINUS then 1
    else if state <= 1 && b == ZERO then 2
    else if state <= 1 && Digit(b) then 3
    else if state == 3 && Digit(b) then 3
    else if (state == 2 || state == 3) && b == DOT then 4
    else if (state == 4 || state == 5) && Digit(b) then 5
    else if (state == 2 || state == 3 || state == 5) && ExponentMarker(b) then 6
    else if state == 6 && (b == PLUS || b == MINUS) then 7
    else if 6 <= state <= 8 && Digit(b) then 8
    else BROKEN
  }

  function FeedDigit(s: Scalar, previous: nat, b: byte): Scalar
    requires Digit(b)
  {
    if 6 <= previous <= 8 then
      s.(exponent := Min(s.exponent * 10 + (b - ZERO), MAX_EXPONENT))
    else
      var s := if previous == 4 || previous == 5 then s.(fraction := s.fraction + 1) else s;
      if b == ZERO && s.digits == [] then s
      else if |s.digits| < MAX_DIGITS then s.(digits := s.digits + [b])
      else s.(omitted := s.omitted + 1)
  }

  function Feed(s: Scalar, b: byte): Scalar {
    var s := if |s.raw| < MAX_RAW then s.(raw := s.raw + [b]) else s;
    if s.literal != [] then
      var expected := s.offset < |s.literal| && s.literal[s.offset] == b;
      s.(state := if expected then s.state else BROKEN, offset := s.offset + 1)
    else
      var t := s.(state := NextState(s.state, b));
      if Digit(b) then FeedDigit(t, s.state, b)
      else if s.state == 6 && b == MINUS then t.(exponentNegative := true)
      else t
  }

  /** `Scalar::new` on the first byte, then `feed` on each of the others. */
  function ReadAll(text: seq<byte>): Scalar
    requires text != []
  {
    var last := text[|text| - 1];
    Feed(if |text| == 1 then Blank(last) else ReadAll(text[..|text| - 1]), last)
  }

  predicate Valid(s: Scalar) {
    if s.literal != [] then s.state != BROKEN && s.offset == |s.literal|
    else s.state == 2 || s.state == 3 || s.state == 5 || s.state == 8
  }

  /**
   The two float parsers the recogniser delegates to: `short` reads a whole numeral, `long` reads the
   decimal (sign, digits, exponent) that is written out for a numeral of more than 128 bytes.
   */
  datatype Decoder = Decoder(short: seq<byte> -> Option<Float>, long: (bool, seq<byte>, int) -> Option<Float>)

  function Positive(v: Option<Float>): Option<real> {
    if v.Some? && v.value.Finite? && v.value.value > 0.0 then Some(v.value.value) else None
  }

  function SignedExponent(s: Scalar): int {
    (if s.exponentNegative then 0 - s.exponent else s.exponent) - s.fraction + s.omitted
  }

  function Cost(dec: Decoder, s: Scalar): Option<real> {
    if s.literal != [] then None
    else if |s.raw| <= 128 then Positive(dec.short(s.raw))
    else Positive(dec.long(s.negative, if s.digits == [] then [ZERO] else s.digits, SignedExponent(s)))
  }

  // ----- what the recogniser has seen, as a function of the numeral read so far -----

  function StateOf(n: Numeral): nat {
    if n.exponent.Some? then
      if n.exponent.value.digits != [] then 8 else if n.exponent.value.sign != Unsigned then 7 else 6
    else if n.fraction.Some? then
      if n.fraction.value != [] then 5 else 4
    else if n.whole == [] then (if n.minus then 1 else 0)
    else if n.whole[0] == ZERO then 2
    else 3
  }

  /** The digits before the exponent, in order. */
  function Mantissa(n: Numeral): seq<byte> {
    n.whole + (if n.fraction.Some? then n.fraction.value else [])
  }

  /** A digit string without its leading zeros. */
  function Significant(s: seq<byte>): (r: seq<byte>)
    ensures |r| <= |s|
    ensures Digits(s) ==> Digits(r)
  {
    if s == [] then [] else
      var init := Significant(s[..|s| - 1]);
      if init == [] && s[|s| - 1] == ZERO then [] else init + [s[|s| - 1]]
  }

  function Kept(n: Numeral): seq<byte> {
    var s := Significant(Mantissa(n)); s[..Min(|s|, MAX_DIGITS)]
  }

  function Omitted(n: Numeral): nat {
    var s := Significant(Mantissa(n)); |s| - Min(|s|, MAX_DIGITS)
  }

  function FractionDigits(n: Numeral): nat {
    if n.fraction.Some? then |n.fraction.value| else 0
  }

  function WrittenExponent(n: Numeral): nat
    requires Prefix(n)
  {
    if n.exponent.Some? then DigitsValue(n.exponent.value.digits) else 0
  }

  function NegativeExponent(n: Numeral): bool {
    n.exponent.Some? && n.exponent.value.sign == Minus
  }

  /** The recogniser's complete state after reading exactly the text of `n`. */
  function Summary(n: Numeral): Scalar
    requires Prefix(n)
  {
    var text := Text(n);
    Scalar(text[..Min(|text|, MAX_RAW)], StateOf(n), [], 0, Kept(n), FractionDigits(n), Omitted(n),
           Min(WrittenExponent(n), MAX_EXPONENT), NegativeExponent(n), n.minus)
  }

  /** `n` with one more byte read, when that byte can continue it. */
  function Extend(n: Numeral, b: byte): Numeral {
    if n.exponent.Some? then
      var e := n.exponent.value;
      if b == PLUS then n.(exponent := Some(e.(sign := Plus)))
      else if b == MINUS then n.(exponent := Some(e.(sign := Minus)))
      else n.(exponent := Some(e.(digits := e.digits + [b])))
    else if ExponentMarker(b) then n.(exponent := Some(Exponent(b, Unsigned, [])))
    else if n.fraction.Some? then n.(fraction := Some(n.fraction.value + [b]))
    else if b == DOT then n.(fraction := Some([]))
    else if b == MINUS then n.(minus := true)
    else n.(whole := n.whole + [b])
  }

  const EMPTY := Numeral(false, [], None, None)

  /** `b` can come next after `n`. */
  predicate Continues(n: Numeral, b: byte) { NextState(StateOf(n), b) != BROKEN }

  /** A byte of the exponent changes nothing before it. */
  lemma ExponentTextGrows(n: Numeral, b: byte)
    requires Prefix(n) && Continues(n, b) && (n.exponent.Some? || ExponentMarker(b))
    ensures ExponentText(Extend(n, b).exponent) == ExponentText(n.exponent) + [b]
    ensures Extend(n, b) == n.(exponent := Extend(n, b).exponent)
  {
    hide Digits;
  }

  lemma ExtendTailText(n: Numeral, b: byte)
    requires Prefix(n) && Continues(n, b) && (n.exponent.Some? || ExponentMarker(b))
    ensures Text(Extend(n, b)) == Text(n) + [b]
  {
    hide Prefix, Continues, Extend, ExponentText, FractionText;
    ExponentTextGrows(n, b);
    var front := (if n.minus then [MINUS] else []) + n.whole + FractionText(n.fraction);
    assert front + (ExponentText(n.exponent) + [b]) == front + ExponentText(n.exponent) + [b];
  }

  lemma ExtendBodyText(n: Numeral, b: byte)
    requires Prefix(n) && Continues(n, b) && !n.exponent.Some? && !ExponentMarker(b)
    ensures Text(Extend(n, b)) == Text(n) + [b]
  {
    var m := Extend(n, b);
    var sign := if n.minus then [MINUS] else [];
    if n.fraction.Some? || b == DOT {
      assert FractionText(m.fraction) == FractionText(n.fraction) + [b];
    } else if b == MINUS {
      assert Text(m) == [MINUS] && Text(n) == [];
    } else {
      assert Text(m) == sign + m.whole && Text(n) == sign + n.whole;
    }
  }

  lemma ExtendText(n: Numeral, b: byte)
    requires Prefix(n) && Continues(n, b)
    ensures Text(Extend(n, b)) == Text(n) + [b]
  {
    hide Text, Extend, Continues, Prefix;
    if n.exponent.Some? || ExponentMarker(b) { ExtendTailText(n, b); } else { ExtendBodyText(n, b); }
  }

  lemma ExtendIsNumeral(n: Numeral, b: byte)
    requires Prefix(n) && Continues(n, b)
    ensures Prefix(Extend(n, b))
    ensures StateOf(Extend(n, b)) == NextState(StateOf(n), b)
  {
    var m := Extend(n, b);
    if n.exponent.None? && n.fraction.None? && Digit(b) {
      assert |m.whole| > 1 ==> m.whole[0] == n.whole[0];
    }
  }

  lemma SignificantSnoc(s: seq<byte>, b: byte)
    ensures Significant(s + [b]) == if Significant(s) == [] && b == ZERO then [] else Significant(s) + [b]
  {
    assert (s + [b])[..|s + [b]| - 1] == s;
  }

  lemma DigitsValueSnoc(s: seq<byte>, b: byte)
    requires Digits(s) && Digit(b)
    ensures Digits(s + [b]) && DigitsValue(s + [b]) == 10 * DigitsValue(s) + (b - ZERO)
  {
    assert (s + [b])[..|s + [b]| - 1] == s;
  }

  lemma MantissaGrows(n: Numeral, b: byte)
    requires Prefix(n) && Digit(b) && Continues(n, b) && n.exponent.None?
    ensures Mantissa(Extend(n, b)) == Mantissa(n) + [b]
  {
  }

  lemma MantissaStays(n: Numeral, b: byte)
    requires Prefix(n) && Continues(n, b) && (n.exponent.Some? || !Digit(b))
    ensures Mantissa(Extend(n, b)) == Mantissa(n)
  {
  }

  lemma RawGrows(n: Numeral, b: byte)
    requires Prefix(n) && Continues(n, b)
    ensures Prefix(Extend(n, b))
    ensures Summary(Extend(n, b)).raw == if |Summary(n).raw| < MAX_RAW then Summary(n).raw + [b] else Summary(n).raw
  {
    ExtendIsNumeral(n, b);
    ExtendText(n, b);
  }

  lemma KeptGrows(n: Numeral, b: byte)
    requires Prefix(n) && Digit(b) && Continues(n, b) && n.exponent.None?
    ensures var m := Extend(n, b);
      if b == ZERO && Kept(n) == [] then Kept(m) == [] && Omitted(m) == Omitted(n)
      else if |Kept(n)| < MAX_DIGITS then Kept(m) == Kept(n) + [b] && Omitted(m) == Omitted(n)
      else Kept(m) == Kept(n) && Omitted(m) == Omitted(n) + 1
  {
    hide Mantissa, Extend, Prefix, Continues, Significant;
    MantissaGrows(n, b);
    SignificantSnoc(Mantissa(n), b);
  }

  lemma MinScales(e: nat, d: nat)
    ensures Min(10 * e + d, MAX_EXPONENT) == Min(Min(e, MAX_EXPONENT) * 10 + d, MAX_EXPONENT)
  {
  }

  lemma ExponentGrows(n: Numeral, b: byte)
    requires Prefix(n) && Continues(n, b) && Digit(b) && n.exponent.Some?
    ensures Prefix(Extend(n, b))
    ensures Min(WrittenExponent(Extend(n, b)), MAX_EXPONENT) ==
            Min(Min(WrittenExponent(n), MAX_EXPONENT) * 10 + (b - ZERO), MAX_EXPONENT)
  {
    ExtendIsNumeral(n, b);
    DigitsValueSnoc(n.exponent.value.digits, b);
    MinScales(DigitsValue(n.exponent.value.digits), b - ZERO);
  }

  lemma FeedExponentDigit(n: Numeral, b: byte)
    requires Prefix(n) && Continues(n, b) && Digit(b) && n.exponent.Some?
    ensures Prefix(Extend(n, b)) && Feed(Summary(n), b) == Summary(Extend(n, b))
  {
    hide Text, Mantissa, Significant, WrittenExponent, DigitsValue, Digits;
    ExtendIsNumeral(n, b);
    var s, t := Summary(n), Summary(Extend(n, b));
    assert 6 <= s.state <= 8;
    assert t == s.(raw := t.raw, state := NextState(s.state, b), exponent := t.exponent) by { MantissaStays(n, b); }
    RawGrows(n, b);
    ExponentGrows(n, b);
    FeedExponentFields(s, t, b);
  }

  lemma FeedExponentFields(s: Scalar, t: Scalar, b: byte)
    requires Digit(b) && s.literal == [] && 6 <= s.state <= 8
    requires t == s.(raw := t.raw, state := NextState(s.state, b), exponent := t.exponent)
    requires t.raw == if |s.raw| < MAX_RAW then s.raw + [b] else s.raw
    requires t.exponent == Min(s.exponent * 10 + (b - ZERO), MAX_EXPONENT)
    ensures Feed(s, b) == t
  {
  }

  lemma FractionGrows(n: Numeral, b: byte)
    requires Prefix(n) && Continues(n, b) && Digit(b) && n.exponent.None?
    ensures StateOf(n) <= 5
    ensures FractionDigits(Extend(n, b)) ==
            if StateOf(n) == 4 || StateOf(n) == 5 then FractionDigits(n) + 1 else FractionDigits(n)
  {
  }

  lemma FeedMantissaDigit(n: Numeral, b: byte)
    requires Prefix(n) && Continues(n, b) && Digit(b) && n.exponent.None?
    ensures Prefix(Extend(n, b)) && Feed(Summary(n), b) == Summary(Extend(n, b))
  {
    hide Feed, Text, Significant, Mantissa, Digits, DigitsValue;
    ExtendIsNumeral(n, b);
    var s, t := Summary(n), Summary(Extend(n, b));
    assert t.raw == if |s.raw| < MAX_RAW then s.raw + [b] else s.raw by { RawGrows(n, b); }
    assert t.fraction == if s.state == 4 || s.state == 5 then s.fraction + 1 else s.fraction by { FractionGrows(n, b); }
    assert if b == ZERO && s.digits == [] then t.digits == [] && t.omitted == s.omitted
      else if |s.digits| < MAX_DIGITS then t.digits == s.digits + [b] && t.omitted == s.omitted
      else t.digits == s.digits && t.omitted == s.omitted + 1 by { KeptGrows(n, b); }
    assert t.state == NextState(s.state, b) && s.state <= 5;
    assert t.exponent == s.exponent && t.exponentNegative == s.exponentNegative && t.negative == s.negative;
    assert t.literal == s.literal == [] && t.offset == s.offset;
    FeedMantissaFields(s, t, b);
  }

  lemma FeedMantissaFields(s: Scalar, t: Scalar, b: byte)
    requires Digit(b) && s.literal == [] && s.state <= 5
    requires t == s.(raw := t.raw, state := t.state, digits := t.digits, fraction := t.fraction, omitted := t.omitted)
    requires t.raw == if |s.raw| < MAX_RAW then s.raw + [b] else s.raw
    requires t.state == NextState(s.state, b)
    requires t.fraction == if s.state == 4 || s.state == 5 then s.fraction + 1 else s.fraction
    requires if b == ZERO && s.digits == [] then t.digits == [] && t.omitted == s.omitted
      else if |s.digits| < MAX_DIGITS then t.digits == s.digits + [b] && t.omitted == s.omitted
      else t.digits == s.digits && t.omitted == s.omitted + 1
    ensures Feed(s, b) == t
  {
  }

  lemma PunctuationFields(n: Numeral, b: byte)
    requires Prefix(n) && Continues(n, b) && !Digit(b) && StateOf(n) != 0
    ensures Prefix(Extend(n, b))
    ensures var s, t := Summary(n), Summary(Extend(n, b));
      t == s.(raw := t.raw, state := NextState(s.state, b),
              exponentNegative := s.exponentNegative || (s.state == 6 && b == MINUS))
  {
    hide Text, Mantissa, Significant, Digits;
    ExtendIsNumeral(n, b);
    MantissaStays(n, b);
  }

  lemma FeedPunctuation(n: Numeral, b: byte)
    requires Prefix(n) && Continues(n, b) && !Digit(b) && Text(n) != []
    ensures Prefix(Extend(n, b)) && Feed(Summary(n), b) == Summary(Extend(n, b))
  {
    assert StateOf(n) != 0;
    hide Text, StateOf, Kept, Omitted, WrittenExponent, FractionDigits, NegativeExponent, Prefix, Continues, Extend,
         NextState;
    PunctuationFields(n, b);
    RawGrows(n, b);
  }

  /** One byte of recogniser work is one byte of numeral. */
  lemma FeedExtends(n: Numeral, b: byte)
    requires Prefix(n) && Continues(n, b)
    requires Text(n) != []
    ensures Prefix(Extend(n, b)) && Feed(Summary(n), b) == Summary(Extend(n, b))
  {
    if !Digit(b) {
      FeedPunctuation(n, b);
    } else if n.exponent.Some? {
      FeedExponentDigit(n, b);
    } else {
      FeedMantissaDigit(n, b);
    }
  }

  lemma FirstMinus()
    ensures Prefix(Extend(EMPTY, MINUS)) && Text(Extend(EMPTY, MINUS)) == [MINUS]
    ensures ReadAll([MINUS]) == Summary(Extend(EMPTY, MINUS))
  {
    assert Mantissa(Extend(EMPTY, MINUS)) == [];
  }

  lemma FirstDigit(b: byte)
    requires Digit(b)
    ensures Prefix(Extend(EMPTY, b)) && Text(Extend(EMPTY, b)) == [b]
    ensures ReadAll([b]) == Summary(Extend(EMPTY, b))
  {
    hide Feed, Text, Summary;
    EmptySummary(b);
    FeedMantissaDigit(EMPTY, b);
    ExtendText(EMPTY, b);
    assert [] + [b] == [b];
  }

  lemma EmptySummary(b: byte)
    requires Digit(b)
    ensures Prefix(EMPTY) && Summary(EMPTY) == Blank(b) && Text(EMPTY) == []
  {
    assert Mantissa(EMPTY) == [];
  }

  lemma FirstByte(b: byte)
    requires b == MINUS || Digit(b)
    ensures Prefix(Extend(EMPTY, b)) && Text(Extend(EMPTY, b)) == [b]
    ensures ReadAll([b]) == Summary(Extend(EMPTY, b))
  {
    hide Prefix, Extend, Text, ReadAll, Summary;
    if b == MINUS { FirstMinus(); } else { FirstDigit(b); }
  }

  lemma ContinueUnbroken(text: seq<byte>, n: Numeral, last: byte)
    requires text != [] && LiteralFor(text[0]) == []
    requires Prefix(n) && ReadAll(text) == Summary(n) && Feed(ReadAll(text), last).state != BROKEN
    ensures Continues(n, last)
  {
    LiteralKept(text);
    FeedUnbroken(ReadAll(text), last);
  }

  /** Whatever the recogniser has not rejected is the start of a numeral, and its state says which. */
  lemma {:induction false} UnrejectedIsNumeral(text: seq<byte>) returns (n: Numeral)
    requires text != [] && LiteralFor(text[0]) == [] && ReadAll(text).state != BROKEN
    ensures Prefix(n) && Text(n) == text && ReadAll(text) == Summary(n)
  {
    hide Summary, Text, Feed, Extend, Prefix, NextState, StateOf, Continues, LiteralFor;
    var last := text[|text| - 1];
    if |text| == 1 {
      assert text == [last];
      FirstUnbroken(last);
      n := Extend(EMPTY, last);
    } else {
      var init := text[..|text| - 1];
      assert text == init + [last];
      LiteralKept(init);
      FeedUnbroken(ReadAll(init), last);
      n := UnrejectedIsNumeral(init);
      ContinueUnbroken(init, n, last);
      FeedExtends(n, last);
      ExtendText(n, last);
      n := Extend(n, last);
    }
  }

  lemma FirstUnbroken(b: byte)
    requires LiteralFor(b) == [] && ReadAll([b]).state != BROKEN
    ensures Prefix(Extend(EMPTY, b)) && Text(Extend(EMPTY, b)) == [b]
    ensures ReadAll([b]) == Summary(Extend(EMPTY, b))
  {
    assert b == MINUS || Digit(b);
    FirstByte(b);
  }

  lemma FeedUnbroken(s: Scalar, b: byte)
    requires s.literal == [] && Feed(s, b).state != BROKEN
    ensures s.state != BROKEN && NextState(s.state, b) != BROKEN
  {
  }

  lemma {:induction false} LiteralKept(text: seq<byte>)
    requires text != []
    ensures ReadAll(text).literal == LiteralFor(text[0])
  {
    hide Feed;
    var last := text[|text| - 1];
    if |text| > 1 {
      LiteralKept(text[..|text| - 1]);
      FeedKeepsLiteral(ReadAll(text[..|text| - 1]), last);
    } else {
      FeedKeepsLiteral(Blank(last), last);
    }
  }

  lemma FeedKeepsLiteral(s: Scalar, b: byte)
    ensures Feed(s, b).literal == s.literal
  {
    hide NextState;
  }

  /** `n` without its last byte. */
  function Chop(n: Numeral): Numeral {
    if n.exponent.Some? then
      var e := n.exponent.value;
      if e.digits != [] then n.(exponent := Some(e.(digits := e.digits[..|e.digits| - 1])))
      else if e.sign != Unsigned then n.(exponent := Some(e.(sign := Unsigned)))
      else n.(exponent := None)
    else if n.fraction.Some? then
      if n.fraction.value != [] then n.(fraction := Some(n.fraction.value[..|n.fraction.value| - 1]))
      else n.(fraction := None)
    else if n.whole != [] then n.(whole := n.whole[..|n.whole| - 1])
    else n.(minus := false)
  }

  lemma ChopExponent(n: Numeral) returns (last: byte)
    requires Prefix(n) && n.exponent.Some?
    ensures Prefix(Chop(n)) && Continues(Chop(n), last) && Extend(Chop(n), last) == n
  {
    var e := n.exponent.value;
    if e.digits != [] {
      last := e.digits[|e.digits| - 1];
      assert e.digits[..|e.digits| - 1] + [last] == e.digits;
    } else {
      last := if e.sign == Plus then PLUS else if e.sign == Minus then MINUS else e.marker;
    }
  }

  lemma ChopFraction(n: Numeral) returns (last: byte)
    requires Prefix(n) && n.exponent.None? && n.fraction.Some?
    ensures Prefix(Chop(n)) && Continues(Chop(n), last) && Extend(Chop(n), last) == n
  {
    var f := n.fraction.value;
    last := if f != [] then f[|f| - 1] else DOT;
    assert f != [] ==> f[..|f| - 1] + [last] == f;
  }

  lemma ChopWhole(n: Numeral) returns (last: byte)
    requires Prefix(n) && n.exponent.None? && n.fraction.None? && (n.minus || n.whole != [])
    ensures Prefix(Chop(n)) && Continues(Chop(n), last) && Extend(Chop(n), last) == n
  {
    last := if n.whole != [] then n.whole[|n.whole| - 1] else MINUS;
    assert n.whole != [] ==> n.whole[..|n.whole| - 1] + [last] == n.whole;
  }

  lemma ChopThenExtend(n: Numeral) returns (last: byte)
    requires Prefix(n) && Text(n) != []
    ensures Prefix(Chop(n)) && Continues(Chop(n), last) && Extend(Chop(n), last) == n
  {
    hide Prefix, Chop, Continues, Extend;
    if n.exponent.Some? {
      last := ChopExponent(n);
    } else if n.fraction.Some? {
      last := ChopFraction(n);
    } else {
      last := ChopWhole(n);
    }
  }

  /** Reading a numeral, cut off anywhere, leaves exactly its summary. */
  lemma {:induction false} NumeralIsRead(n: Numeral)
    requires Prefix(n) && Text(n) != []
    ensures ReadAll(Text(n)) == Summary(n)
    decreases |Text(n)|
  {
    var last := ChopThenExtend(n);
    var c := Chop(n);
    ExtendText(c, last);
    assert Text(n)[..|Text(n)| - 1] == Text(c);
    if Text(c) == [] {
      assert c == EMPTY;
      FirstByte(last);
    } else {
      NumeralIsRead(c);
      FeedExtends(c, last);
    }
  }

  lemma PrefixSnoc(text: seq<byte>, literal: seq<byte>)
    requires text != []
    ensures text <= literal <==>
            text[..|text| - 1] <= literal && |text| <= |literal| && literal[|text| - 1] == text[|text| - 1]
  {
    assert text == text[..|text| - 1] + [text[|text| - 1]];
  }

  lemma FeedLiteral(s: Scalar, b: byte)
    requires s.literal != []
    ensures Feed(s, b).literal == s.literal && Feed(s, b).offset == s.offset + 1
    ensures Feed(s, b).state == if s.offset < |s.literal| && s.literal[s.offset] == b then s.state else BROKEN
  {
  }

  /** A literal scalar is intact exactly while it is a prefix of true, false or null. */
  lemma {:induction false} LiteralProgress(text: seq<byte>)
    requires text != [] && LiteralFor(text[0]) != []
    ensures var s := ReadAll(text);
      s.literal == LiteralFor(text[0]) && s.offset == |text| && (s.state != BROKEN <==> text <= s.literal)
  {
    hide Feed, LiteralFor;
    var init, last := text[..|text| - 1], text[|text| - 1];
    PrefixSnoc(text, LiteralFor(text[0]));
    if |text| > 1 {
      LiteralProgress(init);
      FeedLiteral(ReadAll(init), last);
    } else {
      FeedLiteral(Blank(last), last);
    }
  }

  ghost predicate IsLiteral(text: seq<byte>) { text == TRUE || text == FALSE || text == NULL }

  ghost predicate IsNumeralText(text: seq<byte>) { exists n :: WellFormed(n) && Text(n) == text }

  lemma RecognisesLiterals(text: seq<byte>)
    requires text != [] && LiteralFor(text[0]) != []
    ensures Valid(ReadAll(text)) <==> IsLiteral(text)
    ensures !IsNumeralText(text)
  {
    hide ReadAll, WellFormed, Text;
    LiteralProgress(text);
    var literal := LiteralFor(text[0]);
    assert text <= literal && |text| == |literal| ==> text == literal;
    forall n | WellFormed(n) && Text(n) == text ensures false {
      NumeralStart(n);
    }
  }

  lemma NumeralStart(n: Numeral)
    requires WellFormed(n)
    ensures Text(n) != [] && LiteralFor(Text(n)[0]) == []
  {
    TextStart(n);
  }

  lemma RecognisesNumerals(text: seq<byte>)
    requires text != [] && LiteralFor(text[0]) == []
    ensures Valid(ReadAll(text)) <==> IsNumeralText(text)
  {
    hide ReadAll, Text, Prefix, LiteralFor;
    LiteralKept(text);
    if Valid(ReadAll(text)) {
      var n := UnrejectedIsNumeral(text);
      CompleteState(n);
    }
    forall n | WellFormed(n) && Text(n) == text ensures Valid(ReadAll(text)) {
      NumeralIsRead(n);
      CompleteState(n);
    }
  }

  lemma CompleteState(n: Numeral)
    requires Prefix(n)
    ensures Valid(Summary(n)) <==> WellFormed(n)
  {
  }

  /** The recogniser accepts exactly the numerals of RFC 8259 and the three literal names. */
  lemma RecognisesScalars(text: seq<byte>)
    requires text != []
    ensures Valid(ReadAll(text)) <==> IsLiteral(text) || IsNumeralText(text)
  {
    hide ReadAll, IsNumeralText, Valid;
    if LiteralFor(text[0]) != [] {
      RecognisesLiterals(text);
    } else {
      RecognisesNumerals(text);
    }
  }

  lemma TextStart(n: Numeral)
    requires Prefix(n) && Text(n) != []
    ensures Text(n)[0] == MINUS || Digit(Text(n)[0])
  {
  }

  // ----- how close the kept decimal is to the numeral -----

  /** What the observer charges for a numeral: the float parser's reading of the text, or of the kept decimal. */
  function Decode(dec: Decoder, n: Numeral): Option<Float>
    requires Prefix(n)
  {
    if |Text(n)| <= 128 then dec.short(Text(n))
    else dec.long(n.minus, if Kept(n) == [] then [ZERO] else Kept(n), KeptExponent(n))
  }

  function KeptExponent(n: Numeral): int
    requires Prefix(n)
  {
    var e := Min(WrittenExponent(n), MAX_EXPONENT);
    (if NegativeExponent(n) then 0 - e else e) - FractionDigits(n) + Omitted(n)
  }

  lemma CostIsDecoded(dec: Decoder, n: Numeral)
    requires WellFormed(n)
    ensures Text(n) != [] && Valid(ReadAll(Text(n)))
    ensures Cost(dec, ReadAll(Text(n))) == Positive(Decode(dec, n))
  {
    hide ReadAll, Text, Positive, Kept, Omitted, WrittenExponent, StateOf;
    NumeralStart(n);
    NumeralIsRead(n);
    CompleteState(n);
    assert |Text(n)| <= 128 ==> Text(n)[..Min(|Text(n)|, MAX_RAW)] == Text(n);
  }

  function Pow10(k: nat): nat { if k == 0 then 1 else 10 * Pow10(k - 1) }

  /** 10 to any integer power. */
  function Scale(k: int): (r: real)
    ensures r > 0.0
    decreases if k < 0 then -k else k
  {
    if k == 0 then 1.0 else if k > 0 then 10.0 * Scale(k - 1) else Scale(k + 1) / 10.0
  }

  /** The exact magnitude a numeral denotes. */
  function Magnitude(n: Numeral): real
    requires WellFormed(n)
  {
    MantissaDigits(n);
    DigitsValue(Mantissa(n)) as real * Scale(TrueExponent(n))
  }

  /** The power of ten that the last written mantissa digit stands for. */
  function TrueExponent(n: Numeral): int
    requires Prefix(n)
  {
    (if NegativeExponent(n) then 0 - WrittenExponent(n) else WrittenExponent(n)) - FractionDigits(n)
  }

  ghost predicate Scaled(x: real, p: nat, y: real) { y == x * p as real }

  lemma {:induction false} ScaleAdds(a: int, k: nat)
    ensures Scaled(Scale(a), Pow10(k), Scale(a + k))
  {
    hide Scaled, Scale;
    if k == 0 {
      ScaledByOne(Scale(a));
      assert a + k == a;
    } else {
      ScaleAdds(a, k - 1);
      ScaleStep(a + (k - 1));
      assert a + (k - 1) + 1 == a + k;
      ScaledByTen(Scale(a), Pow10(k - 1), Scale(a + (k - 1)));
    }
  }

  lemma ScaledByOne(x: real)
    ensures Scaled(x, 1, x)
  {
  }

  lemma ScaledByTen(x: real, p: nat, y: real)
    requires Scaled(x, p, y)
    ensures Scaled(x, 10 * p, 10.0 * y)
  {
    TenTimes(x, p);
  }

  lemma ScaleAdd(a: int, k: nat)
    ensures Scale(a + k) == Scale(a) * Pow10(k) as real
  {
    hide Scale, Pow10;
    ScaleAdds(a, k);
  }

  lemma ScaleStep(a: int)
    ensures Scale(a + 1) == 10.0 * Scale(a)
  {
  }

  lemma TenTimes(x: real, p: nat)
    ensures 10.0 * (x * p as real) == x * (10 * p) as real
  {
  }

  lemma {:induction false} SignificantValue(s: seq<byte>)
    requires Digits(s)
    ensures DigitsValue(Significant(s)) == DigitsValue(s)
    ensures Significant(s) != [] ==> Significant(s)[0] != ZERO
  {
    if s != [] {
      var init, last := s[..|s| - 1], s[|s| - 1];
      SignificantValue(init);
      assert Significant(s) != [] ==> Significant(s)[..|Significant(s)| - 1] == Significant(init);
    }
  }

  lemma Tenfold(d: nat, p: nat, v: nat, x: nat)
    requires d * p <= v < (d + 1) * p && x < 10
    ensures d * (10 * p) <= 10 * v + x < (d + 1) * (10 * p)
  {
    assert d * (10 * p) == 10 * (d * p) && (d + 1) * (10 * p) == 10 * ((d + 1) * p);
  }

  lemma {:induction false} ValueOfCut(s: seq<byte>, k: nat)
    requires Digits(s) && k <= |s|
    ensures DigitsValue(s[..k]) * Pow10(|s| - k) <= DigitsValue(s) < (DigitsValue(s[..k]) + 1) * Pow10(|s| - k)
    decreases |s|
  {
    if k == |s| {
      assert s[..k] == s;
    } else {
      var init := s[..|s| - 1];
      ValueOfCut(init, k);
      assert init[..k] == s[..k];
      Tenfold(DigitsValue(s[..k]), Pow10(|init| - k), DigitsValue(init), s[|s| - 1] - ZERO);
    }
  }

  /** d * unit <= m < (d + 1) * unit, and m is exactly d units when `exact`. */
  ghost predicate Brackets(d: nat, unit: real, m: real, exact: bool) {
    && d as real * unit <= m < (d as real + 1.0) * unit
    && (exact ==> d as real * unit == m)
  }

  /**
   For every numeral whose written exponent is at most 10^9, however long, the kept decimal d and exponent e
   bracket the numeral: d * 10^e <= |n| < (d + 1) * 10^e, exactly so when no digit was omitted.
   */
  lemma KeptDecimalBrackets(n: Numeral)
    requires WellFormed(n) && WrittenExponent(n) <= MAX_EXPONENT
    ensures Digits(Kept(n)) && |Kept(n)| <= MAX_DIGITS
    ensures Brackets(DigitsValue(Kept(n)), Scale(KeptExponent(n)), Magnitude(n), Omitted(n) == 0)
  {
    hide Cut, Kept, Omitted, Scale, DigitsValue, Mantissa, TrueExponent, KeptExponent;
    KeptCut(n);
    KeptScale(n);
    BracketScaled(DigitsValue(Kept(n)), DigitsValue(Mantissa(n)), Omitted(n), Scale(TrueExponent(n)),
        Scale(KeptExponent(n)));
  }

  lemma KeptScale(n: Numeral)
    requires Prefix(n) && WrittenExponent(n) <= MAX_EXPONENT
    ensures Scale(KeptExponent(n)) == Scale(TrueExponent(n)) * Pow10(Omitted(n)) as real
  {
    hide Omitted, Scale, Pow10;
    ScaleAdd(TrueExponent(n), Omitted(n));
  }

  lemma MantissaDigits(n: Numeral)
    requires Prefix(n)
    ensures Digits(Mantissa(n))
  {
  }

  lemma KeptCut(n: Numeral)
    requires Prefix(n)
    ensures Digits(Mantissa(n)) && Digits(Kept(n)) && |Kept(n)| <= MAX_DIGITS
    ensures Cut(DigitsValue(Kept(n)), DigitsValue(Mantissa(n)), Omitted(n))
  {
    hide Mantissa, Significant, DigitsValue, Prefix, Pow10;
    MantissaDigits(n);
    var m := Mantissa(n);
    var s := Significant(m);
    SignificantValue(m);
    ValueOfCut(s, Min(|s|, MAX_DIGITS));
  }

  lemma KeptZero(n: Numeral)
    requires Prefix(n)
    ensures Digits(Kept(n)) && Digits(Mantissa(n))
    ensures DigitsValue(Kept(n)) == 0 <==> DigitsValue(Mantissa(n)) == 0
  {
    MantissaDigits(n);
    var m := Mantissa(n);
    hide Mantissa, Significant, Prefix;
    var s := Significant(m);
    SignificantValue(m);
    if s != [] {
      LeadingDigit(s);
      assert Kept(n) != [] && Kept(n)[0] == s[0];
      LeadingDigit(Kept(n));
    }
  }

  /** Truncation never turns a nonzero numeral into zero or the reverse, so it never changes what counts as positive. */
  lemma KeptDecimalZero(n: Numeral)
    requires WellFormed(n)
    ensures Digits(Kept(n))
    ensures DigitsValue(Kept(n)) == 0 <==> Magnitude(n) == 0.0
  {
    KeptZero(n);
    hide Mantissa, Kept, Prefix, Scale, TrueExponent, DigitsValue, Digits;
    NonzeroScaled(DigitsValue(Mantissa(n)), Scale(TrueExponent(n)));
  }

  lemma NonzeroScaled(v: nat, scale: real)
    requires scale > 0.0
    ensures v == 0 <==> v as real * scale == 0.0
  {
  }

  /** Dropping the last `omitted` digits of `v` leaves `d`. */
  ghost predicate Cut(d: nat, v: nat, omitted: nat) {
    d * Pow10(omitted) <= v < (d + 1) * Pow10(omitted)
  }

  lemma BracketScaled(d: nat, v: nat, omitted: nat, scale: real, unit: real)
    requires Cut(d, v, omitted) && scale > 0.0 && unit == scale * Pow10(omitted) as real
    ensures Brackets(d, unit, v as real * scale, omitted == 0)
  {
    BracketUnit(d, v, Pow10(omitted), scale, unit);
  }

  lemma BracketUnit(d: nat, v: nat, p: nat, scale: real, unit: real)
    requires d * p <= v < (d + 1) * p && scale > 0.0 && unit == scale * p as real
    ensures Brackets(d, unit, v as real * scale, p == 1)
  {
    assert (d * p) as real == d as real * p as real;
    assert ((d + 1) * p) as real == (d as real + 1.0) * p as real;
    RealScale(d as real * p as real, v as real, (d as real + 1.0) * p as real, scale);
    assert d as real * unit == (d as real * p as real) * scale;
    assert (d as real + 1.0) * unit == ((d as real + 1.0) * p as real) * scale;
  }

  lemma RealScale(a: real, b: real, c: real, k: real)
    requires a <= b < c && k > 0.0
    ensures a * k <= b * k < c * k
  {
  }

  lemma {:induction false} LeadingDigit(s: seq<byte>)
    requires Digits(s) && s != [] && s[0] != ZERO
    ensures DigitsValue(s) > 0
  {
    if |s| > 1 { LeadingDigit(s[..|s| - 1]); }
  }
}
