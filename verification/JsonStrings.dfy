/**
 JSON strings (section 7 of RFC 8259 over section 4 of RFC 3629) and the string half of the token
 recogniser in response_cost.rs, which keeps a handful of counters instead of the string.
 */
module JsonStrings {
  import opened Base

  const QUOTE: byte := 0x22
  const BACKSLASH: byte := 0x5C
  const LOWER_U: byte := 0x75

  // ----- the string grammar -----

  /** One spelled character: itself in UTF-8, a two-byte escape, \uXXXX, or a surrogate pair of those. */
  datatype Char =
    | Plain(utf8: seq<byte>)
    | Short(escaped: byte)
    | Unit(hex: seq<byte>)
    | Pair(high: seq<byte>, low: seq<byte>)

  predicate Hex(b: byte) { 0x30 <= b <= 0x39 || 0x41 <= b <= 0x46 || 0x61 <= b <= 0x66 }

  function HexDigit(b: byte): (r: nat)
    ensures r < 16
  {
    if 0x30 <= b <= 0x39 then b - 0x30 else if 0x41 <= b <= 0x46 then b - 0x37
    else if 0x61 <= b <= 0x66 then b - 0x57 else 0
  }

  predicate HexQuad(h: seq<byte>) { |h| == 4 && Hex(h[0]) && Hex(h[1]) && Hex(h[2]) && Hex(h[3]) }

  function HexValue(h: seq<byte>): nat
    requires |h| == 4
  {
    ((HexDigit(h[0]) * 16 + HexDigit(h[1])) * 16 + HexDigit(h[2])) * 16 + HexDigit(h[3])
  }

  predicate HighSurrogate(v: int) { 0xD800 <= v <= 0xDBFF }

  predicate LowSurrogate(v: int) { 0xDC00 <= v <= 0xDFFF }

  predicate Tail(b: byte) { 0x80 <= b <= 0xBF }

  /** RFC 3629, section 4, without the bytes a JSON string may not hold unescaped. */
  predicate Utf8(s: seq<byte>) {
    if |s| == 1 then 0x20 <= s[0] <= 0x7F && s[0] != QUOTE && s[0] != BACKSLASH
    else if |s| == 2 then 0xC2 <= s[0] <= 0xDF && Tail(s[1])
    else if |s| == 3 then
      && Tail(s[2])
      && (|| (s[0] == 0xE0 && 0xA0 <= s[1] <= 0xBF)
          || (0xE1 <= s[0] <= 0xEC && Tail(s[1]))
          || (s[0] == 0xED && 0x80 <= s[1] <= 0x9F)
          || (0xEE <= s[0] <= 0xEF && Tail(s[1])))
    else
      && |s| == 4
      && Tail(s[2]) && Tail(s[3])
      && (|| (s[0] == 0xF0 && 0x90 <= s[1] <= 0xBF)
          || (0xF1 <= s[0] <= 0xF3 && Tail(s[1]))
          || (s[0] == 0xF4 && 0x80 <= s[1] <= 0x8F))
  }

  predicate ShortEscape(b: byte) {
    b == QUOTE || b == BACKSLASH || b == 0x2F || b == 0x62 || b == 0x66 || b == 0x6E || b == 0x72 || b == 0x74
  }

  predicate WellFormed(c: Char) {
    match c
    case Plain(utf8) => Utf8(utf8)
    case Short(escaped) => ShortEscape(escaped)
    case Unit(hex) => HexQuad(hex) && !HighSurrogate(HexValue(hex)) && !LowSurrogate(HexValue(hex))
    case Pair(high, low) =>
      HexQuad(high) && HighSurrogate(HexValue(high)) && HexQuad(low) && LowSurrogate(HexValue(low))
  }

  ghost predicate AllWellFormed(cs: seq<Char>) { forall i :: 0 <= i < |cs| ==> WellFormed(cs[i]) }

  function Spell(c: Char): seq<byte> {
    match c
    case Plain(utf8) => utf8
    case Short(escaped) => [BACKSLASH, escaped]
    case Unit(hex) => [BACKSLASH, LOWER_U] + hex
    case Pair(high, low) => [BACKSLASH, LOWER_U] + high + [BACKSLASH, LOWER_U] + low
  }

  function SpellAll(cs: seq<Char>): seq<byte> {
    if cs == [] then [] else SpellAll(cs[..|cs| - 1]) + Spell(cs[|cs| - 1])
  }

  /** A whole string, between its quotes. */
  function Text(cs: seq<Char>): seq<byte> { [QUOTE] + SpellAll(cs) + [QUOTE] }

  // ----- what a spelling means -----

  predicate Scalar(v: int) { 0 <= v < 0xD800 || 0xE000 <= v < 0x11_0000 }

  function CodePoint(s: seq<byte>): (v: int)
    requires Utf8(s)
    ensures Scalar(v)
  {
    if |s| == 1 then s[0]
    else if |s| == 2 then 64 * (s[0] as int - 0xC0) + (s[1] as int - 0x80)
    else if |s| == 3 then 4096 * (s[0] as int - 0xE0) + 64 * (s[1] as int - 0x80) + (s[2] as int - 0x80)
    else 262144 * (s[0] as int - 0xF0) + 4096 * (s[1] as int - 0x80) + 64 * (s[2] as int - 0x80) + (s[3] as int - 0x80)
  }

  function ShortValue(b: byte): (v: int)
    ensures Scalar(v)
  {
    if b == 0x62 then 0x08 else if b == 0x66 then 0x0C else if b == 0x6E then 0x0A
    else if b == 0x72 then 0x0D else if b == 0x74 then 0x09 else b
  }

  function PairValue(high: int, low: int): (v: int)
    requires HighSurrogate(high) && LowSurrogate(low)
    ensures Scalar(v)
  {
    0x10000 + (high - 0xD800) * 0x400 + (low - 0xDC00)
  }

  function Meaning(c: Char): char
    requires WellFormed(c)
  {
    match c
    case Plain(utf8) => CodePoint(utf8) as char
    case Short(escaped) => ShortValue(escaped) as char
    case Unit(hex) => HexValue(hex) as char
    case Pair(high, low) => PairValue(HexValue(high), HexValue(low)) as char
  }

  /** The string a spelling denotes. */
  function Decoded(cs: seq<Char>): (s: string)
    requires AllWellFormed(cs)
    ensures |s| == |cs|
  {
    seq(|cs|, i requires 0 <= i < |cs| => Meaning(cs[i]))
  }

  // ----- the recogniser -----

  const MAX_KEY := 256

  datatype Token = Token(
    key: bool, raw: Option<seq<byte>>, escape: bool, unicode: nat, codepoint: nat,
    surrogate: nat, utf8: nat, nextMin: int, nextMax: int)

  datatype Outcome = Continue(token: Token) | Reject(token: Token) | Close(raw: Option<seq<byte>>)

  function Start(key: bool): Token {
    Token(key, if key then Some([QUOTE]) else None, false, 0, 0, 0, 0, 0x80, 0xBF)
  }

  function Push(raw: Option<seq<byte>>, b: byte): Option<seq<byte>> {
    if raw.Some? && |raw.value| < MAX_KEY then Some(raw.value + [b]) else None
  }

  function Checked(ok: bool, t: Token): Outcome { if ok then Continue(t) else Reject(t) }

  function StepHex(t: Token, b: byte): Outcome
    requires t.unicode > 0
  {
    var v := (t.codepoint * 16 + HexDigit(b)) % 0x10000;
    var u := t.(codepoint := v, unicode := t.unicode - 1);
    if u.unicode > 0 then Checked(Hex(b), u)
    else if t.surrogate == 3 then Checked(Hex(b) && LowSurrogate(v), u.(surrogate := 0))
    else if HighSurrogate(v) then Checked(Hex(b), u.(surrogate := 1))
    else Checked(Hex(b) && !LowSurrogate(v), u)
  }

  function StepLead(t: Token, b: byte): Outcome {
    if 0xC2 <= b <= 0xDF then Continue(t.(utf8 := 1, nextMin := 0x80, nextMax := 0xBF))
    else if b == 0xE0 then Continue(t.(utf8 := 2, nextMin := 0xA0, nextMax := 0xBF))
    else if 0xE1 <= b <= 0xEC || 0xEE <= b <= 0xEF then Continue(t.(utf8 := 2, nextMin := 0x80, nextMax := 0xBF))
    else if b == 0xED then Continue(t.(utf8 := 2, nextMin := 0x80, nextMax := 0x9F))
    else if b == 0xF0 then Continue(t.(utf8 := 3, nextMin := 0x90, nextMax := 0xBF))
    else if 0xF1 <= b <= 0xF3 then Continue(t.(utf8 := 3, nextMin := 0x80, nextMax := 0xBF))
    else if b == 0xF4 then Continue(t.(utf8 := 3, nextMin := 0x80, nextMax := 0x8F))
    else Reject(t.(utf8 := 0, nextMin := 0x80, nextMax := 0xBF))
  }

  /** One byte inside a string. */
  function Step(t0: Token, b: byte): Outcome {
    var t := t0.(raw := Push(t0.raw, b));
    if t.utf8 > 0 then
      Checked(t.nextMin <= b <= t.nextMax, t.(utf8 := t.utf8 - 1, nextMin := 0x80, nextMax := 0xBF))
    else if t.unicode > 0 then StepHex(t, b)
    else if t.surrogate == 1 then Checked(b == BACKSLASH, t.(surrogate := 2))
    else if t.surrogate == 2 then Checked(b == LOWER_U, t.(surrogate := 3, unicode := 4, codepoint := 0))
    else if t.escape then
      if b == LOWER_U then Continue(t.(escape := false, unicode := 4, codepoint := 0))
      else Checked(ShortEscape(b), t.(escape := false))
    else if b == QUOTE then Close(t.raw)
    else if b == BACKSLASH then Continue(t.(escape := true))
    else if b < 0x20 then Reject(t)
    else if b >= 0x80 then StepLead(t, b)
    else Continue(t)
  }

  // ----- the character being read -----

  /** How far into a character the recogniser is. */
  datatype Partial =
    | Between
    | InUtf8(read: seq<byte>)
    | Escaped
    | InHex(read: seq<byte>)
    | HighRead(high: seq<byte>)
    | HighEscaped(high: seq<byte>)
    | InLow(high: seq<byte>, read: seq<byte>)

  function PartialText(p: Partial): seq<byte> {
    match p
    case Between => []
    case InUtf8(read) => read
    case Escaped => [BACKSLASH]
    case InHex(read) => [BACKSLASH, LOWER_U] + read
    case HighRead(high) => [BACKSLASH, LOWER_U] + high
    case HighEscaped(high) => [BACKSLASH, LOWER_U] + high + [BACKSLASH]
    case InLow(high, read) => [BACKSLASH, LOWER_U] + high + [BACKSLASH, LOWER_U] + read
  }

  /** The tail bytes a leading byte calls for, and the range of the first of them. */
  function Tails(lead: byte): nat {
    if 0xC2 <= lead <= 0xDF then 1 else if 0xE0 <= lead <= 0xEF then 2 else if 0xF0 <= lead <= 0xF4 then 3 else 0
  }

  function FirstMin(lead: byte): int { if lead == 0xE0 then 0xA0 else if lead == 0xF0 then 0x90 else 0x80 }

  function FirstMax(lead: byte): int { if lead == 0xED then 0x9F else if lead == 0xF4 then 0x8F else 0xBF }

  predicate Utf8Prefix(s: seq<byte>) {
    && 1 <= |s| <= Tails(s[0])
    && (|s| > 1 ==> FirstMin(s[0]) <= s[1] <= FirstMax(s[0]))
    && (|s| > 2 ==> Tail(s[2]))
  }

  predicate HexPrefix(s: seq<byte>) {
    |s| < 4 && (|s| > 0 ==> Hex(s[0])) && (|s| > 1 ==> Hex(s[1])) && (|s| > 2 ==> Hex(s[2]))
  }

  function HexPrefixValue(s: seq<byte>): nat
    requires |s| < 4
  {
    if |s| == 0 then 0 else if |s| == 1 then HexDigit(s[0])
    else if |s| == 2 then HexDigit(s[0]) * 16 + HexDigit(s[1])
    else (HexDigit(s[0]) * 16 + HexDigit(s[1])) * 16 + HexDigit(s[2])
  }

  predicate HighQuad(h: seq<byte>) { HexQuad(h) && HighSurrogate(HexValue(h)) }

  predicate Legal(p: Partial) {
    match p
    case Between => true
    case InUtf8(read) => Utf8Prefix(read)
    case Escaped => true
    case InHex(read) => HexPrefix(read)
    case HighRead(high) => HighQuad(high)
    case HighEscaped(high) => HighQuad(high)
    case InLow(high, read) => HighQuad(high) && HexPrefix(read)
  }

  /** The recogniser's counters say exactly that it is at `p`. */
  predicate At(t: Token, p: Partial) {
    match p
    case Between => !t.escape && t.unicode == 0 && t.surrogate == 0 && t.utf8 == 0
    case InUtf8(read) =>
      && Utf8Prefix(read)
      && !t.escape && t.unicode == 0 && t.surrogate == 0 && t.utf8 == Tails(read[0]) + 1 - |read|
      && t.nextMin == (if |read| == 1 then FirstMin(read[0]) else 0x80)
      && t.nextMax == (if |read| == 1 then FirstMax(read[0]) else 0xBF)
    case Escaped => t.escape && t.unicode == 0 && t.surrogate == 0 && t.utf8 == 0
    case InHex(read) =>
      && HexPrefix(read)
      && !t.escape && t.unicode == 4 - |read| && t.surrogate == 0 && t.utf8 == 0 && t.codepoint == HexPrefixValue(read)
    case HighRead(high) => HighQuad(high) && !t.escape && t.unicode == 0 && t.surrogate == 1 && t.utf8 == 0
    case HighEscaped(high) => HighQuad(high) && !t.escape && t.unicode == 0 && t.surrogate == 2 && t.utf8 == 0
    case InLow(high, read) =>
      && HighQuad(high) && HexPrefix(read)
      && !t.escape && t.unicode == 4 - |read| && t.surrogate == 3 && t.utf8 == 0 && t.codepoint == HexPrefixValue(read)
  }

  /** Reading one more byte either finishes a character, goes further into one, or is an error. */
  datatype Advance = Finished(c: Char) | Further(p: Partial) | Ends | Error

  function AdvanceHex(read: seq<byte>, b: byte): Advance
    requires HexPrefix(read)
  {
    var h := read + [b];
    if !Hex(b) then Error
    else if |h| < 4 then Further(InHex(h))
    else if HighSurrogate(HexValue(h)) then Further(HighRead(h))
    else if LowSurrogate(HexValue(h)) then Error
    else Finished(Unit(h))
  }

  function AdvanceLow(high: seq<byte>, read: seq<byte>, b: byte): Advance
    requires HexPrefix(read)
  {
    var h := read + [b];
    if !Hex(b) then Error
    else if |h| < 4 then Further(InLow(high, h))
    else if LowSurrogate(HexValue(h)) then Finished(Pair(high, h))
    else Error
  }

  function AdvanceUtf8(read: seq<byte>, b: byte): Advance
    requires Utf8Prefix(read)
  {
    if !(if |read| == 1 then FirstMin(read[0]) <= b <= FirstMax(read[0]) else Tail(b)) then Error
    else if |read| == Tails(read[0]) then Finished(Plain(read + [b]))
    else Further(InUtf8(read + [b]))
  }

  function Advanced(p: Partial, b: byte): Advance
    requires Legal(p)
  {
    match p
    case Between =>
      if b == QUOTE then Ends else if b == BACKSLASH then Further(Escaped) else if b < 0x20 then Error
      else if b < 0x80 then Finished(Plain([b])) else if Tails(b) == 0 then Error else Further(InUtf8([b]))
    case InUtf8(read) => AdvanceUtf8(read, b)
    case Escaped => if b == LOWER_U then Further(InHex([])) else if ShortEscape(b) then Finished(Short(b)) else Error
    case InHex(read) => AdvanceHex(read, b)
    case HighRead(high) => if b == BACKSLASH then Further(HighEscaped(high)) else Error
    case HighEscaped(high) => if b == LOWER_U then Further(InLow(high, [])) else Error
    case InLow(high, read) => AdvanceLow(high, read, b)
  }

  ghost predicate TextAgrees(p: Partial, b: byte, a: Advance) {
    match a
    case Finished(c) => WellFormed(c) && Spell(c) == PartialText(p) + [b]
    case Further(q) => Legal(q) && PartialText(q) == PartialText(p) + [b]
    case Ends => p == Between && b == QUOTE
    case Error => true
  }

  lemma AdvanceTextUtf8(p: Partial, b: byte)
    requires Legal(p) && p.InUtf8?
    ensures TextAgrees(p, b, Advanced(p, b))
  {
  }

  lemma AdvanceTextHex(p: Partial, b: byte)
    requires Legal(p) && (p.InHex? || p.InLow?)
    ensures TextAgrees(p, b, Advanced(p, b))
  {
    hide HexValue;
  }

  lemma AdvanceText(p: Partial, b: byte)
    requires Legal(p)
    ensures TextAgrees(p, b, Advanced(p, b))
  {
    if p.InUtf8? {
      AdvanceTextUtf8(p, b);
    } else if p.InHex? || p.InLow? {
      AdvanceTextHex(p, b);
    }
  }

  lemma HexStep(read: seq<byte>, b: byte)
    requires HexPrefix(read)
    ensures |read| < 3 ==> (HexPrefixValue(read) * 16 + HexDigit(b)) % 0x10000 == HexPrefixValue(read + [b])
    ensures |read| == 3 ==> (HexPrefixValue(read) * 16 + HexDigit(b)) % 0x10000 == HexValue(read + [b])
  {
  }

  /** What the recogniser does with a byte is exactly what the grammar allows at that point. */
  ghost predicate Agrees(t: Token, b: byte, a: Advance) {
    var o := Step(t, b);
    match a
    case Finished(c) => o.Continue? && At(o.token, Between) && Carried(t, o.token, b)
    case Further(q) => o.Continue? && At(o.token, q) && Carried(t, o.token, b)
    case Ends => o == Close(Push(t.raw, b))
    case Error => o.Reject?
  }

  ghost predicate Carried(t: Token, u: Token, b: byte) { u.key == t.key && u.raw == Push(t.raw, b) }

  lemma StepBetween(t: Token, b: byte)
    requires At(t, Between)
    ensures Agrees(t, b, Advanced(Between, b))
  {
  }

  lemma StepUtf8(t: Token, read: seq<byte>, b: byte)
    requires Legal(InUtf8(read)) && At(t, InUtf8(read))
    ensures Agrees(t, b, Advanced(InUtf8(read), b))
  {
  }

  lemma StepHexDigit(t: Token, read: seq<byte>, b: byte)
    requires Legal(InHex(read)) && At(t, InHex(read))
    ensures Agrees(t, b, Advanced(InHex(read), b))
  {
    hide HexValue, HexPrefixValue, HexDigit;
    HexStep(read, b);
  }

  lemma StepLowDigit(t: Token, high: seq<byte>, read: seq<byte>, b: byte)
    requires Legal(InLow(high, read)) && At(t, InLow(high, read))
    ensures Agrees(t, b, Advanced(InLow(high, read), b))
  {
    hide HexValue, HexPrefixValue, HexDigit;
    HexStep(read, b);
  }

  lemma StepEscape(t: Token, p: Partial, b: byte)
    requires Legal(p) && At(t, p) && (p.Escaped? || p.HighRead? || p.HighEscaped?)
    ensures Agrees(t, b, Advanced(p, b))
  {
  }

  lemma StepAdvances(t: Token, p: Partial, b: byte)
    requires Legal(p) && At(t, p)
    ensures Agrees(t, b, Advanced(p, b))
  {
    hide Agrees, Advanced, At, Legal;
    match p
    case Between => StepBetween(t, b);
    case InUtf8(read) => StepUtf8(t, read, b);
    case InHex(read) => StepHexDigit(t, read, b);
    case InLow(high, read) => StepLowDigit(t, high, read, b);
    case _ => StepEscape(t, p, b);
  }

  // ----- reading a whole character, and a whole string -----

  function Run(t: Token, bs: seq<byte>): Outcome
    decreases |bs|
  {
    if bs == [] then Continue(t) else
      var o := Step(t, bs[0]);
      if o.Continue? then Run(o.token, bs[1..]) else o
  }

  /** The key buffer after `bs` more bytes: everything so far, or dropped once over 256 bytes. */
  function Grow(raw: Option<seq<byte>>, bs: seq<byte>): Option<seq<byte>> {
    if raw.Some? && |raw.value| + |bs| <= MAX_KEY then Some(raw.value + bs) else None
  }

  lemma GrowStep(raw: Option<seq<byte>>, b: byte, bs: seq<byte>)
    ensures Grow(Push(raw, b), bs) == Grow(raw, [b] + bs)
  {
    if raw.Some? {
      assert raw.value + ([b] + bs) == raw.value + [b] + bs;
    }
  }

  /** The point reached `k` bytes into `c`. */
  function Inside(c: Char, k: nat): Partial
    requires WellFormed(c) && k < |Spell(c)|
  {
    if k == 0 then Between else
    match c
    case Plain(utf8) => InUtf8(utf8[..k])
    case Short(_) => Escaped
    case Unit(hex) => if k == 1 then Escaped else InHex(hex[..k - 2])
    case Pair(high, low) =>
      if k == 1 then Escaped else if k < 6 then InHex(high[..k - 2]) else if k == 6 then HighRead(high)
      else if k == 7 then HighEscaped(high) else InLow(high, low[..k - 8])
  }

  ghost predicate Progresses(c: Char, k: nat)
    requires WellFormed(c) && k < |Spell(c)|
  {
    && Legal(Inside(c, k))
    && Advanced(Inside(c, k), Spell(c)[k]) == if k + 1 == |Spell(c)| then Finished(c) else Further(Inside(c, k + 1))
  }

  lemma InsidePlain(utf8: seq<byte>, k: nat)
    requires Utf8(utf8) && k < |utf8|
    ensures Progresses(Plain(utf8), k)
  {
    if k > 0 {
      assert utf8[..k] + [utf8[k]] == utf8[..k + 1];
    } else {
      assert [utf8[0]] == utf8[..1];
    }
    assert utf8[..|utf8|] == utf8;
  }

  lemma InsideUnit(hex: seq<byte>, k: nat)
    requires WellFormed(Unit(hex)) && k < 6
    ensures Progresses(Unit(hex), k)
  {
    if k >= 2 {
      assert hex[..k - 2] + [hex[k - 2]] == hex[..k - 1];
    }
    assert hex[..4] == hex && hex[..0] == [];
  }

  lemma InsidePair(high: seq<byte>, low: seq<byte>, k: nat)
    requires WellFormed(Pair(high, low)) && k < 12
    ensures Progresses(Pair(high, low), k)
  {
    if 2 <= k < 6 {
      assert high[..k - 2] + [high[k - 2]] == high[..k - 1];
    } else if 8 <= k {
      assert low[..k - 8] + [low[k - 8]] == low[..k - 7];
    }
    assert high[..4] == high && low[..4] == low && high[..0] == [] == low[..0];
  }

  lemma InsideProgresses(c: Char, k: nat)
    requires WellFormed(c) && k < |Spell(c)|
    ensures Progresses(c, k)
  {
    hide Progresses, Utf8;
    match c
    case Plain(utf8) => InsidePlain(utf8, k);
    case Short(_) => InsideShort(c, k);
    case Unit(hex) => InsideUnit(hex, k);
    case Pair(high, low) => InsidePair(high, low, k);
  }

  lemma InsideShort(c: Char, k: nat)
    requires WellFormed(c) && c.Short? && k < 2
    ensures Progresses(c, k)
  {
  }

  /** From `t`, reading `bs` ends between characters with nothing rejected. */
  ghost predicate Reads(t: Token, bs: seq<byte>) {
    var o := Run(t, bs);
    o.Continue? && At(o.token, Between) && o.token.key == t.key && o.token.raw == Grow(t.raw, bs)
  }

  lemma {:induction false} ReadsRest(t: Token, c: Char, k: nat)
    requires WellFormed(c) && k < |Spell(c)| && At(t, Inside(c, k))
    requires t.raw.Some? ==> |t.raw.value| <= MAX_KEY
    ensures Reads(t, Spell(c)[k..])
    decreases |Spell(c)| - k
  {
    hide Spell, Inside, At, WellFormed, Advanced, Step;
    var bs := Spell(c)[k..];
    var b := Spell(c)[k];
    InsideProgresses(c, k);
    StepAdvances(t, Inside(c, k), b);
    var u := Step(t, b).token;
    assert bs[0] == b && bs[1..] == Spell(c)[k + 1..];
    GrowStep(t.raw, b, bs[1..]);
    assert [b] + bs[1..] == bs;
    if k + 1 < |Spell(c)| {
      ReadsRest(u, c, k + 1);
    } else {
      assert bs[1..] == [];
      assert Run(t, bs) == Run(u, []) == Continue(u);
      assert At(u, Between);
      assert Grow(u.raw, []) == u.raw by { if u.raw.Some? { assert u.raw.value + [] == u.raw.value; } }
    }
  }

  lemma {:induction false} RunConcat(t: Token, a: seq<byte>, b: seq<byte>)
    ensures var o := Run(t, a); Run(t, a + b) == if o.Continue? then Run(o.token, b) else o
    decreases |a|
  {
    hide Step;
    if a == [] {
      assert a + b == b;
    } else {
      assert (a + b)[0] == a[0] && (a + b)[1..] == a[1..] + b;
      if Step(t, a[0]).Continue? { RunConcat(Step(t, a[0]).token, a[1..], b); }
    }
  }

  lemma ReadsTwice(t: Token, a: seq<byte>, b: seq<byte>)
    requires Reads(t, a) && Reads(Run(t, a).token, b)
    ensures Reads(t, a + b)
  {
    hide Run, At;
    RunConcat(t, a, b);
    if t.raw.Some? { assert t.raw.value + (a + b) == t.raw.value + a + b; }
  }

  ghost predicate Fits(t: Token) { t.raw.Some? ==> |t.raw.value| <= MAX_KEY }

  /** Every well-formed spelling is read without an error. */
  lemma {:induction false} ReadsAll(t: Token, cs: seq<Char>)
    requires At(t, Between) && Fits(t) && AllWellFormed(cs)
    ensures Reads(t, SpellAll(cs))
  {
    hide At, Step, WellFormed, Spell;
    if cs == [] {
      assert t.raw.Some? ==> t.raw.value + [] == t.raw.value;
    } else {
      var init, c := cs[..|cs| - 1], cs[|cs| - 1];
      ReadsAll(t, init);
      SpellNonempty(c);
      var u := Run(t, SpellAll(init)).token;
      assert Spell(c)[0..] == Spell(c);
      assert Inside(c, 0) == Between;
      ReadsRest(u, c, 0);
      ReadsTwice(t, SpellAll(init), Spell(c));
    }
  }

  lemma SpellNonempty(c: Char)
    requires WellFormed(c)
    ensures 1 <= |Spell(c)| <= 12
  {
  }

  /** A string with its closing quote: the recogniser closes with the buffer of the whole text. */
  lemma ClosesString(key: bool, cs: seq<Char>)
    requires AllWellFormed(cs)
    ensures Reads(Start(key), SpellAll(cs))
    ensures Step(Run(Start(key), SpellAll(cs)).token, QUOTE) ==
            Close(if key && |Text(cs)| <= MAX_KEY then Some(Text(cs)) else None)
  {
    hide Run, SpellAll, AllWellFormed;
    ReadsAll(Start(key), cs);
    var u := Run(Start(key), SpellAll(cs)).token;
    StepBetween(u, QUOTE);
    assert [QUOTE] + SpellAll(cs) + [QUOTE] == Text(cs);
  }

  // ----- decoding a kept key -----

  function Cons(v: int, rest: Option<string>): Option<string>
    requires Scalar(v)
  {
    if rest.None? then None else Some([v as char] + rest.value)
  }

  function Utf8Length(lead: byte): nat { if lead < 0x80 then 1 else Tails(lead) + 1 }

  /** The JSON string decoder applied to a kept key, after its opening quote. */
  function DecodeBody(bs: seq<byte>): Option<string>
    decreases |bs|
  {
    if bs == [] then None
    else if bs[0] == QUOTE then (if |bs| == 1 then Some("") else None)
    else if bs[0] == BACKSLASH then
      if |bs| < 2 then None
      else if bs[1] == LOWER_U then
        if |bs| < 6 || !HexQuad(bs[2..6]) then None
        else if HighSurrogate(HexValue(bs[2..6])) then
          if |bs| < 12 || bs[6] != BACKSLASH || bs[7] != LOWER_U || !HexQuad(bs[8..12]) then None
          else if !LowSurrogate(HexValue(bs[8..12])) then None
          else Cons(PairValue(HexValue(bs[2..6]), HexValue(bs[8..12])), DecodeBody(bs[12..]))
        else if LowSurrogate(HexValue(bs[2..6])) then None
        else Cons(HexValue(bs[2..6]), DecodeBody(bs[6..]))
      else if ShortEscape(bs[1]) then Cons(ShortValue(bs[1]), DecodeBody(bs[2..]))
      else None
    else
      var n := Utf8Length(bs[0]);
      if |bs| < n || !Utf8(bs[..n]) then None else Cons(CodePoint(bs[..n]), DecodeBody(bs[n..]))
  }

  function DecodeQuoted(raw: seq<byte>): Option<string> {
    if raw == [] || raw[0] != QUOTE then None else DecodeBody(raw[1..])
  }

  lemma HexValueBound(h: seq<byte>)
    requires |h| == 4
    ensures 0 <= HexValue(h) < 0x10000
  {
  }

  lemma DecodePlain(utf8: seq<byte>, rest: seq<byte>)
    requires Utf8(utf8)
    ensures DecodeBody(utf8 + rest) == Cons(CodePoint(utf8), DecodeBody(rest))
  {
    var bs := utf8 + rest;
    assert Utf8Length(bs[0]) == |utf8|;
    assert bs[..|utf8|] == utf8 && bs[|utf8|..] == rest;
  }

  lemma DecodeUnit(hex: seq<byte>, rest: seq<byte>)
    requires WellFormed(Unit(hex))
    ensures Scalar(HexValue(hex)) && DecodeBody(Spell(Unit(hex)) + rest) == Cons(HexValue(hex), DecodeBody(rest))
  {
    HexValueBound(hex);
    hide HexValue;
    var bs := Spell(Unit(hex)) + rest;
    assert bs[2..6] == hex && bs[6..] == rest;
  }

  lemma DecodePair(high: seq<byte>, low: seq<byte>, rest: seq<byte>)
    requires WellFormed(Pair(high, low))
    ensures DecodeBody(Spell(Pair(high, low)) + rest) ==
        Cons(PairValue(HexValue(high), HexValue(low)), DecodeBody(rest))
  {
    hide HexValue, HexQuad;
    assert |high| == 4 && |low| == 4 by { QuadLength(high); QuadLength(low); }
    var bs := Spell(Pair(high, low)) + rest;
    assert bs[2..6] == high && bs[8..12] == low && bs[12..] == rest;
  }

  lemma QuadLength(h: seq<byte>)
    requires HexQuad(h)
    ensures |h| == 4
  {
  }

  lemma DecodeChar(c: Char, rest: seq<byte>)
    requires WellFormed(c)
    ensures DecodeBody(Spell(c) + rest) == Cons(Meaning(c) as int, DecodeBody(rest))
  {
    match c
    case Plain(utf8) => DecodePlain(utf8, rest);
    case Short(escaped) => assert (Spell(c) + rest)[2..] == rest;
    case Unit(hex) => DecodeUnit(hex, rest);
    case Pair(high, low) => DecodePair(high, low, rest);
  }

  lemma {:induction false} DecodeSpelled(cs: seq<Char>, rest: seq<byte>)
    requires AllWellFormed(cs)
    ensures var d := DecodeBody(rest);
      DecodeBody(SpellAll(cs) + rest) == if d.None? then None else Some(Decoded(cs) + d.value)
  {
    hide DecodeBody, WellFormed, Spell, Meaning;
    if cs == [] {
      assert SpellAll(cs) + rest == rest;
      assert DecodeBody(rest).Some? ==> Decoded(cs) + DecodeBody(rest).value == DecodeBody(rest).value;
    } else {
      var init, c := cs[..|cs| - 1], cs[|cs| - 1];
      assert SpellAll(cs) + rest == SpellAll(init) + (Spell(c) + rest);
      DecodeSpelled(init, Spell(c) + rest);
      DecodeChar(c, rest);
      assert Decoded(cs) == Decoded(init) + [Meaning(c)];
      var d := DecodeBody(rest);
      if d.Some? {
        assert DecodeBody(Spell(c) + rest) == Some([Meaning(c)] + d.value);
        assert Decoded(init) + ([Meaning(c)] + d.value) == Decoded(cs) + d.value;
      }
    }
  }

  /** Decoding the text of a string gives back the string it spells. */
  lemma DecodeText(cs: seq<Char>)
    requires AllWellFormed(cs)
    ensures DecodeQuoted(Text(cs)) == Some(Decoded(cs))
  {
    hide SpellAll, Decoded;
    assert Text(cs)[1..] == SpellAll(cs) + [QUOTE];
    assert [QUOTE][0] == QUOTE;
    assert DecodeBody([QUOTE]) == Some("");
    DecodeSpelled(cs, [QUOTE]);
    assert Decoded(cs) + "" == Decoded(cs);
  }

  /** The key a frame ends up with: a key over 256 bytes is dropped and stands as the empty string. */
  function KeyOf(raw: Option<seq<byte>>): Option<string> {
    if raw.None? then Some("") else DecodeQuoted(raw.value)
  }

  function ReadKey(cs: seq<Char>): string
    requires AllWellFormed(cs)
  {
    if |Text(cs)| <= MAX_KEY then Decoded(cs) else ""
  }

  lemma KeyIsRead(cs: seq<Char>)
    requires AllWellFormed(cs)
    ensures KeyOf(if |Text(cs)| <= MAX_KEY then Some(Text(cs)) else None) == Some(ReadKey(cs))
  {
    hide Text, Decoded, DecodeQuoted;
    DecodeText(cs);
  }

  lemma {:induction false} SpelledLength(cs: seq<Char>)
    requires AllWellFormed(cs)
    ensures |SpellAll(cs)| <= 12 * |cs|
  {
    hide WellFormed, Spell;
    if cs != [] {
      SpelledLength(cs[..|cs| - 1]);
      SpellNonempty(cs[|cs| - 1]);
    }
  }

  /** Dropping long keys is invisible for names of at most 21 characters. */
  lemma DroppedKeyIsLong(cs: seq<Char>, name: string)
    requires AllWellFormed(cs) && 0 < |name| <= 21
    ensures ReadKey(cs) == name <==> Decoded(cs) == name
  {
    hide WellFormed, SpellAll;
    SpelledLength(cs);
  }
}
