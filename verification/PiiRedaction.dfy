/**
 Redaction of personal data in JSON values (guardrails.rs): each string is scanned three times, for e-mail addresses,
 social security numbers and phone numbers, and every match is replaced by a numbered placeholder.
 */
module PiiRedaction {
  import opened Placeholders

  datatype Kind = Email | Ssn | Phone

  function Label(k: Kind): string {
    match k case Email => "EMAIL" case Ssn => "SSN" case Phone => "PHONE"
  }

  predicate Digit(c: char) { '0' <= c <= '9' }

  predicate EmailChar(c: char) {
    || 'a' <= c <= 'z' || 'A' <= c <= 'Z' || Digit(c)
    || c == '@' || c == '.' || c == '_' || c == '%' || c == '+' || c == '-'
  }

  predicate PhoneChar(c: char) { Digit(c) || c == '+' || c == '-' || c == '(' || c == ')' || c == '.' }

  predicate TokenChar(c: char, k: Kind) {
    match k case Email => EmailChar(c) case Ssn => Digit(c) || c == '-' case Phone => PhoneChar(c)
  }

  // ----- what a token looks like -----

  predicate Trimmable(c: char) {
    || c == ',' || c == '.' || c == ';' || c == ':' || c == ')' || c == '(' || c == '[' || c == ']' || c == '{'
    || c == '}' || c == '"' || c == '\''
  }

  function TrimStart(s: string): string { if s != [] && Trimmable(s[0]) then TrimStart(s[1..]) else s }

  function TrimEnd(s: string): string { if s != [] && Trimmable(s[|s| - 1]) then TrimEnd(s[..|s| - 1]) else s }

  function Trim(s: string): string { TrimEnd(TrimStart(s)) }

  function IndexOf(s: string, c: char): (i: nat)
    ensures i <= |s| && (i < |s| ==> s[i] == c)
  {
    if s == [] || s[0] == c then 0 else 1 + IndexOf(s[1..], c)
  }

  function Split(s: string, c: char): (parts: seq<string>)
    ensures parts != []
    ensures |parts| > 1 ==> c in s
  {
    if s == [] then [[]] else
      var init := Split(s[..|s| - 1], c);
      if s[|s| - 1] == c then init + [[]]
      else init[..|init| - 1] + [init[|init| - 1] + [s[|s| - 1]]]
  }

  predicate LooksLikeEmail(s: string) {
    var at := IndexOf(s, '@');
    && 0 < at < |s|
    && (var domain := s[at + 1..];
        '.' in domain && domain[0] != '.' && domain[|domain| - 1] != '.')
    && forall c :: c in s ==> EmailChar(c)
  }

  predicate LooksLikeSsn(s: string) {
    var parts := Split(s, '-');
    && |parts| == 3 && |parts[0]| == 3 && |parts[1]| == 2 && |parts[2]| == 4
    && forall i :: 0 <= i < 3 ==> forall c :: c in parts[i] ==> Digit(c)
  }

  function Digits(s: string): nat { if s == [] then 0 else (if Digit(s[0]) then 1 else 0) + Digits(s[1..]) }

  predicate LooksLikePhone(s: string) { 10 <= Digits(s) <= 15 && forall c :: c in s ==> PhoneChar(c) }

  predicate LooksLike(k: Kind, s: string) {
    match k case Email => LooksLikeEmail(s) case Ssn => LooksLikeSsn(s) case Phone => LooksLikePhone(s)
  }

  // ----- placeholders -----

  function Decimal(n: nat): (r: string)
    ensures r != [] && forall c :: c in r ==> Digit(c)
  {
    var last := ['0' + (n % 10) as char];
    if n < 10 then last else Decimal(n / 10) + last
  }

  function Placeholder(k: Kind, n: nat): string { "[" + Label(k) + "_" + Decimal(n) + "]" }

  // ----- scanning -----

  datatype Tally = Tally(emails: nat, ssns: nat, phones: nat, mappings: seq<Mapping>)

  const NOTHING := Tally(0, 0, 0, [])

  function Count(t: Tally, k: Kind): nat {
    match k case Email => t.emails case Ssn => t.ssns case Phone => t.phones
  }

  function Counted(t: Tally, k: Kind): Tally {
    match k
    case Email => Tally(t.emails + 1, t.ssns, t.phones, t.mappings)
    case Ssn => Tally(t.emails, t.ssns + 1, t.phones, t.mappings)
    case Phone => Tally(t.emails, t.ssns, t.phones + 1, t.mappings)
  }

  function Noted(t: Tally, m: Mapping): Tally { Tally(t.emails, t.ssns, t.phones, t.mappings + [m]) }

  datatype Scan = Scan(out: string, token: string, tally: Tally)

  /** `replacen(pattern, value, 1)` for a pattern that is not empty. */
  function ReplaceFirst(s: string, pattern: string, value: string): string {
    if pattern <= s then value + s[|pattern|..]
    else if s == [] then []
    else s[..1] + ReplaceFirst(s[1..], pattern, value)
  }

  /** `push_redacted_token`: the finished token goes out, with its trimmed part replaced if that is a match. */
  function Push(s: Scan, k: Kind, collect: bool): Scan {
    if s.token == [] then s else
      var trimmed := Trim(s.token);
      if !LooksLike(k, trimmed) then Scan(s.out + s.token, [], s.tally) else
        var t := Counted(s.tally, k);
        var p := Placeholder(k, Count(t, k));
        Scan(s.out + ReplaceFirst(s.token, trimmed, p), [], if collect then Noted(t, Mapping(p, trimmed)) else t)
  }

  function Read(s: Scan, c: char, k: Kind, collect: bool): Scan {
    if TokenChar(c, k) then Scan(s.out, s.token + [c], s.tally) else
      var pushed := Push(s, k, collect);
      Scan(pushed.out + [c], [], pushed.tally)
  }

  function ReadAll(s: Scan, text: string, k: Kind, collect: bool): Scan {
    if text == [] then s else Read(ReadAll(s, text[..|text| - 1], k, collect), text[|text| - 1], k, collect)
  }

  function RedactTokens(text: string, t: Tally, k: Kind, collect: bool): (string, Tally) {
    var s := Push(ReadAll(Scan([], [], t), text, k, collect), k, collect);
    (s.out, s.tally)
  }

  function RedactText(text: string, t: Tally, collect: bool): (string, Tally) {
    var email := RedactTokens(text, t, Email, collect);
    var ssn := RedactTokens(email.0, email.1, Ssn, collect);
    RedactTokens(ssn.0, ssn.1, Phone, collect)
  }

  // ----- values -----

  /** The values of an object are listed in its order; its keys are never redacted. */
  datatype Value =
    | Null
    | Bool(b: bool)
    | Number(numeral: string)
    | Text(text: string)
    | Array(items: seq<Value>)
    | Object(keys: seq<string>, values: seq<Value>)

  function RedactValue(v: Value, t: Tally, collect: bool): (Value, Tally)
    decreases v
  {
    match v
    case Text(text) => var r := RedactText(text, t, collect); (Text(r.0), r.1)
    case Array(items) => var r := RedactValues(items, t, collect); (Array(r.0), r.1)
    case Object(keys, values) => var r := RedactValues(values, t, collect); (Object(keys, r.0), r.1)
    case Null => (v, t)
    case Bool(_) => (v, t)
    case Number(_) => (v, t)
  }

  function RedactValues(vs: seq<Value>, t: Tally, collect: bool): (seq<Value>, Tally)
    decreases vs
  {
    if vs == [] then ([], t) else
      var init := RedactValues(vs[..|vs| - 1], t, collect);
      var last := RedactValue(vs[|vs| - 1], init.1, collect);
      (init.0 + [last.0], last.1)
  }

  function RestoreValue(v: Value, ms: seq<Mapping>): Value
    decreases v
  {
    match v
    case Text(text) => Text(Restored(text, ms, |ms|))
    case Array(items) => Array(RestoreValues(items, ms))
    case Object(keys, values) => Object(keys, RestoreValues(values, ms))
    case Null => v
    case Bool(_) => v
    case Number(_) => v
  }

  function RestoreValues(vs: seq<Value>, ms: seq<Mapping>): seq<Value>
    decreases vs
  {
    if vs == [] then [] else RestoreValues(vs[..|vs| - 1], ms) + [RestoreValue(vs[|vs| - 1], ms)]
  }

  // ----- the source's in-place form -----

  class Redaction {
    var emails: nat
    var ssns: nat
    var phones: nat
    var mappings: seq<Mapping>

    function State(): Tally
      reads this
    {
      Tally(emails, ssns, phones, mappings)
    }

    constructor ()
      ensures State() == NOTHING
    {
      emails, ssns, phones, mappings := 0, 0, 0, [];
    }

    method PushRedactedToken(output: string, token: string, k: Kind, collect: bool) returns (out: string)
      modifies this
      ensures Scan(out, [], State()) == Push(Scan(output, token, old(State())), k, collect)
    {
      hide Trim, LooksLike, Placeholder, ReplaceFirst;
      if token == [] { return output; }
      var trimmed := Trim(token);
      if !LooksLike(k, trimmed) { return output + token; }
      var index;
      match k {
        case Email => emails := emails + 1; index := emails;
        case Ssn => ssns := ssns + 1; index := ssns;
        case Phone => phones := phones + 1; index := phones;
      }
      var placeholder := Placeholder(k, index);
      if collect { mappings := mappings + [Mapping(placeholder, trimmed)]; }
      out := output + ReplaceFirst(token, trimmed, placeholder);
    }

    method Tokens(input: string, k: Kind, collect: bool) returns (out: string)
      modifies this
      ensures (out, State()) == RedactTokens(input, old(State()), k, collect)
    {
      hide Push, TokenChar;
      out := [];
      var token := [];
      for i := 0 to |input|
        invariant Scan(out, token, State()) == ReadAll(Scan([], [], old(State())), input[..i], k, collect)
      {
        assert input[..i + 1][..i] == input[..i];
        if TokenChar(input[i], k) {
          token := token + [input[i]];
        } else {
          out := PushRedactedToken(out, token, k, collect);
          token := [];
          out := out + [input[i]];
        }
      }
      assert input[..|input|] == input;
      out := PushRedactedToken(out, token, k, collect);
    }

    method String(input: string, collect: bool) returns (out: string)
      modifies this
      ensures (out, State()) == RedactText(input, old(State()), collect)
    {
      hide RedactTokens;
      out := Tokens(input, Email, collect);
      out := Tokens(out, Ssn, collect);
      out := Tokens(out, Phone, collect);
    }

    method Json(v: Value, collect: bool) returns (r: Value)
      modifies this
      ensures (r, State()) == RedactValue(v, old(State()), collect)
      decreases v, 1
    {
      hide RedactText, RedactValues;
      match v
      case Text(text) => var out := String(text, collect); r := Text(out);
      case Array(items) => var out := Elements(items, collect); r := Array(out);
      case Object(keys, values) => var out := Elements(values, collect); r := Object(keys, out);
      case Null => r := v;
      case Bool(_) => r := v;
      case Number(_) => r := v;
    }

    method Elements(vs: seq<Value>, collect: bool) returns (r: seq<Value>)
      modifies this
      ensures (r, State()) == RedactValues(vs, old(State()), collect)
      decreases vs, 0
    {
      hide RedactValue;
      r := [];
      for i := 0 to |vs|
        invariant (r, State()) == RedactValues(vs[..i], old(State()), collect)
      {
        assert vs[..i + 1][..i] == vs[..i];
        var out := Json(vs[i], collect);
        r := r + [out];
      }
      assert vs[..|vs|] == vs;
    }
  }

  method RestoreJson(v: Value, ms: seq<Mapping>) returns (r: Value)
    ensures r == RestoreValue(v, ms)
    decreases v, 1
  {
    hide Restored, RestoreValues;
    match v
    case Text(text) => var out := RestoreText(text, ms); r := Text(out);
    case Array(items) => var out := RestoreElements(items, ms); r := Array(out);
    case Object(keys, values) => var out := RestoreElements(values, ms); r := Object(keys, out);
    case Null => r := v;
    case Bool(_) => r := v;
    case Number(_) => r := v;
  }

  method RestoreElements(vs: seq<Value>, ms: seq<Mapping>) returns (r: seq<Value>)
    ensures r == RestoreValues(vs, ms)
    decreases vs, 0
  {
    hide RestoreValue;
    r := [];
    for i := 0 to |vs|
      invariant r == RestoreValues(vs[..i], ms)
    {
      assert vs[..i + 1][..i] == vs[..i];
      var out := RestoreJson(vs[i], ms);
      r := r + [out];
    }
    assert vs[..|vs|] == vs;
  }
}
