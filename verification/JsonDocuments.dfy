/**
 JSON object texts as trees that keep every byte, what they denote, and the cost the gateway reads from them
 (`extract_estimated_cost_usd` in usage.rs).
 */
module JsonDocuments {
  import opened Base
  import N = Numerals
  import V = NumeralValues
  import S = JsonStrings

  const COMMA: byte := 0x2C
  const COLON: byte := 0x3A
  const LBRACE: byte := 0x7B
  const RBRACE: byte := 0x7D
  const LBRACKET: byte := 0x5B
  const RBRACKET: byte := 0x5D

  predicate Whitespace(b: byte) { b == 0x20 || b == 0x09 || b == 0x0D || b == 0x0A }

  ghost predicate Spaces(s: seq<byte>) { forall i :: 0 <= i < |s| ==> Whitespace(s[i]) }

  // ----- texts -----

  /** A value as written. Members and items grow at their end, so the last one written is the outermost. */
  datatype Json =
    | String(chars: seq<S.Char>)
    | Literal(name: seq<byte>)
    | Number(numeral: N.Numeral)
    | Object(pad: seq<byte>, members: Members)
    | Array(pad: seq<byte>, items: Items)

  datatype Members =
    | NoMembers
    | Member(before: Members, s1: seq<byte>, key: seq<S.Char>, s2: seq<byte>, s3: seq<byte>, value: Json, s4: seq<byte>)

  datatype Items =
    | NoItems
    | Item(before: Items, s1: seq<byte>, value: Json, s2: seq<byte>)

  ghost predicate WellFormed(j: Json) {
    match j
    case String(chars) => S.AllWellFormed(chars)
    case Literal(name) => N.IsLiteral(name)
    case Number(numeral) => N.WellFormed(numeral)
    case Object(pad, members) => Spaces(pad) && WellFormedMembers(members)
    case Array(pad, items) => Spaces(pad) && WellFormedItems(items)
  }

  ghost predicate WellFormedMembers(m: Members) {
    m.Member? ==>
      && WellFormedMembers(m.before)
      && Spaces(m.s1) && S.AllWellFormed(m.key) && Spaces(m.s2) && Spaces(m.s3) && WellFormed(m.value) && Spaces(m.s4)
  }

  ghost predicate WellFormedItems(t: Items) {
    t.Item? ==> WellFormedItems(t.before) && Spaces(t.s1) && WellFormed(t.value) && Spaces(t.s2)
  }

  function Text(j: Json): seq<byte> {
    match j
    case String(chars) => S.Text(chars)
    case Literal(name) => name
    case Number(numeral) => N.Text(numeral)
    case Object(pad, members) => [LBRACE] + pad + MembersText(members) + [RBRACE]
    case Array(pad, items) => [LBRACKET] + pad + ItemsText(items) + [RBRACKET]
  }

  /** The comma that precedes every member but the first. */
  function MemberComma(m: Members): seq<byte> { if m.NoMembers? then [] else [COMMA] }

  function KeyText(s1: seq<byte>, key: seq<S.Char>, s2: seq<byte>): seq<byte> { s1 + S.Text(key) + s2 }

  function MembersText(m: Members): seq<byte> {
    if m.NoMembers? then [] else
      MembersText(m.before) + MemberComma(m.before) + KeyText(m.s1, m.key, m.s2) + [COLON] + m.s3 + Text(m.value) + m.s4
  }

  lemma FiveParts(a: seq<byte>, b: seq<byte>, c: seq<byte>, d: seq<byte>, e: seq<byte>)
    ensures a + b + c + d + e == a + (b + c + d + e)
  {
  }

  function ItemComma(t: Items): seq<byte> { if t.NoItems? then [] else [COMMA] }

  function ItemsText(t: Items): seq<byte> {
    if t.NoItems? then [] else ItemsText(t.before) + ItemComma(t.before) + t.s1 + Text(t.value) + t.s2
  }

  /** How many containers are open at once while the value is read. */
  function Depth(j: Json): nat {
    match j
    case Object(_, members) => 1 + MembersDepth(members)
    case Array(_, items) => 1 + ItemsDepth(items)
    case _ => 0
  }

  function MembersDepth(m: Members): nat {
    if m.NoMembers? then 0 else Max(MembersDepth(m.before), Depth(m.value))
  }

  function ItemsDepth(t: Items): nat {
    if t.NoItems? then 0 else Max(ItemsDepth(t.before), Depth(t.value))
  }

  /** A whole response body: one object between optional whitespace. */
  datatype Document = Document(lead: seq<byte>, pad: seq<byte>, members: Members, trail: seq<byte>)

  function Root(d: Document): Json { Object(d.pad, d.members) }

  ghost predicate WellFormedDocument(d: Document) {
    Spaces(d.lead) && WellFormed(Root(d)) && Spaces(d.trail)
  }

  function DocumentText(d: Document): seq<byte> { d.lead + Text(Root(d)) + d.trail }

  // ----- meanings -----

  datatype Datum = VNumber(reading: Option<Float>) | VObject(fields: map<string, Datum>) | VOther

  /** The tree of values, in which a later duplicate of a key replaces the earlier one, whole containers included. */
  function Meaning(dec: N.Decoder, j: Json): Datum
    requires WellFormed(j)
  {
    match j
    case Number(numeral) => VNumber(N.Decode(dec, numeral))
    case Object(_, members) => VObject(Fields(dec, members))
    case _ => VOther
  }

  function Fields(dec: N.Decoder, m: Members): map<string, Datum>
    requires WellFormedMembers(m)
  {
    if m.NoMembers? then map[] else Fields(dec, m.before)[S.Decoded(m.key) := Meaning(dec, m.value)]
  }

  /** The same tree with every number read by its value alone, however it is written. */
  function Valued(read: V.Reading, j: Json): Datum
    requires WellFormed(j)
  {
    match j
    case Number(numeral) => VNumber(read(numeral.minus, N.Magnitude(numeral)))
    case Object(_, members) => VObject(ValuedFields(read, members))
    case _ => VOther
  }

  function ValuedFields(read: V.Reading, m: Members): map<string, Datum>
    requires WellFormedMembers(m)
  {
    if m.NoMembers? then map[] else ValuedFields(read, m.before)[S.Decoded(m.key) := Valued(read, m.value)]
  }

  /** The last value written under a key. */
  function LastMember(m: Members, key: string): (j: Option<Json>)
    requires WellFormedMembers(m)
    ensures j.Some? ==> WellFormed(j.value)
  {
    if m.NoMembers? then None else if S.Decoded(m.key) == key then Some(m.value) else LastMember(m.before, key)
  }

  /** The numeral at a path of object keys, where later duplicates count. */
  function NumeralAt(j: Json, path: seq<string>): (n: Option<N.Numeral>)
    requires WellFormed(j)
    ensures n.Some? ==> N.WellFormed(n.value)
    decreases |path|
  {
    if path == [] then (if j.Number? then Some(j.numeral) else None)
    else if !j.Object? then None
    else
      var v := LastMember(j.members, path[0]);
      if v.None? then None else NumeralAt(v.value, path[1..])
  }

  // ----- the cost of a whole document -----

  const ESTIMATED_COST := "estimated_cost"
  const RESPONSE_COST := "response_cost"
  const USAGE := "usage"
  const TOTAL_COST := "total_cost"
  const COST := "cost"
  const HIDDEN_PARAMS := "_hidden_params"

  function Get(v: Datum, key: string): Option<Datum> {
    if v.VObject? && key in v.fields then Some(v.fields[key]) else None
  }

  /** A JSON pointer of two object keys. */
  function Pointer(v: Datum, outer: string, inner: string): Option<Datum> {
    var o := Get(v, outer);
    if o.None? then None else Get(o.value, inner)
  }

  function AsFloat(v: Option<Datum>): Option<Float> {
    if v.Some? && v.value.VNumber? then v.value.reading else None
  }

  /** The cost a complete parse finds: the first finite positive number in the order of the six places. */
  function EstimatedCost(v: Datum): Option<real> {
    First([
      N.Positive(AsFloat(Get(v, ESTIMATED_COST))),
      N.Positive(AsFloat(Get(v, RESPONSE_COST))),
      N.Positive(AsFloat(Pointer(v, USAGE, ESTIMATED_COST))),
      N.Positive(AsFloat(Pointer(v, USAGE, TOTAL_COST))),
      N.Positive(AsFloat(Pointer(v, USAGE, COST))),
      N.Positive(AsFloat(Pointer(v, HIDDEN_PARAMS, RESPONSE_COST)))])
  }

  function First(costs: seq<Option<real>>): Option<real> {
    if costs == [] then None else if costs[0].Some? then costs[0] else First(costs[1..])
  }
}
