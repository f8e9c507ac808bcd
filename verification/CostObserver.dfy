/**
 The streaming cost observer of response_cost.rs as functions on its state: what one byte does.
 The class ResponseCost.Observer performs these steps in place.
 */
module CostObserver {
  import opened Base
  import opened JsonDocuments
  import N = Numerals
  import S = JsonStrings

  /** The six places a cost may stand, in order of priority. */
  const COST_PATHS: seq<seq<string>> := [
    [ESTIMATED_COST],
    [RESPONSE_COST],
    [USAGE, ESTIMATED_COST],
    [USAGE, TOTAL_COST],
    [USAGE, COST],
    [HIDDEN_PARAMS, RESPONSE_COST]]

  const MAX_STACK := 128

  datatype Expect = KeyOrEnd | Key | Colon | ValueOrEnd | Value | CommaOrEnd

  datatype Frame = Frame(isObject: bool, expects: Expect, path: seq<string>, key: Option<string>)

  datatype Token = StringToken(text: S.Token) | ScalarToken(value: N.Scalar, path: seq<string>)

  type Costs = c: seq<Option<real>> | |c| == 6 witness [None, None, None, None, None, None]

  datatype State = State(
    stack: seq<Frame>, token: Option<Token>, costs: Costs, started: bool, done: bool, failed: bool)

  const INITIAL := State([], None, [None, None, None, None, None, None], false, false, false)

  function Top(o: State): Frame
    requires o.stack != []
  {
    o.stack[|o.stack| - 1]
  }

  function WithTop(o: State, f: Frame): State
    requires o.stack != []
  {
    o.(stack := o.stack[|o.stack| - 1 := f])
  }

  function Fail(o: State): State { o.(failed := true) }

  // ----- paths -----

  predicate Relevant(path: seq<string>) { exists i :: 0 <= i < 6 && path <= COST_PATHS[i] }

  /** A path under which no cost can stand is remembered as a single empty name. */
  function Collapse(path: seq<string>): seq<string> { if Relevant(path) then path else [""] }

  /** A value at `path` replaces whatever was read at or below it before. */
  function Clear(costs: Costs, path: seq<string>): Costs {
    seq(6, i requires 0 <= i < 6 => if path <= COST_PATHS[i] then None else costs[i])
  }

  predicate TakesValue(f: Frame) {
    (f.expects == Value || f.expects == ValueOrEnd) && (f.isObject ==> f.key.Some?)
  }

  function FullPath(f: Frame): seq<string>
    requires TakesValue(f)
  {
    f.path + [if f.isObject then f.key.value else ""]
  }

  /** The state in which the top frame has begun its value, when it may: `value_path`. */
  function Begin(o: State): State
    requires o.stack != [] && TakesValue(Top(o))
  {
    var f := Top(o);
    WithTop(o, f.(expects := CommaOrEnd, key := if f.isObject then None else f.key))
      .(costs := Clear(o.costs, FullPath(f)))
  }

  // ----- tokens -----

  function FinishScalar(dec: N.Decoder, o: State): State {
    if o.token.Some? && o.token.value.ScalarToken? then
      var ScalarToken(value, path) := o.token.value;
      var o := o.(token := None);
      if N.Valid(value) then
        o.(costs := seq(6, i requires 0 <= i < 6 => if path == COST_PATHS[i] then N.Cost(dec, value) else o.costs[i]))
      else Fail(o)
    else o
  }

  predicate Terminates(b: byte) { Whitespace(b) || b == COMMA || b == RBRACE || b == RBRACKET }

  function CloseString(o: State, key: bool, raw: Option<seq<byte>>): State {
    var o := o.(token := None);
    if !key then o else
      var k := S.KeyOf(raw);
      if k.None? || o.stack == [] then Fail(o)
      else WithTop(o, Top(o).(key := k, expects := Colon))
  }

  function StringStep(o: State, t: S.Token, b: byte): State {
    match S.Step(t, b)
    case Continue(u) => o.(token := Some(StringToken(u)))
    case Reject(u) => Fail(o.(token := Some(StringToken(u))))
    case Close(raw) => CloseString(o, t.key, raw)
  }

  function ScalarStep(o: State, value: N.Scalar, path: seq<string>, b: byte): State {
    var v := N.Feed(value, b);
    o.(token := Some(ScalarToken(v, path)), failed := o.failed || v.state == N.BROKEN)
  }

  // ----- structure -----

  function OpenContainer(o: State, isObject: bool): State {
    if o.stack == [] || !TakesValue(Top(o)) then Fail(o) else
      var p := Begin(o);
      if |p.stack| >= MAX_STACK then Fail(p)
      else p.(stack := p.stack +
                [Frame(isObject, if isObject then KeyOrEnd else ValueOrEnd, Collapse(FullPath(Top(o))), None)])
  }

  predicate MayEnd(e: Expect) { e == KeyOrEnd || e == ValueOrEnd || e == CommaOrEnd }

  function CloseContainer(o: State, isObject: bool): State
    requires o.stack != []
  {
    if Top(o).isObject != isObject || !MayEnd(Top(o).expects) then Fail(o) else
      o.(stack := o.stack[..|o.stack| - 1], done := |o.stack| == 1)
  }

  predicate WantsKey(f: Frame) { f.isObject && (f.expects == Key || f.expects == KeyOrEnd) }

  function OpenString(o: State): State
    requires o.stack != []
  {
    if WantsKey(Top(o)) then o.(token := Some(StringToken(S.Start(true))))
    else if TakesValue(Top(o)) then Begin(o).(token := Some(StringToken(S.Start(false))))
    else Fail(o)
  }

  predicate ScalarStart(b: byte) { b == N.MINUS || N.Digit(b) || b == 0x74 || b == 0x66 || b == 0x6E }

  function OpenScalar(o: State, b: byte): State
    requires o.stack != []
  {
    if TakesValue(Top(o)) then
      Begin(o).(token := Some(ScalarToken(N.ReadAll([b]), Collapse(FullPath(Top(o))))))
    else Fail(o)
  }

  function Inside(o: State, b: byte): State
    requires o.stack != []
  {
    if b == S.QUOTE then OpenString(o)
    else if b == LBRACE || b == LBRACKET then OpenContainer(o, b == LBRACE)
    else if b == RBRACE || b == RBRACKET then CloseContainer(o, b == RBRACE)
    else if b == COLON && Top(o).isObject && Top(o).expects == Colon then WithTop(o, Top(o).(expects := Value))
    else if b == COMMA && Top(o).expects == CommaOrEnd then
      WithTop(o, Top(o).(expects := if Top(o).isObject then Key else Value))
    else if ScalarStart(b) then OpenScalar(o, b)
    else Fail(o)
  }

  function Structural(o: State, b: byte): State {
    if Whitespace(b) then o
    else if !o.started then
      if b == LBRACE then o.(started := true, stack := o.stack + [Frame(true, KeyOrEnd, [], None)])
      else Fail(o.(started := true))
    else if o.done || o.stack == [] then Fail(o)
    else Inside(o, b)
  }

  // ----- the stream -----

  function Step(dec: N.Decoder, o: State, b: byte): State {
    if o.failed then o
    else if o.token.None? then Structural(o, b)
    else match o.token.value
      case StringToken(t) => StringStep(o, t, b)
      case ScalarToken(value, path) =>
        if Terminates(b) then Structural(FinishScalar(dec, o), b) else ScalarStep(o, value, path, b)
  }

  function Run(dec: N.Decoder, o: State, bs: seq<byte>): State
    decreases |bs|
  {
    if bs == [] then o else Run(dec, Step(dec, o, bs[0]), bs[1..])
  }

  function Finish(dec: N.Decoder, o: State): State {
    var o := FinishScalar(dec, o);
    o.(failed := o.failed || !o.done || o.token.Some? || o.stack != [])
  }

  function ReportedCost(o: State): Option<real> {
    if o.failed || !o.done then None else First(o.costs)
  }

  /** What the observer concludes from a whole body. */
  function Observe(dec: N.Decoder, body: seq<byte>): State { Finish(dec, Run(dec, INITIAL, body)) }

  lemma {:induction false} RunConcat(dec: N.Decoder, o: State, a: seq<byte>, b: seq<byte>)
    ensures Run(dec, o, a + b) == Run(dec, Run(dec, o, a), b)
    decreases |a|
  {
    hide Step;
    if a == [] {
      assert a + b == b;
    } else {
      assert (a + b)[0] == a[0] && (a + b)[1..] == a[1..] + b;
      RunConcat(dec, Step(dec, o, a[0]), a[1..], b);
    }
  }
}
