/**
 The observer as the object of response_cost.rs, updated in place one byte at a time, and what it promises for a
 whole response body however it is cut into chunks.
 */
module ResponseCost {
  import opened Base
  import opened JsonDocuments
  import opened CostObserver
  import N = Numerals
  import V = NumeralValues
  import S = JsonStrings
  import Reads = CostObserverReads
  import Accepts = CostObserverAccepts

  // ----- the promise -----

  /** One JSON object per RFC 8259 and RFC 3629, surrogate escapes paired, at most 128 containers open at once. */
  ghost predicate IsText(d: Document, body: seq<byte>) {
    WellFormedDocument(d) && Depth(Root(d)) <= 128 && DocumentText(d) == body
  }

  ghost predicate ObjectText(body: seq<byte>) { exists d :: IsText(d, body) }

  /** The observer fails exactly on bodies that are not such a text. */
  lemma AcceptsExactlyObjectTexts(dec: N.Decoder, body: seq<byte>)
    ensures !Observe(dec, body).failed <==> ObjectText(body)
  {
    hide Observe, IsText;
    if !Observe(dec, body).failed {
      var d := Accepts.AcceptedIsDocument(dec, body);
      assert IsText(d, body) by { Introduce(d, body); }
    }
    forall d | IsText(d, body) ensures !Observe(dec, body).failed {
      Eliminate(d, body);
      Reads.DocumentIsRead(dec, d);
    }
  }

  lemma Introduce(d: Document, body: seq<byte>)
    requires WellFormedDocument(d) && Depth(Root(d)) <= MAX_STACK && DocumentText(d) == body
    ensures IsText(d, body)
  {
  }

  lemma Eliminate(d: Document, body: seq<byte>)
    requires IsText(d, body)
    ensures WellFormedDocument(d) && Depth(Root(d)) <= MAX_STACK && DocumentText(d) == body
  {
  }

  /**
   The reported cost is the complete parse's, whichever tree the text is read as, and there is none when the body
   is not an object text.
   */
  lemma ReportsTheParsedCost(dec: N.Decoder, body: seq<byte>)
    ensures forall d :: IsText(d, body) ==> ReportedCost(Observe(dec, body)) == EstimatedCost(Meaning(dec, Root(d)))
    ensures !ObjectText(body) ==> ReportedCost(Observe(dec, body)) == None
  {
    hide Observe, EstimatedCost, First, Meaning, DocumentText, Depth, ObjectText;
    forall d | IsText(d, body) ensures ReportedCost(Observe(dec, body)) == EstimatedCost(Meaning(dec, Root(d))) {
      Reads.DocumentIsRead(dec, d);
    }
    AcceptsExactlyObjectTexts(dec, body);
  }

  /**
   When the float parsers charge a numeral for the number it denotes, the reported cost is that of the tree in which
   every number is read by its value, as long as truncation harms none of the numerals at the six places: each has at
   most 128 bytes, or is zero, or has an exponent of at most 10^9 and only zeros after its first 64 digits.
   */
  lemma ReportsTheCostByValue(dec: N.Decoder, read: V.Reading, body: seq<byte>, d: Document)
    requires V.ByValue(dec, read) && IsText(d, body) && Reads.UnharmedCosts(Root(d))
    ensures ReportedCost(Observe(dec, body)) == EstimatedCost(Valued(read, Root(d)))
  {
    hide Observe, EstimatedCost, First, Meaning, Valued, DocumentText, Depth, Reads.UnharmedCosts, V.ByValue;
    ReportsTheParsedCost(dec, body);
    Reads.CostIsByValue(dec, read, Root(d));
  }

  // ----- which place is reported -----

  /** The six places, the first ones preferred. */
  const PLACES: seq<seq<string>> := [
    ["estimated_cost"], ["response_cost"], ["usage", "estimated_cost"], ["usage", "total_cost"], ["usage", "cost"],
    ["_hidden_params", "response_cost"]]

  /** The last number written at place `k` reads as the finite positive cost `x`. */
  ghost predicate Offers(dec: N.Decoder, j: Json, k: nat, x: real)
    requires WellFormed(j) && k < 6
  {
    var n := NumeralAt(j, PLACES[k]);
    n.Some? && N.Decode(dec, n.value) == Some(Finite(x)) && x > 0.0
  }

  ghost predicate OffersAny(dec: N.Decoder, j: Json, k: nat)
    requires WellFormed(j) && k < 6
  {
    exists x :: Offers(dec, j, k, x)
  }

  /** The cost is what the first place that offers one offers, and there is none if no place does. */
  ghost predicate FirstOffer(dec: N.Decoder, j: Json, cost: Option<real>)
    requires WellFormed(j)
  {
    && (forall x :: cost == Some(x) <==>
          exists k :: 0 <= k < 6 && Offers(dec, j, k, x) && forall i :: 0 <= i < k ==> !OffersAny(dec, j, i))
    && (cost == None <==> forall k :: 0 <= k < 6 ==> !OffersAny(dec, j, k))
  }

  ghost predicate Leads(costs: seq<Option<real>>, k: nat) {
    k < |costs| && costs[k].Some? && forall i :: 0 <= i < k ==> costs[i].None?
  }

  lemma {:induction false} FirstLeads(costs: seq<Option<real>>) returns (k: nat)
    ensures First(costs).None? ==> forall i :: 0 <= i < |costs| ==> costs[i].None?
    ensures First(costs).Some? ==> Leads(costs, k) && First(costs) == costs[k]
  {
    k := 0;
    if costs != [] && costs[0].None? {
      var m := FirstLeads(costs[1..]);
      k := m + 1;
      assert forall i :: 0 < i < |costs| ==> costs[i] == costs[1..][i - 1];
    }
  }

  lemma PlaceOffers(dec: N.Decoder, j: Json, k: nat)
    requires WellFormed(j) && k < 6
    ensures var c := Reads.CostAt(Meaning(dec, j), COST_PATHS[k]);
      (forall x :: c == Some(x) <==> Offers(dec, j, k, x)) && (c == None <==> !OffersAny(dec, j, k))
  {
    hide N.Decode, Meaning, Reads.CostAt, NumeralAt, WellFormed;
    Reads.CostsAtNumerals(dec, (_, _) => None, j, COST_PATHS[k]);
    assert COST_PATHS[k] == PLACES[k];
    var c := Reads.CostAt(Meaning(dec, j), COST_PATHS[k]);
    if c.Some? { assert Offers(dec, j, k, c.value); }
  }

  lemma ReportsTheFirstOffer(dec: N.Decoder, j: Json)
    requires WellFormed(j)
    ensures FirstOffer(dec, j, EstimatedCost(Meaning(dec, j)))
  {
    hide Meaning, EstimatedCost, First, WellFormed, Offers, OffersAny, Reads.CostAt;
    var v := Meaning(dec, j);
    Reads.EstimateIsFirst(v);
    var costs := seq(6, i requires 0 <= i < 6 => Reads.CostAt(v, COST_PATHS[i]));
    assert costs == [costs[0], costs[1], costs[2], costs[3], costs[4], costs[5]];
    var k := FirstLeads(costs);
    forall i | 0 <= i < 6
      ensures forall x :: costs[i] == Some(x) <==> Offers(dec, j, i, x)
      ensures costs[i] == None <==> !OffersAny(dec, j, i) {
      PlaceOffers(dec, j, i);
    }
    OffersLead(dec, j, costs, k);
  }

  lemma OffersLead(dec: N.Decoder, j: Json, costs: seq<Option<real>>, k: nat)
    requires WellFormed(j) && |costs| == 6
    requires forall i :: 0 <= i < 6 ==>
      (forall x :: costs[i] == Some(x) <==> Offers(dec, j, i, x)) && (costs[i] == None <==> !OffersAny(dec, j, i))
    requires First(costs).None? ==> forall i :: 0 <= i < 6 ==> costs[i].None?
    requires First(costs).Some? ==> Leads(costs, k) && First(costs) == costs[k]
    ensures FirstOffer(dec, j, First(costs))
  {
    hide First, WellFormed, Offers, OffersAny;
    var cost := First(costs);
    forall x ensures cost == Some(x) <==>
        exists i :: 0 <= i < 6 && Offers(dec, j, i, x) && forall h :: 0 <= h < i ==> !OffersAny(dec, j, h) {
      if cost == Some(x) { assert Offers(dec, j, k, x); }
      if i :| 0 <= i < 6 && Offers(dec, j, i, x) && forall h :: 0 <= h < i ==> !OffersAny(dec, j, h) {
        assert costs[i] == Some(x);
        assert cost.Some? && k == i;
      }
    }
  }

  // ----- bounded memory -----

  ghost predicate BoundedToken(t: Token) {
    match t
    case StringToken(text) => text.raw.Some? ==> |text.raw.value| <= 256
    case ScalarToken(value, path) => |value.raw| <= 129 && |value.digits| <= 64 && |path| <= 2
  }

  ghost predicate BoundedFrame(f: Frame) {
    |f.path| <= 2 && (f.key.Some? ==> |f.key.value| <= 256)
  }

  /** What is retained never depends on how long the body is; and a key is only ever read inside a container. */
  ghost predicate Bounded(o: State) {
    && |o.stack| <= 128
    && (forall i :: 0 <= i < |o.stack| ==> BoundedFrame(o.stack[i]))
    && (o.token.Some? ==> BoundedToken(o.token.value))
    && (o.token.Some? && o.token.value.StringToken? && o.token.value.text.key ==> o.stack != [])
    && (!o.started ==> o.stack == [])
  }

  lemma CollapsedIsShort(path: seq<string>)
    ensures |Collapse(path)| <= 2
  {
  }

  lemma StringBounded(t: S.Token, b: byte)
    requires BoundedToken(StringToken(t))
    ensures match S.Step(t, b)
      case Continue(u) => BoundedToken(StringToken(u)) && u.key == t.key
      case Reject(u) => BoundedToken(StringToken(u)) && u.key == t.key
      case Close(raw) => raw.Some? ==> |raw.value| <= S.MAX_KEY
  {
  }

  lemma {:induction false} DecodedIsShort(bs: seq<byte>)
    ensures S.DecodeBody(bs).Some? ==> |S.DecodeBody(bs).value| <= |bs|
    decreases |bs|
  {
    hide S.HexQuad, S.HexValue, S.Utf8, S.CodePoint, S.PairValue, S.ShortValue, S.Tails;
    if |bs| >= 1 { DecodedIsShort(bs[1..]); }
    if |bs| >= 2 { DecodedIsShort(bs[2..]); }
    if |bs| >= 6 { DecodedIsShort(bs[6..]); }
    if |bs| >= 12 { DecodedIsShort(bs[12..]); }
    if |bs| >= 1 && 1 <= S.Utf8Length(bs[0]) <= |bs| { DecodedIsShort(bs[S.Utf8Length(bs[0])..]); }
  }

  lemma KeyIsShort(raw: Option<seq<byte>>)
    requires raw.Some? ==> |raw.value| <= S.MAX_KEY
    ensures S.KeyOf(raw).Some? ==> |S.KeyOf(raw).value| <= S.MAX_KEY
  {
    if raw.Some? && raw.value != [] { DecodedIsShort(raw.value[1..]); }
  }

  lemma StringStepBounded(o: State, t: S.Token, b: byte)
    requires Bounded(o) && o.token == Some(StringToken(t))
    ensures Bounded(StringStep(o, t, b))
  {
    hide S.Step, S.KeyOf;
    StringBounded(t, b);
    if S.Step(t, b).Close? { KeyIsShort(S.Step(t, b).raw); }
  }

  lemma ScalarBounded(s: N.Scalar, b: byte)
    requires |s.raw| <= N.MAX_RAW && |s.digits| <= N.MAX_DIGITS
    ensures |N.Feed(s, b).raw| <= N.MAX_RAW && |N.Feed(s, b).digits| <= N.MAX_DIGITS
  {
  }

  lemma WithTopBounded(o: State, f: Frame)
    requires Bounded(o) && o.stack != [] && BoundedFrame(f)
    ensures Bounded(WithTop(o, f))
  {
  }

  lemma BeginBounded(o: State)
    requires Bounded(o) && o.stack != [] && TakesValue(Top(o))
    ensures Bounded(Begin(o)) && |Begin(o).stack| == |o.stack|
  {
    hide Clear, FullPath;
    var f := Top(o);
    WithTopBounded(o, f.(expects := CommaOrEnd, key := if f.isObject then None else f.key));
  }

  lemma OpenContainerBounded(o: State, isObject: bool)
    requires Bounded(o) && o.stack != [] && o.token.None?
    ensures Bounded(OpenContainer(o, isObject))
  {
    hide Begin, Collapse, FullPath;
    if TakesValue(Top(o)) {
      BeginBounded(o);
      CollapsedIsShort(FullPath(Top(o)));
    }
  }

  lemma OpenScalarBounded(o: State, b: byte)
    requires Bounded(o) && o.stack != [] && o.token.None?
    ensures Bounded(OpenScalar(o, b))
  {
    hide Begin, Collapse, FullPath, N.Feed;
    if TakesValue(Top(o)) {
      BeginBounded(o);
      CollapsedIsShort(FullPath(Top(o)));
      ScalarBounded(N.Blank(b), b);
    }
  }

  lemma OpenStringBounded(o: State)
    requires Bounded(o) && o.stack != [] && o.token.None?
    ensures Bounded(OpenString(o))
  {
    hide Begin;
    if TakesValue(Top(o)) { BeginBounded(o); }
  }

  lemma InsideBounded(o: State, b: byte)
    requires Bounded(o) && o.stack != [] && o.token.None? && o.started
    ensures Bounded(Inside(o, b))
  {
    hide OpenString, OpenContainer, OpenScalar;
    if b == S.QUOTE {
      OpenStringBounded(o);
    } else if b == LBRACE || b == LBRACKET {
      OpenContainerBounded(o, b == LBRACE);
    } else {
      OpenScalarBounded(o, b);
    }
  }

  lemma StructuralBounded(o: State, b: byte)
    requires Bounded(o) && o.token.None?
    ensures Bounded(Structural(o, b))
  {
    hide Inside, Whitespace;
    if o.started && o.stack != [] { InsideBounded(o, b); }
  }

  lemma StepBounded(dec: N.Decoder, o: State, b: byte)
    requires Bounded(o)
    ensures Bounded(Step(dec, o, b))
  {
    hide Structural, StringStep, Terminates, N.Feed, N.Cost, N.Valid;
    if o.token.None? {
      StructuralBounded(o, b);
    } else if o.token.value.StringToken? {
      StringStepBounded(o, o.token.value.text, b);
    } else if Terminates(b) {
      StructuralBounded(FinishScalar(dec, o), b);
    } else {
      ScalarBounded(o.token.value.value, b);
    }
  }

  /**
   Over every run the observer retains at most 128 frames, paths of 2 names, 256 key bytes, 129 scalar bytes and 64
   digits.
   */
  lemma {:induction false} RunBounded(dec: N.Decoder, o: State, bs: seq<byte>)
    requires Bounded(o)
    ensures Bounded(Run(dec, o, bs))
    decreases |bs|
  {
    hide Step, Bounded;
    if bs != [] {
      StepBounded(dec, o, bs[0]);
      RunBounded(dec, Step(dec, o, bs[0]), bs[1..]);
    }
  }

  // ----- the object -----

  lemma {:induction false} RunFailed(dec: N.Decoder, o: State, bs: seq<byte>)
    requires o.failed
    ensures Run(dec, o, bs) == o
    decreases |bs|
  {
    if bs != [] { RunFailed(dec, o, bs[1..]); }
  }

  lemma RunSnoc(dec: N.Decoder, o: State, bs: seq<byte>, i: nat)
    requires i < |bs|
    ensures Run(dec, o, bs[..i + 1]) == Step(dec, Run(dec, o, bs[..i]), bs[i])
  {
    hide Step;
    RunConcat(dec, o, bs[..i], [bs[i]]);
    assert bs[..i + 1] == bs[..i] + [bs[i]];
    assert [bs[i]][1..] == [];
  }

  /** The slots below `n` taken from `goal`, the others still as they were. */
  ghost predicate SlotsDone(now: Costs, was: Costs, goal: seq<Option<real>>, n: nat)
    requires |goal| == 6 && n <= 6
  {
    forall i :: 0 <= i < 6 ==> now[i] == if i < n then goal[i] else was[i]
  }

  class Observer {
    const dec: N.Decoder
    var stack: seq<Frame>
    var token: Option<Token>
    var costs: Costs
    var started: bool
    var done: bool
    var failed: bool

    constructor (dec: N.Decoder)
      ensures this.dec == dec && Now() == INITIAL && Valid()
    {
      this.dec := dec;
      stack, token, costs := [], None, [None, None, None, None, None, None];
      started, done, failed := false, false, false;
    }

    ghost function Now(): State
      reads this
    {
      State(stack, token, costs, started, done, failed)
    }

    ghost predicate Valid()
      reads this
    {
      Bounded(Now())
    }

    /** The path of the value about to be read, if one may be; earlier readings at or below it are forgotten. */
    method ValuePath() returns (path: Option<seq<string>>)
      modifies this
      ensures var o := old(Now());
        if o.stack != [] && TakesValue(Top(o))
        then path == Some(Collapse(FullPath(Top(o)))) && Now() == Begin(o)
        else path == None && Now() == o
    {
      if stack == [] { return None; }
      var frame := stack[|stack| - 1];
      if frame.expects != Value && frame.expects != ValueOrEnd { return None; }
      if frame.isObject && frame.key.None? { return None; }
      var full := frame.path + [if frame.isObject then frame.key.value else ""];
      stack := stack[|stack| - 1 := frame.(expects := CommaOrEnd, key := if frame.isObject then None else frame.key)];
      var relevant := Forget(full);
      path := Some(if relevant then full else [""]);
    }

    /** Empties every slot at or below `path`, and tells whether there is one. */
    method Forget(path: seq<string>) returns (relevant: bool)
      modifies this`costs
      ensures relevant == Relevant(path) && costs == Clear(old(costs), path)
    {
      relevant := false;
      for index := 0 to 6
        invariant SlotsDone(costs, old(costs), Clear(old(costs), path), index)
        invariant relevant <==> exists i :: 0 <= i < index && path <= COST_PATHS[i]
      {
        if path <= COST_PATHS[index] {
          costs := costs[index := None];
          relevant := true;
        }
      }
      assert costs == Clear(old(costs), path);
    }

    method FinishScalar()
      modifies this
      ensures Now() == CostObserver.FinishScalar(dec, old(Now()))
    {
      if token.None? || token.value.StringToken? { return; }
      var ScalarToken(value, path) := token.value;
      token := None;
      if !N.Valid(value) {
        failed := true;
        return;
      }
      ghost var goal := CostObserver.FinishScalar(dec, old(Now())).costs;
      for index := 0 to 6
        invariant stack == old(stack) && token == None
        invariant started == old(started) && done == old(done) && failed == old(failed)
        invariant SlotsDone(costs, old(costs), goal, index)
      {
        if path == COST_PATHS[index] {
          costs := costs[index := N.Cost(dec, value)];
        }
      }
      assert costs == goal;
    }

    /** A closed key names the next value of its frame; a key is never read outside one. */
    method CloseKey(raw: Option<seq<byte>>)
      requires stack != []
      modifies this
      ensures Now() == CloseString(old(Now()), true, raw)
    {
      token := None;
      var key := S.KeyOf(raw);
      if key.Some? {
        stack := stack[|stack| - 1 := stack[|stack| - 1].(key := key, expects := Colon)];
      } else {
        failed := true;
      }
    }

    /** A byte inside a string, by the counters of its token. */
    method StringByte(t: S.Token, byte: byte)
      requires Valid() && token == Some(StringToken(t))
      modifies this
      ensures Now() == StringStep(old(Now()), t, byte)
    {
      match S.Step(t, byte)
      case Continue(u) => token := Some(StringToken(u));
      case Reject(u) => token, failed := Some(StringToken(u)), true;
      case Close(raw) => if t.key { CloseKey(raw); } else { token := None; }
    }

    /** Whether the token in progress took the byte. */
    method ConsumeToken(byte: byte) returns (consumed: bool)
      requires Valid() && !failed
      modifies this
      ensures consumed ==> Now() == Step(dec, old(Now()), byte)
      ensures !consumed ==> token.None? && Structural(Now(), byte) == Step(dec, old(Now()), byte)
      ensures !consumed ==> Bounded(Now())
    {
      hide Structural, StringStep, N.Feed, N.Cost, Terminates;
      if token.None? { return false; }
      match token.value {
        case ScalarToken(value, path) =>
          if Terminates(byte) {
            FinishScalar();
            return false;
          }
          var fed := N.Feed(value, byte);
          token := Some(ScalarToken(fed, path));
          failed := failed || fed.state == N.BROKEN;
        case StringToken(t) =>
          StringByte(t, byte);
      }
      return true;
    }

    /** A quote opens a key, buffered, or a value, not buffered, as the frame expects. */
    method OpenQuote()
      requires stack != [] && token.None?
      modifies this
      ensures Now() == OpenString(old(Now()))
    {
      var frame := stack[|stack| - 1];
      var key := frame.isObject && (frame.expects == Key || frame.expects == KeyOrEnd);
      if !key {
        var path := ValuePath();
        if path.None? {
          failed := true;
          return;
        }
      }
      token := Some(StringToken(S.Start(key)));
    }

    method Open(isObject: bool)
      requires stack != []
      modifies this
      ensures Now() == OpenContainer(old(Now()), isObject)
    {
      var path := ValuePath();
      if path.None? {
        failed := true;
      } else if |stack| >= MAX_STACK {
        failed := true;
      } else {
        stack := stack + [Frame(isObject, if isObject then KeyOrEnd else ValueOrEnd, path.value, None)];
      }
    }

    method BeginScalar(byte: byte)
      requires stack != []
      modifies this
      ensures Now() == OpenScalar(old(Now()), byte)
    {
      var path := ValuePath();
      if path.None? {
        failed := true;
      } else {
        assert [byte][0] == byte;
        token := Some(ScalarToken(N.Feed(N.Blank(byte), byte), path.value));
      }
    }

    method StructuralByte(byte: byte)
      requires token.None?
      modifies this
      ensures Now() == Structural(old(Now()), byte)
    {
      hide OpenString, OpenContainer, OpenScalar;
      if Whitespace(byte) { return; }
      if !started {
        started := true;
        if byte == LBRACE {
          stack := stack + [Frame(true, KeyOrEnd, [], None)];
        } else {
          failed := true;
        }
        return;
      }
      if done || stack == [] {
        failed := true;
        return;
      }
      InsideByte(byte);
    }

    method InsideByte(byte: byte)
      requires token.None? && stack != []
      modifies this
      ensures Now() == Inside(old(Now()), byte)
    {
      hide OpenString, OpenContainer, OpenScalar;
      var last := |stack| - 1;
      var frame := stack[last];
      if byte == S.QUOTE {
        OpenQuote();
      } else if byte == LBRACE || byte == LBRACKET {
        Open(byte == LBRACE);
      } else if byte == RBRACE || byte == RBRACKET {
        if frame.isObject != (byte == RBRACE) || !MayEnd(frame.expects) {
          failed := true;
        } else {
          stack := stack[..last];
          done := stack == [];
        }
      } else if byte == COLON && frame.isObject && frame.expects == Colon {
        stack := stack[last := frame.(expects := Value)];
      } else if byte == COMMA && frame.expects == CommaOrEnd {
        stack := stack[last := frame.(expects := if frame.isObject then Key else Value)];
      } else if ScalarStart(byte) {
        BeginScalar(byte);
      } else {
        failed := true;
      }
    }

    /** Feeding any chunk is exactly feeding its bytes in turn. */
    method Feed(bytes: seq<byte>)
      requires Valid()
      modifies this
      ensures Valid() && Now() == Run(dec, old(Now()), bytes)
    {
      hide Run, Step, Structural, Bounded;
      ghost var was := Now();
      assert bytes[..0] == [] && bytes[..|bytes|] == bytes;
      RunNothing(dec, was);
      for i := 0 to |bytes|
        invariant Valid() && Now() == Run(dec, was, bytes[..i])
      {
        if failed {
          assert bytes == bytes[..i] + bytes[i..];
          RunConcat(dec, was, bytes[..i], bytes[i..]);
          RunFailed(dec, Now(), bytes[i..]);
          return;
        }
        RunSnoc(dec, was, bytes, i);
        StepBounded(dec, Now(), bytes[i]);
        var consumed := ConsumeToken(bytes[i]);
        if consumed { continue; }
        StructuralByte(bytes[i]);
      }
    }

    method Finish()
      modifies this
      ensures Now() == CostObserver.Finish(dec, old(Now()))
    {
      if token.Some? && token.value.ScalarToken? { FinishScalar(); }
      failed := failed || !done || token.Some? || stack != [];
    }

    /** The first of the six places that holds a finite positive cost. */
    method Cost() returns (cost: Option<real>)
      ensures cost == ReportedCost(Now())
    {
      if failed || !done { return None; }
      assert costs[0..] == costs;
      for index := 0 to 6
        invariant First(costs[index..]) == First(costs)
      {
        if costs[index].Some? { return costs[index]; }
        assert costs[index..][1..] == costs[index + 1..];
      }
      return None;
    }
  }

  lemma RunNothing(dec: N.Decoder, o: State)
    ensures Run(dec, o, []) == o
  {
  }

  // ----- a response in chunks -----

  function Flatten(chunks: seq<seq<byte>>): seq<byte> {
    if chunks == [] then [] else Flatten(chunks[..|chunks| - 1]) + chunks[|chunks| - 1]
  }

  /** Observing a response, however it arrives in chunks, accepts and charges exactly what a complete parse would. */
  method ObserveChunks(dec: N.Decoder, chunks: seq<seq<byte>>) returns (accepted: bool, cost: Option<real>)
    ensures accepted <==> ObjectText(Flatten(chunks))
    ensures forall d :: IsText(d, Flatten(chunks)) ==> cost == EstimatedCost(Meaning(dec, Root(d)))
    ensures forall read, d :: V.ByValue(dec, read) && IsText(d, Flatten(chunks)) && Reads.UnharmedCosts(Root(d)) ==>
              cost == EstimatedCost(Valued(read, Root(d)))
    ensures forall d :: IsText(d, Flatten(chunks)) ==> FirstOffer(dec, Root(d), cost)
    ensures !accepted ==> cost == None
  {
    hide FirstOffer, Run, EstimatedCost, WellFormed, Depth, Meaning, Valued, DocumentText, ObjectText, Bounded,
         V.ByValue;
    var o := new Observer(dec);
    RunNothing(dec, INITIAL);
    for i := 0 to |chunks|
      invariant o.Valid() && o.dec == dec && o.Now() == Run(dec, INITIAL, Flatten(chunks[..i]))
    {
      o.Feed(chunks[i]);
      RunConcat(dec, INITIAL, Flatten(chunks[..i]), chunks[i]);
      assert chunks[..i + 1][..i] == chunks[..i];
    }
    assert chunks[..|chunks|] == chunks;
    o.Finish();
    accepted := !o.failed;
    cost := o.Cost();
    AcceptsExactlyObjectTexts(dec, Flatten(chunks));
    ReportsTheParsedCost(dec, Flatten(chunks));
    forall read, d | V.ByValue(dec, read) && IsText(d, Flatten(chunks)) && Reads.UnharmedCosts(Root(d))
      ensures cost == EstimatedCost(Valued(read, Root(d))) {
      ReportsTheCostByValue(dec, read, Flatten(chunks), d);
    }
    forall d | IsText(d, Flatten(chunks)) ensures FirstOffer(dec, Root(d), cost) {
      ReportsTheFirstOffer(dec, Root(d));
    }
  }
}
