/**
 Every well-formed object text is read without failure, and leaves in the six cost slots exactly the numbers a
 complete parse finds at the six paths.
 */
module CostObserverReads {
  import opened Base
  import opened JsonDocuments
  import opened CostObserver
  import N = Numerals
  import V = NumeralValues
  import S = JsonStrings

  // ----- settled states -----

  /** Between tokens, inside the top-level object, nothing rejected. */
  ghost predicate Rests(o: State) {
    !o.failed && o.token.None? && o.started && !o.done && o.stack != []
  }

  /** Where reading `bs` from `o` leads once a trailing scalar is taken as complete. */
  function Reach(dec: N.Decoder, o: State, bs: seq<byte>): State { FinishScalar(dec, Run(dec, o, bs)) }

  lemma SettledStep(dec: N.Decoder, o: State, b: byte)
    requires Terminates(b) && Rests(FinishScalar(dec, o))
    ensures Step(dec, o, b) == Step(dec, FinishScalar(dec, o), b)
  {
  }

  lemma ReachConcat(dec: N.Decoder, o: State, a: seq<byte>, b: seq<byte>)
    requires Rests(Reach(dec, o, a)) && (b != [] ==> Terminates(b[0]))
    ensures Reach(dec, o, a + b) == Reach(dec, Reach(dec, o, a), b)
  {
    hide Step, FinishScalar;
    RunConcat(dec, o, a, b);
    var x := Run(dec, o, a);
    if b != [] {
      SettledStep(dec, x, b[0]);
    } else {
      SettledTwice(dec, x);
    }
  }

  lemma SettledTwice(dec: N.Decoder, o: State)
    ensures FinishScalar(dec, FinishScalar(dec, o)) == FinishScalar(dec, o)
  {
  }

  lemma SettledIsSame(dec: N.Decoder, o: State)
    requires o.token.None? || o.token.value.StringToken?
    ensures FinishScalar(dec, o) == o
  {
  }

  /** A continuation read from a resting state may start with any byte. */
  lemma ReachFrom(dec: N.Decoder, o: State, a: seq<byte>, b: seq<byte>)
    requires Run(dec, o, a).token.None?
    ensures Reach(dec, o, a + b) == Reach(dec, Run(dec, o, a), b)
  {
    RunConcat(dec, o, a, b);
  }

  lemma {:induction false} RunSpaces(dec: N.Decoder, o: State, s: seq<byte>)
    requires Spaces(s) && !o.failed && o.token.None?
    ensures Run(dec, o, s) == o
  {
    if s != [] { RunSpaces(dec, o, s[1..]); }
  }

  lemma ReachSpaces(dec: N.Decoder, o: State, a: seq<byte>, s: seq<byte>)
    requires Rests(Reach(dec, o, a)) && Spaces(s)
    ensures Reach(dec, o, a + s) == Reach(dec, o, a)
  {
    ReachConcat(dec, o, a, s);
    RunSpaces(dec, Reach(dec, o, a), s);
  }

  lemma RunByte(dec: N.Decoder, o: State, b: byte)
    ensures Run(dec, o, [b]) == Step(dec, o, b)
  {
    assert [b][1..] == [];
  }

  // ----- tokens -----

  lemma {:induction false} LiftString(dec: N.Decoder, o: State, t: S.Token, bs: seq<byte>)
    requires !o.failed && o.token == Some(StringToken(t)) && S.Run(t, bs).Continue?
    ensures Run(dec, o, bs) == o.(token := Some(StringToken(S.Run(t, bs).token)))
    decreases |bs|
  {
    if bs != [] {
      var u := S.Step(t, bs[0]).token;
      var p := o.(token := Some(StringToken(u)));
      assert Step(dec, o, bs[0]) == p;
      LiftString(dec, p, u, bs[1..]);
    }
  }

  /** From a state that has just opened a string, the rest of the string is read and closed. */
  lemma RunString(dec: N.Decoder, o: State, key: bool, cs: seq<S.Char>)
    requires !o.failed && o.token == Some(StringToken(S.Start(key))) && S.AllWellFormed(cs)
    ensures Run(dec, o, S.SpellAll(cs) + [S.QUOTE]) ==
            CloseString(o, key, if key && |S.Text(cs)| <= S.MAX_KEY then Some(S.Text(cs)) else None)
  {
    hide Step, CloseString, S.Text, S.Step, S.SpellAll, S.Run, S.AllWellFormed;
    S.ClosesString(key, cs);
    var bs := S.SpellAll(cs);
    LiftString(dec, o, S.Start(key), bs);
    RunConcat(dec, o, bs, [S.QUOTE]);
    var p := Run(dec, o, bs);
    RunByte(dec, p, S.QUOTE);
    StepCloses(dec, p, S.Run(S.Start(key), bs).token);
    CloseForgets(o, p.token, key, if key && |S.Text(cs)| <= S.MAX_KEY then Some(S.Text(cs)) else None);
  }

  lemma StepCloses(dec: N.Decoder, o: State, t: S.Token)
    requires !o.failed && o.token == Some(StringToken(t)) && S.Step(t, S.QUOTE).Close?
    ensures Step(dec, o, S.QUOTE) == CloseString(o, t.key, S.Step(t, S.QUOTE).raw)
  {
  }

  lemma CloseForgets(o: State, token: Option<Token>, key: bool, raw: Option<seq<byte>>)
    ensures CloseString(o.(token := token), key, raw) == CloseString(o, key, raw)
  {
  }

  lemma NumeralByte(state: nat, b: byte)
    requires N.NextState(state, b) != N.BROKEN
    ensures !Terminates(b)
  {
  }

  lemma LiteralByte(first: byte, k: nat)
    requires k < |N.LiteralFor(first)|
    ensures !Terminates(N.LiteralFor(first)[k])
  {
  }

  lemma FeedUnbroken(text: seq<byte>)
    requires |text| > 1 && N.ReadAll(text).state != N.BROKEN
    ensures N.ReadAll(text[..|text| - 1]).state != N.BROKEN && !Terminates(text[|text| - 1])
  {
    hide Terminates, N.ReadAll, N.Feed, N.LiteralFor, N.NextState;
    var init, last := text[..|text| - 1], text[|text| - 1];
    ReadSnoc(text);
    var s := N.ReadAll(init);
    N.LiteralKept(init);
    if s.literal == [] {
      N.FeedUnbroken(s, last);
      NumeralByte(s.state, last);
    } else {
      N.FeedLiteral(s, last);
      LiteralByte(init[0], s.offset);
    }
  }

  lemma {:induction false} LiftScalar(dec: N.Decoder, o: State, text: seq<byte>, path: seq<string>)
    requires text != [] && N.ReadAll(text).state != N.BROKEN
    requires !o.failed && o.token == Some(ScalarToken(N.ReadAll([text[0]]), path))
    ensures Run(dec, o, text[1..]) == o.(token := Some(ScalarToken(N.ReadAll(text), path)))
    decreases |text|
  {
    hide N.ReadAll, Terminates;
    if |text| == 1 {
      assert text == [text[0]];
    } else {
      var init, last := text[..|text| - 1], text[|text| - 1];
      FeedUnbroken(text);
      LiftScalar(dec, o, init, path);
      assert text[1..] == init[1..] + [last];
      RunConcat(dec, o, init[1..], [last]);
      var p := Run(dec, o, init[1..]);
      RunByte(dec, p, last);
      ReadSnoc(text);
    }
  }

  lemma ReadSnoc(text: seq<byte>)
    requires |text| > 1
    ensures N.ReadAll(text) == N.Feed(N.ReadAll(text[..|text| - 1]), text[|text| - 1])
  {
  }

  // ----- costs -----

  /** The cost found by following `rest` down from `v`. */
  function CostAt(v: Datum, rest: seq<string>): Option<real>
    decreases |rest|
  {
    if rest == [] then N.Positive(AsFloat(Some(v)))
    else if v.VObject? && rest[0] in v.fields then CostAt(v.fields[rest[0]], rest[1..])
    else None
  }

  /** Slot `i` after a value denoting `v` was read at `path`. */
  function Charge(before: Option<real>, i: nat, path: seq<string>, v: Datum): Option<real>
    requires i < 6
  {
    if path <= COST_PATHS[i] then CostAt(v, COST_PATHS[i][|path|..]) else before
  }

  /** Slot `i` after members denoting `fields` were read in an object at `path`. */
  function ChargeFields(before: Option<real>, i: nat, path: seq<string>, fields: map<string, Datum>): Option<real>
    requires i < 6
  {
    var target := COST_PATHS[i];
    if path < target && target[|path|] in fields then CostAt(fields[target[|path|]], target[|path| + 1..]) else before
  }

  ghost predicate Charged(a: Costs, b: Costs, path: seq<string>, v: Datum) {
    forall i :: 0 <= i < 6 ==> b[i] == Charge(a[i], i, path, v)
  }

  ghost predicate ChargedFields(a: Costs, b: Costs, path: seq<string>, fields: map<string, Datum>) {
    forall i :: 0 <= i < 6 ==> b[i] == ChargeFields(a[i], i, path, fields)
  }

  lemma TargetNames(i: nat, k: nat)
    requires i < 6 && k < |COST_PATHS[i]|
    ensures 0 < |COST_PATHS[i][k]| <= 21
  {
  }

  /** A dropped key and its real name lead to the same slots. */
  lemma KeyChoosesTarget(i: nat, path: seq<string>, key: seq<S.Char>)
    requires i < 6 && S.AllWellFormed(key)
    ensures path + [S.ReadKey(key)] <= COST_PATHS[i] <==>
            path < COST_PATHS[i] && COST_PATHS[i][|path|] == S.Decoded(key)
  {
    hide S.ReadKey, S.Decoded;
    var target := COST_PATHS[i];
    if path < target {
      TargetNames(i, |path|);
      S.DroppedKeyIsLong(key, target[|path|]);
      assert target[..|path| + 1] == path + [target[|path|]];
    }
    if path + [S.ReadKey(key)] <= target {
      assert (path + [S.ReadKey(key)])[|path|] == target[|path|];
    }
  }

  /** Reading one more member charges what the fields with that member denote. */
  lemma ChargeMember(
    a: Costs, b: Costs, c: Costs, path: seq<string>, fields: map<string, Datum>, key: seq<S.Char>, v: Datum)
    requires S.AllWellFormed(key)
    requires ChargedFields(a, b, path, fields) && Charged(b, c, path + [S.ReadKey(key)], v)
    ensures ChargedFields(a, c, path, fields[S.Decoded(key) := v])
  {
    hide S.ReadKey, S.Decoded, CostAt;
    forall i | 0 <= i < 6 ensures c[i] == ChargeFields(a[i], i, path, fields[S.Decoded(key) := v]) {
      KeyChoosesTarget(i, path, key);
    }
  }

  lemma ArrayElementsAreIrrelevant(path: seq<string>)
    ensures !Relevant(path + [""])
  {
    forall i | 0 <= i < 6 ensures !(path + [""] <= COST_PATHS[i]) {
      if path + [""] <= COST_PATHS[i] {
        assert (path + [""])[|path|] == COST_PATHS[i][|path|];
        TargetNames(i, |path|);
      }
    }
  }

  /** Collapsing forgets nothing: it keeps a path exactly when some slot still depends on it. */
  lemma CollapseKeepsTargets(path: seq<string>, i: nat)
    requires i < 6
    ensures Collapse(path) <= COST_PATHS[i] <==> path <= COST_PATHS[i]
    ensures path <= COST_PATHS[i] ==> Collapse(path) == path
  {
    if !Relevant(path) {
      ArrayElementsAreIrrelevant([]);
      assert [] + [""] == [""];
    }
  }

  lemma ChargeObject(a: Costs, b: Costs, c: Costs, path: seq<string>, fields: map<string, Datum>)
    requires b == Clear(a, path) && ChargedFields(b, c, Collapse(path), fields)
    ensures Charged(a, c, path, VObject(fields))
  {
    hide Collapse;
    forall i | 0 <= i < 6 ensures c[i] == Charge(a[i], i, path, VObject(fields)) {
      CollapseKeepsTargets(path, i);
      var target := COST_PATHS[i];
      if path <= target {
        assert b[i] == None;
        var rest := target[|path|..];
        if rest != [] {
          assert rest[0] == target[|path|] && rest[1..] == target[|path| + 1..];
        }
      }
    }
  }

  lemma ChargeOther(a: Costs, path: seq<string>)
    ensures Charged(a, Clear(a, path), path, VOther)
  {
  }

  /** The slots after a scalar at `path` was finished with `cost`. */
  ghost predicate Assigned(a: Costs, c: Costs, path: seq<string>, cost: Option<real>) {
    forall i :: 0 <= i < 6 ==> c[i] == (if Collapse(path) == COST_PATHS[i] then cost else Clear(a, path)[i])
  }

  lemma ChargeScalar(a: Costs, c: Costs, path: seq<string>, cost: Option<real>, v: Datum)
    requires !v.VObject? && cost == N.Positive(AsFloat(Some(v)))
    requires Assigned(a, c, path, cost)
    ensures Charged(a, c, path, v)
  {
    hide Collapse;
    forall i | 0 <= i < 6 ensures c[i] == Charge(a[i], i, path, v) {
      CollapseKeepsTargets(path, i);
      var target := COST_PATHS[i];
      if path <= target {
        assert path == target <==> target[|path|..] == [];
      }
    }
  }

  // ----- values -----

  ghost predicate Ready(o: State) { Rests(o) && TakesValue(Top(o)) }

  /** Reading the text of `j` from `o` completes the top frame's value and charges it. */
  ghost predicate ReadsValue(dec: N.Decoder, o: State, j: Json)
    requires Ready(o) && WellFormed(j)
  {
    var p := Reach(dec, o, Text(j));
    Rests(p) && p.stack == Begin(o).stack && Charged(o.costs, p.costs, FullPath(Top(o)), Meaning(dec, j))
  }

  lemma RunCons(dec: N.Decoder, o: State, b: byte, bs: seq<byte>)
    ensures Run(dec, o, [b] + bs) == Run(dec, Step(dec, o, b), bs)
  {
    assert ([b] + bs)[1..] == bs;
  }

  lemma ReadString(dec: N.Decoder, o: State, cs: seq<S.Char>)
    requires Ready(o) && S.AllWellFormed(cs)
    ensures ReadsValue(dec, o, String(cs))
  {
    hide S.AllWellFormed, S.SpellAll, Charged, Clear, S.Start;
    var rest := S.SpellAll(cs) + [S.QUOTE];
    assert S.Text(cs) == [S.QUOTE] + rest;
    RunCons(dec, o, S.QUOTE, rest);
    var p := Begin(o).(token := Some(StringToken(S.Start(false))));
    assert Step(dec, o, S.QUOTE) == p;
    RunString(dec, p, false, cs);
    assert Run(dec, o, S.Text(cs)) == Begin(o);
    ChargeOther(o.costs, FullPath(Top(o)));
  }

  lemma ReadScalar(dec: N.Decoder, o: State, text: seq<byte>)
    requires Ready(o) && text != [] && ScalarStart(text[0]) && N.Valid(N.ReadAll(text))
    ensures var p := Reach(dec, o, text);
      && Rests(p) && p.stack == Begin(o).stack
      && Assigned(o.costs, p.costs, FullPath(Top(o)), N.Cost(dec, N.ReadAll(text)))
  {
    hide N.ReadAll, N.Cost, Clear, Collapse, FullPath;
    var path := Collapse(FullPath(Top(o)));
    assert text == [text[0]] + text[1..];
    RunCons(dec, o, text[0], text[1..]);
    var p := Begin(o).(token := Some(ScalarToken(N.ReadAll([text[0]]), path)));
    assert Step(dec, o, text[0]) == p;
    LiftScalar(dec, p, text, path);
  }

  lemma LiteralStart(name: seq<byte>)
    requires N.IsLiteral(name)
    ensures name != [] && ScalarStart(name[0]) && N.LiteralFor(name[0]) != [] && N.Valid(N.ReadAll(name))
    ensures N.ReadAll(name).literal != []
  {
    N.RecognisesLiterals(name);
    N.LiteralKept(name);
  }

  lemma ReadLiteral(dec: N.Decoder, o: State, name: seq<byte>)
    requires Ready(o) && N.IsLiteral(name)
    ensures ReadsValue(dec, o, Literal(name))
  {
    hide N.ReadAll, N.Valid, N.IsLiteral, Assigned, Collapse, Clear, Charged, Reach, FullPath, Begin, ScalarStart;
    LiteralStart(name);
    ReadScalar(dec, o, name);
    ChargeScalar(o.costs, Reach(dec, o, name).costs, FullPath(Top(o)), N.Cost(dec, N.ReadAll(name)), VOther);
  }

  lemma NumeralStart(n: N.Numeral)
    requires N.WellFormed(n)
    ensures N.Text(n) != [] && ScalarStart(N.Text(n)[0])
  {
    N.NumeralStart(n);
    N.TextStart(n);
  }

  lemma ReadNumber(dec: N.Decoder, o: State, n: N.Numeral)
    requires Ready(o) && N.WellFormed(n)
    ensures ReadsValue(dec, o, Number(n))
  {
    hide N.ReadAll, N.Valid, N.Text, N.Cost, N.Decode, N.WellFormed, N.Positive,
         Assigned, Collapse, Clear, Charged, Reach, FullPath, Begin, ScalarStart;
    NumeralStart(n);
    N.CostIsDecoded(dec, n);
    ReadScalar(dec, o, N.Text(n));
    ChargeScalar(o.costs, Reach(dec, o, N.Text(n)).costs, FullPath(Top(o)), N.Cost(dec, N.ReadAll(N.Text(n))),
        Meaning(dec, Number(n)));
  }

  // ----- containers -----

  /** The state just after a container was opened as the top frame's value. */
  function Pushed(o: State, isObject: bool): State
    requires o.stack != [] && TakesValue(Top(o))
  {
    var p := Begin(o);
    p.(stack := p.stack +
         [Frame(isObject, if isObject then KeyOrEnd else ValueOrEnd, Collapse(FullPath(Top(o))), None)])
  }

  function Opener(isObject: bool): byte { if isObject then LBRACE else LBRACKET }

  function Closer(isObject: bool): byte { if isObject then RBRACE else RBRACKET }

  lemma RunOpener(dec: N.Decoder, o: State, isObject: bool, pad: seq<byte>)
    requires Ready(o) && |o.stack| < MAX_STACK && Spaces(pad)
    ensures Run(dec, o, [Opener(isObject)] + pad) == Pushed(o, isObject)
  {
    hide Spaces, Clear, Collapse, FullPath;
    RunCons(dec, o, Opener(isObject), pad);
    assert Step(dec, o, Opener(isObject)) == Pushed(o, isObject);
    RunSpaces(dec, Pushed(o, isObject), pad);
  }

  lemma ReachCloser(dec: N.Decoder, p: State, isObject: bool)
    requires Rests(p) && |p.stack| >= 2 && Top(p).isObject == isObject && MayEnd(Top(p).expects)
    ensures Reach(dec, p, [Closer(isObject)]) == p.(stack := p.stack[..|p.stack| - 1])
  {
    RunByte(dec, p, Closer(isObject));
  }

  /** The body of a container, read from just after its opener, leaves the container ready to close. */
  ghost predicate BodyRead(x: State, p: State) {
    && x.stack != [] && Rests(p) && |p.stack| == |x.stack| && p.stack[..|p.stack| - 1] == x.stack[..|x.stack| - 1]
    && Top(p).isObject == Top(x).isObject && MayEnd(Top(p).expects)
  }

  lemma ReadContainer(dec: N.Decoder, o: State, isObject: bool, pad: seq<byte>, body: seq<byte>)
    requires Ready(o) && |o.stack| < MAX_STACK && Spaces(pad)
    requires BodyRead(Pushed(o, isObject), Reach(dec, Pushed(o, isObject), body))
    ensures var p := Reach(dec, o, [Opener(isObject)] + pad + body + [Closer(isObject)]);
      Rests(p) && p.stack == Begin(o).stack && p.costs == Reach(dec, Pushed(o, isObject), body).costs
  {
    hide Run, Spaces, Clear, Collapse, FullPath, Opener, Closer, FinishScalar, Reach;
    RunOpener(dec, o, isObject, pad);
    var head := [Opener(isObject)] + pad;
    ReachFrom(dec, o, head, body);
    var x := Pushed(o, isObject);
    var p := Reach(dec, x, body);
    CloserTerminates(isObject);
    ReachConcat(dec, o, head + body, [Closer(isObject)]);
    ReachCloser(dec, p, isObject);
    assert x.stack[..|x.stack| - 1] == Begin(o).stack;
  }

  lemma CloserTerminates(isObject: bool)
    ensures Terminates(Closer(isObject))
  {
  }

  // ----- members -----

  ghost predicate Fresh(o: State, isObject: bool) {
    Rests(o) && Top(o) == Frame(isObject, if isObject then KeyOrEnd else ValueOrEnd, Top(o).path, None)
  }

  /** The stack once the container has members or items. */
  function Filled(o: State, empty: bool): seq<Frame>
    requires o.stack != []
  {
    if empty then o.stack else WithTop(o, Top(o).(expects := CommaOrEnd)).stack
  }

  ghost predicate ReadsMembers(dec: N.Decoder, o: State, m: Members)
    requires Fresh(o, true) && WellFormedMembers(m)
  {
    var p := Reach(dec, o, MembersText(m));
    && Rests(p) && p.stack == Filled(o, m.NoMembers?)
    && ChargedFields(o.costs, p.costs, Top(o).path, Fields(dec, m))
  }

  function KeyPart(first: bool, s1: seq<byte>, key: seq<S.Char>, s2: seq<byte>, s3: seq<byte>): seq<byte> {
    (if first then [] else [COMMA]) + KeyText(s1, key, s2) + [COLON] + s3
  }

  lemma RunComma(dec: N.Decoder, o: State)
    requires Rests(o) && Top(o).expects == CommaOrEnd
    ensures Run(dec, o, [COMMA]) == WithTop(o, Top(o).(expects := if Top(o).isObject then Key else Value))
  {
    RunByte(dec, o, COMMA);
  }

  lemma RunKeyString(dec: N.Decoder, o: State, key: seq<S.Char>)
    requires Rests(o) && WantsKey(Top(o)) && S.AllWellFormed(key)
    ensures Run(dec, o, S.Text(key)) == WithTop(o, Top(o).(expects := Colon, key := Some(S.ReadKey(key))))
  {
    hide S.AllWellFormed, S.SpellAll, S.ReadKey, S.Start, S.KeyOf;
    var rest := S.SpellAll(key) + [S.QUOTE];
    assert S.Text(key) == [S.QUOTE] + rest;
    RunCons(dec, o, S.QUOTE, rest);
    var p := o.(token := Some(StringToken(S.Start(true))));
    assert Step(dec, o, S.QUOTE) == p;
    RunString(dec, p, true, key);
    S.KeyIsRead(key);
  }

  lemma RunColon(dec: N.Decoder, o: State, s3: seq<byte>)
    requires Rests(o) && Top(o).isObject && Top(o).expects == Colon && Spaces(s3)
    ensures Run(dec, o, [COLON] + s3) == WithTop(o, Top(o).(expects := Value))
  {
    hide Spaces;
    RunCons(dec, o, COLON, s3);
    RunSpaces(dec, WithTop(o, Top(o).(expects := Value)), s3);
  }

  lemma RunKeyText(dec: N.Decoder, o: State, s1: seq<byte>, key: seq<S.Char>, s2: seq<byte>)
    requires Rests(o) && WantsKey(Top(o)) && Spaces(s1) && S.AllWellFormed(key) && Spaces(s2)
    ensures Run(dec, o, KeyText(s1, key, s2)) == WithTop(o, Top(o).(expects := Colon, key := Some(S.ReadKey(key))))
  {
    hide Run, Spaces, S.AllWellFormed, S.Text, S.ReadKey;
    RunSpaces(dec, o, s1);
    RunConcat(dec, o, s1, S.Text(key));
    RunKeyString(dec, o, key);
    RunConcat(dec, o, s1 + S.Text(key), s2);
    RunSpaces(dec, WithTop(o, Top(o).(expects := Colon, key := Some(S.ReadKey(key)))), s2);
  }

  lemma RunKeyPart(dec: N.Decoder, o: State, s1: seq<byte>, key: seq<S.Char>, s2: seq<byte>, s3: seq<byte>)
    requires Rests(o) && Top(o).isObject && (Top(o).expects == KeyOrEnd || Top(o).expects == CommaOrEnd)
    requires Spaces(s1) && S.AllWellFormed(key) && Spaces(s2) && Spaces(s3)
    ensures Run(dec, o, KeyPart(Top(o).expects == KeyOrEnd, s1, key, s2, s3)) ==
            WithTop(o, Top(o).(expects := Value, key := Some(S.ReadKey(key))))
  {
    hide Run, Spaces, S.AllWellFormed, S.ReadKey, KeyText;
    var comma := if Top(o).expects == KeyOrEnd then [] else [COMMA];
    var p := if Top(o).expects == KeyOrEnd then o else WithTop(o, Top(o).(expects := Key));
    assert Run(dec, o, comma) == p by {
      if Top(o).expects == KeyOrEnd { RunSpaces(dec, o, []); } else { RunComma(dec, o); }
    }
    var text := KeyText(s1, key, s2);
    RunKeyText(dec, p, s1, key, s2);
    RunConcat(dec, o, comma, text);
    var q := WithTop(o, Top(o).(expects := Colon, key := Some(S.ReadKey(key))));
    assert Run(dec, o, comma + text) == q;
    RunConcat(dec, o, comma + text, [COLON] + s3);
    RunColon(dec, q, s3);
    assert KeyPart(Top(o).expects == KeyOrEnd, s1, key, s2, s3) == comma + text + ([COLON] + s3);
  }

  /** Text that follows a settled state: either the state rests on no token, or the text starts by ending one. */
  lemma RunAfter(dec: N.Decoder, o: State, a: seq<byte>, b: seq<byte>)
    requires Rests(Reach(dec, o, a)) && b != [] && (a == [] || Terminates(b[0])) && (a == [] ==> Rests(o))
    ensures Run(dec, o, a + b) == Run(dec, Reach(dec, o, a), b)
  {
    hide Step, FinishScalar;
    RunConcat(dec, o, a, b);
    if a == [] {
      SettledIsSame(dec, o);
    } else {
      SettledStep(dec, Run(dec, o, a), b[0]);
    }
  }

  lemma KeyPartStarts(first: bool, s1: seq<byte>, key: seq<S.Char>, s2: seq<byte>, s3: seq<byte>)
    ensures KeyPart(first, s1, key, s2, s3) != []
    ensures !first ==> KeyPart(first, s1, key, s2, s3)[0] == COMMA
  {
  }

  /** The state in which a member's value is about to be read, after the members before it. */
  lemma ReachValue(dec: N.Decoder, o: State, m: Members) returns (p: State)
    requires Fresh(o, true) && WellFormedMembers(m) && m.Member? && ReadsMembers(dec, o, m.before)
    ensures p == Run(dec, o, MembersText(m.before) + KeyPart(m.before.NoMembers?, m.s1, m.key, m.s2, m.s3))
    ensures Ready(p) && p.costs == Reach(dec, o, MembersText(m.before)).costs
    ensures p.stack == o.stack[|o.stack| - 1 := Top(o).(expects := Value, key := Some(S.ReadKey(m.key)))]
  {
    hide Run, Reach, KeyPart, MembersText, ChargedFields, Spaces, S.ReadKey, Fields;
    var q := Reach(dec, o, MembersText(m.before));
    var part := KeyPart(m.before.NoMembers?, m.s1, m.key, m.s2, m.s3);
    RunKeyPart(dec, q, m.s1, m.key, m.s2, m.s3);
    KeyPartStarts(m.before.NoMembers?, m.s1, m.key, m.s2, m.s3);
    NoMembersText(m.before);
    RunAfter(dec, o, MembersText(m.before), part);
    p := Run(dec, o, MembersText(m.before) + part);
  }

  lemma NoMembersText(m: Members)
    ensures m.NoMembers? ==> MembersText(m) == []
  {
  }

  lemma MemberText(m: Members)
    requires m.Member?
    ensures MembersText(m) ==
            MembersText(m.before) + KeyPart(m.before.NoMembers?, m.s1, m.key, m.s2, m.s3) + Text(m.value) + m.s4
  {
    hide KeyText, Text;
    FiveParts(MembersText(m.before), MemberComma(m.before), KeyText(m.s1, m.key, m.s2), [COLON], m.s3);
  }

  lemma MemberFields(dec: N.Decoder, m: Members)
    requires WellFormedMembers(m) && m.Member?
    ensures Fields(dec, m) == Fields(dec, m.before)[S.Decoded(m.key) := Meaning(dec, m.value)]
  {
  }

  /** One member after those already read. */
  lemma ReadMember(dec: N.Decoder, o: State, m: Members, p: State)
    requires Fresh(o, true) && WellFormedMembers(m) && m.Member? && ReadsMembers(dec, o, m.before)
    requires p == Run(dec, o, MembersText(m.before) + KeyPart(m.before.NoMembers?, m.s1, m.key, m.s2, m.s3))
    requires Ready(p) && p.costs == Reach(dec, o, MembersText(m.before)).costs
    requires p.stack == o.stack[|o.stack| - 1 := Top(o).(expects := Value, key := Some(S.ReadKey(m.key)))]
    requires ReadsValue(dec, p, m.value)
    ensures ReadsMembers(dec, o, m)
  {
    hide Run, Reach, KeyPart, MembersText, ChargedFields, Charged, Spaces, S.ReadKey, S.Decoded, S.AllWellFormed,
         Fields, Meaning;
    MemberText(m);
    var head := MembersText(m.before) + KeyPart(m.before.NoMembers?, m.s1, m.key, m.s2, m.s3);
    ReachFrom(dec, o, head, Text(m.value));
    ReachSpaces(dec, o, head + Text(m.value), m.s4);
    var q := Reach(dec, o, MembersText(m));
    assert q == Reach(dec, p, Text(m.value));
    assert FullPath(Top(p)) == Top(o).path + [S.ReadKey(m.key)];
    MemberFields(dec, m);
    ChargeMember(o.costs, p.costs, q.costs, Top(o).path, Fields(dec, m.before), m.key, Meaning(dec, m.value));
    assert Begin(p).stack == Filled(o, false);
  }

  lemma {:induction false} ReadMembers(dec: N.Decoder, o: State, m: Members)
    requires Fresh(o, true) && WellFormedMembers(m) && |o.stack| + MembersDepth(m) <= MAX_STACK
    ensures ReadsMembers(dec, o, m)
    decreases m
  {
    if m.NoMembers? {
      SettledIsSame(dec, o);
    } else {
      hide Run, Reach, KeyPart, MembersText, ReadsMembers, ReadsValue, Spaces, S.ReadKey, Fields, Meaning, Fresh,
           TakesValue;
      ReadMembers(dec, o, m.before);
      var p := ReachValue(dec, o, m);
      ReadValue(dec, p, m.value);
      ReadMember(dec, o, m, p);
    }
  }

  // ----- items -----

  ghost predicate ReadsItems(dec: N.Decoder, o: State, t: Items)
    requires Fresh(o, false)
  {
    var p := Reach(dec, o, ItemsText(t));
    Rests(p) && p.stack == Filled(o, t.NoItems?) && p.costs == o.costs
  }

  lemma ItemText(t: Items)
    requires t.Item?
    ensures ItemsText(t) == ItemsText(t.before) + (ItemComma(t.before) + t.s1) + Text(t.value) + t.s2
  {
    hide Text;
  }

  /** The state in which an item is about to be read, after the items before it. */
  lemma ReachItem(dec: N.Decoder, o: State, t: Items) returns (p: State)
    requires Fresh(o, false) && WellFormedItems(t) && t.Item? && ReadsItems(dec, o, t.before)
    ensures p == Run(dec, o, ItemsText(t.before) + (ItemComma(t.before) + t.s1))
    ensures Ready(p) && p.costs == o.costs
    ensures p.stack == o.stack[|o.stack| - 1 := Top(o).(expects := if t.before.NoItems? then ValueOrEnd else Value)]
  {
    hide Run, Reach, ItemsText, Spaces;
    var q := Reach(dec, o, ItemsText(t.before));
    var comma := ItemComma(t.before);
    if t.before.NoItems? {
      NoItemsText(t.before);
      RunSpaces(dec, o, t.s1);
      assert ItemsText(t.before) + (comma + t.s1) == t.s1;
      p := o;
    } else {
      p := WithTop(q, Top(q).(expects := Value));
      RunComma(dec, q);
      RunConcat(dec, q, [COMMA], t.s1);
      RunSpaces(dec, p, t.s1);
      assert comma + t.s1 == [COMMA] + t.s1;
      RunAfter(dec, o, ItemsText(t.before), comma + t.s1);
    }
  }

  lemma NoItemsText(t: Items)
    ensures t.NoItems? ==> ItemsText(t) == []
  {
  }

  /** Items charge nothing: no slot lies inside an array. */
  lemma ItemIsFree(a: Costs, c: Costs, path: seq<string>, v: Datum)
    requires Charged(a, c, path + [""], v)
    ensures c == a
  {
    ArrayElementsAreIrrelevant(path);
  }

  lemma ReadItem(dec: N.Decoder, o: State, t: Items, p: State)
    requires Fresh(o, false) && WellFormedItems(t) && t.Item?
    requires p == Run(dec, o, ItemsText(t.before) + (ItemComma(t.before) + t.s1))
    requires Ready(p) && p.costs == o.costs
    requires p.stack == o.stack[|o.stack| - 1 := Top(o).(expects := if t.before.NoItems? then ValueOrEnd else Value)]
    requires ReadsValue(dec, p, t.value)
    ensures ReadsItems(dec, o, t)
  {
    hide Run, Reach, ItemsText, ItemComma, Charged, Spaces, Meaning;
    ItemText(t);
    var head := ItemsText(t.before) + (ItemComma(t.before) + t.s1);
    ReachFrom(dec, o, head, Text(t.value));
    ReachSpaces(dec, o, head + Text(t.value), t.s2);
    var q := Reach(dec, o, ItemsText(t));
    assert q == Reach(dec, p, Text(t.value));
    assert FullPath(Top(p)) == Top(o).path + [""];
    ItemIsFree(o.costs, q.costs, Top(o).path, Meaning(dec, t.value));
    assert Begin(p).stack == Filled(o, false);
  }

  lemma {:induction false} ReadItems(dec: N.Decoder, o: State, t: Items)
    requires Fresh(o, false) && WellFormedItems(t) && |o.stack| + ItemsDepth(t) <= MAX_STACK
    ensures ReadsItems(dec, o, t)
    decreases t
  {
    if t.NoItems? {
      SettledIsSame(dec, o);
    } else {
      hide Run, Reach, ItemsText, ItemComma, ReadsItems, ReadsValue, Spaces, Fresh, TakesValue, Meaning;
      ReadItems(dec, o, t.before);
      var p := ReachItem(dec, o, t);
      ReadValue(dec, p, t.value);
      ReadItem(dec, o, t, p);
    }
  }

  // ----- every value -----

  lemma ReadObject(dec: N.Decoder, o: State, pad: seq<byte>, m: Members)
    requires Ready(o) && |o.stack| < MAX_STACK && Spaces(pad) && WellFormedMembers(m)
    requires Fresh(Pushed(o, true), true) && ReadsMembers(dec, Pushed(o, true), m)
    ensures ReadsValue(dec, o, Object(pad, m))
  {
    hide Run, Reach, MembersText, Fields, Charged, ChargedFields, Spaces, Clear, Collapse, FullPath;
    var x := Pushed(o, true);
    ReadContainer(dec, o, true, pad, MembersText(m));
    ChargeObject(o.costs, x.costs, Reach(dec, x, MembersText(m)).costs, FullPath(Top(o)), Fields(dec, m));
  }

  lemma ReadArray(dec: N.Decoder, o: State, pad: seq<byte>, t: Items)
    requires Ready(o) && |o.stack| < MAX_STACK && Spaces(pad) && WellFormedItems(t)
    requires Fresh(Pushed(o, false), false) && ReadsItems(dec, Pushed(o, false), t)
    ensures ReadsValue(dec, o, Array(pad, t))
  {
    hide Run, Reach, ItemsText, Charged, Spaces, Clear, Collapse, FullPath;
    var x := Pushed(o, false);
    ReadContainer(dec, o, false, pad, ItemsText(t));
    ChargeOther(o.costs, FullPath(Top(o)));
  }

  lemma {:induction false} ReadValue(dec: N.Decoder, o: State, j: Json)
    requires Ready(o) && WellFormed(j) && |o.stack| + Depth(j) <= MAX_STACK
    ensures ReadsValue(dec, o, j)
    decreases j
  {
    hide ReadsValue, ReadsMembers, ReadsItems, TakesValue, Spaces, S.AllWellFormed, N.IsLiteral, N.WellFormed, Clear,
         Collapse, FullPath;
    match j
    case String(chars) => ReadString(dec, o, chars);
    case Literal(name) => ReadLiteral(dec, o, name);
    case Number(numeral) => ReadNumber(dec, o, numeral);
    case Object(pad, members) =>
      ReadMembers(dec, Pushed(o, true), members);
      ReadObject(dec, o, pad, members);
    case Array(pad, items) =>
      ReadItems(dec, Pushed(o, false), items);
      ReadArray(dec, o, pad, items);
  }

  // ----- the whole body -----

  const STARTED := INITIAL.(started := true, stack := [Frame(true, KeyOrEnd, [], None)])

  lemma RunStart(dec: N.Decoder, lead: seq<byte>, pad: seq<byte>)
    requires Spaces(lead) && Spaces(pad)
    ensures Run(dec, INITIAL, lead + ([LBRACE] + pad)) == STARTED
  {
    hide Spaces;
    RunSpaces(dec, INITIAL, lead);
    RunConcat(dec, INITIAL, lead, [LBRACE] + pad);
    RunCons(dec, INITIAL, LBRACE, pad);
    assert [] + [Frame(true, KeyOrEnd, [], None)] == [Frame(true, KeyOrEnd, [], None)];
    assert Step(dec, INITIAL, LBRACE) == STARTED;
    RunSpaces(dec, STARTED, pad);
  }

  /** The end of the top-level object, and nothing but whitespace after it. */
  lemma RunEnd(dec: N.Decoder, p: State, trail: seq<byte>)
    requires Rests(p) && |p.stack| == 1 && Top(p).isObject && MayEnd(Top(p).expects) && Spaces(trail)
    ensures Run(dec, p, [RBRACE] + trail) == p.(stack := [], done := true)
  {
    hide Spaces;
    RunCons(dec, p, RBRACE, trail);
    assert p.stack[..0] == [];
    assert Step(dec, p, RBRACE) == p.(stack := [], done := true);
    RunSpaces(dec, p.(stack := [], done := true), trail);
  }

  lemma CostPathsLead(fields: map<string, Datum>, i: nat)
    requires i < 6
    ensures ChargeFields(None, i, [], fields) == CostAt(VObject(fields), COST_PATHS[i])
  {
    var target := COST_PATHS[i];
    assert target[0] in fields ==> target[1..] == target[0 + 1..];
  }

  lemma CostAtOne(v: Datum, key: string)
    ensures CostAt(v, [key]) == N.Positive(AsFloat(Get(v, key)))
  {
    assert [key][1..] == [];
  }

  lemma CostAtTwo(v: Datum, outer: string, inner: string)
    ensures CostAt(v, [outer, inner]) == N.Positive(AsFloat(Pointer(v, outer, inner)))
  {
    assert [outer, inner][1..] == [inner];
    if Get(v, outer).Some? { CostAtOne(Get(v, outer).value, inner); }
  }

  /** The six slots hold what a complete parse finds at the six places. */
  lemma SlotsAreEstimates(costs: Costs, fields: map<string, Datum>)
    requires ChargedFields(INITIAL.costs, costs, [], fields)
    ensures First(costs) == EstimatedCost(VObject(fields))
  {
    var v := VObject(fields);
    hide CostAt, ChargeFields, First, N.Positive;
    forall i | 0 <= i < 6 ensures costs[i] == CostAt(v, COST_PATHS[i]) { CostPathsLead(fields, i); }
    CostAtOne(v, ESTIMATED_COST);
    CostAtOne(v, RESPONSE_COST);
    CostAtTwo(v, USAGE, ESTIMATED_COST);
    CostAtTwo(v, USAGE, TOTAL_COST);
    CostAtTwo(v, USAGE, COST);
    CostAtTwo(v, HIDDEN_PARAMS, RESPONSE_COST);
    assert costs == [costs[0], costs[1], costs[2], costs[3], costs[4], costs[5]];
  }

  lemma ReadDocument(dec: N.Decoder, d: Document) returns (p: State)
    requires WellFormedDocument(d) && Depth(Root(d)) <= MAX_STACK
    ensures Run(dec, INITIAL, DocumentText(d)) == p.(stack := [], done := true)
    ensures Rests(p) && ChargedFields(INITIAL.costs, p.costs, [], Fields(dec, d.members))
  {
    hide Run, Reach, MembersText, ChargedFields, Spaces, Fields, WellFormedMembers;
    ReadMembers(dec, STARTED, d.members);
    var head := d.lead + ([LBRACE] + d.pad);
    var body, tail := MembersText(d.members), [RBRACE] + d.trail;
    RunStart(dec, d.lead, d.pad);
    p := Reach(dec, STARTED, body);
    ReachFrom(dec, INITIAL, head, body);
    RunEnd(dec, p, d.trail);
    assert DocumentText(d) == head + body + tail;
    RunAfter(dec, INITIAL, head + body, tail);
  }

  /**
   Every well-formed object text nested at most 128 deep, however it is spaced, spelled or duplicated, is accepted,
   and the reported cost is the one a complete parse of it yields.
   */
  lemma DocumentIsRead(dec: N.Decoder, d: Document)
    requires WellFormedDocument(d) && Depth(Root(d)) <= MAX_STACK
    ensures !Observe(dec, DocumentText(d)).failed
    ensures ReportedCost(Observe(dec, DocumentText(d))) == EstimatedCost(Meaning(dec, Root(d)))
  {
    hide Run, DocumentText, ChargedFields, Fields, Spaces, First, EstimatedCost;
    var p := ReadDocument(dec, d);
    SlotsAreEstimates(p.costs, Fields(dec, d.members));
  }

  // ----- costs by value -----

  lemma {:induction false} FieldsAreLast(dec: N.Decoder, read: V.Reading, m: Members, key: string)
    requires WellFormedMembers(m)
    ensures var j := LastMember(m, key);
      && (key in Fields(dec, m) <==> j.Some?) && (key in ValuedFields(read, m) <==> j.Some?)
      && (j.Some? ==> Fields(dec, m)[key] == Meaning(dec, j.value))
      && (j.Some? ==> ValuedFields(read, m)[key] == Valued(read, j.value))
  {
    hide Meaning, Valued, WellFormed, S.Decoded, Spaces, S.AllWellFormed;
    if m.Member? { FieldsAreLast(dec, read, m.before, key); }
  }

  /** What is charged at a path is the reading of the numeral there. */
  lemma {:induction false} CostsAtNumerals(dec: N.Decoder, read: V.Reading, j: Json, path: seq<string>)
    requires WellFormed(j)
    ensures var n := NumeralAt(j, path);
      && CostAt(Meaning(dec, j), path) == (if n.None? then None else N.Positive(N.Decode(dec, n.value)))
      && CostAt(Valued(read, j), path) ==
           (if n.None? then None else N.Positive(read(n.value.minus, N.Magnitude(n.value))))
    decreases |path|
  {
    hide N.Decode, N.Magnitude, Fields, ValuedFields, N.WellFormed, WellFormedMembers;
    if path != [] && j.Object? {
      FieldsAreLast(dec, read, j.members, path[0]);
      var v := LastMember(j.members, path[0]);
      if v.Some? { CostsAtNumerals(dec, read, v.value, path[1..]); }
    }
  }

  /** Truncation harms none of the numerals at the six places. */
  ghost predicate UnharmedCosts(j: Json)
    requires WellFormed(j)
  {
    forall i :: 0 <= i < 6 ==> UnharmedAt(j, COST_PATHS[i])
  }

  ghost predicate UnharmedAt(j: Json, path: seq<string>)
    requires WellFormed(j)
  {
    NumeralAt(j, path).Some? ==> V.Unharmed(NumeralAt(j, path).value)
  }

  lemma CostsAgree(dec: N.Decoder, read: V.Reading, j: Json, path: seq<string>)
    requires WellFormed(j) && V.ByValue(dec, read) && UnharmedAt(j, path)
    ensures CostAt(Meaning(dec, j), path) == CostAt(Valued(read, j), path)
  {
    hide N.Decode, N.Magnitude, N.Positive, V.ByValue, V.Unharmed, CostAt, Meaning, Valued, NumeralAt, WellFormed,
         N.WellFormed;
    CostsAtNumerals(dec, read, j, path);
    var n := NumeralAt(j, path);
    if n.Some? { V.UnharmedIsReadByValue(dec, read, n.value); }
  }

  /** The six places in order. */
  lemma EstimateIsFirst(v: Datum)
    ensures EstimatedCost(v) == First([
      CostAt(v, COST_PATHS[0]), CostAt(v, COST_PATHS[1]), CostAt(v, COST_PATHS[2]),
      CostAt(v, COST_PATHS[3]), CostAt(v, COST_PATHS[4]), CostAt(v, COST_PATHS[5])])
  {
    hide CostAt, First, N.Positive;
    CostAtOne(v, ESTIMATED_COST);
    CostAtOne(v, RESPONSE_COST);
    CostAtTwo(v, USAGE, ESTIMATED_COST);
    CostAtTwo(v, USAGE, TOTAL_COST);
    CostAtTwo(v, USAGE, COST);
    CostAtTwo(v, HIDDEN_PARAMS, RESPONSE_COST);
  }

  /** A document whose costs are unharmed is charged as if every number were read by its value. */
  lemma CostIsByValue(dec: N.Decoder, read: V.Reading, j: Json)
    requires WellFormed(j) && V.ByValue(dec, read) && UnharmedCosts(j)
    ensures EstimatedCost(Meaning(dec, j)) == EstimatedCost(Valued(read, j))
  {
    hide CostAt, First, EstimatedCost, Meaning, Valued, V.ByValue, WellFormed, UnharmedAt;
    forall i | 0 <= i < 6
      ensures CostAt(Meaning(dec, j), COST_PATHS[i]) == CostAt(Valued(read, j), COST_PATHS[i]) {
      CostsAgree(dec, read, j, COST_PATHS[i]);
    }
    EstimateIsFirst(Meaning(dec, j));
    EstimateIsFirst(Valued(read, j));
  }
}
