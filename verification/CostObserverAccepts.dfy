/**
 Whatever the observer has not rejected is the beginning of an object text. The proof keeps, beside the observer's
 state, the text read so far as a derivation: the open containers with all they hold, and the token in progress.
 */
module CostObserverAccepts {
  import opened Base
  import opened JsonDocuments
  import opened CostObserver
  import N = Numerals
  import S = JsonStrings

  // ----- unfinished texts -----

  /** What has been read of the member or item in progress; `Settled` when there is none. */
  datatype Phase =
    | WantKey(s1: seq<byte>)
    | WantColon(s1: seq<byte>, key: seq<S.Char>, s2: seq<byte>)
    | WantValue(s1: seq<byte>, key: seq<S.Char>, s2: seq<byte>, s3: seq<byte>)
    | InValue(s1: seq<byte>, key: seq<S.Char>, s2: seq<byte>, s3: seq<byte>)
    | WantItem(s1: seq<byte>)
    | InItem(s1: seq<byte>)
    | Settled

  datatype Open =
    | OpenObject(pad: seq<byte>, members: Members, phase: Phase)
    | OpenArray(pad: seq<byte>, items: Items, phase: Phase)

  datatype Lexeme = NoLexeme | InString(chars: seq<S.Char>, partial: S.Partial) | InScalar(text: seq<byte>)

  datatype Derivation =
    | Reading(lead: seq<byte>, opens: seq<Open>, lexeme: Lexeme)
    | Finished(document: Document)

  function PhaseText(comma: seq<byte>, p: Phase): seq<byte> {
    match p
    case WantKey(s1) => comma + s1
    case WantColon(s1, key, s2) => comma + KeyText(s1, key, s2)
    case WantValue(s1, key, s2, s3) => comma + KeyText(s1, key, s2) + [COLON] + s3
    case InValue(s1, key, s2, s3) => comma + KeyText(s1, key, s2) + [COLON] + s3
    case WantItem(s1) => comma + s1
    case InItem(s1) => comma + s1
    case Settled => []
  }

  function OpenText(d: Open): seq<byte> {
    match d
    case OpenObject(pad, members, phase) =>
      [LBRACE] + pad + MembersText(members) + PhaseText(MemberComma(members), phase)
    case OpenArray(pad, items, phase) =>
      [LBRACKET] + pad + ItemsText(items) + PhaseText(ItemComma(items), phase)
  }

  function OpensText(ds: seq<Open>): seq<byte> {
    if ds == [] then [] else OpensText(ds[..|ds| - 1]) + OpenText(ds[|ds| - 1])
  }

  function LexemeText(x: Lexeme): seq<byte> {
    match x
    case NoLexeme => []
    case InString(chars, partial) => [S.QUOTE] + S.SpellAll(chars) + S.PartialText(partial)
    case InScalar(text) => text
  }

  function TextOf(d: Derivation): seq<byte> {
    match d
    case Reading(lead, opens, lexeme) => lead + OpensText(opens) + LexemeText(lexeme)
    case Finished(document) => DocumentText(document)
  }

  // ----- how the observer's state tells where the text stands -----

  predicate Busy(d: Open) { d.phase.InValue? || d.phase.InItem? }

  predicate Empty(d: Open) { if d.OpenObject? then d.members.NoMembers? else d.items.NoItems? }

  predicate Matches(f: Frame, d: Open) {
    && f.isObject == d.OpenObject?
    && match d.phase
       case WantKey(s1) => d.OpenObject? && f.expects == (if Empty(d) then KeyOrEnd else Key) && (Empty(d) ==> s1 == [])
       case WantColon(_, _, _) => d.OpenObject? && f.expects == Colon
       case WantValue(_, _, _, _) => d.OpenObject? && f.expects == Value
       case InValue(_, _, _, _) => d.OpenObject? && f.expects == CommaOrEnd
       case WantItem(s1) => d.OpenArray? && f.expects == (if Empty(d) then ValueOrEnd else Value)
           && (Empty(d) ==> s1 == [])
       case InItem(_) => d.OpenArray? && f.expects == CommaOrEnd
       case Settled => f.expects == CommaOrEnd && !Empty(d)
  }

  ghost predicate PhaseOk(p: Phase) {
    match p
    case WantKey(s1) => Spaces(s1)
    case WantColon(s1, key, s2) => Spaces(s1) && S.AllWellFormed(key) && Spaces(s2)
    case WantValue(s1, key, s2, s3) => Spaces(s1) && S.AllWellFormed(key) && Spaces(s2) && Spaces(s3)
    case InValue(s1, key, s2, s3) => Spaces(s1) && S.AllWellFormed(key) && Spaces(s2) && Spaces(s3)
    case WantItem(s1) => Spaces(s1)
    case InItem(s1) => Spaces(s1)
    case Settled => true
  }

  ghost predicate OpenOk(d: Open, level: nat) {
    && Spaces(d.pad) && PhaseOk(d.phase)
    && match d
       case OpenObject(_, members, _) => WellFormedMembers(members) && level + MembersDepth(members) <= MAX_STACK
       case OpenArray(_, items, _) => WellFormedItems(items) && level + ItemsDepth(items) <= MAX_STACK
  }

  ghost predicate FrameOk(f: Frame, d: Open, level: nat) { Matches(f, d) && OpenOk(d, level) }

  ghost predicate StackOk(stack: seq<Frame>, opens: seq<Open>) {
    && |stack| == |opens| <= MAX_STACK
    && (stack != [] ==> stack[0].isObject)
    && (forall i :: 0 <= i < |opens| ==> FrameOk(stack[i], opens[i], i + 1))
    && (forall i :: 0 <= i < |opens| - 1 ==> Busy(opens[i]))
  }

  ghost predicate LexemeOk(token: Option<Token>, x: Lexeme, top: Open) {
    match x
    case NoLexeme => token.None? && !Busy(top)
    case InString(chars, partial) =>
      && token.Some? && token.value.StringToken?
      && S.AllWellFormed(chars) && S.Legal(partial) && S.At(token.value.text, partial)
      && (if token.value.text.key then top.phase.WantKey? else Busy(top))
    case InScalar(text) =>
      && token.Some? && token.value.ScalarToken?
      && text != [] && token.value.value == N.ReadAll(text) && Busy(top)
  }

  ghost predicate Corresponds(o: State, d: Derivation) {
    && !o.failed
    && match d
       case Reading(lead, opens, lexeme) =>
         && !o.done && Spaces(lead) && StackOk(o.stack, opens)
         && (if opens == [] then !o.started && o.token.None? && lexeme.NoLexeme?
             else o.started && LexemeOk(o.token, lexeme, opens[|opens| - 1]))
       case Finished(document) =>
         && o.done && o.started && o.stack == [] && o.token.None?
         && WellFormedDocument(document) && Depth(Root(document)) <= MAX_STACK
  }

  /** `e` continues `d` by exactly `b`, and says where `p` stands. */
  ghost predicate Continues(d: Derivation, b: byte, p: State, e: Derivation) {
    Corresponds(p, e) && TextOf(e) == TextOf(d) + [b]
  }

  // ----- changing the innermost container -----

  function TopOpen(d: Derivation): Open
    requires d.Reading? && d.opens != []
  {
    d.opens[|d.opens| - 1]
  }

  function WithTopOpen(d: Derivation, top: Open, x: Lexeme): Derivation
    requires d.Reading? && d.opens != []
  {
    Reading(d.lead, d.opens[|d.opens| - 1 := top], x)
  }

  lemma ChangeTop(stack: seq<Frame>, opens: seq<Open>, f: Frame, top: Open)
    requires StackOk(stack, opens) && opens != [] && FrameOk(f, top, |opens|)
    requires f.isObject == stack[|stack| - 1].isObject
    ensures StackOk(stack[|stack| - 1 := f], opens[|opens| - 1 := top])
  {
  }

  lemma ChangeTopText(d: Derivation, top: Open, x: Lexeme)
    requires d.Reading? && d.opens != []
    ensures TextOf(d) == d.lead + OpensText(d.opens[..|d.opens| - 1]) + (OpenText(TopOpen(d)) + LexemeText(d.lexeme))
    ensures TextOf(WithTopOpen(d, top, x)) ==
            d.lead + OpensText(d.opens[..|d.opens| - 1]) + (OpenText(top) + LexemeText(x))
  {
    hide OpenText, LexemeText;
    var init := d.opens[..|d.opens| - 1];
    var ds := d.opens[|d.opens| - 1 := top];
    assert ds[..|ds| - 1] == init;
    var a, t, l := d.lead + OpensText(init), OpenText(TopOpen(d)), LexemeText(d.lexeme);
    assert d.lead + (OpensText(init) + t) + l == a + (t + l);
    assert d.lead + (OpensText(init) + OpenText(top)) + LexemeText(x) == a + (OpenText(top) + LexemeText(x));
  }

  /** A step inside the innermost container. */
  lemma StepTop(o: State, d: Derivation, b: byte, p: State, top: Open, x: Lexeme)
    requires Corresponds(o, d) && d.Reading? && d.opens != []
    requires !p.failed && !p.done && p.started && p.stack != [] && p.stack == o.stack[|o.stack| - 1 := Top(p)]
    requires Top(p).isObject == o.stack[|o.stack| - 1].isObject
    requires FrameOk(Top(p), top, |d.opens|) && LexemeOk(p.token, x, top)
    requires OpenText(top) + LexemeText(x) == OpenText(TopOpen(d)) + LexemeText(d.lexeme) + [b]
    ensures Continues(d, b, p, WithTopOpen(d, top, x))
  {
    hide OpensText, OpenText, LexemeText, FrameOk, LexemeOk, Spaces;
    ChangeTop(o.stack, d.opens, Top(p), top);
    ChangeTopText(d, top, x);
    var a := d.lead + OpensText(d.opens[..|d.opens| - 1]);
    var t := OpenText(TopOpen(d)) + LexemeText(d.lexeme);
    assert a + (t + [b]) == a + t + [b];
  }

  // ----- whitespace -----

  function AddSpace(d: Open, b: byte): Open {
    match d.phase
    case WantKey(s1) => if Empty(d) then d.(pad := d.pad + [b]) else d.(phase := WantKey(s1 + [b]))
    case WantColon(s1, key, s2) => d.(phase := WantColon(s1, key, s2 + [b]))
    case WantValue(s1, key, s2, s3) => d.(phase := WantValue(s1, key, s2, s3 + [b]))
    case WantItem(s1) => if Empty(d) then d.(pad := d.pad + [b]) else d.(phase := WantItem(s1 + [b]))
    case Settled =>
      if d.OpenObject? then
        if d.members.Member? then d.(members := d.members.(s4 := d.members.s4 + [b])) else d
      else if d.items.Item? then d.(items := d.items.(s2 := d.items.s2 + [b])) else d
    case _ => d
  }

  lemma SpacesSnoc(s: seq<byte>, b: byte)
    requires Spaces(s) && Whitespace(b)
    ensures Spaces(s + [b])
  {
  }

  lemma SpaceIsOk(f: Frame, d: Open, level: nat, b: byte)
    requires FrameOk(f, d, level) && !Busy(d) && Whitespace(b)
    ensures FrameOk(f, AddSpace(d, b), level) && !Busy(AddSpace(d, b))
  {
    hide Spaces, S.AllWellFormed;
    match d.phase
    case WantKey(s1) => SpacesSnoc(s1, b); SpacesSnoc(d.pad, b);
    case WantColon(s1, key, s2) => SpacesSnoc(s2, b);
    case WantValue(s1, key, s2, s3) => SpacesSnoc(s3, b);
    case WantItem(s1) => SpacesSnoc(s1, b); SpacesSnoc(d.pad, b);
    case Settled =>
      if d.OpenObject? { SpacesSnoc(d.members.s4, b); } else { SpacesSnoc(d.items.s2, b); }
  }

  lemma SpacePhaseText(comma: seq<byte>, p: Phase, q: Phase, b: byte)
    requires match p
      case WantKey(s1) => q == WantKey(s1 + [b])
      case WantColon(s1, key, s2) => q == WantColon(s1, key, s2 + [b])
      case WantValue(s1, key, s2, s3) => q == WantValue(s1, key, s2, s3 + [b])
      case WantItem(s1) => q == WantItem(s1 + [b])
      case _ => false
    ensures PhaseText(comma, q) == PhaseText(comma, p) + [b]
  {
    hide S.Text;
    match p
    case WantColon(s1, key, s2) =>
      assert comma + (s1 + S.Text(key) + (s2 + [b])) == comma + (s1 + S.Text(key) + s2) + [b];
    case _ =>
  }

  lemma SpaceMembersText(m: Members, b: byte)
    requires m.Member?
    ensures MembersText(m.(s4 := m.s4 + [b])) == MembersText(m) + [b]
    ensures MemberComma(m.(s4 := m.s4 + [b])) == MemberComma(m)
  {
    hide KeyText, Text;
    var n := m.(s4 := m.s4 + [b]);
    var a := MembersText(m.before) + MemberComma(m.before) + KeyText(m.s1, m.key, m.s2) + [COLON] + m.s3
        + Text(m.value);
    assert a + (m.s4 + [b]) == a + m.s4 + [b];
  }

  lemma SpaceItemsText(t: Items, b: byte)
    requires t.Item?
    ensures ItemsText(t.(s2 := t.s2 + [b])) == ItemsText(t) + [b]
    ensures ItemComma(t.(s2 := t.s2 + [b])) == ItemComma(t)
  {
    hide Text;
    var a := ItemsText(t.before) + ItemComma(t.before) + t.s1 + Text(t.value);
    assert a + (t.s2 + [b]) == a + t.s2 + [b];
  }

  lemma SpaceOpenText(f: Frame, d: Open, b: byte)
    requires Matches(f, d) && !Busy(d)
    ensures OpenText(AddSpace(d, b)) == OpenText(d) + [b]
  {
    hide PhaseText, MembersText, ItemsText, KeyText;
    var e := AddSpace(d, b);
    if d.phase.Settled? {
      SettledText(d);
      SettledText(e);
      if d.OpenObject? { SpaceMembersText(d.members, b); } else { SpaceItemsText(d.items, b); }
    } else if (d.phase.WantKey? || d.phase.WantItem?) && Empty(d) {
      FreshText(d);
      FreshText(e);
    } else if d.OpenObject? {
      SpacePhaseText(MemberComma(d.members), d.phase, e.phase, b);
    } else {
      SpacePhaseText(ItemComma(d.items), d.phase, e.phase, b);
    }
  }

  lemma SettledText(d: Open)
    requires d.phase.Settled?
    ensures OpenText(d) == if d.OpenObject? then [LBRACE] + d.pad + MembersText(d.members)
        else [LBRACKET] + d.pad + ItemsText(d.items)
  {
  }

  lemma FreshText(d: Open)
    requires Empty(d) && (d.phase == WantKey([]) || d.phase == WantItem([]))
    ensures OpenText(d) == (if d.OpenObject? then [LBRACE] else [LBRACKET]) + d.pad
  {
  }

  lemma ReadSpace(o: State, d: Derivation, b: byte) returns (e: Derivation)
    requires Corresponds(o, d) && o.token.None? && Whitespace(b)
    ensures Continues(d, b, o, e)
  {
    match d
    case Finished(document) =>
      SpacesSnoc(document.trail, b);
      e := Finished(document.(trail := document.trail + [b]));
      assert DocumentText(document) + [b] == document.lead + Text(Root(document)) + (document.trail + [b]);
    case Reading(lead, opens, lexeme) =>
      if opens == [] {
        SpacesSnoc(lead, b);
        e := d.(lead := lead + [b]);
        assert TextOf(e) == TextOf(d) + [b];
      } else {
        ReadSpaceInside(o, d, b);
        e := WithTopOpen(d, AddSpace(TopOpen(d), b), NoLexeme);
      }
  }

  lemma ReadSpaceInside(o: State, d: Derivation, b: byte)
    requires Corresponds(o, d) && o.token.None? && Whitespace(b) && d.Reading? && d.opens != []
    ensures Continues(d, b, o, WithTopOpen(d, AddSpace(TopOpen(d), b), NoLexeme))
  {
    hide Whitespace, FrameOk, AddSpace, OpenText, OpensText, Spaces, Busy, S.At, S.Legal, S.AllWellFormed, N.ReadAll,
         Continues, WithTopOpen;
    var top := TopOpen(d);
    assert FrameOk(Top(o), top, |d.opens|);
    SpaceIsOk(Top(o), top, |d.opens|, b);
    FrameMatches(Top(o), top, |d.opens|);
    SpaceOpenText(Top(o), top, b);
    assert o.stack[|o.stack| - 1 := Top(o)] == o.stack;
    assert d.lexeme == NoLexeme;
    NoLexemeText(OpenText(top), b);
    NoLexemeText(OpenText(AddSpace(top, b)), b);
    StepTop(o, d, b, o, AddSpace(top, b), NoLexeme);
  }

  lemma FrameMatches(f: Frame, d: Open, level: nat)
    requires FrameOk(f, d, level)
    ensures Matches(f, d) && OpenOk(d, level)
  {
  }

  lemma NoLexemeText(t: seq<byte>, b: byte)
    ensures t + LexemeText(NoLexeme) == t && t + LexemeText(NoLexeme) + [b] == t + [b]
  {
  }

  // ----- beginning and completing a value -----

  function BeginOpen(d: Open): Open {
    match d.phase
    case WantValue(s1, key, s2, s3) => d.(phase := InValue(s1, key, s2, s3))
    case WantItem(s1) => d.(phase := InItem(s1))
    case _ => d
  }

  lemma BeginIsOk(f: Frame, d: Open, level: nat)
    requires FrameOk(f, d, level) && TakesValue(f)
    ensures FrameOk(f.(expects := CommaOrEnd, key := if f.isObject then None else f.key), BeginOpen(d), level)
    ensures Busy(BeginOpen(d)) && OpenText(BeginOpen(d)) == OpenText(d)
  {
    hide Spaces, S.AllWellFormed, MembersText, ItemsText, KeyText;
  }

  function AddValue(d: Open, j: Json): Open {
    match d
    case OpenObject(pad, members, InValue(s1, key, s2, s3)) =>
      OpenObject(pad, Member(members, s1, key, s2, s3, j, []), Settled)
    case OpenArray(pad, items, InItem(s1)) => OpenArray(pad, Item(items, s1, j, []), Settled)
    case _ => d
  }

  lemma AddValueIsOk(f: Frame, d: Open, level: nat, j: Json)
    requires FrameOk(f, d, level) && Busy(d) && WellFormed(j) && level + Depth(j) <= MAX_STACK
    ensures FrameOk(f, AddValue(d, j), level) && !Busy(AddValue(d, j))
  {
    hide S.AllWellFormed;
  }

  lemma Group(b: seq<byte>, a: seq<byte>, x: seq<byte>, v: seq<byte>)
    ensures b + (a + x + v) == b + a + x + v
  {
  }

  lemma MemberParts(m: Members, s1: seq<byte>, key: seq<S.Char>, s2: seq<byte>, s3: seq<byte>, j: Json)
    ensures MembersText(Member(m, s1, key, s2, s3, j, [])) ==
            MembersText(m) + (MemberComma(m) + KeyText(s1, key, s2) + [COLON] + s3) + Text(j)
  {
    hide KeyText, Text, MemberComma;
    FiveParts(MembersText(m), MemberComma(m), KeyText(s1, key, s2), [COLON], s3);
    var text := MembersText(m) + MemberComma(m) + KeyText(s1, key, s2) + [COLON] + s3 + Text(j);
    assert text + [] == text;
  }

  lemma AddMemberText(
    pad: seq<byte>, m: Members, s1: seq<byte>, key: seq<S.Char>, s2: seq<byte>, s3: seq<byte>, j: Json)
    ensures OpenText(OpenObject(pad, Member(m, s1, key, s2, s3, j, []), Settled)) ==
            OpenText(OpenObject(pad, m, InValue(s1, key, s2, s3))) + Text(j)
  {
    hide KeyText, Text, MembersText, MemberComma;
    MemberParts(m, s1, key, s2, s3, j);
    SettledText(OpenObject(pad, Member(m, s1, key, s2, s3, j, []), Settled));
    Group([LBRACE] + pad, MembersText(m), MemberComma(m) + KeyText(s1, key, s2) + [COLON] + s3, Text(j));
  }

  lemma ItemParts(t: Items, s1: seq<byte>, j: Json)
    ensures ItemsText(Item(t, s1, j, [])) == ItemsText(t) + (ItemComma(t) + s1) + Text(j)
  {
    hide Text;
    assert ItemsText(t) + (ItemComma(t) + s1) == ItemsText(t) + ItemComma(t) + s1;
  }

  lemma AddItemText(pad: seq<byte>, t: Items, s1: seq<byte>, j: Json)
    ensures OpenText(OpenArray(pad, Item(t, s1, j, []), Settled)) == OpenText(OpenArray(pad, t, InItem(s1))) + Text(j)
  {
    hide Text, ItemsText, ItemComma;
    ItemParts(t, s1, j);
    SettledText(OpenArray(pad, Item(t, s1, j, []), Settled));
    Group([LBRACKET] + pad, ItemsText(t), ItemComma(t) + s1, Text(j));
  }

  lemma AddValueText(f: Frame, d: Open, j: Json)
    requires Matches(f, d) && Busy(d)
    ensures OpenText(AddValue(d, j)) == OpenText(d) + Text(j)
  {
    hide OpenText, Text;
    match d
    case OpenObject(pad, members, InValue(s1, key, s2, s3)) => AddMemberText(pad, members, s1, key, s2, s3, j);
    case OpenArray(pad, items, InItem(s1)) => AddItemText(pad, items, s1, j);
  }

  lemma TopIsOk(o: State, d: Derivation)
    requires Corresponds(o, d) && d.Reading? && d.opens != []
    ensures o.stack != [] && |o.stack| == |d.opens| && FrameOk(Top(o), TopOpen(d), |d.opens|)
    ensures LexemeOk(o.token, d.lexeme, TopOpen(d))
    ensures o.stack[|o.stack| - 1 := Top(o)] == o.stack && !o.failed && !o.done && o.started
  {
  }

  // ----- opening tokens -----

  lemma ReadKeyQuote(o: State, d: Derivation) returns (e: Derivation)
    requires Corresponds(o, d) && o.token.None? && d.Reading? && d.opens != [] && WantsKey(Top(o))
    ensures Continues(d, S.QUOTE, o.(token := Some(StringToken(S.Start(true)))), e)
  {
    hide FrameOk, OpenText, Corresponds, Continues;
    TopIsOk(o, d);
    var top, x := TopOpen(d), InString([], S.Between);
    FrameMatches(Top(o), top, |d.opens|);
    NoLexemeText(OpenText(top), S.QUOTE);
    assert LexemeText(x) == [S.QUOTE];
    StepTop(o, d, S.QUOTE, o.(token := Some(StringToken(S.Start(true)))), top, x);
    e := WithTopOpen(d, top, x);
  }

  /** A token that begins the top frame's value. */
  lemma ReadFirstByte(o: State, d: Derivation, b: byte, token: Token, x: Lexeme) returns (e: Derivation)
    requires Corresponds(o, d) && o.token.None? && d.Reading? && d.opens != [] && TakesValue(Top(o))
    requires LexemeOk(Some(token), x, BeginOpen(TopOpen(d))) && LexemeText(x) == [b]
    ensures Continues(d, b, Begin(o).(token := Some(token)), e)
  {
    hide FrameOk, OpenText, Corresponds, Continues, LexemeOk, Clear, LexemeText, FullPath;
    TopIsOk(o, d);
    var top := TopOpen(d);
    BeginIsOk(Top(o), top, |d.opens|);
    NoneIsNoLexeme(o.token, d.lexeme, top);
    NoLexemeText(OpenText(top), b);
    StepTop(o, d, b, Begin(o).(token := Some(token)), BeginOpen(top), x);
    e := WithTopOpen(d, BeginOpen(top), x);
  }

  lemma NoneIsNoLexeme(token: Option<Token>, x: Lexeme, top: Open)
    requires LexemeOk(token, x, top) && token.None?
    ensures x == NoLexeme && !Busy(top)
  {
  }

  lemma ReadValueQuote(o: State, d: Derivation) returns (e: Derivation)
    requires Corresponds(o, d) && o.token.None? && d.Reading? && d.opens != [] && TakesValue(Top(o))
    ensures Continues(d, S.QUOTE, Begin(o).(token := Some(StringToken(S.Start(false)))), e)
  {
    hide FrameOk, OpenText, Corresponds, Continues, Clear, FullPath;
    TopIsOk(o, d);
    BeginIsOk(Top(o), TopOpen(d), |d.opens|);
    var x := InString([], S.Between);
    assert LexemeText(x) == [S.QUOTE];
    e := ReadFirstByte(o, d, S.QUOTE, StringToken(S.Start(false)), x);
  }

  lemma ReadScalarStart(o: State, d: Derivation, b: byte, path: seq<string>) returns (e: Derivation)
    requires Corresponds(o, d) && o.token.None? && d.Reading? && d.opens != [] && TakesValue(Top(o))
    ensures Continues(d, b, Begin(o).(token := Some(ScalarToken(N.ReadAll([b]), path))), e)
  {
    hide FrameOk, OpenText, Corresponds, Continues, Clear, FullPath, N.ReadAll;
    TopIsOk(o, d);
    BeginIsOk(Top(o), TopOpen(d), |d.opens|);
    e := ReadFirstByte(o, d, b, ScalarToken(N.ReadAll([b]), path), InScalar([b]));
  }

  // ----- punctuation -----

  lemma ReadColon(o: State, d: Derivation) returns (e: Derivation)
    requires Corresponds(o, d) && o.token.None? && d.Reading? && d.opens != []
    requires Top(o).isObject && Top(o).expects == Colon
    ensures Continues(d, COLON, WithTop(o, Top(o).(expects := Value)), e)
  {
    hide OpenText, Corresponds, Continues, S.AllWellFormed, KeyText;
    TopIsOk(o, d);
    var top := TopOpen(d);
    FrameMatches(Top(o), top, |d.opens|);
    var WantColon(s1, key, s2) := top.phase;
    var next := OpenObject(top.pad, top.members, WantValue(s1, key, s2, []));
    ColonText(top, s1, key, s2);
    NoneIsNoLexeme(o.token, d.lexeme, top);
    NoLexemeText(OpenText(top), COLON);
    NoLexemeText(OpenText(next), COLON);
    StepTop(o, d, COLON, WithTop(o, Top(o).(expects := Value)), next, NoLexeme);
    e := WithTopOpen(d, next, NoLexeme);
  }

  lemma ColonText(top: Open, s1: seq<byte>, key: seq<S.Char>, s2: seq<byte>)
    requires top.OpenObject? && top.phase == WantColon(s1, key, s2)
    ensures OpenText(OpenObject(top.pad, top.members, WantValue(s1, key, s2, []))) == OpenText(top) + [COLON]
  {
    hide KeyText, MembersText;
  }

  lemma ReadComma(o: State, d: Derivation) returns (e: Derivation)
    requires Corresponds(o, d) && o.token.None? && d.Reading? && d.opens != [] && Top(o).expects == CommaOrEnd
    ensures Continues(d, COMMA, WithTop(o, Top(o).(expects := if Top(o).isObject then Key else Value)), e)
  {
    hide OpenText, Corresponds, Continues, MembersText, ItemsText, WellFormedMembers, WellFormedItems;
    TopIsOk(o, d);
    var top := TopOpen(d);
    FrameMatches(Top(o), top, |d.opens|);
    NoneIsNoLexeme(o.token, d.lexeme, top);
    assert top.phase.Settled?;
    var next := top.(phase := if top.OpenObject? then WantKey([]) else WantItem([]));
    CommaText(top);
    NoLexemeText(OpenText(top), COMMA);
    NoLexemeText(OpenText(next), COMMA);
    StepTop(o, d, COMMA, WithTop(o, Top(o).(expects := if Top(o).isObject then Key else Value)), next, NoLexeme);
    e := WithTopOpen(d, next, NoLexeme);
  }

  lemma CommaText(top: Open)
    requires top.phase.Settled? && !Empty(top)
    ensures OpenText(top.(phase := if top.OpenObject? then WantKey([]) else WantItem([]))) == OpenText(top) + [COMMA]
  {
    hide MembersText, ItemsText;
  }

  // ----- containers -----

  function NewOpen(isObject: bool): Open {
    if isObject then OpenObject([], NoMembers, WantKey([])) else OpenArray([], NoItems, WantItem([]))
  }

  function NewFrame(isObject: bool, path: seq<string>): Frame {
    Frame(isObject, if isObject then KeyOrEnd else ValueOrEnd, path, None)
  }

  lemma NewIsOk(isObject: bool, path: seq<string>, level: nat)
    requires level <= MAX_STACK
    ensures FrameOk(NewFrame(isObject, path), NewOpen(isObject), level) && !Busy(NewOpen(isObject))
    ensures OpenText(NewOpen(isObject)) == [if isObject then LBRACE else LBRACKET]
  {
  }

  lemma PushOk(stack: seq<Frame>, opens: seq<Open>, f: Frame, d: Open)
    requires StackOk(stack, opens) && |opens| < MAX_STACK && (opens != [] ==> Busy(opens[|opens| - 1]))
    requires FrameOk(f, d, |opens| + 1) && (opens == [] ==> f.isObject)
    ensures StackOk(stack + [f], opens + [d])
  {
    hide FrameOk, Busy;
  }

  lemma PushText(opens: seq<Open>, d: Open)
    ensures OpensText(opens + [d]) == OpensText(opens) + OpenText(d)
  {
    assert (opens + [d])[..|opens|] == opens;
  }

  lemma ReadOpener(o: State, d: Derivation, isObject: bool, path: seq<string>) returns (e: Derivation)
    requires Corresponds(o, d) && o.token.None? && d.Reading? && d.opens != [] && TakesValue(Top(o))
    requires |o.stack| < MAX_STACK
    ensures var p := Begin(o);
      Continues(d, if isObject then LBRACE else LBRACKET, p.(stack := p.stack + [NewFrame(isObject, path)]), e)
  {
    hide FrameOk, OpenText, OpensText, Spaces, Clear, FullPath, BeginOpen, Busy;
    TopIsOk(o, d);
    var top := TopOpen(d);
    BeginIsOk(Top(o), top, |d.opens|);
    var p := Begin(o);
    ChangeTop(o.stack, d.opens, Top(p), BeginOpen(top));
    var opens := d.opens[|d.opens| - 1 := BeginOpen(top)];
    NewIsOk(isObject, path, |opens| + 1);
    PushOk(p.stack, opens, NewFrame(isObject, path), NewOpen(isObject));
    PushText(opens, NewOpen(isObject));
    SameText(d.opens, opens);
    assert d.lexeme == NoLexeme;
    e := Reading(d.lead, opens + [NewOpen(isObject)], NoLexeme);
  }

  lemma SameText(opens: seq<Open>, changed: seq<Open>)
    requires opens != [] && |changed| == |opens| && changed[..|opens| - 1] == opens[..|opens| - 1]
    requires OpenText(changed[|opens| - 1]) == OpenText(opens[|opens| - 1])
    ensures OpensText(changed) == OpensText(opens)
  {
  }

  lemma ReadStart(o: State, d: Derivation) returns (e: Derivation)
    requires Corresponds(o, d) && !o.started && o.token.None?
    ensures Continues(d, LBRACE, o.(started := true, stack := o.stack + [NewFrame(true, [])]), e)
  {
    hide FrameOk, OpenText, Spaces, Busy;
    NewIsOk(true, [], 1);
    PushOk(o.stack, d.opens, NewFrame(true, []), NewOpen(true));
    PushText(d.opens, NewOpen(true));
    e := Reading(d.lead, d.opens + [NewOpen(true)], NoLexeme);
  }

  /** The value a container amounts to once it is closed. */
  function Closed(d: Open): Json {
    if d.OpenObject? then Object(d.pad, d.members) else Array(d.pad, d.items)
  }

  lemma ClosedText(f: Frame, d: Open)
    requires Matches(f, d) && MayEnd(f.expects) && !Busy(d)
    ensures Text(Closed(d)) == OpenText(d) + [if d.OpenObject? then RBRACE else RBRACKET]
  {
    hide MembersText, ItemsText;
    if d.phase.Settled? { SettledText(d); } else { FreshText(d); EmptyText(d); }
  }

  lemma EmptyText(d: Open)
    requires Empty(d)
    ensures if d.OpenObject? then MembersText(d.members) == [] else ItemsText(d.items) == []
  {
  }

  lemma ClosedIsOk(d: Open, level: nat)
    requires OpenOk(d, level)
    ensures WellFormed(Closed(d)) && level + Depth(Closed(d)) <= MAX_STACK + 1
  {
  }

  /** The innermost container is taken off, its parent still busy with it. */
  lemma PopOk(stack: seq<Frame>, opens: seq<Open>)
    requires StackOk(stack, opens) && opens != []
    ensures StackOk(stack[..|stack| - 1], opens[..|opens| - 1])
    ensures |opens| > 1 ==> Busy(opens[|opens| - 2])
  {
    hide FrameOk, Busy;
  }

  lemma ReadInnerCloser(o: State, d: Derivation) returns (e: Derivation)
    requires Corresponds(o, d) && o.token.None? && d.Reading? && |d.opens| > 1 && MayEnd(Top(o).expects)
    ensures Continues(d, if Top(o).isObject then RBRACE else RBRACKET, o.(stack := o.stack[..|o.stack| - 1]), e)
  {
    hide FrameOk, OpenText, OpensText, Spaces, Busy, Text, AddValue, WellFormed, Depth, Closed;
    TopIsOk(o, d);
    var n, top := |d.opens|, TopOpen(d);
    FrameMatches(Top(o), top, n);
    NoneIsNoLexeme(o.token, d.lexeme, top);
    ClosedText(Top(o), top);
    ClosedIsOk(top, n);
    PopOk(o.stack, d.opens);
    var stack, opens := o.stack[..n - 1], d.opens[..n - 1];
    var parent := opens[n - 2];
    assert FrameOk(stack[n - 2], parent, n - 1);
    AddValueIsOk(stack[n - 2], parent, n - 1, Closed(top));
    FrameMatches(stack[n - 2], parent, n - 1);
    AddValueText(stack[n - 2], parent, Closed(top));
    ChangeTop(stack, opens, stack[n - 2], AddValue(parent, Closed(top)));
    assert stack[n - 2 := stack[n - 2]] == stack;
    var inner := Reading(d.lead, opens, NoLexeme);
    e := WithTopOpen(inner, AddValue(parent, Closed(top)), NoLexeme);
    ChangeTopText(inner, AddValue(parent, Closed(top)), NoLexeme);
    ChangeTopText(d, top, NoLexeme);
    CloseTextOrder(d.lead, opens, OpenText(parent), OpenText(top), if top.OpenObject? then RBRACE else RBRACKET);
  }

  lemma CloseTextOrder(lead: seq<byte>, opens: seq<Open>, parent: seq<byte>, top: seq<byte>, b: byte)
    requires opens != [] && OpenText(opens[|opens| - 1]) == parent
    ensures lead + OpensText(opens[..|opens| - 1]) + (parent + (top + [b]) + LexemeText(NoLexeme)) ==
            lead + OpensText(opens) + (top + LexemeText(NoLexeme)) + [b]
  {
    hide OpenText;
    var inner := OpensText(opens[..|opens| - 1]);
    assert OpensText(opens) == inner + parent;
    hide OpensText, LexemeText;
    NoLexemeText(parent + (top + [b]), b);
    NoLexemeText(top, b);
    Regroup(lead, inner, parent, top, [b]);
  }

  lemma Regroup(l: seq<byte>, i: seq<byte>, p: seq<byte>, t: seq<byte>, b: seq<byte>)
    ensures l + i + (p + (t + b)) == l + (i + p) + t + b
  {
    assert l + (i + p) == l + i + p;
    assert l + i + (p + (t + b)) == l + i + p + (t + b);
  }

  lemma ReadFinalCloser(o: State, d: Derivation) returns (e: Derivation)
    requires Corresponds(o, d) && o.token.None? && d.Reading? && |d.opens| == 1 && MayEnd(Top(o).expects)
    requires Top(o).isObject
    ensures Continues(d, RBRACE, o.(stack := o.stack[..|o.stack| - 1], done := true), e)
  {
    hide OpenText, Spaces, Text, MembersText, PhaseOk;
    TopIsOk(o, d);
    var top := TopOpen(d);
    FrameMatches(Top(o), top, 1);
    NoneIsNoLexeme(o.token, d.lexeme, top);
    ClosedText(Top(o), top);
    ClosedIsOk(top, 1);
    var document := Document(d.lead, top.pad, top.members, []);
    e := Finished(document);
    assert Spaces([]) by { NoSpaces(); }
    assert OpensText(d.opens) == OpenText(top) by {
      assert d.opens[..0] == [];
      assert OpensText(d.opens[..0]) + OpenText(top) == OpenText(top);
    }
    assert DocumentText(document) == d.lead + (OpenText(top) + [RBRACE]) + [];
  }

  lemma NoSpaces()
    ensures Spaces([])
  {
  }

  // ----- structure -----

  lemma ReadCloser(o: State, d: Derivation, isObject: bool) returns (e: Derivation)
    requires Corresponds(o, d) && o.token.None? && d.Reading? && d.opens != [] && o.stack != []
    requires !CloseContainer(o, isObject).failed
    ensures Continues(d, if isObject then RBRACE else RBRACKET, CloseContainer(o, isObject), e)
  {
    hide Continues;
    TopIsOk(o, d);
    if |d.opens| > 1 {
      e := ReadInnerCloser(o, d);
    } else {
      FrameMatches(Top(o), TopOpen(d), 1);
      assert Top(o).isObject;
      e := ReadFinalCloser(o, d);
    }
  }

  ghost predicate Awaiting(o: State, d: Derivation) {
    Corresponds(o, d) && o.token.None? && d.Reading? && d.opens != [] && o.stack != []
  }

  lemma ReadInside(o: State, d: Derivation, b: byte) returns (e: Derivation)
    requires Awaiting(o, d) && !Inside(o, b).failed
    ensures Continues(d, b, Inside(o, b), e)
  {
    hide Continues, Corresponds, TakesValue, WantsKey, Clear, Collapse, FullPath, N.ReadAll, S.Start;
    if b == S.QUOTE {
      if WantsKey(Top(o)) { e := ReadKeyQuote(o, d); } else { e := ReadValueQuote(o, d); }
    } else if b == LBRACE || b == LBRACKET {
      BeginSize(o);
      e := ReadOpener(o, d, b == LBRACE, Collapse(FullPath(Top(o))));
    } else if b == RBRACE || b == RBRACKET {
      e := ReadCloser(o, d, b == RBRACE);
    } else if b == COLON {
      e := ReadColon(o, d);
    } else if b == COMMA {
      e := ReadComma(o, d);
    } else {
      e := ReadScalarStart(o, d, b, Collapse(FullPath(Top(o))));
    }
  }

  lemma BeginSize(o: State)
    requires o.stack != [] && TakesValue(Top(o))
    ensures |Begin(o).stack| == |o.stack|
  {
  }

  lemma Standing(o: State, d: Derivation)
    requires Corresponds(o, d) && o.token.None?
    ensures o.started && !o.done ==> Awaiting(o, d)
  {
    hide FrameOk, Busy, LexemeOk, Spaces, WellFormedDocument, Depth;
  }

  lemma ReadStructural(o: State, d: Derivation, b: byte) returns (e: Derivation)
    requires Corresponds(o, d) && o.token.None? && !Structural(o, b).failed
    ensures Continues(d, b, Structural(o, b), e)
  {
    hide Continues, Inside, Corresponds, Whitespace;
    if Whitespace(b) {
      e := ReadSpace(o, d, b);
    } else if !o.started {
      e := ReadStart(o, d);
    } else {
      Standing(o, d);
      e := ReadInside(o, d, b);
    }
  }

  // ----- tokens -----

  lemma ReadCharByte(o: State, d: Derivation, t: S.Token, b: byte, u: S.Token, x: Lexeme) returns (e: Derivation)
    requires Corresponds(o, d) && d.Reading? && d.opens != [] && o.token == Some(StringToken(t)) && d.lexeme.InString?
    requires x.InString? && S.AllWellFormed(x.chars) && S.Legal(x.partial) && S.At(u, x.partial) && u.key == t.key
    requires LexemeText(x) == LexemeText(d.lexeme) + [b]
    ensures Continues(d, b, o.(token := Some(StringToken(u))), e)
  {
    hide FrameOk, OpenText, Corresponds, Continues, LexemeText, S.AllWellFormed, S.Legal, S.At;
    TopIsOk(o, d);
    var top := TopOpen(d);
    assert OpenText(top) + (LexemeText(d.lexeme) + [b]) == OpenText(top) + LexemeText(d.lexeme) + [b];
    StepTop(o, d, b, o.(token := Some(StringToken(u))), top, x);
    e := WithTopOpen(d, top, x);
  }

  lemma GrowLexeme(chars: seq<S.Char>, partial: S.Partial, b: byte)
    requires S.Legal(partial) && S.AllWellFormed(chars)
    ensures match S.Advanced(partial, b)
      case Finished(c) =>
        && S.AllWellFormed(chars + [c])
        && LexemeText(InString(chars + [c], S.Between)) == LexemeText(InString(chars, partial)) + [b]
      case Further(q) => S.Legal(q) && LexemeText(InString(chars, q)) == LexemeText(InString(chars, partial)) + [b]
      case Ends => partial == S.Between && b == S.QUOTE
      case Error => true
  {
    hide S.Advanced, S.Legal, S.WellFormed, S.Spell, S.SpellAll, S.PartialText;
    S.AdvanceText(partial, b);
    var a := S.Advanced(partial, b);
    if a.Finished? {
      FinishedText(chars, partial, b, a.c);
    } else if a.Further? {
      FurtherText([S.QUOTE] + S.SpellAll(chars), S.PartialText(partial), b);
    }
  }

  lemma FurtherText(front: seq<byte>, part: seq<byte>, b: byte)
    ensures front + (part + [b]) == front + part + [b]
  {
  }

  lemma FinishedText(chars: seq<S.Char>, partial: S.Partial, b: byte, c: S.Char)
    requires S.Spell(c) == S.PartialText(partial) + [b]
    ensures LexemeText(InString(chars + [c], S.Between)) == LexemeText(InString(chars, partial)) + [b]
  {
    hide S.Spell, S.SpellAll;
    SpellSnoc(chars, c);
    var front := [S.QUOTE] + S.SpellAll(chars);
    assert [S.QUOTE] + (S.SpellAll(chars) + S.Spell(c)) + [] == front + S.Spell(c);
    assert S.PartialText(S.Between) == [];
    hide S.PartialText;
    FurtherText(front, S.PartialText(partial), b);
  }

  lemma SpellSnoc(chars: seq<S.Char>, c: S.Char)
    ensures S.SpellAll(chars + [c]) == S.SpellAll(chars) + S.Spell(c)
  {
    hide S.Spell;
    assert (chars + [c])[..|chars|] == chars;
  }

  /** Completing the value in progress, whether or not by the byte just read. */
  lemma CompleteValue(o: State, d: Derivation, j: Json) returns (e: Derivation)
    requires Corresponds(o, d) && d.Reading? && d.opens != [] && Busy(TopOpen(d)) && WellFormed(j) && Depth(j) == 0
    ensures e == WithTopOpen(d, AddValue(TopOpen(d), j), NoLexeme)
    ensures forall costs :: Corresponds(o.(token := None, costs := costs), e)
    ensures TextOf(d) == d.lead + OpensText(d.opens[..|d.opens| - 1]) + (OpenText(TopOpen(d)) + LexemeText(d.lexeme))
    ensures TextOf(e) == d.lead + OpensText(d.opens[..|d.opens| - 1]) + (OpenText(TopOpen(d)) + Text(j))
  {
    hide FrameOk, OpenText, OpensText, Spaces, Busy, Text, AddValue, WellFormed, Depth, LexemeText;
    TopIsOk(o, d);
    var top := TopOpen(d);
    AddValueIsOk(Top(o), top, |d.opens|, j);
    FrameMatches(Top(o), top, |d.opens|);
    AddValueText(Top(o), top, j);
    ChangeTop(o.stack, d.opens, Top(o), AddValue(top, j));
    e := WithTopOpen(d, AddValue(top, j), NoLexeme);
    ChangeTopText(d, AddValue(top, j), NoLexeme);
    NoLexemeText(OpenText(top) + Text(j), 0);
  }

  lemma ReadKeyEnd(o: State, d: Derivation, t: S.Token, key: string) returns (e: Derivation)
    requires Corresponds(o, d) && d.Reading? && d.opens != [] && o.token == Some(StringToken(t)) && t.key
    requires d.lexeme.InString? && d.lexeme.partial == S.Between && o.stack != []
    ensures Continues(d, S.QUOTE, WithTop(o, Top(o).(key := Some(key), expects := Colon)).(token := None), e)
  {
    hide OpenText, Corresponds, Continues, LexemeText, S.AllWellFormed, S.At, WellFormedMembers, Spaces;
    TopIsOk(o, d);
    var top, chars := TopOpen(d), d.lexeme.chars;
    FrameMatches(Top(o), top, |d.opens|);
    var next := OpenObject(top.pad, top.members, WantColon(top.phase.s1, chars, []));
    assert Spaces([]) by { NoSpaces(); }
    KeyEndText(top, chars);
    NoLexemeText(OpenText(next), S.QUOTE);
    StepTop(o, d, S.QUOTE, WithTop(o, Top(o).(key := Some(key), expects := Colon)).(token := None), next, NoLexeme);
    e := WithTopOpen(d, next, NoLexeme);
  }

  lemma KeyEndText(top: Open, chars: seq<S.Char>)
    requires top.OpenObject? && top.phase.WantKey?
    ensures OpenText(OpenObject(top.pad, top.members, WantColon(top.phase.s1, chars, []))) ==
            OpenText(top) + LexemeText(InString(chars, S.Between)) + [S.QUOTE]
  {
    hide MembersText, S.SpellAll;
    var a, c, s1 := [LBRACE] + top.pad + MembersText(top.members), MemberComma(top.members), top.phase.s1;
    var text := S.Text(chars);
    assert LexemeText(InString(chars, S.Between)) + [S.QUOTE] == text;
    assert KeyText(s1, chars, []) == s1 + text;
    assert a + (c + (s1 + text)) == a + (c + s1) + text;
    assert a + (c + s1) + LexemeText(InString(chars, S.Between)) + [S.QUOTE] ==
           a + (c + s1) + (LexemeText(InString(chars, S.Between)) + [S.QUOTE]);
  }

  lemma ReadStringEnd(o: State, d: Derivation, t: S.Token) returns (e: Derivation)
    requires Corresponds(o, d) && d.Reading? && d.opens != [] && o.token == Some(StringToken(t)) && !t.key
    requires d.lexeme.InString? && d.lexeme.partial == S.Between
    ensures Continues(d, S.QUOTE, o.(token := None), e)
  {
    hide OpenText, OpensText, LexemeText, Text, S.AllWellFormed, S.At, FrameOk, Spaces;
    TopIsOk(o, d);
    var chars := d.lexeme.chars;
    e := CompleteValue(o, d, String(chars));
    assert Corresponds(o.(token := None, costs := o.costs), e);
    StringEndText(chars);
    EndText(d.lead + OpensText(d.opens[..|d.opens| - 1]), OpenText(TopOpen(d)), LexemeText(d.lexeme), S.QUOTE);
  }

  lemma StringEndText(chars: seq<S.Char>)
    ensures Text(String(chars)) == LexemeText(InString(chars, S.Between)) + [S.QUOTE]
  {
    hide S.SpellAll;
  }

  lemma EndText(a: seq<byte>, t: seq<byte>, l: seq<byte>, b: byte)
    ensures a + (t + (l + [b])) == a + (t + l) + [b]
  {
    assert t + (l + [b]) == t + l + [b];
  }

  lemma ReadStringByte(o: State, d: Derivation, t: S.Token, b: byte) returns (e: Derivation)
    requires Corresponds(o, d) && o.token == Some(StringToken(t)) && !StringStep(o, t, b).failed
    ensures Continues(d, b, StringStep(o, t, b), e)
  {
    hide Continues, StackOk, LexemeText, S.AllWellFormed, S.Legal, S.At, S.Step, S.Advanced, S.KeyOf, Spaces, Busy,
         WellFormedDocument, Depth;
    var InString(chars, partial) := d.lexeme;
    S.StepAdvances(t, partial, b);
    GrowLexeme(chars, partial, b);
    match S.Advanced(partial, b)
    case Finished(c) =>
      BetweenChars();
      e := ReadCharByte(o, d, t, b, S.Step(t, b).token, InString(chars + [c], S.Between));
    case Further(q) =>
      e := ReadCharByte(o, d, t, b, S.Step(t, b).token, InString(chars, q));
    case Ends =>
      if t.key {
        e := ReadKeyEnd(o, d, t, S.KeyOf(S.Step(t, b).raw).value);
      } else {
        e := ReadStringEnd(o, d, t);
      }
    case Error =>
      assert false;
  }

  lemma BetweenChars()
    ensures S.Legal(S.Between)
  {
  }

  lemma ReadScalarByte(o: State, d: Derivation, value: N.Scalar, path: seq<string>, b: byte) returns (e: Derivation)
    requires Corresponds(o, d) && o.token == Some(ScalarToken(value, path)) && !ScalarStep(o, value, path, b).failed
    ensures Continues(d, b, ScalarStep(o, value, path, b), e)
  {
    hide FrameOk, OpenText, Continues, N.ReadAll, N.Feed, StackOk, Spaces, WellFormedDocument, Depth;
    TopIsOk(o, d);
    var top, text := TopOpen(d), d.lexeme.text;
    ReadMore(text, b);
    StepTop(o, d, b, ScalarStep(o, value, path, b), top, InScalar(text + [b]));
    e := WithTopOpen(d, top, InScalar(text + [b]));
  }

  lemma ReadMore(text: seq<byte>, b: byte)
    requires text != []
    ensures N.ReadAll(text + [b]) == N.Feed(N.ReadAll(text), b)
  {
    assert (text + [b])[..|text|] == text;
  }

  /** A complete scalar token is a numeral or one of the three names. */
  lemma ScalarValue(text: seq<byte>) returns (j: Json)
    requires text != [] && N.Valid(N.ReadAll(text))
    ensures WellFormed(j) && Depth(j) == 0 && Text(j) == text
  {
    hide N.ReadAll, N.WellFormed, N.Text;
    N.RecognisesScalars(text);
    if N.IsLiteral(text) {
      j := Literal(text);
    } else {
      var n :| N.WellFormed(n) && N.Text(n) == text;
      j := Number(n);
    }
  }

  lemma FinishScalarValue(dec: N.Decoder, o: State, d: Derivation) returns (e: Derivation)
    requires Corresponds(o, d) && o.token.Some? && o.token.value.ScalarToken? && !FinishScalar(dec, o).failed
    ensures Corresponds(FinishScalar(dec, o), e) && TextOf(e) == TextOf(d)
  {
    hide N.ReadAll, N.Cost, StackOk, Spaces, OpenText, OpensText, Text, WellFormed, Depth, WellFormedDocument, Busy;
    var text := d.lexeme.text;
    var j := ScalarValue(text);
    e := CompleteValue(o, d, j);
    var p := FinishScalar(dec, o);
    assert p == o.(token := None, costs := p.costs);
  }

  // ----- every step, and every run -----

  lemma ReadByte(dec: N.Decoder, o: State, d: Derivation, b: byte) returns (e: Derivation)
    requires Corresponds(o, d) && !Step(dec, o, b).failed
    ensures Continues(d, b, Step(dec, o, b), e)
  {
    hide Continues, Corresponds, Structural, StringStep, ScalarStep, FinishScalar, Terminates;
    NotFailed(o, d);
    if o.token.None? {
      e := ReadStructural(o, d, b);
    } else if o.token.value.StringToken? {
      e := ReadStringByte(o, d, o.token.value.text, b);
    } else if !Terminates(b) {
      e := ReadScalarByte(o, d, o.token.value.value, o.token.value.path, b);
    } else {
      var p := FinishScalar(dec, o);
      StructuralKeepsFailure(p, b);
      var f := FinishScalarValue(dec, o, d);
      NoTokenAfter(dec, o);
      e := ReadStructural(p, f, b);
      SameStart(d, f, b, Structural(p, b), e);
    }
  }

  lemma NotFailed(o: State, d: Derivation)
    requires Corresponds(o, d)
    ensures !o.failed
  {
  }

  lemma StructuralKeepsFailure(o: State, b: byte)
    requires !Structural(o, b).failed
    ensures !o.failed
  {
  }

  lemma NoTokenAfter(dec: N.Decoder, o: State)
    requires o.token.Some? && o.token.value.ScalarToken?
    ensures FinishScalar(dec, o).token.None?
  {
  }

  lemma SameStart(d: Derivation, f: Derivation, b: byte, p: State, e: Derivation)
    requires TextOf(f) == TextOf(d) && Continues(f, b, p, e)
    ensures Continues(d, b, p, e)
  {
  }

  lemma {:induction false} ReadBytes(dec: N.Decoder, bs: seq<byte>) returns (d: Derivation)
    requires !Run(dec, INITIAL, bs).failed
    ensures Corresponds(Run(dec, INITIAL, bs), d) && TextOf(d) == bs
  {
    hide Step, Corresponds, TextOf;
    if bs == [] {
      d := Reading([], [], NoLexeme);
      Beginning();
    } else {
      var init, last := bs[..|bs| - 1], bs[|bs| - 1];
      assert bs == init + [last];
      RunConcat(dec, INITIAL, init, [last]);
      var o := Run(dec, INITIAL, init);
      assert [last][1..] == [];
      assert Run(dec, INITIAL, bs) == Step(dec, o, last);
      StepKeepsFailure(dec, o, last);
      d := ReadBytes(dec, init);
      d := ReadByte(dec, o, d, last);
    }
  }

  lemma Beginning()
    ensures Corresponds(INITIAL, Reading([], [], NoLexeme)) && TextOf(Reading([], [], NoLexeme)) == []
  {
  }

  lemma StepKeepsFailure(dec: N.Decoder, o: State, b: byte)
    ensures o.failed ==> Step(dec, o, b).failed
  {
  }

  /** A body the observer does not reject is the text of some well-formed object nested at most 128 deep. */
  lemma AcceptedIsDocument(dec: N.Decoder, body: seq<byte>) returns (d: Document)
    requires !Observe(dec, body).failed
    ensures WellFormedDocument(d) && Depth(Root(d)) <= MAX_STACK && DocumentText(d) == body
  {
    hide Run, WellFormedDocument, Depth, StackOk, Spaces, N.Cost;
    var e := ReadBytes(dec, body);
    d := e.document;
  }
}
