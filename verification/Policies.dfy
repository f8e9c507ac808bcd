/**
 Policy layering of policies.rs: layers are folded into one effective policy, in which an empty allowlist means
 "anything" and a list that became empty is remembered only by the deny flag.
 */
module Policies {
  import opened Base

  datatype Route =
    | ChatCompletions | Responses | LiteLlmEmbeddings | LiteLlmRerank | AnthropicMessages
    | AnthropicMessagesCountTokens | AnthropicMessageBatches | AnthropicMessageBatch | AnthropicMessageBatchResults
    | AnthropicMessageBatchCancel | AnthropicModels | DirectOpenAi | LiteLlmPassthrough | Summary | Translation | Ocr
    | Embeddings | ServiceWildcard

  datatype Provider = LiteLlm | OpenAiCompatible | InternalService

  /** Limits that no request check of this module reads, merged like the others. */
  datatype Quotas = Quotas(
    rpm: Option<int>, tpm: Option<int>, dailyBudget: Option<real>, monthlyBudget: Option<real>,
    requestsPerDay: Option<int>, tokensPerDay: Option<int>, unusedDays: Option<int>, streamSeconds: Option<int>,
    sseEventBytes: Option<int>, toolCalls: Option<int>, toolSchemaBytes: Option<int>)

  datatype KeyPolicy = KeyPolicy(
    deny: bool, routes: seq<Route>, models: seq<string>, providers: seq<Provider>, services: seq<string>,
    allowStreaming: bool, allowTools: bool, hours: seq<int>,
    maxCost: Option<real>, maxInputTokens: Option<int>, maxOutputTokens: Option<int>,
    maxRequestBytes: Option<int>, maxResponseBytes: Option<int>, quotas: Quotas, version: int)

  const NO_QUOTAS := Quotas(None, None, None, None, None, None, None, None, None, None, None)

  const DEFAULT := KeyPolicy(
    false, [ChatCompletions, Responses], [], [LiteLlm], [], false, false, [], None, None, None, None, None,
    NO_QUOTAS, 1)

  function NeutralLayer(version: int): KeyPolicy {
    KeyPolicy(false, [], [], [], [], true, true, [], None, None, None, None, None, NO_QUOTAS, version)
  }

  // ----- merging -----

  function Stricter(a: Option<int>, b: Option<int>): Option<int> {
    if a.None? then b else if b.None? then a else Some(Min(a.value, b.value))
  }

  function StricterReal(a: Option<real>, b: Option<real>): Option<real> {
    if a.None? then b else if b.None? then a else Some(if a.value <= b.value then a.value else b.value)
  }

  function Retain<T(==)>(list: seq<T>, next: seq<T>): seq<T> {
    if list == [] then [] else
      var rest := Retain(list[..|list| - 1], next);
      if list[|list| - 1] in next then rest + [list[|list| - 1]] else rest
  }

  function MergeList<T(==)>(list: seq<T>, next: seq<T>): seq<T> {
    if next == [] then list else if list == [] then next else Retain(list, next)
  }

  /** The two lists have nothing in common, which only the deny flag will remember. */
  predicate Emptied<T(==)>(list: seq<T>, next: seq<T>) { list != [] && next != [] && Retain(list, next) == [] }

  /** Hours of the day from `hour` on that `hours` names, ascending and once each. */
  function HoursFrom(hours: seq<int>, hour: nat): seq<int>
    requires hour <= 24
    decreases 24 - hour
  {
    if hour == 24 then [] else (if hour in hours then [hour as int] else []) + HoursFrom(hours, hour + 1)
  }

  function ValidHours(hours: seq<int>): seq<int> { HoursFrom(hours, 0) }

  function MergeQuotas(a: Quotas, b: Quotas): Quotas {
    Quotas(
      Stricter(a.rpm, b.rpm), Stricter(a.tpm, b.tpm), StricterReal(a.dailyBudget, b.dailyBudget),
      StricterReal(a.monthlyBudget, b.monthlyBudget), Stricter(a.requestsPerDay, b.requestsPerDay),
      Stricter(a.tokensPerDay, b.tokensPerDay), Stricter(a.unusedDays, b.unusedDays),
      Stricter(a.streamSeconds, b.streamSeconds), Stricter(a.sseEventBytes, b.sseEventBytes),
      Stricter(a.toolCalls, b.toolCalls), Stricter(a.toolSchemaBytes, b.toolSchemaBytes))
  }

  function MergePolicy(e: KeyPolicy, next: KeyPolicy): KeyPolicy {
    var hours := ValidHours(next.hours);
    KeyPolicy(
      || e.deny || next.deny
      || Emptied(e.routes, next.routes) || Emptied(e.models, next.models) || Emptied(e.providers, next.providers)
      || Emptied(e.services, next.services) || Emptied(e.hours, hours),
      MergeList(e.routes, next.routes), MergeList(e.models, next.models), MergeList(e.providers, next.providers),
      MergeList(e.services, next.services),
      e.allowStreaming && next.allowStreaming, e.allowTools && next.allowTools, MergeList(e.hours, hours),
      StricterReal(e.maxCost, next.maxCost), Stricter(e.maxInputTokens, next.maxInputTokens),
      Stricter(e.maxOutputTokens, next.maxOutputTokens), Stricter(e.maxRequestBytes, next.maxRequestBytes),
      Stricter(e.maxResponseBytes, next.maxResponseBytes), MergeQuotas(e.quotas, next.quotas),
      Max(e.version, next.version))
  }

  function Resolve(layers: seq<KeyPolicy>): KeyPolicy {
    if layers == [] then DEFAULT
    else if |layers| == 1 then layers[0]
    else MergePolicy(Resolve(layers[..|layers| - 1]), layers[|layers| - 1])
  }

  /** The fold over the layers after the first. */
  method ResolveEffectivePolicy(layers: seq<KeyPolicy>) returns (effective: KeyPolicy)
    ensures effective == Resolve(layers)
    ensures layers != [] ==> LeastLimits(layers, effective) && LeastQuotas(layers, effective.quotas)
  {
    hide MergePolicy, LeastLimits, LeastQuotas;
    if layers == [] { return DEFAULT; }
    effective := layers[0];
    for i := 1 to |layers|
      invariant effective == Resolve(layers[..i])
    {
      effective := MergePolicy(effective, layers[i]);
      assert layers[..i + 1][..i] == layers[..i];
    }
    assert layers[..|layers|] == layers;
    EffectiveLimitsAreLeast(layers);
    EffectiveQuotasAreLeast(layers);
  }

  // ----- evaluation -----

  /** An hour of the day, as the clock tells it. */
  type Hour = h: int | 0 <= h < 24

  datatype Request = Request(
    route: Route, provider: Provider, service: Option<string>, model: Option<string>, stream: bool, tools: bool,
    hour: Hour,
    requestBytes: Option<int>, responseBytes: Option<int>, inputTokens: Option<int>, outputTokens: Option<int>,
    cost: Option<real>)

  datatype Denial = PolicyDenied | RequestBodyTooLarge | ResponseBodyTooLarge

  predicate Allows<T(==)>(list: seq<T>, x: T) { list == [] || x in list }

  predicate AllowsIfNamed<T(==)>(list: seq<T>, x: Option<T>) { x.Some? ==> Allows(list, x.value) }

  predicate Exceeds(value: Option<int>, limit: Option<int>) { value.Some? && limit.Some? && value.value > limit.value }

  predicate ExceedsReal(value: Option<real>, limit: Option<real>) {
    value.Some? && limit.Some? && value.value > limit.value
  }

  function EvaluatePolicy(p: KeyPolicy, q: Request): Option<Denial> {
    if p.deny then Some(PolicyDenied)
    else if !Allows(p.routes, q.route) then Some(PolicyDenied)
    else if !Allows(p.providers, q.provider) then Some(PolicyDenied)
    else if !AllowsIfNamed(p.services, q.service) then Some(PolicyDenied)
    else if !AllowsIfNamed(p.models, q.model) then Some(PolicyDenied)
    else if q.stream && !p.allowStreaming then Some(PolicyDenied)
    else if q.tools && !p.allowTools then Some(PolicyDenied)
    else None
  }

  function EvaluateLimits(p: KeyPolicy, q: Request): Option<Denial> {
    if !Allows(p.hours, q.hour) then Some(PolicyDenied)
    else if Exceeds(q.requestBytes, p.maxRequestBytes) then Some(RequestBodyTooLarge)
    else if Exceeds(q.responseBytes, p.maxResponseBytes) then Some(ResponseBodyTooLarge)
    else if Exceeds(q.inputTokens, p.maxInputTokens)
        || Exceeds(q.outputTokens, p.maxOutputTokens) then Some(PolicyDenied)
    else if ExceedsReal(q.cost, p.maxCost) then Some(PolicyDenied)
    else None
  }

  predicate Passes(p: KeyPolicy, q: Request) { EvaluatePolicy(p, q).None? && EvaluateLimits(p, q).None? }

  // ----- one allowlist over many layers -----

  lemma {:induction false} RetainKeeps<T>(list: seq<T>, next: seq<T>)
    ensures forall x :: x in Retain(list, next) <==> x in list && x in next
  {
    if list != [] {
      RetainKeeps(list[..|list| - 1], next);
      assert list == list[..|list| - 1] + [list[|list| - 1]];
    }
  }

  /** `x` is allowed by every list that restricts anything. */
  ghost predicate Common<T>(lists: seq<seq<T>>, x: T) { forall i :: 0 <= i < |lists| ==> Allows(lists[i], x) }

  ghost predicate Unrestricted<T>(lists: seq<seq<T>>) { forall i :: 0 <= i < |lists| ==> lists[i] == [] }

  /** The lists that restrict anything share an element. */
  ghost predicate Share<T(!new)>(lists: seq<seq<T>>) {
    Unrestricted(lists) || exists x :: Common(lists, x) && Named(lists, x)
  }

  ghost predicate Named<T>(lists: seq<seq<T>>, x: T) { exists i :: 0 <= i < |lists| && x in lists[i] }

  function FoldList<T(==)>(lists: seq<seq<T>>): seq<T>
    requires lists != []
  {
    if |lists| == 1 then lists[0] else MergeList(FoldList(lists[..|lists| - 1]), lists[|lists| - 1])
  }

  predicate EverEmptied<T(==)>(lists: seq<seq<T>>)
    requires lists != []
  {
    |lists| > 1 && (EverEmptied(lists[..|lists| - 1]) || Emptied(FoldList(lists[..|lists| - 1]), lists[|lists| - 1]))
  }

  lemma CommonSnoc<T>(lists: seq<seq<T>>, x: T)
    requires lists != []
    ensures Common(lists, x) <==> Common(lists[..|lists| - 1], x) && Allows(lists[|lists| - 1], x)
    ensures Named(lists, x) <==> Named(lists[..|lists| - 1], x) || x in lists[|lists| - 1]
    ensures Unrestricted(lists) <==> Unrestricted(lists[..|lists| - 1]) && lists[|lists| - 1] == []
  {
    var init := lists[..|lists| - 1];
    assert forall i :: 0 <= i < |init| ==> init[i] == lists[i];
    if Named(lists, x) && x !in lists[|lists| - 1] {
      var i :| 0 <= i < |lists| && x in lists[i];
      assert init[i] == lists[i];
    }
    if Named(init, x) {
      var i :| 0 <= i < |init| && x in init[i];
      assert lists[i] == init[i];
    }
  }

  /**
   While no merge emptied the list, it holds exactly what all restricting lists allow, and is empty only if none
   restricts.
   */
  ghost predicate Meets<T(!new)>(lists: seq<seq<T>>, list: seq<T>) {
    && (list == [] <==> Unrestricted(lists))
    && (list != [] ==> forall x :: x in list <==> Common(lists, x) && Named(lists, x))
  }

  lemma MeetSnoc<T(!new)>(lists: seq<seq<T>>, list: seq<T>)
    requires |lists| > 1 && Meets(lists[..|lists| - 1], list) && !Emptied(list, lists[|lists| - 1])
    ensures Meets(lists, MergeList(list, lists[|lists| - 1]))
  {
    hide Common, Named, Unrestricted;
    var init, next := lists[..|lists| - 1], lists[|lists| - 1];
    var merged := MergeList(list, next);
    RetainKeeps(list, next);
    forall x ensures x in merged && merged != [] ==> Common(lists, x) && Named(lists, x)
             ensures merged != [] && Common(lists, x) && Named(lists, x) ==> x in merged {
      CommonSnoc(lists, x);
      NobodyNamed(init, x);
      if !Unrestricted(init) && Common(init, x) { SomeoneNames(init, x); }
    }
    assert merged == [] <==> Unrestricted(lists) by { SnocUnrestricted(lists); }
  }

  lemma SnocUnrestricted<T>(lists: seq<seq<T>>)
    requires lists != []
    ensures Unrestricted(lists) <==> Unrestricted(lists[..|lists| - 1]) && lists[|lists| - 1] == []
  {
    var init := lists[..|lists| - 1];
    assert forall i :: 0 <= i < |init| ==> init[i] == lists[i];
  }

  lemma NobodyNamed<T>(lists: seq<seq<T>>, x: T)
    ensures Unrestricted(lists) ==> Common(lists, x) && !Named(lists, x)
  {
  }

  lemma EmptiedIsDisjoint<T(!new)>(lists: seq<seq<T>>, list: seq<T>)
    requires |lists| > 1 && Meets(lists[..|lists| - 1], list) && Emptied(list, lists[|lists| - 1])
    ensures !Share(lists)
  {
    hide Common, Named, Unrestricted;
    var next := lists[|lists| - 1];
    RetainKeeps(list, next);
    SnocUnrestricted(lists);
    var init := lists[..|lists| - 1];
    forall x ensures !(Common(lists, x) && Named(lists, x)) {
      CommonSnoc(lists, x);
      if Common(init, x) { SomeoneNames(init, x); }
    }
  }

  lemma ShareShrinks<T(!new)>(lists: seq<seq<T>>)
    requires |lists| > 1 && Share(lists)
    ensures Share(lists[..|lists| - 1])
  {
    hide Common, Named, Unrestricted;
    SnocUnrestricted(lists);
    var init := lists[..|lists| - 1];
    if !Unrestricted(init) {
      var x :| Common(lists, x) && Named(lists, x);
      CommonSnoc(lists, x);
      SomeoneNames(init, x);
    }
  }

  lemma SomeoneNames<T(!new)>(lists: seq<seq<T>>, x: T)
    requires !Unrestricted(lists) && Common(lists, x)
    ensures Named(lists, x)
  {
    var i :| 0 <= i < |lists| && lists[i] != [];
    assert Allows(lists[i], x);
  }

  lemma MeetShares<T(!new)>(lists: seq<seq<T>>, list: seq<T>)
    requires Meets(lists, list)
    ensures Share(lists)
  {
    hide Common, Named, Unrestricted;
    if list != [] {
      var x := list[0];
      assert x in list;
    }
  }

  lemma OneList<T(!new)>(lists: seq<seq<T>>)
    requires |lists| == 1
    ensures Meets(lists, lists[0])
  {
    forall x ensures x in lists[0] <==> x in lists[0] && Common(lists, x) && Named(lists, x) {
      if x in lists[0] { assert Common(lists, x); }
    }
    forall x | Named(lists, x) ensures x in lists[0] {
    }
  }

  /** Folding one allowlist over the layers: emptied at some point exactly when no element is common. */
  lemma {:induction false} FoldMeets<T(!new)>(lists: seq<seq<T>>)
    requires lists != []
    ensures !EverEmptied(lists) <==> Share(lists)
    ensures !EverEmptied(lists) ==> Meets(lists, FoldList(lists))
  {
    hide Meets, Share, Emptied;
    if |lists| == 1 {
      OneList(lists);
      MeetShares(lists, lists[0]);
    } else {
      var init, next := lists[..|lists| - 1], lists[|lists| - 1];
      FoldMeets(init);
      if Share(lists) { ShareShrinks(lists); }
      if !EverEmptied(init) {
        if Emptied(FoldList(init), next) {
          EmptiedIsDisjoint(lists, FoldList(init));
        } else {
          MeetSnoc(lists, FoldList(init));
          MeetShares(lists, FoldList(lists));
        }
      }
    }
  }

  // ----- the layers, field by field -----

  function Routes(ls: seq<KeyPolicy>): seq<seq<Route>> { seq(|ls|, i requires 0 <= i < |ls| => ls[i].routes) }

  function Models(ls: seq<KeyPolicy>): seq<seq<string>> { seq(|ls|, i requires 0 <= i < |ls| => ls[i].models) }

  function Providers(ls: seq<KeyPolicy>): seq<seq<Provider>> { seq(|ls|, i requires 0 <= i < |ls| => ls[i].providers) }

  function Services(ls: seq<KeyPolicy>): seq<seq<string>> { seq(|ls|, i requires 0 <= i < |ls| => ls[i].services) }

  /** The hours as the fold takes them: the first layer's as they are, of the others only hours of the day. */
  function Hours(ls: seq<KeyPolicy>): seq<seq<int>> {
    seq(|ls|, i requires 0 <= i < |ls| => if i == 0 then ls[0].hours else ValidHours(ls[i].hours))
  }

  ghost predicate SomeDenies(ls: seq<KeyPolicy>) { exists i :: 0 <= i < |ls| && ls[i].deny }

  lemma ListsInit(ls: seq<KeyPolicy>)
    requires |ls| > 1
    ensures var init := ls[..|ls| - 1];
      && Routes(ls)[..|ls| - 1] == Routes(init) && Models(ls)[..|ls| - 1] == Models(init)
      && Providers(ls)[..|ls| - 1] == Providers(init) && Services(ls)[..|ls| - 1] == Services(init)
      && Hours(ls)[..|ls| - 1] == Hours(init)
  {
    hide ValidHours;
  }

  lemma DenySnoc(ls: seq<KeyPolicy>)
    requires ls != []
    ensures SomeDenies(ls) <==> SomeDenies(ls[..|ls| - 1]) || ls[|ls| - 1].deny
  {
    var init := ls[..|ls| - 1];
    if SomeDenies(init) {
      var i :| 0 <= i < |init| && init[i].deny;
      assert ls[i].deny;
    }
    if SomeDenies(ls) && !ls[|ls| - 1].deny {
      var i :| 0 <= i < |ls| && ls[i].deny;
      assert init[i].deny;
    }
  }

  lemma {:induction false} ListsFold(ls: seq<KeyPolicy>)
    requires ls != []
    ensures Resolve(ls).routes == FoldList(Routes(ls)) && Resolve(ls).models == FoldList(Models(ls))
    ensures Resolve(ls).providers == FoldList(Providers(ls)) && Resolve(ls).services == FoldList(Services(ls))
    ensures Resolve(ls).hours == FoldList(Hours(ls))
  {
    hide MergeList, ValidHours, Emptied, Stricter, StricterReal;
    if |ls| > 1 {
      ListsFold(ls[..|ls| - 1]);
      ListsInit(ls);
    }
  }

  ghost predicate AnyEmptied(ls: seq<KeyPolicy>)
    requires ls != []
  {
    EverEmptied(Routes(ls)) || EverEmptied(Models(ls)) || EverEmptied(Providers(ls)) || EverEmptied(Services(ls))
        || EverEmptied(Hours(ls))
  }

  lemma {:induction false} DenyFold(ls: seq<KeyPolicy>)
    requires ls != []
    ensures Resolve(ls).deny <==> SomeDenies(ls) || AnyEmptied(ls)
  {
    hide MergeList, ValidHours, Emptied, Stricter, StricterReal, FoldList;
    if |ls| == 1 {
      assert ls[0].deny ==> SomeDenies(ls);
    } else {
      hide SomeDenies;
      var init := ls[..|ls| - 1];
      DenyFold(init);
      ListsFold(init);
      ListsInit(ls);
      DenySnoc(ls);
    }
  }

  lemma FoldAllows<T(!new)>(lists: seq<seq<T>>, x: T)
    requires lists != [] && Share(lists)
    ensures Allows(FoldList(lists), x) <==> Common(lists, x)
  {
    hide FoldList, EverEmptied, Share;
    FoldMeets(lists);
    NobodyNamed(lists, x);
    if Common(lists, x) && !Unrestricted(lists) { SomeoneNames(lists, x); }
  }

  // ----- flags and limits -----

  /** What a policy says beyond its lists and its deny flag. */
  predicate Tolerates(p: KeyPolicy, q: Request) {
    && (q.stream ==> p.allowStreaming) && (q.tools ==> p.allowTools)
    && !Exceeds(q.requestBytes, p.maxRequestBytes) && !Exceeds(q.responseBytes, p.maxResponseBytes)
    && !Exceeds(q.inputTokens, p.maxInputTokens) && !Exceeds(q.outputTokens, p.maxOutputTokens)
    && !ExceedsReal(q.cost, p.maxCost)
  }

  lemma StricterExceeds(v: Option<int>, a: Option<int>, b: Option<int>)
    ensures Exceeds(v, Stricter(a, b)) <==> Exceeds(v, a) || Exceeds(v, b)
  {
  }

  lemma MergeTolerates(a: KeyPolicy, b: KeyPolicy, q: Request)
    ensures Tolerates(MergePolicy(a, b), q) <==> Tolerates(a, q) && Tolerates(b, q)
  {
    hide MergeList, Emptied, ValidHours, Stricter, Exceeds;
    StricterExceeds(q.requestBytes, a.maxRequestBytes, b.maxRequestBytes);
    StricterExceeds(q.responseBytes, a.maxResponseBytes, b.maxResponseBytes);
    StricterExceeds(q.inputTokens, a.maxInputTokens, b.maxInputTokens);
    StricterExceeds(q.outputTokens, a.maxOutputTokens, b.maxOutputTokens);
  }

  ghost predicate AllTolerate(ls: seq<KeyPolicy>, q: Request) { forall i :: 0 <= i < |ls| ==> Tolerates(ls[i], q) }

  lemma {:induction false} FoldTolerates(ls: seq<KeyPolicy>, q: Request)
    requires ls != []
    ensures Tolerates(Resolve(ls), q) <==> AllTolerate(ls, q)
  {
    hide MergePolicy, Tolerates;
    if |ls| > 1 {
      var init, last := ls[..|ls| - 1], ls[|ls| - 1];
      FoldTolerates(init, q);
      MergeTolerates(Resolve(init), last, q);
      assert forall i :: 0 <= i < |init| ==> init[i] == ls[i];
    }
  }

  // ----- the effective policy is the meet of its layers -----

  /** Layer `i` as the fold takes it. */
  function Layer(ls: seq<KeyPolicy>, i: nat): KeyPolicy
    requires i < |ls|
  {
    if i == 0 then ls[0] else ls[i].(hours := ValidHours(ls[i].hours))
  }

  ghost predicate EveryLayerPasses(ls: seq<KeyPolicy>, q: Request) {
    forall i :: 0 <= i < |ls| ==> Passes(Layer(ls, i), q)
  }

  /** For each kind of allowlist, the layers that restrict it share an element. */
  ghost predicate SharesAll(ls: seq<KeyPolicy>) {
    Share(Routes(ls)) && Share(Models(ls)) && Share(Providers(ls)) && Share(Services(ls)) && Share(Hours(ls))
  }

  ghost predicate CommonIfNamed<T>(lists: seq<seq<T>>, x: Option<T>) { x.Some? ==> Common(lists, x.value) }

  ghost predicate AllAllow(ls: seq<KeyPolicy>, q: Request) {
    && Common(Routes(ls), q.route) && Common(Providers(ls), q.provider) && Common(Hours(ls), q.hour)
    && CommonIfNamed(Services(ls), q.service) && CommonIfNamed(Models(ls), q.model)
  }

  predicate Lists(p: KeyPolicy, q: Request) {
    && Allows(p.routes, q.route) && Allows(p.providers, q.provider) && Allows(p.hours, q.hour)
    && AllowsIfNamed(p.services, q.service) && AllowsIfNamed(p.models, q.model)
  }

  lemma PassesParts(p: KeyPolicy, q: Request)
    ensures Passes(p, q) <==> !p.deny && Lists(p, q) && Tolerates(p, q)
  {
    hide Allows, AllowsIfNamed, Exceeds, ExceedsReal;
  }

  lemma LayerParts(ls: seq<KeyPolicy>, i: nat, q: Request)
    requires i < |ls|
    ensures Layer(ls, i).deny == ls[i].deny && (Tolerates(Layer(ls, i), q) <==> Tolerates(ls[i], q))
    ensures Layer(ls, i).routes == Routes(ls)[i] && Layer(ls, i).models == Models(ls)[i]
    ensures Layer(ls, i).providers == Providers(ls)[i] && Layer(ls, i).services == Services(ls)[i]
    ensures Layer(ls, i).hours == Hours(ls)[i]
  {
    hide ValidHours, Exceeds, ExceedsReal;
  }

  lemma LayersPassParts(ls: seq<KeyPolicy>, q: Request)
    ensures EveryLayerPasses(ls, q) <==> !SomeDenies(ls) && AllAllow(ls, q) && AllTolerate(ls, q)
  {
    hide Passes, Tolerates, Layer, Routes, Models, Providers, Services, Hours, Allows;
    Lengths(ls);
    if EveryLayerPasses(ls, q) {
      forall i | 0 <= i < |ls|
        ensures !ls[i].deny && Tolerates(ls[i], q) && Allows(Routes(ls)[i], q.route)
            && Allows(Providers(ls)[i], q.provider)
        ensures Allows(Hours(ls)[i], q.hour) && AllowsIfNamed(Services(ls)[i], q.service)
            && AllowsIfNamed(Models(ls)[i], q.model) {
        assert Passes(Layer(ls, i), q);
        PassesParts(Layer(ls, i), q);
        LayerParts(ls, i, q);
      }
    }
    if !SomeDenies(ls) && AllAllow(ls, q) && AllTolerate(ls, q) {
      forall i | 0 <= i < |ls| ensures Passes(Layer(ls, i), q) {
        PassesParts(Layer(ls, i), q);
        LayerParts(ls, i, q);
        assert Allows(Routes(ls)[i], q.route) && Allows(Providers(ls)[i], q.provider) && Allows(Hours(ls)[i], q.hour);
      }
    }
  }

  lemma Lengths(ls: seq<KeyPolicy>)
    ensures |Routes(ls)| == |Models(ls)| == |Providers(ls)| == |Services(ls)| == |Hours(ls)| == |ls|
  {
  }

  lemma SharesAllUnlessEmptied(ls: seq<KeyPolicy>)
    requires ls != []
    ensures Routes(ls) != [] && Models(ls) != [] && Providers(ls) != [] && Services(ls) != [] && Hours(ls) != []
    ensures SharesAll(ls) <==> !AnyEmptied(ls)
  {
    hide EverEmptied, Share, Routes, Models, Providers, Services, Hours, FoldList, Meets;
    Lengths(ls);
    FoldMeets(Routes(ls));
    FoldMeets(Models(ls));
    FoldMeets(Providers(ls));
    FoldMeets(Services(ls));
    FoldMeets(Hours(ls));
  }

  lemma ResolvedLists(ls: seq<KeyPolicy>, q: Request)
    requires ls != [] && SharesAll(ls)
    ensures Lists(Resolve(ls), q) <==> AllAllow(ls, q)
  {
    hide Share, Routes, Models, Providers, Services, Hours, FoldList, Resolve, Allows, Common;
    Lengths(ls);
    ListsFold(ls);
    FoldAllows(Routes(ls), q.route);
    FoldAllows(Providers(ls), q.provider);
    FoldAllows(Hours(ls), q.hour);
    if q.service.Some? { FoldAllows(Services(ls), q.service.value); }
    if q.model.Some? { FoldAllows(Models(ls), q.model.value); }
  }

  /**
   The effective policy admits a request exactly when every layer does, with hours taken as the fold takes them, and
   the restricting allowlists of each kind have a common element.
   */
  lemma EffectiveIsMeet(ls: seq<KeyPolicy>, q: Request)
    requires ls != []
    ensures Passes(Resolve(ls), q) <==> EveryLayerPasses(ls, q) && SharesAll(ls)
  {
    hide Passes, Resolve, EveryLayerPasses, SharesAll, SomeDenies, AnyEmptied, Lists, Tolerates, AllAllow, AllTolerate;
    PassesParts(Resolve(ls), q);
    DenyFold(ls);
    SharesAllUnlessEmptied(ls);
    FoldTolerates(ls, q);
    LayersPassParts(ls, q);
    if SharesAll(ls) { ResolvedLists(ls, q); }
  }

  // ----- hours of the day -----

  lemma {:induction false} HoursFromHolds(hours: seq<int>, hour: nat)
    requires hour <= 24
    ensures forall h :: h in HoursFrom(hours, hour) <==> h in hours && hour <= h < 24
    decreases 24 - hour
  {
    if hour < 24 { HoursFromHolds(hours, hour + 1); }
  }

  lemma ValidHoursHolds(hours: seq<int>, h: int)
    ensures h in ValidHours(hours) <==> h in hours && 0 <= h < 24
  {
    hide HoursFrom;
    HoursFromHolds(hours, 0);
  }

  /** The hours exactly as the layers state them. */
  function StatedHours(ls: seq<KeyPolicy>): seq<seq<int>> { seq(|ls|, i requires 0 <= i < |ls| => ls[i].hours) }

  ghost predicate SharesStated(ls: seq<KeyPolicy>) {
    Share(Routes(ls)) && Share(Models(ls)) && Share(Providers(ls)) && Share(Services(ls)) && Share(StatedHours(ls))
  }

  /** Every layer after the first that restricts hours names some hour of the day. */
  ghost predicate LaterHoursRemain(ls: seq<KeyPolicy>) {
    forall i :: 0 < i < |ls| && ls[i].hours != [] ==> NamesHour(ls[i].hours)
  }

  ghost predicate NamesHour(hours: seq<int>) { exists h :: h in hours && 0 <= h < 24 }

  /** A layer as stated admits an hour of the day exactly when its contribution does and was not lost. */
  lemma StatedAllows(ls: seq<KeyPolicy>, i: nat, h: Hour)
    requires i < |ls|
    ensures Allows(ls[i].hours, h) <==>
            Allows(Hours(ls)[i], h) && (i > 0 && ls[i].hours != [] ==> NamesHour(ls[i].hours))
  {
    hide ValidHours;
    var hours := ls[i].hours;
    ValidHoursHolds(hours, h);
    if ValidHours(hours) != [] {
      ValidHoursHolds(hours, ValidHours(hours)[0]);
    }
    if NamesHour(hours) {
      var g :| g in hours && 0 <= g < 24;
      ValidHoursHolds(hours, g);
    }
  }

  lemma StatedPasses(ls: seq<KeyPolicy>, i: nat, q: Request)
    requires i < |ls|
    ensures Passes(ls[i], q) <==> Passes(Layer(ls, i), q) && (i > 0 && ls[i].hours != [] ==> NamesHour(ls[i].hours))
  {
    hide Passes, Tolerates, Hours, ValidHours, NamesHour, Allows, AllowsIfNamed;
    PassesParts(ls[i], q);
    PassesParts(Layer(ls, i), q);
    LayerParts(ls, i, q);
    StatedAllows(ls, i, q.hour);
  }

  lemma CommonIsShared<T(!new)>(lists: seq<seq<T>>, x: T)
    requires Common(lists, x)
    ensures Share(lists)
  {
    if !Unrestricted(lists) {
      var i :| 0 <= i < |lists| && lists[i] != [];
      assert Allows(lists[i], x);
      assert Named(lists, x);
    }
  }

  ghost predicate EveryStatedPasses(ls: seq<KeyPolicy>, q: Request) { forall i :: 0 <= i < |ls| ==> Passes(ls[i], q) }

  /** Layers that all pass an hour share it, as stated and as contributed. */
  lemma PassingSharesHours(ls: seq<KeyPolicy>, q: Request)
    ensures EveryStatedPasses(ls, q) ==> Share(StatedHours(ls))
    ensures EveryLayerPasses(ls, q) ==> Share(Hours(ls))
  {
    hide Passes, Tolerates, Share, Layer, Hours, Allows, AllowsIfNamed, Routes, Models, Providers, Services;
    if EveryStatedPasses(ls, q) {
      forall i | 0 <= i < |ls| ensures Allows(StatedHours(ls)[i], q.hour) {
        assert Passes(ls[i], q);
        PassesParts(ls[i], q);
      }
      CommonIsShared(StatedHours(ls), q.hour);
    }
    if EveryLayerPasses(ls, q) {
      LayersPassParts(ls, q);
      CommonIsShared(Hours(ls), q.hour);
    }
  }

  /**
   All layers pass a request as they are stated and share a common element of each kind if and only if the effective
   policy passes it and no later layer lost all of its hours. So the effective policy deviates from the plain meet
   exactly where it passes a request although a later restriction of hours names no hour of the day.
   */
  lemma EffectiveIsMeetOfStated(ls: seq<KeyPolicy>, q: Request)
    requires ls != []
    ensures EveryStatedPasses(ls, q) && SharesStated(ls) <==> Passes(Resolve(ls), q) && LaterHoursRemain(ls)
    ensures (Passes(Resolve(ls), q) <==> EveryStatedPasses(ls, q) && SharesStated(ls)) <==>
            (Passes(Resolve(ls), q) ==> LaterHoursRemain(ls))
  {
    hide Passes, Resolve, Layer, Share, NamesHour, Routes, Models, Providers, Services, Hours, StatedHours;
    EffectiveIsMeet(ls, q);
    PassingSharesHours(ls, q);
    forall i | 0 <= i < |ls|
      ensures Passes(ls[i], q) <==> Passes(Layer(ls, i), q) && (i > 0 && ls[i].hours != [] ==> NamesHour(ls[i].hours)) {
      StatedPasses(ls, i, q);
    }
    assert EveryStatedPasses(ls, q) <==> EveryLayerPasses(ls, q) && LaterHoursRemain(ls);
  }

  /** Hours outside the day restrict a first layer but vanish from a later one, so the plain meet fails for them. */
  lemma OutOfRangeHoursVanish(q: Request, layers: seq<KeyPolicy>)
    requires layers == [NeutralLayer(1), NeutralLayer(1).(hours := [99])]
    ensures Passes(Resolve(layers), q) && !Passes(layers[1], q)
  {
    hide Passes, Resolve, ValidHours;
    EffectiveIsMeet(layers, q);
    NoneFromNothing([99]);
    NoneFromNothing([]);
    PassesParts(layers[1], q);
    forall i | 0 <= i < |layers| ensures Passes(Layer(layers, i), q) { PassesParts(Layer(layers, i), q); }
    assert Unrestricted(Routes(layers)) && Unrestricted(Models(layers)) && Unrestricted(Providers(layers));
    assert Unrestricted(Services(layers)) && Unrestricted(Hours(layers));
  }

  lemma NoneFromNothing(hours: seq<int>)
    requires forall h :: h in hours ==> !(0 <= h < 24)
    ensures ValidHours(hours) == []
  {
    hide ValidHours;
    if ValidHours(hours) != [] { ValidHoursHolds(hours, ValidHours(hours)[0]); }
  }

  // ----- order and neutral layers -----

  /** The same restricting lists occur, in whatever order and number. */
  ghost predicate SameRestrictions<T(!new)>(a: seq<seq<T>>, b: seq<seq<T>>) {
    forall l :: l != [] ==> (l in a <==> l in b)
  }

  lemma SameRestrictionsShare<T(!new)>(a: seq<seq<T>>, b: seq<seq<T>>)
    requires SameRestrictions(a, b) && Share(a)
    ensures Share(b)
  {
    if Unrestricted(a) {
      forall i | 0 <= i < |b| ensures b[i] == [] {
        var l := b[i];
        assert l in b;
        assert l != [] ==> l in a;
      }
      assert Unrestricted(b);
    } else {
      var x :| Common(a, x) && Named(a, x);
      forall i | 0 <= i < |b| ensures Allows(b[i], x) {
        if b[i] != [] {
          assert b[i] in a;
          var j :| 0 <= j < |a| && a[j] == b[i];
          assert Allows(a[j], x);
        }
      }
      var j :| 0 <= j < |a| && x in a[j];
      assert a[j] in b;
      var i :| 0 <= i < |b| && b[i] == a[j];
      assert Common(b, x) && Named(b, x);
    }
  }

  ghost predicate SameLayers(a: seq<KeyPolicy>, b: seq<KeyPolicy>) {
    && SameRestrictions(Routes(a), Routes(b)) && SameRestrictions(Models(a), Models(b))
    && SameRestrictions(Providers(a), Providers(b)) && SameRestrictions(Services(a), Services(b))
    && SameRestrictions(StatedHours(a), StatedHours(b))
  }

  lemma SameLayersShare(a: seq<KeyPolicy>, b: seq<KeyPolicy>)
    requires SameLayers(a, b)
    ensures SharesStated(a) ==> SharesStated(b)
  {
    hide Share, Routes, Models, Providers, Services, StatedHours, SameRestrictions;
    if SharesStated(a) {
      SameRestrictionsShare(Routes(a), Routes(b));
      SameRestrictionsShare(Models(a), Models(b));
      SameRestrictionsShare(Providers(a), Providers(b));
      SameRestrictionsShare(Services(a), Services(b));
      SameRestrictionsShare(StatedHours(a), StatedHours(b));
    }
  }

  /** Every layer of `b` is one of `a`, or a neutral layer. */
  ghost predicate Covers(a: seq<KeyPolicy>, b: seq<KeyPolicy>) {
    forall i :: 0 <= i < |b| ==> b[i] in a || b[i] == NeutralLayer(b[i].version)
  }

  lemma CoversRestrictions(a: seq<KeyPolicy>, b: seq<KeyPolicy>)
    requires Covers(a, b)
    ensures forall l :: l != [] && l in Routes(b) ==> l in Routes(a)
    ensures forall l :: l != [] && l in Models(b) ==> l in Models(a)
    ensures forall l :: l != [] && l in Providers(b) ==> l in Providers(a)
    ensures forall l :: l != [] && l in Services(b) ==> l in Services(a)
    ensures forall l :: l != [] && l in StatedHours(b) ==> l in StatedHours(a)
  {
    forall i | 0 <= i < |b|
      ensures b[i].routes == [] || b[i].routes in Routes(a)
      ensures b[i].models == [] || b[i].models in Models(a)
      ensures b[i].providers == [] || b[i].providers in Providers(a)
      ensures b[i].services == [] || b[i].services in Services(a)
      ensures b[i].hours == [] || b[i].hours in StatedHours(a)
    {
      if b[i] in a {
        var j :| 0 <= j < |a| && a[j] == b[i];
        assert Routes(a)[j] == b[i].routes && Models(a)[j] == b[i].models && Providers(a)[j] == b[i].providers;
        assert Services(a)[j] == b[i].services && StatedHours(a)[j] == b[i].hours;
      }
    }
    assert forall i :: 0 <= i < |b| ==>
      Routes(b)[i] == b[i].routes && Models(b)[i] == b[i].models && Providers(b)[i] == b[i].providers;
    assert forall i :: 0 <= i < |b| ==> Services(b)[i] == b[i].services && StatedHours(b)[i] == b[i].hours;
  }

  lemma CoveredLayersPass(a: seq<KeyPolicy>, b: seq<KeyPolicy>, q: Request)
    requires Covers(a, b) && forall i :: 0 <= i < |a| ==> Passes(a[i], q)
    ensures forall i :: 0 <= i < |b| ==> Passes(b[i], q)
  {
    hide Passes;
    forall i | 0 <= i < |b| ensures Passes(b[i], q) {
      if b[i] in a {
        var j :| 0 <= j < |a| && a[j] == b[i];
        assert Passes(a[j], q);
      } else {
        NeutralPasses(b[i].version, q);
      }
    }
  }

  lemma NeutralPasses(version: int, q: Request)
    ensures Passes(NeutralLayer(version), q)
  {
  }

  /**
   The order of layers, repeated layers and neutral layers never change what is admitted: two lists of layers that
   differ only in these admit the same requests, as long as neither loses all hours of a later layer.
   */
  lemma OrderAndNeutralLayersAreIrrelevant(a: seq<KeyPolicy>, b: seq<KeyPolicy>, q: Request)
    requires a != [] && b != [] && Covers(a, b) && Covers(b, a) && LaterHoursRemain(a) && LaterHoursRemain(b)
    ensures Passes(Resolve(a), q) <==> Passes(Resolve(b), q)
  {
    hide Passes, Resolve, SharesStated, Covers, LaterHoursRemain;
    EffectiveIsMeetOfStated(a, q);
    EffectiveIsMeetOfStated(b, q);
    CoversBoth(a, b);
    SameLayersShare(a, b);
    SameLayersShare(b, a);
    if EveryStatedPasses(a, q) { CoveredLayersPass(a, b, q); }
    if EveryStatedPasses(b, q) { CoveredLayersPass(b, a, q); }
  }

  lemma CoversBoth(a: seq<KeyPolicy>, b: seq<KeyPolicy>)
    requires Covers(a, b) && Covers(b, a)
    ensures SameLayers(a, b) && SameLayers(b, a)
  {
    hide Covers, Routes, Models, Providers, Services, StatedHours;
    CoversRestrictions(a, b);
    CoversRestrictions(b, a);
  }

  // ----- limits by value -----

  /** `e` is the least value that a layer states, and none if no layer states one. */
  ghost predicate Least(values: seq<Option<int>>, e: Option<int>) {
    && (e.None? <==> forall i :: 0 <= i < |values| ==> values[i].None?)
    && (e.Some? ==> e in values && forall i :: 0 <= i < |values| && values[i].Some? ==> e.value <= values[i].value)
  }

  ghost predicate LeastReal(values: seq<Option<real>>, e: Option<real>) {
    && (e.None? <==> forall i :: 0 <= i < |values| ==> values[i].None?)
    && (e.Some? ==> e in values && forall i :: 0 <= i < |values| && values[i].Some? ==> e.value <= values[i].value)
  }

  function Values<T>(ls: seq<KeyPolicy>, f: KeyPolicy -> T): (vs: seq<T>)
    ensures |vs| == |ls| && forall i :: 0 <= i < |ls| ==> vs[i] == f(ls[i])
  {
    if ls == [] then [] else Values(ls[..|ls| - 1], f) + [f(ls[|ls| - 1])]
  }

  lemma LeastSnoc(vs: seq<Option<int>>, e: Option<int>, v: Option<int>)
    requires Least(vs, e)
    ensures Least(vs + [v], Stricter(e, v))
  {
    var all, least := vs + [v], Stricter(e, v);
    assert all[|vs|] == v && forall i :: 0 <= i < |vs| ==> all[i] == vs[i];
    if e.Some? {
      var i :| 0 <= i < |vs| && vs[i] == e;
      assert all[i] == e;
    }
  }

  lemma LeastRealSnoc(vs: seq<Option<real>>, e: Option<real>, v: Option<real>)
    requires LeastReal(vs, e)
    ensures LeastReal(vs + [v], StricterReal(e, v))
  {
    var all, least := vs + [v], StricterReal(e, v);
    assert all[|vs|] == v && forall i :: 0 <= i < |vs| ==> all[i] == vs[i];
    if e.Some? {
      var i :| 0 <= i < |vs| && vs[i] == e;
      assert all[i] == e;
    }
  }

  ghost predicate FoldsInt(f: KeyPolicy -> Option<int>) { forall a, b :: f(MergePolicy(a, b)) == Stricter(f(a), f(b)) }

  ghost predicate FoldsReal(f: KeyPolicy -> Option<real>) {
    forall a, b :: f(MergePolicy(a, b)) == StricterReal(f(a), f(b))
  }

  lemma {:induction false} FoldsToLeast(ls: seq<KeyPolicy>, f: KeyPolicy -> Option<int>)
    requires ls != [] && FoldsInt(f)
    ensures Least(Values(ls, f), f(Resolve(ls)))
  {
    hide MergePolicy, Least;
    if |ls| == 1 {
      LeastOne(f(ls[0]));
      assert Values(ls, f) == [f(ls[0])];
    } else {
      var init := ls[..|ls| - 1];
      FoldsToLeast(init, f);
      LeastSnoc(Values(init, f), f(Resolve(init)), f(ls[|ls| - 1]));
    }
  }

  lemma LeastOne(v: Option<int>)
    ensures Least([v], v)
  {
  }

  lemma {:induction false} FoldsToLeastReal(ls: seq<KeyPolicy>, f: KeyPolicy -> Option<real>)
    requires ls != [] && FoldsReal(f)
    ensures LeastReal(Values(ls, f), f(Resolve(ls)))
  {
    hide MergePolicy, LeastReal;
    if |ls| == 1 {
      LeastRealOne(f(ls[0]));
      assert Values(ls, f) == [f(ls[0])];
    } else {
      var init := ls[..|ls| - 1];
      FoldsToLeastReal(init, f);
      LeastRealSnoc(Values(init, f), f(Resolve(init)), f(ls[|ls| - 1]));
    }
  }

  lemma LeastRealOne(v: Option<real>)
    ensures LeastReal([v], v)
  {
  }

  /** Every quota of `e` is the least that a layer states. */
  ghost predicate LeastQuotas(ls: seq<KeyPolicy>, e: Quotas) {
    && Least(Values(ls, (p: KeyPolicy) => p.quotas.rpm), e.rpm)
    && Least(Values(ls, (p: KeyPolicy) => p.quotas.tpm), e.tpm)
    && LeastReal(Values(ls, (p: KeyPolicy) => p.quotas.dailyBudget), e.dailyBudget)
    && LeastReal(Values(ls, (p: KeyPolicy) => p.quotas.monthlyBudget), e.monthlyBudget)
    && Least(Values(ls, (p: KeyPolicy) => p.quotas.requestsPerDay), e.requestsPerDay)
    && Least(Values(ls, (p: KeyPolicy) => p.quotas.tokensPerDay), e.tokensPerDay)
    && Least(Values(ls, (p: KeyPolicy) => p.quotas.unusedDays), e.unusedDays)
    && Least(Values(ls, (p: KeyPolicy) => p.quotas.streamSeconds), e.streamSeconds)
    && Least(Values(ls, (p: KeyPolicy) => p.quotas.sseEventBytes), e.sseEventBytes)
    && Least(Values(ls, (p: KeyPolicy) => p.quotas.toolCalls), e.toolCalls)
    && Least(Values(ls, (p: KeyPolicy) => p.quotas.toolSchemaBytes), e.toolSchemaBytes)
  }

  /** So is every limit on a request. */
  ghost predicate LeastLimits(ls: seq<KeyPolicy>, e: KeyPolicy) {
    && LeastReal(Values(ls, (p: KeyPolicy) => p.maxCost), e.maxCost)
    && Least(Values(ls, (p: KeyPolicy) => p.maxInputTokens), e.maxInputTokens)
    && Least(Values(ls, (p: KeyPolicy) => p.maxOutputTokens), e.maxOutputTokens)
    && Least(Values(ls, (p: KeyPolicy) => p.maxRequestBytes), e.maxRequestBytes)
    && Least(Values(ls, (p: KeyPolicy) => p.maxResponseBytes), e.maxResponseBytes)
  }

  lemma EffectiveLimitsAreLeast(ls: seq<KeyPolicy>)
    requires ls != []
    ensures LeastLimits(ls, Resolve(ls))
  {
    hide Least, LeastReal, Values, Resolve, Stricter, StricterReal, MergeList, Emptied, ValidHours, MergeQuotas;
    FoldsToLeastReal(ls, (p: KeyPolicy) => p.maxCost);
    FoldsToLeast(ls, (p: KeyPolicy) => p.maxInputTokens);
    FoldsToLeast(ls, (p: KeyPolicy) => p.maxOutputTokens);
    FoldsToLeast(ls, (p: KeyPolicy) => p.maxRequestBytes);
    FoldsToLeast(ls, (p: KeyPolicy) => p.maxResponseBytes);
  }

  lemma MergedQuotas(a: KeyPolicy, b: KeyPolicy)
    ensures MergePolicy(a, b).quotas == MergeQuotas(a.quotas, b.quotas)
  {
  }

  /** Every quota of the effective policy is the least that a layer states, and absent exactly if none does. */
  lemma EffectiveQuotasAreLeast(ls: seq<KeyPolicy>)
    requires ls != []
    ensures LeastQuotas(ls, Resolve(ls).quotas)
  {
    hide Least, LeastReal, Values, Resolve, Stricter, StricterReal, MergePolicy;
    forall a, b ensures MergePolicy(a, b).quotas == MergeQuotas(a.quotas, b.quotas) { MergedQuotas(a, b); }
    FoldsToLeast(ls, (p: KeyPolicy) => p.quotas.rpm);
    FoldsToLeast(ls, (p: KeyPolicy) => p.quotas.tpm);
    FoldsToLeastReal(ls, (p: KeyPolicy) => p.quotas.dailyBudget);
    FoldsToLeastReal(ls, (p: KeyPolicy) => p.quotas.monthlyBudget);
    FoldsToLeast(ls, (p: KeyPolicy) => p.quotas.requestsPerDay);
    FoldsToLeast(ls, (p: KeyPolicy) => p.quotas.tokensPerDay);
    FoldsToLeast(ls, (p: KeyPolicy) => p.quotas.unusedDays);
    FoldsToLeast(ls, (p: KeyPolicy) => p.quotas.streamSeconds);
    FoldsToLeast(ls, (p: KeyPolicy) => p.quotas.sseEventBytes);
    FoldsToLeast(ls, (p: KeyPolicy) => p.quotas.toolCalls);
    FoldsToLeast(ls, (p: KeyPolicy) => p.quotas.toolSchemaBytes);
  }

  /** The effective version is the highest of the layers. */
  lemma {:induction false} EffectiveVersionIsHighest(ls: seq<KeyPolicy>)
    requires ls != []
    ensures exists i :: 0 <= i < |ls| && Resolve(ls).version == ls[i].version
    ensures forall i :: 0 <= i < |ls| ==> ls[i].version <= Resolve(ls).version
  {
    hide MergeList, Emptied, ValidHours, MergeQuotas, Stricter, StricterReal;
    if |ls| > 1 {
      var init := ls[..|ls| - 1];
      EffectiveVersionIsHighest(init);
      var i :| 0 <= i < |init| && Resolve(init).version == init[i].version;
      assert ls[i] == init[i] && forall k :: 0 <= k < |init| ==> ls[k] == init[k];
      assert Resolve(ls).version == ls[i].version || Resolve(ls).version == ls[|ls| - 1].version;
    } else {
      assert Resolve(ls).version == ls[0].version;
    }
  }

  /** Without layers: chat completions and responses through LiteLLM, no streaming, no tools, no limits. */
  lemma NoLayers()
    ensures var p := Resolve([]);
      && !p.deny && p.routes == [ChatCompletions, Responses] && p.models == [] && p.providers == [LiteLlm]
      && p.services == [] && !p.allowStreaming && !p.allowTools && p.hours == [] && p.version == 1
      && p.maxCost == None && p.maxInputTokens == None && p.maxOutputTokens == None && p.maxRequestBytes == None
      && p.maxResponseBytes == None && LeastQuotas([], p.quotas)
  {
  }

  // ----- decisions by field -----

  /** A policy passes a request exactly if it denies nothing the request names and no limit is exceeded. */
  lemma PassesByField(p: KeyPolicy, q: Request)
    ensures Passes(p, q) <==>
      && !p.deny
      && (p.routes == [] || q.route in p.routes) && (p.providers == [] || q.provider in p.providers)
      && (q.service.None? || p.services == [] || q.service.value in p.services)
      && (q.model.None? || p.models == [] || q.model.value in p.models)
      && (p.allowStreaming || !q.stream) && (p.allowTools || !q.tools) && (p.hours == [] || q.hour in p.hours)
      && (q.requestBytes.None? || p.maxRequestBytes.None? || q.requestBytes.value <= p.maxRequestBytes.value)
      && (q.responseBytes.None? || p.maxResponseBytes.None? || q.responseBytes.value <= p.maxResponseBytes.value)
      && (q.inputTokens.None? || p.maxInputTokens.None? || q.inputTokens.value <= p.maxInputTokens.value)
      && (q.outputTokens.None? || p.maxOutputTokens.None? || q.outputTokens.value <= p.maxOutputTokens.value)
      && (q.cost.None? || p.maxCost.None? || q.cost.value <= p.maxCost.value)
  {
    hide Passes;
    PassesParts(p, q);
  }

  /** Within its hours, a body that is too large is told apart from every other denial, the request's first. */
  lemma SizesAreToldApart(p: KeyPolicy, q: Request)
    requires p.hours == [] || q.hour in p.hours
    ensures EvaluateLimits(p, q) == Some(RequestBodyTooLarge) <==>
      q.requestBytes.Some? && p.maxRequestBytes.Some? && q.requestBytes.value > p.maxRequestBytes.value
    ensures EvaluateLimits(p, q) == Some(ResponseBodyTooLarge) <==>
      && !(q.requestBytes.Some? && p.maxRequestBytes.Some? && q.requestBytes.value > p.maxRequestBytes.value)
      && q.responseBytes.Some? && p.maxResponseBytes.Some? && q.responseBytes.value > p.maxResponseBytes.value
  {
  }
}
