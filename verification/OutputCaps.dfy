/**
 Output-token caps of policies.rs, enforced on a request body before any paid work. A body is a JSON document whose
 objects may repeat keys; a repeated limit is an error, while other repeated keys are not.
 */
module OutputCaps {
  import opened Base
  import opened Policies

  // ----- bodies -----

  /** `Number(n)` is a number that fits an unsigned 64-bit integer; every other scalar is `Scalar`. */
  datatype Json = Null | Number(n: nat) | Scalar | Array(items: seq<Json>) | Object(members: seq<Member>)

  datatype Member = Member(key: string, value: Json)

  /** What a parser makes of the bytes of a body. */
  datatype Body = Malformed | Parsed(json: Json)

  predicate IsObject(b: Body) { b.Parsed? && b.json.Object? }

  function Keys(ms: seq<Member>): set<string> { set i | 0 <= i < |ms| :: ms[i].key }

  /** The values written under `key`, in order. */
  function Occurrences(ms: seq<Member>, key: string): seq<Json> {
    if ms == [] then [] else
      Occurrences(ms[..|ms| - 1], key) + (if ms[|ms| - 1].key == key then [ms[|ms| - 1].value] else [])
  }

  // ----- provider parameter overrides -----

  datatype Probe<T> = Bad | Missing | Found(value: T)

  /** The optional `extra_body` object: null counts as absent, twice or any other type is an error. */
  function ExtraBody(b: Body): Probe<set<string>> {
    if !IsObject(b) then Bad else
      var found := Occurrences(b.json.members, "extra_body");
      if |found| == 0 then Missing
      else if |found| > 1 then Bad
      else if found[0].Null? then Missing
      else if found[0].Object? then Found(Keys(found[0].members))
      else Bad
  }

  predicate Generation(r: Route) { r == ChatCompletions || r == Responses || r == AnthropicMessages }

  predicate Inspected(r: Route) { Generation(r) || r == LiteLlmEmbeddings || r == LiteLlmRerank }

  const TOOL_FIELDS: set<string> := {"tools", "functions", "tool_choice", "function_call"}

  /** Whether an extra body of a single request escapes the policy: `reject_provider_parameter_overrides`. */
  predicate Overrides(p: KeyPolicy, r: Route, b: Body) {
    if r == LiteLlmPassthrough then
      IsObject(b) && (match ExtraBody(b) case Bad => true case Missing => false case Found(extra) => "model" in extra)
    else if !Inspected(r) then false
    else match ExtraBody(b)
      case Bad => true
      case Missing => false
      case Found(extra) => Escapes(p, r, extra)
  }

  /** Fields of an extra body that would get around a policy. */
  predicate Escapes(p: KeyPolicy, r: Route, extra: set<string>) {
    || "model" in extra
    || (p.maxOutputTokens.Some? && Generation(r) && extra != {})
    || (!p.allowStreaming && "stream" in extra)
    || (!p.allowTools && TOOL_FIELDS * extra != {})
  }

  /** The single value of a required field of an object. */
  function Required(j: Json, key: string): Option<Json> {
    if j.Object? && |Occurrences(j.members, key)| == 1 then Some(Occurrences(j.members, key)[0]) else None
  }

  /** The `params` of every entry of a batch, if the batch has the shape `{requests: [{params: ...}]}`. */
  function BatchParams(b: Body): Option<seq<Json>> {
    if !b.Parsed? then None else
      var requests := Required(b.json, "requests");
      if requests.None? || !requests.value.Array? then None else EntryParams(requests.value.items)
  }

  function EntryParams(entries: seq<Json>): Option<seq<Json>> {
    if entries == [] then Some([]) else
      var init := EntryParams(entries[..|entries| - 1]);
      var last := Required(entries[|entries| - 1], "params");
      if init.None? || last.None? then None else Some(init.value + [last.value])
  }

  predicate RejectsOverrides(p: KeyPolicy, r: Route, b: Body) {
    if r == AnthropicMessageBatches then
      var params := BatchParams(b);
      params.None? || exists i :: 0 <= i < |params.value| && Overrides(p, AnthropicMessages, Parsed(params.value[i]))
    else Overrides(p, r, b)
  }

  // ----- the maximum a body asks for -----

  const CHAT_FIELDS: set<string> := {
    "model", "messages", "stream", "stream_options", "max_tokens", "max_completion_tokens", "max_output_tokens", "n",
    "temperature", "top_p", "stop", "frequency_penalty", "presence_penalty", "logit_bias", "logprobs", "top_logprobs",
    "seed", "user", "tools", "tool_choice", "functions", "function_call", "parallel_tool_calls", "response_format",
    "metadata", "store", "reasoning_effort", "service_tier", "modalities", "audio", "prediction", "web_search_options",
    "verbosity", "prompt_cache_key", "safety_identifier", "guardrails", "extra_body"}

  const RESPONSES_FIELDS: set<string> := {
    "model", "input", "instructions", "stream", "stream_options", "max_output_tokens", "max_tool_calls", "max_tokens",
    "max_completion_tokens", "n", "temperature", "top_p", "top_logprobs", "tools", "tool_choice", "parallel_tool_calls",
    "metadata", "store", "reasoning", "service_tier", "truncation", "include", "text", "previous_response_id",
    "conversation", "background", "prompt", "user", "prompt_cache_key", "safety_identifier", "guardrails", "extra_body"}

  const MESSAGES_FIELDS: set<string> := {
    "model", "messages", "system", "stream", "max_tokens", "max_completion_tokens", "max_output_tokens", "n",
    "temperature", "top_p", "top_k", "stop_sequences", "metadata", "tools", "tool_choice", "thinking", "output_config",
    "service_tier", "cache_control", "container", "context_management", "guardrails", "extra_body"}

  function AllowedFields(r: Route): set<string>
    requires Generation(r)
  {
    if r == ChatCompletions then CHAT_FIELDS else if r == Responses then RESPONSES_FIELDS else MESSAGES_FIELDS
  }

  /** A limit field: absent, one unsigned number, or an error. */
  function Limit(ms: seq<Member>, key: string): Probe<nat> {
    var found := Occurrences(ms, key);
    if |found| == 0 then Missing
    else if |found| == 1 && found[0].Number? && found[0].n <= U64_MAX then Found(found[0].n)
    else Bad
  }

  predicate Agrees(p: Probe<nat>, m: nat) { p.Found? ==> p.value == m }

  /** `provider_output_maximum`: how many output tokens the body asks for, or nothing if it is refused. */
  function OutputMaximum(r: Route, b: Body): Option<nat> {
    if !Generation(r) || !IsObject(b) || !(Keys(b.json.members) <= AllowedFields(r)) then None else
      var ms := b.json.members;
      var plain, completion, output, n :=
          Limit(ms, "max_tokens"), Limit(ms, "max_completion_tokens"), Limit(ms, "max_output_tokens"), Limit(ms, "n");
      if plain.Bad? || completion.Bad? || output.Bad? || n.Bad? then None else
        var required :=
          if r == ChatCompletions then (if completion.Found? then completion else plain)
          else if r == Responses then output else plain;
        if !required.Found? || required.value == 0 then None
        else if !Agrees(plain, required.value) || !Agrees(completion, required.value)
            || !Agrees(output, required.value) then None
        else
          var count := if n.Missing? then 1 else n.value;
          if count == 0 || (r != ChatCompletions && count != 1) then None
          else if required.value * count > U64_MAX then None
          else Some(required.value * count)
  }

  function BatchMaximum(params: seq<Json>): Option<nat> {
    if params == [] then Some(0) else
      var init := BatchMaximum(params[..|params| - 1]);
      var last := OutputMaximum(AnthropicMessages, Parsed(params[|params| - 1]));
      if init.None? || last.None? || init.value + last.value > U64_MAX then None else Some(init.value + last.value)
  }

  predicate Uncapped(r: Route) {
    r == LiteLlmEmbeddings || r == LiteLlmRerank || r == AnthropicMessagesCountTokens || r == AnthropicModels
  }

  function Total(r: Route, b: Body): Option<nat> {
    if r == AnthropicMessageBatches then
      var params := BatchParams(b);
      if params.None? || params.value == [] then None else BatchMaximum(params.value)
    else OutputMaximum(r, b)
  }

  /** `enforce_output_token_limit`. */
  predicate Enforced(p: KeyPolicy, r: Route, b: Body) {
    && !RejectsOverrides(p, r, b)
    && (p.maxOutputTokens.Some? && !Uncapped(r) ==>
          p.maxOutputTokens.value >= 0 && Total(r, b).Some? && Total(r, b).value <= p.maxOutputTokens.value)
  }

  /** The batch sum, as the fold of the source: it stops at the first entry that is refused or overflows. */
  method SumBatch(params: seq<Json>) returns (total: Option<nat>)
    ensures total == BatchMaximum(params)
  {
    hide OutputMaximum;
    var sum: nat := 0;
    for i := 0 to |params|
      invariant BatchMaximum(params[..i]) == Some(sum)
    {
      assert params[..i + 1][..i] == params[..i];
      var maximum := OutputMaximum(AnthropicMessages, Parsed(params[i]));
      if maximum.None? || sum + maximum.value > U64_MAX {
        BatchStops(params, i + 1);
        return None;
      }
      sum := sum + maximum.value;
    }
    assert params[..|params|] == params;
    return Some(sum);
  }

  lemma {:induction false} BatchStops(params: seq<Json>, i: nat)
    requires i <= |params| && BatchMaximum(params[..i]).None?
    ensures BatchMaximum(params).None?
    decreases |params| - i
  {
    hide OutputMaximum;
    if i < |params| {
      assert params[..i + 1][..i] == params[..i];
      BatchStops(params, i + 1);
    } else {
      assert params[..i] == params;
    }
  }

  // ----- what passing a cap means -----

  /** All limits the body states agree on `m`, it asks for `n` answers, and nothing else could raise the output. */
  ghost predicate Asks(r: Route, ms: seq<Member>, m: nat, n: nat)
    requires Generation(r)
  {
    && Keys(ms) <= AllowedFields(r)
    && m > 0 && n > 0 && (r != ChatCompletions ==> n == 1)
    && StatesOnly(ms, "max_tokens", m) && StatesOnly(ms, "max_completion_tokens", m)
        && StatesOnly(ms, "max_output_tokens", m)
    && (r == ChatCompletions ==> States(ms, "max_tokens", m) || States(ms, "max_completion_tokens", m))
    && (r == Responses ==> States(ms, "max_output_tokens", m))
    && (r == AnthropicMessages ==> States(ms, "max_tokens", m))
    && StatesOnly(ms, "n", n) && (n != 1 ==> States(ms, "n", n))
  }

  /** The field is written exactly once, as this number. */
  predicate States(ms: seq<Member>, key: string, m: nat) { m <= U64_MAX && Occurrences(ms, key) == [Number(m)] }

  predicate StatesOnly(ms: seq<Member>, key: string, m: nat) { Occurrences(ms, key) == [] || States(ms, key, m) }

  lemma StatesLimit(ms: seq<Member>, key: string, m: nat)
    ensures States(ms, key, m) <==> Limit(ms, key) == Found(m)
    ensures StatesOnly(ms, key, m) <==> !Limit(ms, key).Bad? && Agrees(Limit(ms, key), m)
  {
    hide Occurrences;
  }

  lemma MaximumIsAsked(r: Route, ms: seq<Member>) returns (m: nat, n: nat)
    requires Generation(r) && OutputMaximum(r, Parsed(Object(ms))).Some?
    ensures Asks(r, ms, m, n) && OutputMaximum(r, Parsed(Object(ms))) == Some(m * n) && m * n <= U64_MAX
  {
    hide Limit, States, StatesOnly, Keys, AllowedFields;
    var plain, completion, output, count :=
        Limit(ms, "max_tokens"), Limit(ms, "max_completion_tokens"), Limit(ms, "max_output_tokens"), Limit(ms, "n");
    var required := if r == ChatCompletions then (if completion.Found? then completion else plain)
                    else if r == Responses then output else plain;
    m := required.value;
    n := if count.Missing? then 1 else count.value;
    StatesLimit(ms, "max_tokens", m);
    StatesLimit(ms, "max_completion_tokens", m);
    StatesLimit(ms, "max_output_tokens", m);
    StatesLimit(ms, "n", n);
  }

  lemma AskedIsMaximum(r: Route, ms: seq<Member>, m: nat, n: nat)
    requires Generation(r) && Asks(r, ms, m, n) && m * n <= U64_MAX
    ensures OutputMaximum(r, Parsed(Object(ms))) == Some(m * n)
  {
    hide Limit, States, StatesOnly, Keys, AllowedFields;
    StatesLimit(ms, "max_tokens", m);
    StatesLimit(ms, "max_completion_tokens", m);
    StatesLimit(ms, "max_output_tokens", m);
    StatesLimit(ms, "n", n);
  }

  const I32_MAX := 0x7FFF_FFFF

  ghost predicate AsksWithin(r: Route, ms: seq<Member>, limit: int)
    requires Generation(r)
  {
    exists m: nat, n: nat :: Asks(r, ms, m, n) && m * n <= limit
  }

  /**
   Under a cap on a generation route a body passes exactly when it smuggles in no override and all limits it states
   agree on a positive m with m * n, computed without overflow, at most the cap.
   */
  lemma PassingACap(p: KeyPolicy, r: Route, b: Body)
    requires Generation(r) && p.maxOutputTokens.Some? && p.maxOutputTokens.value <= I32_MAX
    ensures Enforced(p, r, b) <==>
            !RejectsOverrides(p, r, b) && IsObject(b) && AsksWithin(r, b.json.members, p.maxOutputTokens.value)
  {
    hide RejectsOverrides, OutputMaximum, Asks;
    var limit := p.maxOutputTokens.value;
    if Enforced(p, r, b) {
      ObjectsOnly(r, b);
      var m, n := MaximumIsAsked(r, b.json.members);
    }
    if IsObject(b) && AsksWithin(r, b.json.members, limit) {
      var m: nat, n: nat :| Asks(r, b.json.members, m, n) && m * n <= limit;
      Positive(m, n);
      AskedIsMaximum(r, b.json.members, m, n);
    }
  }

  lemma Positive(m: nat, n: nat)
    ensures m * n >= 0
  {
  }

  lemma ObjectsOnly(r: Route, b: Body)
    requires OutputMaximum(r, b).Some?
    ensures Generation(r) && IsObject(b)
  {
  }

  function Sum(ms: seq<nat>): nat { if ms == [] then 0 else Sum(ms[..|ms| - 1]) + ms[|ms| - 1] }

  /** Every entry of the batch asks for one answer of at most the matching number of tokens. */
  ghost predicate BatchAsks(params: seq<Json>, ms: seq<nat>) {
    && |ms| == |params|
    && forall i :: 0 <= i < |params| ==> params[i].Object? && Asks(AnthropicMessages, params[i].members, ms[i], 1)
  }

  lemma {:induction false} BatchIsAsked(params: seq<Json>) returns (ms: seq<nat>)
    requires BatchMaximum(params).Some?
    ensures BatchAsks(params, ms) && BatchMaximum(params) == Some(Sum(ms))
  {
    hide OutputMaximum, Asks, BatchAsks, BatchMaximum, Sum;
    if params == [] {
      ms := [];
      NothingAsked();
    } else {
      var init, last := params[..|params| - 1], params[|params| - 1];
      BatchSnoc(init, last);
      assert params == init + [last];
      ms := BatchIsAsked(init);
      var m := LastIsAsked(last);
      BatchAsksMore(init, ms, last, m);
      SumSnoc(ms, m);
      ms := ms + [m];
    }
  }

  lemma BatchSnoc(init: seq<Json>, last: Json)
    ensures var a, b := BatchMaximum(init), OutputMaximum(AnthropicMessages, Parsed(last));
      BatchMaximum(init + [last]) ==
        if a.None? || b.None? || a.value + b.value > U64_MAX then None else Some(a.value + b.value)
  {
    hide OutputMaximum;
    var params := init + [last];
    assert params[..|params| - 1] == init && params[|params| - 1] == last;
  }

  lemma SumSnoc(ms: seq<nat>, m: nat)
    ensures Sum(ms + [m]) == Sum(ms) + m
  {
    assert (ms + [m])[..|ms|] == ms;
  }

  lemma NothingAsked()
    ensures BatchAsks([], []) && Sum([]) == 0 && BatchMaximum([]) == Some(0)
  {
  }

  lemma LastIsAsked(last: Json) returns (m: nat)
    requires OutputMaximum(AnthropicMessages, Parsed(last)).Some?
    ensures last.Object? && Asks(AnthropicMessages, last.members, m, 1)
    ensures OutputMaximum(AnthropicMessages, Parsed(last)) == Some(m)
  {
    hide OutputMaximum, Asks;
    ObjectsOnly(AnthropicMessages, Parsed(last));
    var n;
    m, n := MaximumIsAsked(AnthropicMessages, last.members);
    OneAnswer(last.members, m, n);
    assert last == Object(last.members);
  }

  lemma BatchAsksMore(params: seq<Json>, ms: seq<nat>, last: Json, m: nat)
    requires BatchAsks(params, ms) && last.Object? && Asks(AnthropicMessages, last.members, m, 1)
    ensures BatchAsks(params + [last], ms + [m])
  {
    hide Asks;
  }

  lemma OneAnswer(ms: seq<Member>, m: nat, n: nat)
    requires Asks(AnthropicMessages, ms, m, n)
    ensures n == 1 && m * n == m
  {
  }

  lemma {:induction false} AskedIsBatch(params: seq<Json>, ms: seq<nat>)
    requires BatchAsks(params, ms) && Sum(ms) <= U64_MAX
    ensures BatchMaximum(params) == Some(Sum(ms))
  {
    hide OutputMaximum, Asks;
    if params != [] {
      var init, last, m := params[..|params| - 1], params[|params| - 1], ms[|ms| - 1];
      assert Sum(ms) == Sum(ms[..|ms| - 1]) + m;
      AskedIsBatch(init, ms[..|ms| - 1]);
      assert m * 1 == m;
      AskedIsMaximum(AnthropicMessages, last.members, m, 1);
      assert last == Object(last.members);
    }
  }

  ghost predicate BatchAsksWithin(params: seq<Json>, limit: int) {
    exists ms: seq<nat> :: BatchAsks(params, ms) && Sum(ms) <= limit
  }

  /** A batch passes a cap exactly when, over all its entries together, it asks for at most the cap. */
  lemma PassingABatchCap(p: KeyPolicy, b: Body)
    requires p.maxOutputTokens.Some? && p.maxOutputTokens.value <= I32_MAX
    ensures Enforced(p, AnthropicMessageBatches, b) <==>
            && !RejectsOverrides(p, AnthropicMessageBatches, b)
            && BatchParams(b).Some? && BatchParams(b).value != []
            && BatchAsksWithin(BatchParams(b).value, p.maxOutputTokens.value)
  {
    hide BatchParams, RejectsOverrides, BatchMaximum, BatchAsks, Sum;
    var limit := p.maxOutputTokens.value;
    if Enforced(p, AnthropicMessageBatches, b) {
      var ms := BatchIsAsked(BatchParams(b).value);
    }
    if BatchParams(b).Some? && BatchAsksWithin(BatchParams(b).value, limit) {
      var ms: seq<nat> :| BatchAsks(BatchParams(b).value, ms) && Sum(ms) <= limit;
      AskedIsBatch(BatchParams(b).value, ms);
    }
  }

  // ----- caps and layers -----

  lemma MergedSwitches(a: KeyPolicy, b: KeyPolicy)
    ensures var m := MergePolicy(a, b);
      && (m.maxOutputTokens.Some? <==> a.maxOutputTokens.Some? || b.maxOutputTokens.Some?)
      && (m.allowStreaming <==> a.allowStreaming && b.allowStreaming)
          && (m.allowTools <==> a.allowTools && b.allowTools)
  {
    hide MergeList, Emptied, ValidHours, StricterReal;
  }

  lemma MergeOverrides(a: KeyPolicy, b: KeyPolicy, r: Route, body: Body)
    ensures Overrides(MergePolicy(a, b), r, body) <==> Overrides(a, r, body) || Overrides(b, r, body)
  {
    hide MergePolicy, ExtraBody, Escapes;
    var extra := ExtraBody(body);
    if extra.Found? { MergeEscapes(a, b, r, extra.value); }
  }

  lemma MergeEscapes(a: KeyPolicy, b: KeyPolicy, r: Route, extra: set<string>)
    ensures Escapes(MergePolicy(a, b), r, extra) <==> Escapes(a, r, extra) || Escapes(b, r, extra)
  {
    hide MergePolicy, TOOL_FIELDS, Generation;
    MergedSwitches(a, b);
  }

  lemma MergeRejects(a: KeyPolicy, b: KeyPolicy, r: Route, body: Body)
    ensures RejectsOverrides(MergePolicy(a, b), r, body) <==>
        RejectsOverrides(a, r, body) || RejectsOverrides(b, r, body)
  {
    hide MergePolicy, Overrides, BatchParams;
    if r == AnthropicMessageBatches {
      var params := BatchParams(body);
      if params.Some? {
        forall i | 0 <= i < |params.value|
          ensures Overrides(MergePolicy(a, b), AnthropicMessages, Parsed(params.value[i])) <==>
                  Overrides(a, AnthropicMessages, Parsed(params.value[i]))
                      || Overrides(b, AnthropicMessages, Parsed(params.value[i])) {
          MergeOverrides(a, b, AnthropicMessages, Parsed(params.value[i]));
        }
      }
    } else {
      MergeOverrides(a, b, r, body);
    }
  }

  lemma MergeEnforces(a: KeyPolicy, b: KeyPolicy, r: Route, body: Body)
    ensures Enforced(MergePolicy(a, b), r, body) <==> Enforced(a, r, body) && Enforced(b, r, body)
  {
    hide RejectsOverrides, Total, MergeList, Emptied, ValidHours, StricterReal;
    MergeRejects(a, b, r, body);
  }

  /** A body passes the cap of the effective policy exactly when it passes that of every layer. */
  lemma {:induction false} EffectiveCapIsEveryCap(ls: seq<KeyPolicy>, r: Route, body: Body)
    requires ls != []
    ensures Enforced(Resolve(ls), r, body) <==> forall i :: 0 <= i < |ls| ==> Enforced(ls[i], r, body)
  {
    hide MergePolicy, Enforced;
    if |ls| > 1 {
      var init, last := ls[..|ls| - 1], ls[|ls| - 1];
      EffectiveCapIsEveryCap(init, r, body);
      MergeEnforces(Resolve(init), last, r, body);
      assert forall i :: 0 <= i < |init| ==> init[i] == ls[i];
    }
  }

  // ----- which extra bodies are refused -----

  /** The one `extra_body` object of a body. */
  ghost predicate HasExtra(b: Body, extra: seq<Member>) {
    IsObject(b) && Occurrences(b.json.members, "extra_body") == [Object(extra)]
  }

  ghost predicate HasNoExtra(b: Body) {
    IsObject(b) && (Occurrences(b.json.members, "extra_body") == []
        || Occurrences(b.json.members, "extra_body") == [Null])
  }

  predicate Names(ms: seq<Member>, key: string) { exists i :: 0 <= i < |ms| && ms[i].key == key }

  lemma NamesKeys(ms: seq<Member>, key: string)
    ensures Names(ms, key) <==> key in Keys(ms)
    ensures ms == [] <==> Keys(ms) == {}
  {
    if ms != [] { assert ms[0].key in Keys(ms); }
  }

  /**
   On generation, embedding and rerank routes an extra body is refused exactly if it names a model, names anything
   under an output cap on a generation route, names the stream flag where streaming is denied, or a tool field where
   tools are. A body without one passes, and one that is no object, or has a repeated or other extra body, is refused.
   */
  lemma RefusedExtras(p: KeyPolicy, r: Route, b: Body, extra: seq<Member>)
    requires r in {ChatCompletions, Responses, AnthropicMessages, LiteLlmEmbeddings, LiteLlmRerank}
    ensures HasExtra(b, extra) ==>
      (RejectsOverrides(p, r, b) <==>
        || Names(extra, "model")
        || (p.maxOutputTokens.Some? && r in {ChatCompletions, Responses, AnthropicMessages} && extra != [])
        || (!p.allowStreaming && Names(extra, "stream"))
        || (!p.allowTools && (Names(extra, "tools") || Names(extra, "functions") || Names(extra, "tool_choice")
                              || Names(extra, "function_call"))))
    ensures HasNoExtra(b) ==> !RejectsOverrides(p, r, b)
    ensures !HasNoExtra(b) && (forall e :: !HasExtra(b, e)) ==> RejectsOverrides(p, r, b)
  {
    hide Keys, Names, Occurrences;
    NamesKeys(extra, "model");
    NamesKeys(extra, "stream");
    NamesKeys(extra, "tools");
    NamesKeys(extra, "functions");
    NamesKeys(extra, "tool_choice");
    NamesKeys(extra, "function_call");
    ToolKeys(Keys(extra));
    if IsObject(b) {
      var found := Occurrences(b.json.members, "extra_body");
      if |found| == 1 && found[0].Object? { assert HasExtra(b, found[0].members); }
      if |found| == 1 { assert found == [found[0]]; }
    }
  }

  lemma ToolKeys(keys: set<string>)
    ensures TOOL_FIELDS * keys != {} <==>
      "tools" in keys || "functions" in keys || "tool_choice" in keys || "function_call" in keys
  {
    assert forall k :: k in TOOL_FIELDS * keys <==> k in TOOL_FIELDS && k in keys;
    if "tools" in keys { assert "tools" in TOOL_FIELDS * keys; }
    if "functions" in keys { assert "functions" in TOOL_FIELDS * keys; }
    if "tool_choice" in keys { assert "tool_choice" in TOOL_FIELDS * keys; }
    if "function_call" in keys { assert "function_call" in TOOL_FIELDS * keys; }
  }
}
