/**
 Executing a guardrail plan (guardrails.rs): the executor for arbitrary handlers, and the handlers that the gateway
 registers.
 */
module GuardrailExecution {
  import opened Base
  import opened Guardrails
  import P = PiiRedaction
  import Placeholders

  type Value = P.Value

  type Mapping = Placeholders.Mapping

  datatype Record = Record(
    name: string, mode: Mode, action: Action, failure: FailurePolicy, reason: Option<string>, metadata: Value)

  /** The part of the context that an execution changes. */
  datatype Context = Context(mappings: seq<Mapping>, applied: seq<string>, results: seq<Record>)

  datatype Input = Input(mode: Mode, request: Option<Value>, response: Option<Value>, context: Context, config: Config)

  datatype Outcome = Outcome(
    action: Action, request: Option<Value>, response: Option<Value>, reason: Option<string>, metadata: Value,
    mappings: seq<Mapping>)

  type Handler = Input -> Result<Outcome>

  datatype Execution = Execution(
    request: Option<Value>, response: Option<Value>, context: Context, records: seq<Record>)

  const NO_METADATA: Value := P.Object([], [])

  function Code(e: Error): string {
    match e
    case InvalidRequest => "invalid_guardrail_request"
    case Forbidden => "guardrail_forbidden"
    case Unavailable => "guardrail_unavailable"
    case Blocked => "guardrail_blocked"
    case HandlerError(code) => code
  }

  function Recorded(e: Execution, r: Record, mappings: seq<Mapping>): Execution {
    Execution(
      e.request, e.response,
      Context(e.context.mappings + mappings, e.context.applied + [r.name], e.context.results + [r]),
      e.records + [r])
  }

  /** `handle_guardrail_failure`. */
  function Failed(e: Execution, d: Definition, mode: Mode, error: Error): Result<Execution> {
    if d.failure == FailClosed then Err(error)
    else Ok(Recorded(e, Record(d.name, mode, Warn, d.failure, Some(Code(error)), NO_METADATA), []))
  }

  function Overwritten(was: Option<Value>, update: Option<Value>): Option<Value> {
    if update.Some? then update else was
  }

  /** One entry of the plan. */
  function Step(e: Execution, d: Definition, handlers: map<string, Handler>, mode: Mode): Result<Execution> {
    if d.name !in handlers then Failed(e, d, mode, Unavailable) else
      var result := handlers[d.name](Input(mode, e.request, e.response, e.context, d.config));
      if result.Err? then Failed(e, d, mode, result.error) else
        var o := result.value;
        var action := if d.failure == DryRun then Warn else o.action;
        var f := Recorded(e, Record(d.name, mode, action, d.failure, o.reason, o.metadata), o.mappings);
        if d.failure == DryRun || o.action == Allow || o.action == Warn then Ok(f)
        else if o.action == Modify then
          Ok(Execution(Overwritten(f.request, o.request), Overwritten(f.response, o.response), f.context, f.records))
        else Err(Blocked)
  }

  function Run(start: Execution, plan: seq<Definition>, handlers: map<string, Handler>, mode: Mode): Result<Execution> {
    if plan == [] then Ok(start) else
      var before := Run(start, plan[..|plan| - 1], handlers, mode);
      if before.Err? then before else Step(before.value, plan[|plan| - 1], handlers, mode)
  }

  /** The executor holds its state in one record that every entry updates; the first error ends the run. */
  class Executor {
    const handlers: map<string, Handler>
    var execution: Execution

    constructor (handlers: map<string, Handler>)
      ensures this.handlers == handlers
    {
      this.handlers := handlers;
      execution := Execution(None, None, Context([], [], []), []);
    }

    method Note(r: Record, mappings: seq<Mapping>)
      modifies this
      ensures execution == Recorded(old(execution), r, mappings)
    {
      var c := execution.context;
      execution := Execution(
        execution.request, execution.response,
        Context(c.mappings + mappings, c.applied + [r.name], c.results + [r]), execution.records + [r]);
    }

    method HandleFailure(d: Definition, mode: Mode, error: Error) returns (failed: Option<Error>)
      modifies this
      ensures Failed(old(execution), d, mode, error) == (if failed.Some? then Err(failed.value) else Ok(execution))
    {
      if d.failure == FailClosed { return Some(error); }
      Note(Record(d.name, mode, Warn, d.failure, Some(Code(error)), NO_METADATA), []);
      failed := None;
    }

    method ExecuteEntry(d: Definition, mode: Mode) returns (failed: Option<Error>)
      modifies this
      ensures Step(old(execution), d, handlers, mode) == (if failed.Some? then Err(failed.value) else Ok(execution))
    {
      hide Failed, Recorded;
      if d.name !in handlers {
        failed := HandleFailure(d, mode, Unavailable);
        return;
      }
      var result := handlers[d.name](Input(mode, execution.request, execution.response, execution.context, d.config));
      if result.Err? {
        failed := HandleFailure(d, mode, result.error);
        return;
      }
      var o := result.value;
      var action := if d.failure == DryRun then Warn else o.action;
      Note(Record(d.name, mode, action, d.failure, o.reason, o.metadata), o.mappings);
      if d.failure == DryRun { return None; }
      if o.action == Block { return Some(Blocked); }
      if o.action == Modify {
        if o.request.Some? { execution := execution.(request := o.request); }
        if o.response.Some? { execution := execution.(response := o.response); }
      }
      failed := None;
    }

    method Execute(plan: seq<Definition>, mode: Mode, context: Context, request: Option<Value>, response: Option<Value>)
      returns (r: Result<Execution>)
      modifies this
      ensures r == Run(Execution(request, response, context, []), plan, handlers, mode)
    {
      hide Step;
      ghost var start := Execution(request, response, context, []);
      execution := Execution(request, response, context, []);
      for i := 0 to |plan|
        invariant Run(start, plan[..i], handlers, mode) == Ok(execution)
      {
        assert plan[..i + 1][..i] == plan[..i];
        var failed := ExecuteEntry(plan[i], mode);
        if failed.Some? {
          RunStops(start, plan, i + 1, handlers, mode);
          return Err(failed.value);
        }
      }
      assert plan[..|plan|] == plan;
      r := Ok(execution);
    }
  }

  lemma {:induction false} RunStops(
    start: Execution, plan: seq<Definition>, i: nat, handlers: map<string, Handler>, mode: Mode)
    requires i <= |plan| && Run(start, plan[..i], handlers, mode).Err?
    ensures Run(start, plan, handlers, mode) == Run(start, plan[..i], handlers, mode)
    decreases |plan| - i
  {
    hide Step;
    if i < |plan| {
      assert plan[..i + 1][..i] == plan[..i];
      RunStops(start, plan, i + 1, handlers, mode);
    } else {
      assert plan[..i] == plan;
    }
  }

  // ----- one record per entry -----

  /** The record is about the entry, and does not report a block. */
  ghost predicate Reports(r: Record, d: Definition, mode: Mode) {
    && r.name == d.name && r.failure == d.failure && r.mode == mode && r.action != Block
    && (d.failure == DryRun ==> r.action == Warn)
  }

  ghost predicate ReportsAll(rs: seq<Record>, plan: seq<Definition>, mode: Mode) {
    |rs| == |plan| && forall i :: 0 <= i < |plan| ==> Reports(rs[i], plan[i], mode)
  }

  lemma StepRecords(e: Execution, d: Definition, handlers: map<string, Handler>, mode: Mode) returns (r: Record)
    requires Step(e, d, handlers, mode).Ok?
    ensures var f := Step(e, d, handlers, mode).value;
            && Reports(r, d, mode) && f.records == e.records + [r]
            && f.context.results == e.context.results + [r] && f.context.applied == e.context.applied + [d.name]
  {
    var f := Step(e, d, handlers, mode).value;
    r := f.records[|f.records| - 1];
  }

  /** A successful run leaves exactly one record per entry, in the order of the plan, here and in the context. */
  lemma {:induction false} RecordsFollowPlan(
    start: Execution, plan: seq<Definition>, handlers: map<string, Handler>, mode: Mode)
    returns (rs: seq<Record>)
    requires Run(start, plan, handlers, mode).Ok?
    ensures var e := Run(start, plan, handlers, mode).value;
            && ReportsAll(rs, plan, mode) && e.records == start.records + rs
            && e.context.results == start.context.results + rs
            && |e.context.applied| == |start.context.applied| + |plan|
            && start.context.applied <= e.context.applied
            && forall i :: 0 <= i < |plan| ==> e.context.applied[|start.context.applied| + i] == plan[i].name
  {
    hide Step, Reports;
    if plan == [] {
      rs := [];
      assert start.records + rs == start.records && start.context.results + rs == start.context.results;
    } else {
      var init, last := plan[..|plan| - 1], plan[|plan| - 1];
      rs := RecordsFollowPlan(start, init, handlers, mode);
      var r := StepRecords(Run(start, init, handlers, mode).value, last, handlers, mode);
      assert start.records + rs + [r] == start.records + (rs + [r]);
      assert start.context.results + rs + [r] == start.context.results + (rs + [r]);
      rs := rs + [r];
    }
  }

  // ----- what an execution does -----

  /** What the handler of entry `i` returns when the entries before it have run. */
  ghost predicate Returns(
    start: Execution, plan: seq<Definition>, handlers: map<string, Handler>, mode: Mode, i: nat, r: Result<Outcome>) {
    && i < |plan| && plan[i].name in handlers && Run(start, plan[..i], handlers, mode).Ok?
    && var e := Run(start, plan[..i], handlers, mode).value;
       r == handlers[plan[i].name](Input(mode, e.request, e.response, e.context, plan[i].config))
  }

  /** Entry `i`, not in dry run, returned the outcome `o` with action Modify. */
  ghost predicate Modifies(
    start: Execution, plan: seq<Definition>, handlers: map<string, Handler>, mode: Mode, i: nat, o: Outcome) {
    Returns(start, plan, handlers, mode, i, Ok(o)) && plan[i].failure != DryRun && o.action == Modify
  }

  /** Entry `i` is reached and ends the run: it blocks, or is fail-closed without a handler that works. */
  ghost predicate Stops(
    start: Execution, plan: seq<Definition>, handlers: map<string, Handler>, mode: Mode, i: nat, error: Error) {
    && i < |plan| && Run(start, plan[..i], handlers, mode).Ok?
    && (|| (plan[i].name !in handlers && plan[i].failure == FailClosed && error == Unavailable)
        || (plan[i].failure == FailClosed && Returns(start, plan, handlers, mode, i, Err(error)))
        || (plan[i].failure != DryRun && error == Blocked
            && exists o: Outcome :: o.action == Block && Returns(start, plan, handlers, mode, i, Ok(o))))
  }

  ghost predicate SetsRequest(
    start: Execution, plan: seq<Definition>, handlers: map<string, Handler>, mode: Mode, i: nat, v: Value) {
    exists o: Outcome :: Modifies(start, plan, handlers, mode, i, o) && o.request == Some(v)
  }

  ghost predicate SetsResponse(
    start: Execution, plan: seq<Definition>, handlers: map<string, Handler>, mode: Mode, i: nat, v: Value) {
    exists o: Outcome :: Modifies(start, plan, handlers, mode, i, o) && o.response == Some(v)
  }

  /** The request is the last one that an entry set, or the one at the start. */
  ghost predicate LastRequest(
    start: Execution, plan: seq<Definition>, handlers: map<string, Handler>, mode: Mode, request: Option<Value>) {
    || (request == start.request && forall i: nat, v :: !SetsRequest(start, plan, handlers, mode, i, v))
    || exists i: nat, v :: request == Some(v) && SetsRequest(start, plan, handlers, mode, i, v) &&
         forall j: nat, w :: i < j ==> !SetsRequest(start, plan, handlers, mode, j, w)
  }

  ghost predicate LastResponse(
    start: Execution, plan: seq<Definition>, handlers: map<string, Handler>, mode: Mode, response: Option<Value>) {
    || (response == start.response && forall i: nat, v :: !SetsResponse(start, plan, handlers, mode, i, v))
    || exists i: nat, v :: response == Some(v) && SetsResponse(start, plan, handlers, mode, i, v) &&
         forall j: nat, w :: i < j ==> !SetsResponse(start, plan, handlers, mode, j, w)
  }

  lemma PrefixSets(
    start: Execution, plan: seq<Definition>, handlers: map<string, Handler>, mode: Mode, i: nat, v: Value)
    requires plan != [] && i < |plan| - 1
    ensures var init := plan[..|plan| - 1];
      && (SetsRequest(start, plan, handlers, mode, i, v) <==> SetsRequest(start, init, handlers, mode, i, v))
      && (SetsResponse(start, plan, handlers, mode, i, v) <==> SetsResponse(start, init, handlers, mode, i, v))
  {
    hide Run;
    var init := plan[..|plan| - 1];
    assert init[..i] == plan[..i] && init[i] == plan[i];
    forall o: Outcome ensures Modifies(start, plan, handlers, mode, i, o) <==>
        Modifies(start, init, handlers, mode, i, o) {
    }
  }

  lemma OnlyEntriesSet(
    start: Execution, plan: seq<Definition>, handlers: map<string, Handler>, mode: Mode, i: nat, v: Value)
    requires i >= |plan|
    ensures !SetsRequest(start, plan, handlers, mode, i, v) && !SetsResponse(start, plan, handlers, mode, i, v)
  {
  }

  /** The last entry sets the request exactly to what the step leaves, or leaves it alone. */
  lemma LastSets(start: Execution, plan: seq<Definition>, handlers: map<string, Handler>, mode: Mode)
    requires plan != [] && Run(start, plan, handlers, mode).Ok?
    ensures var n, init := |plan| - 1, plan[..|plan| - 1];
      && Run(start, init, handlers, mode).Ok?
      && (var before, after := Run(start, init, handlers, mode).value, Run(start, plan, handlers, mode).value;
          && (if after.request.Some? && SetsRequest(start, plan, handlers, mode, n, after.request.value) then true
              else after.request == before.request && forall v :: !SetsRequest(start, plan, handlers, mode, n, v))
          && (if after.response.Some? && SetsResponse(start, plan, handlers, mode, n, after.response.value) then true
              else after.response == before.response && forall v :: !SetsResponse(start, plan, handlers, mode, n, v)))
  {
    var n, init, d := |plan| - 1, plan[..|plan| - 1], plan[|plan| - 1];
    var e := Run(start, init, handlers, mode).value;
    if d.name in handlers {
      var r := handlers[d.name](Input(mode, e.request, e.response, e.context, d.config));
      assert Returns(start, plan, handlers, mode, n, r);
      if r.Ok? {
        assert Modifies(start, plan, handlers, mode, n, r.value) <==> d.failure != DryRun && r.value.action == Modify;
      }
    }
  }

  lemma RequestCarriesOver(
    start: Execution, plan: seq<Definition>, handlers: map<string, Handler>, mode: Mode, before: Option<Value>,
    after: Option<Value>)
    requires plan != [] && LastRequest(start, plan[..|plan| - 1], handlers, mode, before)
    requires var n := |plan| - 1;
      if after.Some? && SetsRequest(start, plan, handlers, mode, n, after.value) then true
      else after == before && forall v :: !SetsRequest(start, plan, handlers, mode, n, v)
    ensures LastRequest(start, plan, handlers, mode, after)
  {
    hide SetsRequest;
    var n, init := |plan| - 1, plan[..|plan| - 1];
    forall i: nat, v ensures i > n ==> !SetsRequest(start, plan, handlers, mode, i, v) {
      if i > n { OnlyEntriesSet(start, plan, handlers, mode, i, v); }
    }
    if !(after.Some? && SetsRequest(start, plan, handlers, mode, n, after.value)) {
      forall i: nat, v ensures
          SetsRequest(start, plan, handlers, mode, i, v) <==> SetsRequest(start, init, handlers, mode, i, v) {
        if i < n {
          PrefixSets(start, plan, handlers, mode, i, v);
        } else {
          OnlyEntriesSet(start, init, handlers, mode, i, v);
        }
      }
    }
  }

  lemma ResponseCarriesOver(
    start: Execution, plan: seq<Definition>, handlers: map<string, Handler>, mode: Mode, before: Option<Value>,
    after: Option<Value>)
    requires plan != [] && LastResponse(start, plan[..|plan| - 1], handlers, mode, before)
    requires var n := |plan| - 1;
      if after.Some? && SetsResponse(start, plan, handlers, mode, n, after.value) then true
      else after == before && forall v :: !SetsResponse(start, plan, handlers, mode, n, v)
    ensures LastResponse(start, plan, handlers, mode, after)
  {
    hide SetsResponse;
    var n, init := |plan| - 1, plan[..|plan| - 1];
    forall i: nat, v ensures i > n ==> !SetsResponse(start, plan, handlers, mode, i, v) {
      if i > n { OnlyEntriesSet(start, plan, handlers, mode, i, v); }
    }
    if !(after.Some? && SetsResponse(start, plan, handlers, mode, n, after.value)) {
      forall i: nat, v ensures
          SetsResponse(start, plan, handlers, mode, i, v) <==> SetsResponse(start, init, handlers, mode, i, v) {
        if i < n {
          PrefixSets(start, plan, handlers, mode, i, v);
        } else {
          OnlyEntriesSet(start, init, handlers, mode, i, v);
        }
      }
    }
  }

  /**
   A successful run leaves the last request and the last response that an entry not in dry run returned with action
   Modify, and those at the start if there is none.
   */
  lemma {:induction false} LastModificationRemains(
    start: Execution, plan: seq<Definition>, handlers: map<string, Handler>, mode: Mode)
    requires Run(start, plan, handlers, mode).Ok?
    ensures LastRequest(start, plan, handlers, mode, Run(start, plan, handlers, mode).value.request)
    ensures LastResponse(start, plan, handlers, mode, Run(start, plan, handlers, mode).value.response)
  {
    if plan == [] {
      forall i: nat, v ensures
          !SetsRequest(start, plan, handlers, mode, i, v) && !SetsResponse(start, plan, handlers, mode, i, v) {
        OnlyEntriesSet(start, plan, handlers, mode, i, v);
      }
    } else {
      hide SetsRequest, SetsResponse, LastRequest, LastResponse, Step;
      LastSets(start, plan, handlers, mode);
      var init := plan[..|plan| - 1];
      LastModificationRemains(start, init, handlers, mode);
      var before, after := Run(start, init, handlers, mode).value, Run(start, plan, handlers, mode).value;
      RequestCarriesOver(start, plan, handlers, mode, before.request, after.request);
      ResponseCarriesOver(start, plan, handlers, mode, before.response, after.response);
    }
  }

  lemma StepStops(e: Execution, d: Definition, handlers: map<string, Handler>, mode: Mode, error: Error)
    ensures Step(e, d, handlers, mode) == Err(error) <==>
      || (d.name !in handlers && d.failure == FailClosed && error == Unavailable)
      || (d.name in handlers &&
          var r := handlers[d.name](Input(mode, e.request, e.response, e.context, d.config));
          || (d.failure == FailClosed && r == Err(error))
          || (d.failure != DryRun && error == Blocked && r.Ok? && r.value.action == Block))
  {
  }

  lemma PrefixStops(
    start: Execution, plan: seq<Definition>, handlers: map<string, Handler>, mode: Mode, i: nat, error: Error)
    requires plan != [] && i < |plan| - 1
    ensures Stops(start, plan, handlers, mode, i, error) <==>
            Stops(start, plan[..|plan| - 1], handlers, mode, i, error)
  {
    hide Run;
    var init := plan[..|plan| - 1];
    assert init[..i] == plan[..i] && init[i] == plan[i];
    forall r: Result<Outcome> ensures
        Returns(start, plan, handlers, mode, i, r) <==> Returns(start, init, handlers, mode, i, r) {
    }
  }

  lemma LastStops(start: Execution, plan: seq<Definition>, handlers: map<string, Handler>, mode: Mode, error: Error)
    requires plan != [] && Run(start, plan[..|plan| - 1], handlers, mode).Ok?
    ensures Run(start, plan, handlers, mode) == Err(error) <==> Stops(start, plan, handlers, mode, |plan| - 1, error)
  {
    hide Step;
    var e, d := Run(start, plan[..|plan| - 1], handlers, mode).value, plan[|plan| - 1];
    StepStops(e, d, handlers, mode, error);
    if d.name in handlers {
      var r := handlers[d.name](Input(mode, e.request, e.response, e.context, d.config));
      assert Returns(start, plan, handlers, mode, |plan| - 1, r);
    }
  }

  /**
   A run ends with an error exactly when it reaches an entry, not in dry run, that blocks, or a fail-closed entry that
   has no handler or whose handler errs; the error is that of the first such entry.
   */
  lemma {:induction false} FirstStopIsTheError(
    start: Execution, plan: seq<Definition>, handlers: map<string, Handler>, mode: Mode, error: Error)
    ensures Run(start, plan, handlers, mode) == Err(error) <==>
            exists i: nat :: Stops(start, plan, handlers, mode, i, error)
  {
    hide Stops, Step;
    if plan == [] {
      forall i: nat ensures !Stops(start, plan, handlers, mode, i, error) {
        StopsInRange(start, plan, handlers, mode, i, error);
      }
    } else {
      var n, init := |plan| - 1, plan[..|plan| - 1];
      FirstStopIsTheError(start, init, handlers, mode, error);
      if Run(start, init, handlers, mode).Ok? { LastStops(start, plan, handlers, mode, error); }
      forall i: nat ensures Stops(start, plan, handlers, mode, i, error) <==>
          (if i == n then Stops(start, plan, handlers, mode, n, error)
              else Stops(start, init, handlers, mode, i, error)) {
        if i < n { PrefixStops(start, plan, handlers, mode, i, error); }
        if i > n {
          StopsInRange(start, plan, handlers, mode, i, error);
          StopsInRange(start, init, handlers, mode, i, error);
        }
      }
      StopsInRange(start, plan, handlers, mode, n, error);
      StopsInRange(start, init, handlers, mode, n, error);
    }
  }

  lemma StopsInRange(
    start: Execution, plan: seq<Definition>, handlers: map<string, Handler>, mode: Mode, i: nat, error: Error)
    ensures Stops(start, plan, handlers, mode, i, error) ==> i < |plan| && Run(start, plan[..i], handlers, mode).Ok?
  {
  }

  // ----- dry runs -----

  function Live(plan: seq<Definition>): seq<Definition> {
    if plan == [] then [] else
      var last := plan[|plan| - 1];
      Live(plan[..|plan| - 1]) + (if last.failure == DryRun then [] else [last])
  }

  /** The same verdict on the same request and response. */
  ghost predicate Agree(a: Result<Execution>, b: Result<Execution>) {
    if a.Err? then b == a else b.Ok? && a.value.request == b.value.request && a.value.response == b.value.response
  }

  /** And the same mappings for whoever reads them next. */
  ghost predicate AgreeOnMappings(a: Result<Execution>, b: Result<Execution>) {
    Agree(a, b) && (a.Ok? ==> a.value.context.mappings == b.value.context.mappings)
  }

  /** In this mode and with this configuration the handler does not look at the context. */
  ghost predicate IgnoresContext(h: Handler, mode: Mode, config: Config) {
    forall request, response, a, b ::
      h(Input(mode, request, response, a, config)) == h(Input(mode, request, response, b, config))
  }

  /** It looks at nothing in the context but the mappings. */
  ghost predicate ReadsMappingsOnly(h: Handler, mode: Mode, config: Config) {
    forall request, response, a: Context, b: Context :: a.mappings == b.mappings ==>
      h(Input(mode, request, response, a, config)) == h(Input(mode, request, response, b, config))
  }

  /** It adds no mappings. */
  ghost predicate AddsNoMappings(h: Handler, mode: Mode, config: Config) {
    forall request, response, c ::
      var r := h(Input(mode, request, response, c, config)); r.Ok? ==> r.value.mappings == []
  }

  /** No handler of the plan looks at the context. */
  ghost predicate Blind(plan: seq<Definition>, handlers: map<string, Handler>, mode: Mode) {
    forall d :: d in plan && d.name in handlers ==> IgnoresContext(handlers[d.name], mode, d.config)
  }

  /** The handlers of the plan look at mappings only, and its dry runs add none. */
  ghost predicate MappingsOnly(plan: seq<Definition>, handlers: map<string, Handler>, mode: Mode) {
    forall d :: d in plan && d.name in handlers ==>
      && ReadsMappingsOnly(handlers[d.name], mode, d.config)
      && (d.failure == DryRun ==> AddsNoMappings(handlers[d.name], mode, d.config))
  }

  lemma DryStep(e: Execution, d: Definition, handlers: map<string, Handler>, mode: Mode)
    requires d.failure == DryRun
    ensures Agree(Ok(e), Step(e, d, handlers, mode))
  {
  }

  lemma DryStepAdds(e: Execution, d: Definition, handlers: map<string, Handler>, mode: Mode)
    requires d.failure == DryRun
    requires d.name in handlers ==> AddsNoMappings(handlers[d.name], mode, d.config)
    ensures AgreeOnMappings(Ok(e), Step(e, d, handlers, mode))
  {
    if d.name in handlers {
      var r := handlers[d.name](Input(mode, e.request, e.response, e.context, d.config));
      assert r.Ok? ==> r.value.mappings == [];
    }
    assert e.context.mappings + [] == e.context.mappings;
  }

  lemma BlindStep(e: Execution, f: Execution, d: Definition, handlers: map<string, Handler>, mode: Mode)
    requires d.name in handlers ==> IgnoresContext(handlers[d.name], mode, d.config)
    requires Agree(Ok(e), Ok(f))
    ensures Agree(Step(e, d, handlers, mode), Step(f, d, handlers, mode))
  {
    if d.name in handlers {
      assert handlers[d.name](Input(mode, e.request, e.response, e.context, d.config)) ==
             handlers[d.name](Input(mode, e.request, e.response, f.context, d.config));
    }
  }

  lemma MappingStep(e: Execution, f: Execution, d: Definition, handlers: map<string, Handler>, mode: Mode)
    requires d.name in handlers ==> ReadsMappingsOnly(handlers[d.name], mode, d.config)
    requires AgreeOnMappings(Ok(e), Ok(f))
    ensures AgreeOnMappings(Step(e, d, handlers, mode), Step(f, d, handlers, mode))
  {
    if d.name in handlers {
      assert handlers[d.name](Input(mode, e.request, e.response, e.context, d.config)) ==
             handlers[d.name](Input(mode, e.request, e.response, f.context, d.config));
    }
  }

  lemma LiveSnoc(plan: seq<Definition>)
    requires plan != []
    ensures var init, last := plan[..|plan| - 1], plan[|plan| - 1];
            if last.failure == DryRun then Live(plan) == Live(init)
            else
              && |Live(plan)| == |Live(init)| + 1
              && Live(plan)[..|Live(init)|] == Live(init) && Live(plan)[|Live(init)|] == last
  {
  }

  /**
   When no handler of the plan looks at the context, deleting the dry-run entries changes neither the verdict nor the
   final request and response.
   */
  lemma {:induction false} DryRunsAreInvisible(
    start: Execution, other: Execution, plan: seq<Definition>, handlers: map<string, Handler>, mode: Mode)
    requires Blind(plan, handlers, mode) && Agree(Ok(start), Ok(other))
    ensures Agree(Run(start, plan, handlers, mode), Run(other, Live(plan), handlers, mode))
  {
    hide Step, IgnoresContext;
    if plan != [] {
      var init, last := plan[..|plan| - 1], plan[|plan| - 1];
      assert last in plan && forall d :: d in init ==> d in plan;
      DryRunsAreInvisible(start, other, init, handlers, mode);
      LiveSnoc(plan);
      hide Live;
      var a, b := Run(start, init, handlers, mode), Run(other, Live(init), handlers, mode);
      if a.Ok? {
        if last.failure == DryRun {
          DryStep(a.value, last, handlers, mode);
        } else {
          BlindStep(a.value, b.value, last, handlers, mode);
        }
      }
    }
  }

  /** When they look at the mappings and dry runs add none, the mappings come out the same as well. */
  lemma {:induction false} DryRunsLeaveMappings(
    start: Execution, other: Execution, plan: seq<Definition>, handlers: map<string, Handler>, mode: Mode)
    requires MappingsOnly(plan, handlers, mode) && AgreeOnMappings(Ok(start), Ok(other))
    ensures AgreeOnMappings(Run(start, plan, handlers, mode), Run(other, Live(plan), handlers, mode))
  {
    hide Step, ReadsMappingsOnly, AddsNoMappings;
    if plan != [] {
      var init, last := plan[..|plan| - 1], plan[|plan| - 1];
      assert last in plan && forall d :: d in init ==> d in plan;
      DryRunsLeaveMappings(start, other, init, handlers, mode);
      LiveSnoc(plan);
      hide Live;
      var a, b := Run(start, init, handlers, mode), Run(other, Live(init), handlers, mode);
      if a.Ok? {
        if last.failure == DryRun {
          DryStepAdds(a.value, last, handlers, mode);
        } else {
          MappingStep(a.value, b.value, last, handlers, mode);
        }
      }
    }
  }

  // ----- the handlers that the gateway registers -----

  const PII_REDACT: string := "pii-redact"

  function OrNull(v: Option<Value>): Value { if v.Some? then v.value else P.Null }

  function Metadata(t: P.Tally): Value {
    P.Object(["email_count", "phone_count", "ssn_count"],
             [P.Number(P.Decimal(t.emails)), P.Number(P.Decimal(t.phones)), P.Number(P.Decimal(t.ssns))])
  }

  /** The built-in handler; `restores` reads the `restore_output` flag of a configuration. */
  function Redact(restores: Config -> bool, i: Input): Outcome {
    if i.mode == PreCall then
      var r := P.RedactValue(OrNull(i.request), P.NOTHING, true);
      Outcome(Modify, Some(r.0), None, None, Metadata(r.1), r.1.mappings)
    else
      var response := OrNull(i.response);
      var restored :=
        if i.mode == PostCall && restores(i.config) then P.RestoreValue(response, i.context.mappings) else response;
      var r := P.RedactValue(restored, P.NOTHING, i.mode == PostCall);
      Outcome(Modify, None, Some(r.0), None, Metadata(r.1), [])
  }

  /** What a remote guardrail answers; it is sent no part of the context that an execution changes. */
  datatype Reply = Reply(
    action: Action, request: Option<Value>, response: Option<Value>, reason: Option<string>, metadata: Value)

  type Remote = (Mode, Option<Value>, Option<Value>, Config) -> Result<Reply>

  function Ask(remote: Remote, i: Input): Result<Outcome> {
    var r := remote(i.mode, i.request, i.response, i.config);
    if r.Err? then Err(r.error)
    else Ok(Outcome(r.value.action, r.value.request, r.value.response, r.value.reason, r.value.metadata, []))
  }

  /** How configurations are read, and what the remote guardrails answer. */
  datatype World = World(restores: Config -> bool, isHttp: Config -> bool, remote: Remote)

  function PiiHandler(w: World): Handler { (i: Input) => Ok(Redact(w.restores, i)) }

  function HttpHandler(w: World): Handler { (i: Input) => Ask(w.remote, i) }

  /** `guardrail_executor_for_definitions`. */
  function Registered(w: World, ds: seq<Definition>): map<string, Handler> {
    if ds == [] then map[PII_REDACT := PiiHandler(w)] else
      var before, d := Registered(w, ds[..|ds| - 1]), ds[|ds| - 1];
      if d.name != PII_REDACT && w.isHttp(d.config) then before[d.name := HttpHandler(w)] else before
  }

  method RegisterHandlers(w: World, ds: seq<Definition>) returns (handlers: map<string, Handler>)
    ensures handlers == Registered(w, ds)
  {
    handlers := map[PII_REDACT := PiiHandler(w)];
    for i := 0 to |ds|
      invariant handlers == Registered(w, ds[..i])
    {
      assert ds[..i + 1][..i] == ds[..i];
      if ds[i].name != PII_REDACT && w.isHttp(ds[i].config) { handlers := handlers[ds[i].name := HttpHandler(w)]; }
    }
    assert ds[..|ds|] == ds;
  }

  lemma {:induction false} RegisteredKinds(w: World, ds: seq<Definition>, name: string)
    requires name in Registered(w, ds)
    ensures Registered(w, ds)[name] == PiiHandler(w) || Registered(w, ds)[name] == HttpHandler(w)
  {
    hide PiiHandler, HttpHandler;
    if ds != [] && name in Registered(w, ds[..|ds| - 1]) { RegisteredKinds(w, ds[..|ds| - 1], name); }
  }

  lemma RegisteredIgnore(w: World, mode: Mode, config: Config)
    requires mode != PostCall
    ensures IgnoresContext(PiiHandler(w), mode, config) && IgnoresContext(HttpHandler(w), mode, config)
  {
    hide P.RedactValue, P.RestoreValue, Metadata;
  }

  lemma RegisteredRead(w: World, config: Config)
    ensures ReadsMappingsOnly(PiiHandler(w), PostCall, config) && ReadsMappingsOnly(HttpHandler(w), PostCall, config)
    ensures AddsNoMappings(PiiHandler(w), PostCall, config) && AddsNoMappings(HttpHandler(w), PostCall, config)
  {
    hide P.RedactValue, P.RestoreValue, Metadata;
  }

  /**
   Under every executor that the gateway builds, in every mode and for every plan: deleting the dry-run entries changes
   neither the verdict nor the final request and response, and after the provider call not the mappings either.
   */
  lemma GatewayDryRunsAreInvisible(
    w: World, ds: seq<Definition>, start: Execution, other: Execution, plan: seq<Definition>, mode: Mode)
    requires if mode == PostCall then AgreeOnMappings(Ok(start), Ok(other)) else Agree(Ok(start), Ok(other))
    ensures var handlers := Registered(w, ds);
            var a, b := Run(start, plan, handlers, mode), Run(other, Live(plan), handlers, mode);
            Agree(a, b) && (mode == PostCall ==> AgreeOnMappings(a, b))
  {
    hide Run, Live, IgnoresContext, ReadsMappingsOnly, AddsNoMappings, PiiHandler, HttpHandler, Registered;
    var handlers := Registered(w, ds);
    forall d | d in plan && d.name in handlers
      ensures mode != PostCall ==> IgnoresContext(handlers[d.name], mode, d.config)
      ensures ReadsMappingsOnly(handlers[d.name], PostCall, d.config)
      ensures AddsNoMappings(handlers[d.name], PostCall, d.config) {
      RegisteredKinds(w, ds, d.name);
      if mode != PostCall { RegisteredIgnore(w, mode, d.config); }
      RegisteredRead(w, d.config);
    }
    if mode == PostCall {
      DryRunsLeaveMappings(start, other, plan, handlers, mode);
    } else {
      DryRunsAreInvisible(start, other, plan, handlers, mode);
    }
  }

  // ----- the built-in guardrail at work -----

  lemma {:induction false} PiiIsRegistered(w: World, ds: seq<Definition>)
    ensures PII_REDACT in Registered(w, ds) && Registered(w, ds)[PII_REDACT] == PiiHandler(w)
  {
    hide PiiHandler, HttpHandler;
    if ds != [] { PiiIsRegistered(w, ds[..|ds| - 1]); }
  }

  lemma RunOne(start: Execution, d: Definition, handlers: map<string, Handler>, mode: Mode)
    ensures Run(start, [d], handlers, mode) == Step(start, d, handlers, mode)
  {
    hide Step;
    assert [d][..0] == [] && Run(start, [], handlers, mode) == Ok(start);
  }

  /** Before the provider call, the live guardrail "pii-redact" leaves the redacted request and notes its mappings. */
  lemma PreCallRedacts(w: World, ds: seq<Definition>, start: Execution, d: Definition)
    requires d.name == "pii-redact" && d.failure != DryRun
    ensures var r := Run(start, [d], Registered(w, ds), PreCall);
      var redacted := P.RedactValue(if start.request.Some? then start.request.value else P.Null, P.NOTHING, true);
      && r.Ok? && r.value.request == Some(redacted.0) && r.value.response == start.response
      && r.value.context.mappings == start.context.mappings + redacted.1.mappings
  {
    hide P.RedactValue, Registered, Metadata;
    PiiIsRegistered(w, ds);
    RunOne(start, d, Registered(w, ds), PreCall);
  }

  /** After it, the response is restored with the mappings noted so far, if configured, and redacted again. */
  lemma PostCallRestores(w: World, ds: seq<Definition>, start: Execution, d: Definition)
    requires d.name == "pii-redact" && d.failure != DryRun
    ensures var r := Run(start, [d], Registered(w, ds), PostCall);
      var response := if start.response.Some? then start.response.value else P.Null;
      var restored := if w.restores(d.config) then P.RestoreValue(response, start.context.mappings) else response;
      && r.Ok? && r.value.request == start.request && r.value.context.mappings == start.context.mappings
      && r.value.response == Some(P.RedactValue(restored, P.NOTHING, true).0)
  {
    hide P.RedactValue, P.RestoreValue, Registered, Metadata;
    PiiIsRegistered(w, ds);
    RunOne(start, d, Registered(w, ds), PostCall);
    assert start.context.mappings + [] == start.context.mappings;
  }

  /** Registered are the built-in guardrail and, by name, every other definition with a remote configuration. */
  lemma {:induction false} RegisteredByName(w: World, ds: seq<Definition>, name: string)
    ensures name in Registered(w, ds) <==>
      name == "pii-redact" || exists i :: 0 <= i < |ds| && ds[i].name == name && w.isHttp(ds[i].config)
    ensures name in Registered(w, ds) && name != "pii-redact" ==> Registered(w, ds)[name] == HttpHandler(w)
  {
    hide PiiHandler, HttpHandler;
    if ds != [] {
      var init := ds[..|ds| - 1];
      RegisteredByName(w, init, name);
      assert forall i :: 0 <= i < |init| ==> init[i] == ds[i];
    }
  }
}
