/** Planning which guardrails apply to a call and executing the plan (guardrails.rs). */
module Guardrails {
  import opened Base

  datatype Mode = PreCall | PostCall | DuringCall

  datatype FailurePolicy = FailClosed | FailOpen | DryRun

  datatype Action = Allow | Block | Modify | Warn

  datatype Error = InvalidRequest | Forbidden | Unavailable | Blocked | HandlerError(code: string)

  datatype Result<T> = Ok(value: T) | Err(error: Error)

  /** Configuration is JSON text that only handlers interpret; `merge` parameters overlay one on another. */
  type Config = string

  type Merge = (Config, Config) -> Config

  datatype Definition = Definition(
    name: string, modes: seq<Mode>, defaultOn: bool, failure: FailurePolicy, config: Config, enabled: bool)

  datatype Override = Override(name: string, config: Config, isObject: bool)

  /** The overrides are listed in the order of their names. */
  datatype Policy = Policy(
    mandatory: seq<string>, optional: seq<string>, forbidden: seq<string>, overrides: seq<Override>)

  datatype PolicySet = PolicySet(key: Policy, team: Option<Policy>, route: Option<Policy>, model: Option<Policy>)

  datatype PlanRequest = PlanRequest(mode: Mode, definitions: seq<Definition>, policies: PolicySet, client: seq<string>)

  function Present(p: Option<Policy>): seq<Policy> { if p.Some? then [p.value] else [] }

  function Layers(s: PolicySet): seq<Policy> { [s.key] + Present(s.team) + Present(s.route) + Present(s.model) }

  function AllForbidden(ps: seq<Policy>): seq<string> {
    if ps == [] then [] else AllForbidden(ps[..|ps| - 1]) + ps[|ps| - 1].forbidden
  }

  function AllOptional(ps: seq<Policy>): seq<string> {
    if ps == [] then [] else AllOptional(ps[..|ps| - 1]) + ps[|ps| - 1].optional
  }

  function AllMandatory(ps: seq<Policy>): seq<string> {
    if ps == [] then [] else AllMandatory(ps[..|ps| - 1]) + ps[|ps| - 1].mandatory
  }

  // ----- validation -----

  predicate NameChar(c: char) {
    'a' <= c <= 'z' || 'A' <= c <= 'Z' || '0' <= c <= '9' || c == '-' || c == '_' || c == '.'
  }

  predicate ValidName(name: string) { name != [] && |name| <= 128 && forall c :: c in name ==> NameChar(c) }

  predicate ValidNames(names: seq<string>) { forall n :: n in names ==> ValidName(n) }

  function OverrideError(os: seq<Override>, forbidden: seq<string>): Option<Error> {
    if os == [] then None else
      var o := os[0];
      if !ValidName(o.name) || !o.isObject then Some(InvalidRequest)
      else if o.name in forbidden then Some(Error.Forbidden)
      else OverrideError(os[1..], forbidden)
  }

  function PolicyError(p: Policy): Option<Error> {
    if !ValidNames(p.mandatory) || !ValidNames(p.optional) || !ValidNames(p.forbidden) then Some(InvalidRequest)
    else OverrideError(p.overrides, p.forbidden)
  }

  predicate Known(name: string, ds: seq<Definition>) { exists i :: 0 <= i < |ds| && ds[i].name == name }

  function TargetError(os: seq<Override>, ds: seq<Definition>, forbidden: seq<string>): Option<Error> {
    if os == [] then None
    else if !Known(os[0].name, ds) then Some(InvalidRequest)
    else if os[0].name in forbidden then Some(Error.Forbidden)
    else TargetError(os[1..], ds, forbidden)
  }

  /** `validate_guardrail_config_overrides`: the first policy at fault decides. */
  function ValidationError(ps: seq<Policy>, ds: seq<Definition>, forbidden: seq<string>): Option<Error> {
    if ps == [] then None else
      var own := PolicyError(ps[0]);
      if own.Some? then own else
        var target := TargetError(ps[0].overrides, ds, forbidden);
        if target.Some? then target else ValidationError(ps[1..], ds, forbidden)
  }

  // ----- definitions in force -----

  function OverrideFor(os: seq<Override>, name: string): Option<Config> {
    if os == [] then None else if os[0].name == name then Some(os[0].config) else OverrideFor(os[1..], name)
  }

  function EffectiveConfig(ps: seq<Policy>, name: string, config: Config, merge: Merge): Config {
    if ps == [] then config else
      var before := EffectiveConfig(ps[..|ps| - 1], name, config, merge);
      var o := OverrideFor(ps[|ps| - 1].overrides, name);
      if o.Some? then merge(before, o.value) else before
  }

  function Effective(d: Definition, ps: seq<Policy>, merge: Merge): Definition {
    d.(config := EffectiveConfig(ps, d.name, d.config, merge))
  }

  predicate Supports(d: Definition, mode: Mode) { d.enabled && mode in d.modes }

  /** Names in the order of a sorted dictionary. */
  predicate Before(a: string, b: string) {
    if b == [] then false else if a == [] then true
    else a[0] < b[0] || (a[0] == b[0] && Before(a[1..], b[1..]))
  }

  /** A sorted dictionary's insert: in place of an equal name, else in front of the first later one. */
  function Insert(ds: seq<Definition>, d: Definition): seq<Definition> {
    if ds == [] then [d]
    else if ds[0].name == d.name then [d] + ds[1..]
    else if Before(d.name, ds[0].name) then [d] + ds
    else [ds[0]] + Insert(ds[1..], d)
  }

  function InForce(ds: seq<Definition>, mode: Mode, ps: seq<Policy>, merge: Merge): seq<Definition> {
    if ds == [] then [] else
      var init := InForce(ds[..|ds| - 1], mode, ps, merge);
      var last := ds[|ds| - 1];
      if Supports(last, mode) then Insert(init, Effective(last, ps, merge)) else init
  }

  function Lookup(ds: seq<Definition>, name: string): (d: Option<Definition>)
    ensures d.Some? ==> d.value.name == name && d.value in ds
    ensures d.None? ==> forall i :: 0 <= i < |ds| ==> ds[i].name != name
  {
    if ds == [] then None else if ds[0].name == name then Some(ds[0]) else Lookup(ds[1..], name)
  }

  function Defaults(ds: seq<Definition>): seq<Definition> {
    if ds == [] then [] else Defaults(ds[..|ds| - 1]) + (if ds[|ds| - 1].defaultOn then [ds[|ds| - 1]] else [])
  }

  // ----- the plan -----

  predicate Named(plan: seq<Definition>, name: string) { exists i :: 0 <= i < |plan| && plan[i].name == name }

  function PushOnce(plan: seq<Definition>, d: Definition): seq<Definition> {
    if Named(plan, d.name) then plan else plan + [d]
  }

  function PushAll(plan: seq<Definition>, ds: seq<Definition>): seq<Definition> {
    if ds == [] then plan else PushOnce(PushAll(plan, ds[..|ds| - 1]), ds[|ds| - 1])
  }

  function Mandated(
    plan: seq<Definition>, names: seq<string>, ds: seq<Definition>, forbidden: seq<string>): Result<seq<Definition>> {
    if names == [] then Ok(plan) else
      var before := Mandated(plan, names[..|names| - 1], ds, forbidden);
      if before.Err? then before else
        var name := names[|names| - 1];
        if name in forbidden then Err(Error.Forbidden)
        else if Lookup(ds, name).None? then Err(Unavailable)
        else Ok(PushOnce(before.value, Lookup(ds, name).value))
  }

  function Requested(
    plan: seq<Definition>, names: seq<string>, ds: seq<Definition>, forbidden: seq<string>, optional: seq<string>)
    : Result<seq<Definition>>
  {
    if names == [] then Ok(plan) else
      var before := Requested(plan, names[..|names| - 1], ds, forbidden, optional);
      if before.Err? then before else
        var name := names[|names| - 1];
        if name in forbidden || name !in optional then Err(Error.Forbidden)
        else if Lookup(ds, name).None? then Err(InvalidRequest)
        else Ok(PushOnce(before.value, Lookup(ds, name).value))
  }

  /** `resolve_guardrail_plan`. */
  function Resolve(q: PlanRequest, merge: Merge): Result<seq<Definition>> {
    var ps := Layers(q.policies);
    var forbidden := AllForbidden(ps);
    var invalid := ValidationError(ps, q.definitions, forbidden);
    if invalid.Some? then Err(invalid.value) else
      var ds := InForce(q.definitions, q.mode, ps, merge);
      var mandated := Mandated(PushAll([], Defaults(ds)), AllMandatory(ps), ds, forbidden);
      if mandated.Err? then mandated else Requested(mandated.value, q.client, ds, forbidden, AllOptional(ps))
  }

  // ----- what a plan contains -----

  ghost predicate Distinct(plan: seq<Definition>) {
    forall i, j :: 0 <= i < j < |plan| ==> plan[i].name != plan[j].name
  }

  ghost predicate Within(plan: seq<Definition>, ds: seq<Definition>) { forall d :: d in plan ==> d in ds }

  /** The plan grew by appending definitions in force, still names everything once, and names exactly these more. */
  ghost predicate Extends(before: seq<Definition>, after: seq<Definition>, ds: seq<Definition>, names: set<string>) {
    && before <= after
    && (Distinct(before) ==> Distinct(after))
    && (Within(before, ds) ==> Within(after, ds))
    && forall n :: Named(after, n) <==> Named(before, n) || n in names
  }

  lemma ExtendsNot(plan: seq<Definition>, ds: seq<Definition>)
    ensures Extends(plan, plan, ds, {})
  {
  }

  lemma PushExtends(plan: seq<Definition>, d: Definition, ds: seq<Definition>)
    requires d in ds
    ensures Extends(plan, PushOnce(plan, d), ds, {d.name})
  {
    var after := PushOnce(plan, d);
    if !Named(plan, d.name) {
      assert after[|plan|] == d;
      assert forall i :: 0 <= i < |plan| ==> after[i] == plan[i];
    }
  }

  lemma ExtendsOn(
    a: seq<Definition>, b: seq<Definition>, c: seq<Definition>, ds: seq<Definition>, m: set<string>, n: set<string>)
    requires Extends(a, b, ds, m) && Extends(b, c, ds, n)
    ensures Extends(a, c, ds, m + n)
  {
    hide Distinct, Within, Named;
  }

  function NamesOf(ds: seq<Definition>): set<string> { set i | 0 <= i < |ds| :: ds[i].name }

  function Names(ns: seq<string>): set<string> { set n | n in ns }

  lemma {:induction false} PushAllExtends(plan: seq<Definition>, more: seq<Definition>, ds: seq<Definition>)
    requires Within(more, ds)
    ensures Extends(plan, PushAll(plan, more), ds, NamesOf(more))
  {
    hide Extends, PushOnce;
    if more == [] {
      ExtendsNot(plan, ds);
      assert NamesOf(more) == {};
    } else {
      var init, last := more[..|more| - 1], more[|more| - 1];
      assert forall i :: 0 <= i < |init| ==> init[i] == more[i];
      assert last in more;
      PushAllExtends(plan, init, ds);
      PushExtends(PushAll(plan, init), last, ds);
      ExtendsOn(plan, PushAll(plan, init), PushAll(plan, more), ds, NamesOf(init), {last.name});
      assert NamesOf(more) == NamesOf(init) + {last.name} by { NamesSnoc(more); }
    }
  }

  lemma NamesSnoc(ds: seq<Definition>)
    requires ds != []
    ensures NamesOf(ds) == NamesOf(ds[..|ds| - 1]) + {ds[|ds| - 1].name}
  {
    var init := ds[..|ds| - 1];
    assert forall i :: 0 <= i < |init| ==> init[i] == ds[i];
    forall n | n in NamesOf(init) ensures n in NamesOf(ds) {
      var i :| 0 <= i < |init| && init[i].name == n;
      assert ds[i].name == n;
    }
  }

  /** Every name may be put on the plan. */
  ghost predicate Admissible(names: seq<string>, ds: seq<Definition>, forbidden: seq<string>) {
    forall n :: n in names ==> n !in forbidden && Lookup(ds, n).Some?
  }

  lemma {:induction false} MandatedExtends(
    plan: seq<Definition>, names: seq<string>, ds: seq<Definition>, forbidden: seq<string>)
    ensures Mandated(plan, names, ds, forbidden).Ok? <==> Admissible(names, ds, forbidden)
    ensures Admissible(names, ds, forbidden) ==>
        Extends(plan, Mandated(plan, names, ds, forbidden).value, ds, Names(names))
  {
    hide Extends, PushOnce, Lookup;
    if names == [] {
      ExtendsNot(plan, ds);
      assert Names(names) == {};
    } else {
      var init, last := names[..|names| - 1], names[|names| - 1];
      MandatedExtends(plan, init, ds, forbidden);
      assert names == init + [last];
      if Admissible(names, ds, forbidden) {
        var before, d := Mandated(plan, init, ds, forbidden).value, Lookup(ds, last).value;
        PushExtends(before, d, ds);
        ExtendsOn(plan, before, PushOnce(before, d), ds, Names(init), {d.name});
        assert Names(names) == Names(init) + {last};
      }
    }
  }

  lemma {:induction false} RequestedExtends(
    plan: seq<Definition>, names: seq<string>, ds: seq<Definition>, forbidden: seq<string>, optional: seq<string>)
    ensures Requested(plan, names, ds, forbidden, optional).Ok? <==>
            Admissible(names, ds, forbidden) && forall n :: n in names ==> n in optional
    ensures Requested(plan, names, ds, forbidden, optional).Ok? ==>
            Extends(plan, Requested(plan, names, ds, forbidden, optional).value, ds, Names(names))
  {
    hide Extends, PushOnce, Lookup;
    if names == [] {
      ExtendsNot(plan, ds);
      assert Names(names) == {};
    } else {
      var init, last := names[..|names| - 1], names[|names| - 1];
      RequestedExtends(plan, init, ds, forbidden, optional);
      assert names == init + [last];
      if Requested(plan, names, ds, forbidden, optional).Ok? {
        var before, d := Requested(plan, init, ds, forbidden, optional).value, Lookup(ds, last).value;
        PushExtends(before, d, ds);
        ExtendsOn(plan, before, PushOnce(before, d), ds, Names(init), {d.name});
        assert Names(names) == Names(init) + {last};
      }
    }
  }

  /**
   A plan exists exactly when the policies are valid, and all mandatory and requested guardrails are in force and
   allowed.
   */
  ghost predicate Plannable(q: PlanRequest, merge: Merge) {
    var ps := Layers(q.policies);
    var ds := InForce(q.definitions, q.mode, ps, merge);
    && ValidationError(ps, q.definitions, AllForbidden(ps)).None?
    && Admissible(AllMandatory(ps), ds, AllForbidden(ps))
    && Admissible(q.client, ds, AllForbidden(ps))
    && forall n :: n in q.client ==> n in AllOptional(ps)
  }

  /**
   A successful plan names each guardrail once, only guardrails in force, and exactly the default, mandatory and
   requested ones.
   */
  lemma PlanIsExact(q: PlanRequest, merge: Merge)
    ensures Resolve(q, merge).Ok? <==> Plannable(q, merge)
    ensures Resolve(q, merge).Ok? ==>
            var plan, ds := Resolve(q, merge).value, InForce(q.definitions, q.mode, Layers(q.policies), merge);
            Distinct(plan) && Within(plan, ds) &&
            forall n :: Named(plan, n) <==>
              n in NamesOf(Defaults(ds)) || n in AllMandatory(Layers(q.policies)) || n in q.client
  {
    hide Layers, InForce, Mandated, Requested, ValidationError, Admissible, PushAll, Distinct, Within, Named, Lookup,
         Defaults, NamesOf;
    var ps := Layers(q.policies);
    var ds, forbidden := InForce(q.definitions, q.mode, ps, merge), AllForbidden(ps);
    var start := PushAll([], Defaults(ds));
    DefaultsWithin(ds);
    NothingPlanned(ds);
    PushAllExtends([], Defaults(ds), ds);
    MandatedExtends(start, AllMandatory(ps), ds, forbidden);
    var mandated := Mandated(start, AllMandatory(ps), ds, forbidden);
    if mandated.Ok? {
      RequestedExtends(mandated.value, q.client, ds, forbidden, AllOptional(ps));
    }
  }

  lemma NothingPlanned(ds: seq<Definition>)
    ensures Distinct([]) && Within([], ds) && forall n :: !Named([], n)
  {
  }

  lemma {:induction false} DefaultsWithin(ds: seq<Definition>)
    ensures Within(Defaults(ds), ds)
  {
    if ds != [] {
      DefaultsWithin(ds[..|ds| - 1]);
      assert ds == ds[..|ds| - 1] + [ds[|ds| - 1]];
    }
  }

  /** A client can only append to the plan that holds without its requests. */
  lemma ClientsOnlyAppend(q: PlanRequest, merge: Merge)
    requires Resolve(q, merge).Ok?
    ensures var without := Resolve(q.(client := []), merge);
            without.Ok? && without.value <= Resolve(q, merge).value
  {
    hide Layers, InForce, Mandated, ValidationError, Admissible, PushAll, Distinct, Within, Named, Lookup, Defaults,
         NamesOf, PushOnce;
    var ps := Layers(q.policies);
    var ds, forbidden := InForce(q.definitions, q.mode, ps, merge), AllForbidden(ps);
    var mandated := Mandated(PushAll([], Defaults(ds)), AllMandatory(ps), ds, forbidden);
    RequestedExtends(mandated.value, q.client, ds, forbidden, AllOptional(ps));
  }

  // ----- which definition is in force -----

  /** The last supported definition of a name wins. */
  function LastSupported(ds: seq<Definition>, mode: Mode, name: string): Option<Definition> {
    if ds == [] then None
    else if Supports(ds[|ds| - 1], mode) && ds[|ds| - 1].name == name then Some(ds[|ds| - 1])
    else LastSupported(ds[..|ds| - 1], mode, name)
  }

  ghost predicate Sorted(ds: seq<Definition>) { forall i, j :: 0 <= i < j < |ds| ==> Before(ds[i].name, ds[j].name) }

  lemma {:induction false} BeforeTransitive(a: string, b: string, c: string)
    requires Before(a, b) && Before(b, c)
    ensures Before(a, c)
  {
    if a != [] && a[0] == b[0] == c[0] { BeforeTransitive(a[1..], b[1..], c[1..]); }
  }

  lemma {:induction false} BeforeTotal(a: string, b: string)
    ensures Before(a, b) || a == b || Before(b, a)
    ensures !(Before(a, b) && (a == b || Before(b, a)))
  {
    if a != [] && b != [] {
      BeforeTotal(a[1..], b[1..]);
      if a[0] == b[0] { assert a == [a[0]] + a[1..] && b == [b[0]] + b[1..]; }
    }
  }

  /** Every name of the dictionary is after `low`. */
  ghost predicate After(low: string, ds: seq<Definition>) { forall i :: 0 <= i < |ds| ==> Before(low, ds[i].name) }

  lemma {:induction false} InsertSorted(ds: seq<Definition>, d: Definition)
    requires Sorted(ds)
    ensures Sorted(Insert(ds, d))
    ensures forall low :: After(low, ds) && Before(low, d.name) ==> After(low, Insert(ds, d))
  {
    hide Before;
    if ds != [] {
      var rest := ds[1..];
      assert Sorted(rest) && After(ds[0].name, rest);
      if ds[0].name != d.name {
        BeforeTotal(d.name, ds[0].name);
        if Before(d.name, ds[0].name) {
          forall i | 0 <= i < |ds| ensures Before(d.name, ds[i].name) {
            if i > 0 { BeforeTransitive(d.name, ds[0].name, ds[i].name); }
          }
        } else {
          InsertSorted(rest, d);
          assert After(ds[0].name, Insert(rest, d));
        }
      }
    }
  }

  lemma {:induction false} InsertLooksUp(ds: seq<Definition>, d: Definition, name: string)
    requires Sorted(ds)
    ensures Lookup(Insert(ds, d), name) == if name == d.name then Some(d) else Lookup(ds, name)
  {
    hide Before;
    if ds != [] {
      assert Sorted(ds[1..]);
      var r := Insert(ds, d);
      if ds[0].name != d.name && !Before(d.name, ds[0].name) {
        InsertLooksUp(ds[1..], d, name);
        assert r[1..] == Insert(ds[1..], d);
      } else if ds[0].name == d.name {
        assert r[1..] == ds[1..];
      } else {
        assert r[1..] == ds;
      }
    }
  }

  /** The dictionary is sorted and holds, for each name, the last supported definition with its overrides applied. */
  lemma {:induction false} LastDefinitionIsInForce(
    ds: seq<Definition>, mode: Mode, ps: seq<Policy>, merge: Merge, name: string)
    ensures Sorted(InForce(ds, mode, ps, merge))
    ensures var last := LastSupported(ds, mode, name);
            Lookup(InForce(ds, mode, ps, merge), name) == if last.None? then None
                else Some(Effective(last.value, ps, merge))
  {
    hide Sorted, Lookup, Insert, EffectiveConfig, Supports;
    if ds == [] {
      EmptyDictionary(name);
    } else {
      var init, last := ds[..|ds| - 1], ds[|ds| - 1];
      LastDefinitionIsInForce(init, mode, ps, merge, name);
      if Supports(last, mode) {
        InsertSorted(InForce(init, mode, ps, merge), Effective(last, ps, merge));
        InsertLooksUp(InForce(init, mode, ps, merge), Effective(last, ps, merge), name);
      }
    }
  }

  lemma EmptyDictionary(name: string)
    ensures Sorted([]) && Lookup([], name) == None
  {
  }

  // ----- the source's loops -----

  lemma {:induction false} MandatedConcat(
    plan: seq<Definition>, a: seq<string>, b: seq<string>, ds: seq<Definition>, forbidden: seq<string>)
    ensures var first := Mandated(plan, a, ds, forbidden);
            Mandated(plan, a + b, ds, forbidden) == if first.Err? then first
                else Mandated(first.value, b, ds, forbidden)
  {
    hide PushOnce, Lookup;
    if b == [] {
      assert a + b == a;
    } else {
      assert (a + b)[..|a + b| - 1] == a + b[..|b| - 1];
      MandatedConcat(plan, a, b[..|b| - 1], ds, forbidden);
    }
  }

  lemma {:induction false} RequestedStops(
    plan: seq<Definition>, names: seq<string>, i: nat, ds: seq<Definition>, forbidden: seq<string>,
    optional: seq<string>)
    requires i <= |names| && Requested(plan, names[..i], ds, forbidden, optional).Err?
    ensures Requested(plan, names, ds, forbidden, optional) == Requested(plan, names[..i], ds, forbidden, optional)
    decreases |names| - i
  {
    hide PushOnce, Lookup;
    if i < |names| {
      assert names[..i + 1][..i] == names[..i];
      RequestedStops(plan, names, i + 1, ds, forbidden, optional);
    } else {
      assert names[..i] == names;
    }
  }

  lemma {:induction false} MandatedStops(
    plan: seq<Definition>, ps: seq<Policy>, i: nat, ds: seq<Definition>, forbidden: seq<string>)
    requires i <= |ps| && Mandated(plan, AllMandatory(ps[..i]), ds, forbidden).Err?
    ensures Mandated(plan, AllMandatory(ps), ds, forbidden) == Mandated(plan, AllMandatory(ps[..i]), ds, forbidden)
    decreases |ps| - i
  {
    hide Mandated;
    if i < |ps| {
      assert ps[..i + 1][..i] == ps[..i];
      MandatedConcat(plan, AllMandatory(ps[..i]), ps[i].mandatory, ds, forbidden);
      MandatedStops(plan, ps, i + 1, ds, forbidden);
    } else {
      assert ps[..i] == ps;
    }
  }

  /** The mandatory guardrails of one policy. */
  method Mandate(plan: seq<Definition>, names: seq<string>, ds: seq<Definition>, forbidden: seq<string>)
    returns (r: Result<seq<Definition>>)
    ensures r == Mandated(plan, names, ds, forbidden)
  {
    hide PushOnce, Lookup;
    var grown := plan;
    for i := 0 to |names|
      invariant Mandated(plan, names[..i], ds, forbidden) == Ok(grown)
    {
      assert names[..i + 1][..i] == names[..i];
      assert names == names[..i + 1] + names[i + 1..];
      MandatedConcat(plan, names[..i + 1], names[i + 1..], ds, forbidden);
      if names[i] in forbidden { return Err(Error.Forbidden); }
      var d := Lookup(ds, names[i]);
      if d.None? { return Err(Unavailable); }
      grown := PushOnce(grown, d.value);
    }
    assert names[..|names|] == names;
    r := Ok(grown);
  }

  method ResolvePlan(q: PlanRequest, merge: Merge) returns (r: Result<seq<Definition>>)
    ensures r == Resolve(q, merge)
  {
    hide Layers, ValidationError, Insert, Effective, Supports, PushOnce, Lookup, Mandated;
    var ps := Layers(q.policies);
    var forbidden, optional := AllForbidden(ps), AllOptional(ps);
    var invalid := ValidationError(ps, q.definitions, forbidden);
    if invalid.Some? { return Err(invalid.value); }
    var ds := Gather(q.definitions, q.mode, ps, merge);
    var plan: seq<Definition> := [];
    for i := 0 to |ds|
      invariant plan == PushAll([], Defaults(ds[..i]))
    {
      assert ds[..i + 1][..i] == ds[..i];
      if ds[i].defaultOn {
        PushAllSnoc([], Defaults(ds[..i]), ds[i]);
        plan := PushOnce(plan, ds[i]);
      } else {
        assert Defaults(ds[..i + 1]) == Defaults(ds[..i]);
      }
    }
    assert ds[..|ds|] == ds;
    var start := plan;
    var mandated := MandateAll(start, ps, ds, forbidden);
    if mandated.Err? { return mandated; }
    r := Grant(mandated.value, q.client, ds, forbidden, optional);
  }

  lemma PushAllSnoc(plan: seq<Definition>, ds: seq<Definition>, d: Definition)
    ensures PushAll(plan, ds + [d]) == PushOnce(PushAll(plan, ds), d)
  {
    hide PushOnce;
    assert (ds + [d])[..|ds|] == ds;
  }

  method Gather(definitions: seq<Definition>, mode: Mode, ps: seq<Policy>, merge: Merge) returns (ds: seq<Definition>)
    ensures ds == InForce(definitions, mode, ps, merge)
  {
    hide Insert, Effective, Supports;
    ds := [];
    for i := 0 to |definitions|
      invariant ds == InForce(definitions[..i], mode, ps, merge)
    {
      assert definitions[..i + 1][..i] == definitions[..i];
      if Supports(definitions[i], mode) { ds := Insert(ds, Effective(definitions[i], ps, merge)); }
    }
    assert definitions[..|definitions|] == definitions;
  }

  method MandateAll(plan: seq<Definition>, ps: seq<Policy>, ds: seq<Definition>, forbidden: seq<string>)
    returns (r: Result<seq<Definition>>)
    ensures r == Mandated(plan, AllMandatory(ps), ds, forbidden)
  {
    hide Mandated;
    r := Ok(plan);
    assert Mandated(plan, [], ds, forbidden) == Ok(plan) by { NothingMandated(plan, ds, forbidden); }
    for i := 0 to |ps|
      invariant r.Ok? && r == Mandated(plan, AllMandatory(ps[..i]), ds, forbidden)
    {
      assert ps[..i + 1][..i] == ps[..i];
      MandatedConcat(plan, AllMandatory(ps[..i]), ps[i].mandatory, ds, forbidden);
      r := Mandate(r.value, ps[i].mandatory, ds, forbidden);
      if r.Err? {
        MandatedStops(plan, ps, i + 1, ds, forbidden);
        return;
      }
    }
    assert ps[..|ps|] == ps;
  }

  lemma NothingMandated(plan: seq<Definition>, ds: seq<Definition>, forbidden: seq<string>)
    ensures Mandated(plan, [], ds, forbidden) == Ok(plan)
  {
  }

  method Grant(
    plan: seq<Definition>, names: seq<string>, ds: seq<Definition>, forbidden: seq<string>, optional: seq<string>)
    returns (r: Result<seq<Definition>>)
    ensures r == Requested(plan, names, ds, forbidden, optional)
  {
    hide PushOnce, Lookup;
    var grown := plan;
    for i := 0 to |names|
      invariant Requested(plan, names[..i], ds, forbidden, optional) == Ok(grown)
    {
      assert names[..i + 1][..i] == names[..i];
      var d := Lookup(ds, names[i]);
      if names[i] in forbidden || names[i] !in optional || d.None? {
        RequestedStops(plan, names, i + 1, ds, forbidden, optional);
        return Err(if names[i] in forbidden || names[i] !in optional then Error.Forbidden else InvalidRequest);
      }
      grown := PushOnce(grown, d.value);
    }
    assert names[..|names|] == names;
    r := Ok(grown);
  }

  // ----- what validation asks, and the order of a plan -----

  predicate NameCharacter(c: char) {
    'a' <= c <= 'z' || 'A' <= c <= 'Z' || '0' <= c <= '9' || c in {'-', '_', '.'}
  }

  predicate Wellnamed(name: string) { 1 <= |name| <= 128 && forall i :: 0 <= i < |name| ==> NameCharacter(name[i]) }

  ghost predicate SoundPolicy(p: Policy, ds: seq<Definition>, forbidden: seq<string>) {
    && (forall n :: n in p.mandatory + p.optional + p.forbidden ==> Wellnamed(n))
    && forall o :: o in p.overrides ==>
         && Wellnamed(o.name) && o.isObject && o.name !in p.forbidden && o.name !in forbidden
         && exists i :: 0 <= i < |ds| && ds[i].name == o.name
  }

  lemma WellnamedIsValid(name: string)
    ensures Wellnamed(name) <==> ValidName(name)
  {
    if ValidName(name) {
      forall i | 0 <= i < |name| ensures NameCharacter(name[i]) { assert name[i] in name; }
    }
  }

  lemma {:induction false} OverridesAreSound(os: seq<Override>, forbidden: seq<string>)
    ensures OverrideError(os, forbidden).None? <==>
      forall o :: o in os ==> Wellnamed(o.name) && o.isObject && o.name !in forbidden
  {
    hide Wellnamed, ValidName;
    if os != [] {
      WellnamedIsValid(os[0].name);
      OverridesAreSound(os[1..], forbidden);
      assert os == [os[0]] + os[1..];
    }
  }

  lemma {:induction false} TargetsAreSound(os: seq<Override>, ds: seq<Definition>, forbidden: seq<string>)
    ensures TargetError(os, ds, forbidden).None? <==>
      forall o :: o in os ==> Known(o.name, ds) && o.name !in forbidden
  {
    hide Known;
    if os != [] {
      TargetsAreSound(os[1..], ds, forbidden);
      assert os == [os[0]] + os[1..];
    }
  }

  lemma PolicyIsSound(p: Policy, ds: seq<Definition>, forbidden: seq<string>)
    ensures PolicyError(p).None? && TargetError(p.overrides, ds, forbidden).None? <==> SoundPolicy(p, ds, forbidden)
  {
    hide ValidName, Wellnamed, OverrideError, TargetError;
    OverridesAreSound(p.overrides, p.forbidden);
    TargetsAreSound(p.overrides, ds, forbidden);
    forall n ensures Wellnamed(n) <==> ValidName(n) { WellnamedIsValid(n); }
    assert forall n :: n in p.mandatory + p.optional + p.forbidden <==>
      n in p.mandatory || n in p.optional || n in p.forbidden;
  }

  /**
   Validation passes exactly if every policy is sound: names well-formed, overrides known, objects and not forbidden.
   */
  lemma {:induction false} ValidationIsSoundness(ps: seq<Policy>, ds: seq<Definition>, forbidden: seq<string>)
    ensures ValidationError(ps, ds, forbidden).None? <==> forall p :: p in ps ==> SoundPolicy(p, ds, forbidden)
  {
    hide SoundPolicy, PolicyError, TargetError;
    if ps != [] {
      PolicyIsSound(ps[0], ds, forbidden);
      ValidationIsSoundness(ps[1..], ds, forbidden);
      assert ps == [ps[0]] + ps[1..];
    }
  }

  /** The plan names what `names` lists, in the order of first mention. */
  ghost predicate InOrderOf(plan: seq<Definition>, names: seq<string>) {
    && (forall n :: Named(plan, n) <==> n in names)
    && forall i, j :: 0 <= i < j < |plan| ==> MentionedFirst(names, plan[i].name, plan[j].name)
  }

  ghost predicate MentionedFirst(names: seq<string>, a: string, b: string) {
    exists k :: 0 <= k < |names| && names[k] == a && b !in names[..k + 1]
  }

  lemma MentionedStill(names: seq<string>, more: string, a: string, b: string)
    requires MentionedFirst(names, a, b)
    ensures MentionedFirst(names + [more], a, b)
  {
    var k :| 0 <= k < |names| && names[k] == a && b !in names[..k + 1];
    assert (names + [more])[..k + 1] == names[..k + 1] && (names + [more])[k] == a;
  }

  lemma MentionedLast(names: seq<string>, a: string, b: string)
    requires a in names && b !in names
    ensures MentionedFirst(names + [b], a, b)
  {
    var k :| 0 <= k < |names| && names[k] == a;
    assert (names + [b])[..k + 1] == names[..k + 1] && (names + [b])[k] == a;
  }

  lemma PushInOrder(plan: seq<Definition>, names: seq<string>, d: Definition)
    requires InOrderOf(plan, names)
    ensures InOrderOf(PushOnce(plan, d), names + [d.name])
  {
    hide MentionedFirst, Named;
    var after, all := PushOnce(plan, d), names + [d.name];
    PushNames(plan, d);
    forall i, j | 0 <= i < j < |after| ensures MentionedFirst(all, after[i].name, after[j].name) {
      if j < |plan| {
        MentionedStill(names, d.name, plan[i].name, plan[j].name);
      } else {
        NamedAt(plan, i);
        MentionedLast(names, plan[i].name, d.name);
      }
    }
  }

  lemma NamedAt(plan: seq<Definition>, i: nat)
    requires i < |plan|
    ensures Named(plan, plan[i].name)
  {
  }

  lemma PushNames(plan: seq<Definition>, d: Definition)
    ensures forall n :: Named(PushOnce(plan, d), n) <==> Named(plan, n) || n == d.name
    ensures PushOnce(plan, d) == if Named(plan, d.name) then plan else plan + [d]
  {
    PushExtends(plan, d, [d]);
  }

  function NameList(ds: seq<Definition>): seq<string> {
    if ds == [] then [] else NameList(ds[..|ds| - 1]) + [ds[|ds| - 1].name]
  }

  lemma {:induction false} PushAllInOrder(more: seq<Definition>)
    ensures InOrderOf(PushAll([], more), NameList(more))
  {
    hide InOrderOf, PushOnce;
    if more == [] {
      NothingInOrder();
    } else {
      PushAllInOrder(more[..|more| - 1]);
      PushInOrder(PushAll([], more[..|more| - 1]), NameList(more[..|more| - 1]), more[|more| - 1]);
    }
  }

  lemma NothingInOrder()
    ensures InOrderOf([], [])
  {
  }

  lemma {:induction false} MandatedInOrder(
    plan: seq<Definition>, listed: seq<string>, names: seq<string>, ds: seq<Definition>, forbidden: seq<string>)
    requires InOrderOf(plan, listed) && Mandated(plan, names, ds, forbidden).Ok?
    ensures InOrderOf(Mandated(plan, names, ds, forbidden).value, listed + names)
  {
    hide InOrderOf, PushOnce, Lookup;
    if names == [] {
      assert listed + names == listed;
    } else {
      var init, last := names[..|names| - 1], names[|names| - 1];
      MandatedInOrder(plan, listed, init, ds, forbidden);
      PushInOrder(Mandated(plan, init, ds, forbidden).value, listed + init, Lookup(ds, last).value);
      assert listed + names == listed + init + [last];
    }
  }

  lemma {:induction false} RequestedInOrder(
    plan: seq<Definition>, listed: seq<string>, names: seq<string>, ds: seq<Definition>, forbidden: seq<string>,
    optional: seq<string>)
    requires InOrderOf(plan, listed) && Requested(plan, names, ds, forbidden, optional).Ok?
    ensures InOrderOf(Requested(plan, names, ds, forbidden, optional).value, listed + names)
  {
    hide InOrderOf, PushOnce, Lookup;
    if names == [] {
      assert listed + names == listed;
    } else {
      var init, last := names[..|names| - 1], names[|names| - 1];
      RequestedInOrder(plan, listed, init, ds, forbidden, optional);
      PushInOrder(Requested(plan, init, ds, forbidden, optional).value, listed + init, Lookup(ds, last).value);
      assert listed + names == listed + init + [last];
    }
  }

  /**
   A plan lists the defaults by name, then the mandatory ones, then those the client asked for, each at first mention.
   */
  lemma PlanInOrder(q: PlanRequest, merge: Merge)
    requires Resolve(q, merge).Ok?
    ensures var ds := InForce(q.definitions, q.mode, Layers(q.policies), merge);
      InOrderOf(Resolve(q, merge).value, NameList(Defaults(ds)) + AllMandatory(Layers(q.policies)) + q.client)
  {
    hide Layers, InForce, Mandated, Requested, ValidationError, PushAll, InOrderOf, Defaults, NameList;
    var ps := Layers(q.policies);
    var ds, forbidden := InForce(q.definitions, q.mode, ps, merge), AllForbidden(ps);
    var start := PushAll([], Defaults(ds));
    PushAllInOrder(Defaults(ds));
    MandatedInOrder(start, NameList(Defaults(ds)), AllMandatory(ps), ds, forbidden);
    var mandated := Mandated(start, AllMandatory(ps), ds, forbidden).value;
    RequestedInOrder(mandated, NameList(Defaults(ds)) + AllMandatory(ps), q.client, ds, forbidden, AllOptional(ps));
  }
}
