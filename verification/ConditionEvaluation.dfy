/**
 Evaluation of and/or/not trees of conditions with chaining through a shared template
 map and filtering by a path scope.
 */
module ConditionEvaluation {
  import opened Wrappers
  import opened Conditions
  import opened ConditionChains

  datatype Incident = Incident(uri: string, variables: map<string, string>)

  datatype ChainTemplate = ChainTemplate(
    filepaths: seq<string>, extras: map<string, string>, excludedPaths: seq<string>)

  type Templates = map<string, ChainTemplate>

  datatype Response = Response(matched: bool, incidents: seq<Incident>, context: map<string, string>)

  datatype Error = ProviderError(message: string) | MissingContext(name: string) | NoConditions

  const PathScopeKey := "konveyor.io/path-scope"

  /**
   What the evaluation calls but does not define: the providers, the path of an
   incident's file, and the two scopes' `FilterResponse` (true means "drop it").
   */
  datatype Env = Env(
    provider: (nat, Templates) -> Result<Response, string>,
    path: Incident -> string,
    notIncluded: (seq<string>, Incident) -> bool,
    excluded: (seq<string>, Incident) -> bool)

  /** Every list of entries in the tree has unique aliases, as the parser ensures. */
  ghost predicate WellFormed(c: Conditional) {
    match c
    case Provider(_) => true
    case Single(e) => WellFormed(e.cond)
    case And(es) => UniqueAliases(es) && forall e <- es :: WellFormed(e.cond)
    case Or(es) => UniqueAliases(es) && forall e <- es :: WellFormed(e.cond)
  }

  // ----- the path scope -----

  predicate InScope(env: Env, scope: ChainTemplate, i: Incident) {
    && (scope.filepaths != [] ==> !env.notIncluded(scope.filepaths, i))
    && (scope.excludedPaths != [] ==> !env.excluded(scope.excludedPaths, i))
  }

  function Filtered(env: Env, scope: ChainTemplate, incidents: seq<Incident>): (kept: seq<Incident>)
    ensures forall i <- kept :: i in incidents && InScope(env, scope, i)
    ensures forall i <- incidents :: InScope(env, scope, i) ==> i in kept
  {
    if incidents == [] then []
    else
      var i := incidents[|incidents| - 1];
      Filtered(env, scope, incidents[..|incidents| - 1]) + if InScope(env, scope, i) then [i] else []
  }

  function Paths(env: Env, incidents: seq<Incident>): (paths: seq<string>)
    ensures |paths| == |incidents|
    ensures forall k :: 0 <= k < |paths| ==> paths[k] == env.path(incidents[k])
  {
    seq(|incidents|, k requires 0 <= k < |incidents| => env.path(incidents[k]))
  }

  // ----- the denotation -----

  /** What an entry makes of its condition's response, given the templates after evaluating it. */
  function EntryResponse(env: Env, e: Entry, r: Response, templates: Templates): Response {
    var incidents :=
      if PathScopeKey in templates then Filtered(env, templates[PathScopeKey], r.incidents) else r.incidents;
    Response((r.matched && incidents != []) != e.negated, incidents, r.context)
  }

  function Stored(env: Env, e: Entry, r: Response, templates: Templates): Templates {
    if e.alias == "" then templates
    else templates[e.alias := ChainTemplate(Paths(env, r.incidents), r.context, [])]
  }

  /** Incidents of the entries that are not ignorable, in order. */
  function Collected(es: seq<Entry>, order: seq<nat>, rs: seq<Response>): seq<Incident>
    requires InRange(order, |es|) && |rs| == |order|
    decreases |rs|
  {
    if rs == [] then []
    else
      var k := |rs| - 1;
      Collected(es, order[..k], rs[..k]) + if es[order[k]].ignorable then [] else rs[k].incidents
  }

  /** The template contexts of all entries; later ones win. */
  function Merged(rs: seq<Response>): map<string, string> {
    if rs == [] then map[] else Merged(rs[..|rs| - 1]) + rs[|rs| - 1].context
  }

  /** `And` matches when all entries match, `Or` when one does. */
  ghost predicate Verdict(all: bool, rs: seq<Response>) {
    if all then forall r <- rs :: r.matched else exists r <- rs :: r.matched
  }

  ghost function Meaning(env: Env, c: Conditional, templates: Templates): (Result<Response, Error>, Templates)
    requires WellFormed(c)
    decreases c, 2
  {
    match c
    case Provider(id) =>
      (match env.provider(id, templates)
       case Success(r) => (Success(r), templates)
       case Failure(message) => (Failure(ProviderError(message)), templates))
    case Single(e) => EntryMeaning(env, e, templates)
    case And(es) => if es == [] then (Failure(NoConditions), templates) else ListMeaning(env, es, true, templates)
    case Or(es) => if es == [] then (Failure(NoConditions), templates) else ListMeaning(env, es, false, templates)
  }

  /** The entries are evaluated producers first, all of them, and the first error ends it. */
  ghost function ListMeaning(env: Env, es: seq<Entry>, all: bool, templates: Templates)
    : (Result<Response, Error>, Templates)
    requires UniqueAliases(es) && forall e <- es :: WellFormed(e.cond)
    decreases es, 2
  {
    SortedInRange(es);
    var (result, after) := Responses(env, es, Sorted(es), templates);
    match result
    case Failure(error) => (Failure(error), after)
    case Success(rs) => (Success(Response(Verdict(all, rs), Collected(es, Sorted(es), rs), Merged(rs))), after)
  }

  ghost function EntryMeaning(env: Env, e: Entry, templates: Templates): (Result<Response, Error>, Templates)
    requires WellFormed(e.cond)
    decreases e, 0
  {
    var (result, after) := Meaning(env, e.cond, templates);
    match result
    case Failure(error) => (Failure(error), after)
    case Success(r) => (Success(EntryResponse(env, e, r, after)), after)
  }

  /** The entries' responses in the given order, each seeing what the earlier ones stored. */
  ghost function Responses(env: Env, es: seq<Entry>, order: seq<nat>, templates: Templates)
    : (result: (Result<seq<Response>, Error>, Templates))
    requires InRange(order, |es|) && forall e <- es :: WellFormed(e.cond)
    ensures result.0.Success? ==> |result.0.value| == |order|
    decreases es, 1, |order|
  {
    if order == [] then (Success([]), templates)
    else
      var k := |order| - 1;
      var (result, before) := Responses(env, es, order[..k], templates);
      match result
      case Failure(error) => (Failure(error), before)
      case Success(rs) =>
        var e := es[order[k]];
        if e.from != "" && e.from !in before then (Failure(MissingContext(e.from)), before)
        else
          var (response, after) := EntryMeaning(env, e, before);
          match response
          case Failure(error) => (Failure(error), after)
          case Success(r) => (Success(rs + [r]), Stored(env, e, r, after))
  }

  lemma {:induction false} FailureStays(env: Env, es: seq<Entry>, order: seq<nat>, k: nat, templates: Templates)
    requires InRange(order, |es|) && (forall e <- es :: WellFormed(e.cond)) && k <= |order|
    requires Responses(env, es, order[..k], templates).0.Failure?
    ensures Responses(env, es, order, templates) == Responses(env, es, order[..k], templates)
    decreases |order| - k
  {
    if k == |order| {
      assert order[..k] == order;
    } else {
      assert order[..k + 1][..k] == order[..k];
      FailureStays(env, es, order, k + 1, templates);
    }
  }

  /** One more response for the collected incidents ... */
  lemma CollectedOne(es: seq<Entry>, prefix: seq<nat>, i: nat, rs: seq<Response>, r: Response)
    requires InRange(prefix, |es|) && i < |es| && |rs| == |prefix|
    ensures InRange(prefix + [i], |es|)
    ensures Collected(es, prefix + [i], rs + [r])
            == Collected(es, prefix, rs) + (if es[i].ignorable then [] else r.incidents)
  {
    assert (rs + [r])[..|rs|] == rs && (prefix + [i])[..|prefix|] == prefix;
  }

  /** ... and for the rest of a list's result. */
  lemma AccumulateOne(rs: seq<Response>, r: Response, all: bool)
    ensures Verdict(all, rs + [r]) == (if all then Verdict(all, rs) && r.matched else Verdict(all, rs) || r.matched)
    ensures Merged(rs + [r]) == Merged(rs) + r.context
  {
    assert (rs + [r])[..|rs|] == rs;
    assert r in rs + [r];
    assert forall q <- rs :: q in rs + [r];
  }

  lemma RespondOne(env: Env, es: seq<Entry>, prefix: seq<nat>, i: nat, templates: Templates)
    requires InRange(prefix, |es|) && (forall e <- es :: WellFormed(e.cond)) && i < |es|
    requires Responses(env, es, prefix, templates).0.Success?
    ensures InRange(prefix + [i], |es|)
    ensures
      var (result, before) := Responses(env, es, prefix, templates);
      var e := es[i];
      Responses(env, es, prefix + [i], templates) ==
        if e.from != "" && e.from !in before then (Failure(MissingContext(e.from)), before)
        else
          var (response, after) := EntryMeaning(env, e, before);
          match response
          case Failure(error) => (Failure(error), after)
          case Success(r) => (Success(result.value + [r]), Stored(env, e, r, after))
  {
    assert (prefix + [i])[..|prefix|] == prefix;
  }

  lemma NextPrefix(order: seq<nat>, k: nat)
    requires k < |order|
    ensures order[..k + 1] == order[..k] + [order[k]]
  {
  }

  // ----- the code -----

  /** `ConditionContext`: every evaluation of a rule shares its template map. */
  class Context {
    var template: Templates

    constructor (template: Templates)
      ensures this.template == template
    {
      this.template := template;
    }

    static method KeepIncluded(env: Env, paths: seq<string>, incidents: seq<Incident>) returns (kept: seq<Incident>)
      requires paths != []
      ensures kept == Filtered(env, ChainTemplate(paths, map[], []), incidents)
    {
      kept := [];
      for k := 0 to |incidents|
        invariant kept == Filtered(env, ChainTemplate(paths, map[], []), incidents[..k])
      {
        assert incidents[..k + 1][..k] == incidents[..k];
        if !env.notIncluded(paths, incidents[k]) {
          kept := kept + [incidents[k]];
        }
      }
      assert incidents[..|incidents|] == incidents;
    }

    static method KeepNotExcluded(env: Env, paths: seq<string>, incidents: seq<Incident>) returns (kept: seq<Incident>)
      requires paths != []
      ensures kept == Filtered(env, ChainTemplate([], map[], paths), incidents)
    {
      kept := [];
      for k := 0 to |incidents|
        invariant kept == Filtered(env, ChainTemplate([], map[], paths), incidents[..k])
      {
        assert incidents[..k + 1][..k] == incidents[..k];
        if !env.excluded(paths, incidents[k]) {
          kept := kept + [incidents[k]];
        }
      }
      assert incidents[..|incidents|] == incidents;
    }

    /** `FilterIncidentsByFilePaths` */
    static method FilterIncidents(env: Env, scope: ChainTemplate, incidents: seq<Incident>)
        returns (kept: seq<Incident>)
      ensures kept == Filtered(env, scope, incidents)
    {
      kept := incidents;
      if |scope.filepaths| > 0 {
        kept := KeepIncluded(env, scope.filepaths, kept);
      } else {
        FilteredByNothing(env, ChainTemplate([], map[], []), incidents);
      }
      if |scope.excludedPaths| > 0 {
        kept := KeepNotExcluded(env, scope.excludedPaths, kept);
      } else {
        FilteredByNothing(env, ChainTemplate([], map[], []), kept);
      }
      FilteredInTwoPasses(env, scope, incidents);
    }

    /** `AndCondition.Evaluate`, `OrCondition.Evaluate` and the provider's own evaluation */
    method Evaluate(env: Env, c: Conditional) returns (result: Result<Response, Error>)
      requires WellFormed(c)
      modifies this
      ensures (result, template) == Meaning(env, c, old(template))
      decreases c, 2
    {
      match c {
        case Provider(id) =>
          var r := env.provider(id, template);
          match r {
            case Success(response) => result := Success(response);
            case Failure(message) => result := Failure(ProviderError(message));
          }
        case Single(e) =>
          result := EvaluateEntry(env, e);
        case And(es) =>
          if |es| == 0 {
            return Failure(NoConditions);
          }
          result := EvaluateAll(env, es, true);
        case Or(es) =>
          if |es| == 0 {
            return Failure(NoConditions);
          }
          result := EvaluateAll(env, es, false);
      }
    }

    /** `ConditionEntry.Evaluate` */
    method EvaluateEntry(env: Env, e: Entry) returns (result: Result<Response, Error>)
      requires WellFormed(e.cond)
      modifies this
      ensures (result, template) == EntryMeaning(env, e, old(template))
      decreases e, 0
    {
      result := Evaluate(env, e.cond);
      if result.Success? {
        var response := result.value;
        if PathScopeKey in template {
          var kept := FilterIncidents(env, template[PathScopeKey], response.incidents);
          response := response.(incidents := kept);
        }
        if |response.incidents| == 0 {
          response := response.(matched := false);
        }
        var matched := response.matched;
        if e.negated {
          matched := !matched;
        }
        result := Success(response.(matched := matched));
      }
    }

    /** The response becomes visible to later entries under the entry's `as` name. */
    method Store(env: Env, c: Entry, response: Response)
      modifies this
      ensures template == Stored(env, c, response, old(template))
    {
      if c.alias != "" {
        template := template[c.alias := ChainTemplate(Paths(env, response.incidents), response.context, [])];
      }
    }

    /** The end of the loop body: an `And` (`all`) starts as matched, an `Or` as not matched. */
    static method Accumulate(full: Response, c: Entry, response: Response, all: bool) returns (result: Response)
      ensures result.matched == if all then full.matched && response.matched else full.matched || response.matched
      ensures result.incidents == full.incidents + if c.ignorable then [] else response.incidents
      ensures result.context == full.context + response.context
    {
      result := full;
      if all && !response.matched {
        result := result.(matched := false);
      } else if !all && response.matched {
        result := result.(matched := true);
      }
      if !c.ignorable {
        result := result.(incidents := result.incidents + response.incidents);
      }
      result := result.(context := result.context + response.context);
    }

    /** One round of the loop: the entry is evaluated and its response stored. */
    method Respond(env: Env, es: seq<Entry>, c: Entry) returns (result: Result<Response, Error>)
      requires c in es && WellFormed(c.cond)
      modifies this
      ensures
        var before := old(template);
        var (response, after) := EntryMeaning(env, c, before);
        if c.from != "" && c.from !in before then result == Failure(MissingContext(c.from)) && template == before
        else
          match response
          case Failure(error) => result == Failure(error) && template == after
          case Success(r) => result == Success(r) && template == Stored(env, c, r, after)
      decreases es, 0
    {
      if c.from != "" && c.from !in template {
        return Failure(MissingContext(c.from));
      }
      result := EvaluateEntry(env, c);
      if result.Success? {
        Store(env, c, result.value);
      }
    }

    /** The loop shared by `And` (`all`) and `Or`. */
    method EvaluateAll(env: Env, es: seq<Entry>, all: bool) returns (result: Result<Response, Error>)
      requires es != [] && UniqueAliases(es) && forall e <- es :: WellFormed(e.cond)
      modifies this
      ensures (result, template) == ListMeaning(env, es, all, old(template))
      decreases es, 1
    {
      var conditions := SortConditionEntries(es);
      ghost var order := Sorted(es);
      ghost var before := template;
      ghost var rs: seq<Response> := [];
      var full := Response(all, [], map[]);
      for k := 0 to |conditions|
        invariant |rs| == k && Responses(env, es, order[..k], before) == (Success(rs), template)
        invariant full == Response(Verdict(all, rs), Collected(es, order[..k], rs), Merged(rs))
      {
        var c := conditions[k];
        assert c == es[order[k]] && c in es;
        NextPrefix(order, k);
        RespondOne(env, es, order[..k], order[k], before);
        var evaluated := Respond(env, es, c);
        if evaluated.Failure? {
          FailureStays(env, es, order, k + 1, before);
          return Failure(evaluated.error);
        }
        full := Accumulate(full, c, evaluated.value, all);
        CollectedOne(es, order[..k], order[k], rs, evaluated.value);
        AccumulateOne(rs, evaluated.value, all);
        rs := rs + [evaluated.value];
      }
      assert order[..|conditions|] == order;
      result := Success(full);
    }
  }

  lemma {:induction false} FilteredByNothing(env: Env, scope: ChainTemplate, incidents: seq<Incident>)
    requires scope.filepaths == [] && scope.excludedPaths == []
    ensures Filtered(env, scope, incidents) == incidents
  {
    if incidents != [] {
      FilteredByNothing(env, scope, incidents[..|incidents| - 1]);
    }
  }

  lemma FilteredOne(env: Env, scope: ChainTemplate, i: Incident)
    ensures Filtered(env, scope, [i]) == if InScope(env, scope, i) then [i] else []
  {
    assert [i][..0] == [];
    assert Filtered(env, scope, [i][..0]) == [];
  }

  lemma FilteredLast(env: Env, scope: ChainTemplate, s: seq<Incident>, i: Incident)
    ensures Filtered(env, scope, s + [i]) == Filtered(env, scope, s) + Filtered(env, scope, [i])
  {
    FilteredOne(env, scope, i);
    assert (s + [i])[..|s|] == s;
  }

  /**
   Filtering goes incident by incident: with `FilteredOne`, the incidents in scope are kept
   in their order and as often as they occur.
   */
  lemma {:induction false} FilteredIsPointwise(env: Env, scope: ChainTemplate, a: seq<Incident>, b: seq<Incident>)
    ensures Filtered(env, scope, a + b) == Filtered(env, scope, a) + Filtered(env, scope, b)
    decreases |b|
  {
    if b == [] {
      assert a + b == a && Filtered(env, scope, b) == [];
    } else {
      var init, last := b[..|b| - 1], b[|b| - 1];
      assert b == init + [last];
      FilteredIsPointwise(env, scope, a, init);
      FilteredLast(env, scope, a + init, last);
      FilteredLast(env, scope, init, last);
      Regroup(a, init, [last]);
      Regroup(Filtered(env, scope, a), Filtered(env, scope, init), Filtered(env, scope, [last]));
    }
  }

  lemma Regroup(a: seq<Incident>, b: seq<Incident>, c: seq<Incident>)
    ensures a + b + c == a + (b + c)
  {
  }

  /** Filtering depends only on the two lists of paths, and can be done one list at a time. */
  lemma {:induction false} FilteredInTwoPasses(env: Env, scope: ChainTemplate, incidents: seq<Incident>)
    ensures Filtered(env, ChainTemplate([], map[], scope.excludedPaths),
                     Filtered(env, ChainTemplate(scope.filepaths, map[], []), incidents))
            == Filtered(env, scope, incidents)
  {
    if incidents != [] {
      var init, last := incidents[..|incidents| - 1], incidents[|incidents| - 1];
      FilteredInTwoPasses(env, scope, init);
      var a := Filtered(env, ChainTemplate(scope.filepaths, map[], []), init);
      assert (a + [last])[..|a|] == a;
      assert a + [] == a;
    }
  }

  // ----- no chained entry misses its input -----

  /** Templates are only added or replaced. */
  lemma {:induction false} TemplatesGrow(env: Env, c: Conditional, templates: Templates)
    requires WellFormed(c)
    ensures templates.Keys <= Meaning(env, c, templates).1.Keys
    decreases c, 2
  {
    match c
    case Provider(_) =>
    case Single(e) => TemplatesGrow(env, e.cond, templates);
    case And(es) =>
      if es != [] {
        SortedInRange(es);
        ListTemplatesGrow(env, es, Sorted(es), templates);
      }
    case Or(es) =>
      if es != [] {
        SortedInRange(es);
        ListTemplatesGrow(env, es, Sorted(es), templates);
      }
  }

  lemma {:induction false} ListTemplatesGrow(env: Env, es: seq<Entry>, order: seq<nat>, templates: Templates)
    requires InRange(order, |es|) && forall e <- es :: WellFormed(e.cond)
    ensures templates.Keys <= Responses(env, es, order, templates).1.Keys
    ensures Responses(env, es, order, templates).0.Success? ==>
              forall k :: 0 <= k < |order| && es[order[k]].alias != "" ==>
                es[order[k]].alias in Responses(env, es, order, templates).1
    decreases es, 1, |order|
  {
    if order != [] {
      var k := |order| - 1;
      ListTemplatesGrow(env, es, order[..k], templates);
      var (result, before) := Responses(env, es, order[..k], templates);
      var e := es[order[k]];
      if result.Success? && !(e.from != "" && e.from !in before) {
        TemplatesGrow(env, e.cond, before);
        var (response, after) := EntryMeaning(env, e, before);
        forall i | response.Success? && 0 <= i < |order| && es[order[i]].alias != ""
          ensures es[order[i]].alias in Responses(env, es, order, templates).1
        {
          if i < k {
            assert order[..k][i] == order[i];
          }
        }
      }
    }
  }

  /** The error for a missing context value is never the result of evaluating a well-formed condition. */
  lemma {:induction false} ContextIsNeverMissing(env: Env, c: Conditional, templates: Templates, name: string)
    requires WellFormed(c)
    ensures Meaning(env, c, templates).0 != Failure(MissingContext(name))
    decreases c, 2
  {
    match c
    case Provider(_) =>
    case Single(e) => ContextIsNeverMissing(env, e.cond, templates, name);
    case And(es) =>
      if es != [] {
        SortedInOrder(es);
        ListContextIsNeverMissing(env, es, Sorted(es), |Sorted(es)|, templates, name);
        assert Sorted(es)[..|Sorted(es)|] == Sorted(es);
      }
    case Or(es) =>
      if es != [] {
        SortedInOrder(es);
        ListContextIsNeverMissing(env, es, Sorted(es), |Sorted(es)|, templates, name);
        assert Sorted(es)[..|Sorted(es)|] == Sorted(es);
      }
  }

  lemma {:induction false} ListContextIsNeverMissing(
      env: Env, es: seq<Entry>, order: seq<nat>, n: nat, templates: Templates, name: string)
    requires InRange(order, |es|) && ProducersFirst(es, order) && n <= |order|
    requires forall e <- es :: WellFormed(e.cond)
    ensures Responses(env, es, order[..n], templates).0 != Failure(MissingContext(name))
    decreases es, 1, n
  {
    if n > 0 {
      ListContextIsNeverMissing(env, es, order, n - 1, templates, name);
      var (result, before) := Responses(env, es, order[..n - 1], templates);
      var e := es[order[n - 1]];
      assert order[..n][..n - 1] == order[..n - 1];
      if result.Success? {
        NextPrefix(order, n - 1);
        RespondOne(env, es, order[..n - 1], order[n - 1], templates);
        ListTemplatesGrow(env, es, order[..n - 1], templates);
        if e.from != "" {
          var j :| 0 <= j < n - 1 && Links(es[order[j]], e);
          assert order[..n - 1][j] == order[j];
        }
        ContextIsNeverMissing(env, e.cond, before, name);
      }
    }
  }

  // ----- the path scope reaches every incident -----

  /** No entry of the tree stores its result under the scope's own key. */
  ghost predicate KeepsScopeKey(c: Conditional) {
    match c
    case Provider(_) => true
    case Single(e) => KeepsScopeKey(e.cond)
    case And(es) => forall e <- es :: e.alias != PathScopeKey && KeepsScopeKey(e.cond)
    case Or(es) => forall e <- es :: e.alias != PathScopeKey && KeepsScopeKey(e.cond)
  }

  ghost predicate AllInScope(env: Env, scope: ChainTemplate, incidents: seq<Incident>) {
    forall i <- incidents :: InScope(env, scope, i)
  }

  /** Each stored path is the path of an incident in scope. */
  ghost predicate PathsInScope(env: Env, scope: ChainTemplate, paths: seq<string>) {
    forall path <- paths :: exists i :: env.path(i) == path && InScope(env, scope, i)
  }

  ghost predicate ScopedTemplates(env: Env, scope: ChainTemplate, templates: Templates) {
    && PathScopeKey in templates
    && templates[PathScopeKey] == scope
    && forall name <- templates :: name != PathScopeKey ==> PathsInScope(env, scope, templates[name].filepaths)
  }

  lemma EntryInScope(env: Env, scope: ChainTemplate, e: Entry, r: Response, templates: Templates)
    requires ScopedTemplates(env, scope, templates) && e.alias != PathScopeKey
    ensures
      var response := EntryResponse(env, e, r, templates);
      && AllInScope(env, scope, response.incidents)
      && ScopedTemplates(env, scope, Stored(env, e, response, templates))
  {
    var response := EntryResponse(env, e, r, templates);
    var paths := Paths(env, response.incidents);
    forall path <- paths
      ensures exists i :: env.path(i) == path && InScope(env, scope, i)
    {
      var k :| 0 <= k < |paths| && paths[k] == path;
      assert env.path(response.incidents[k]) == path && response.incidents[k] in response.incidents;
    }
  }

  lemma {:induction false} CollectedInScope(env: Env, scope: ChainTemplate, es: seq<Entry>, order: seq<nat>,
      rs: seq<Response>)
    requires InRange(order, |es|) && |rs| == |order|
    requires forall r <- rs :: AllInScope(env, scope, r.incidents)
    ensures AllInScope(env, scope, Collected(es, order, rs))
    decreases |rs|
  {
    if rs != [] {
      var k := |rs| - 1;
      assert forall r <- rs[..k] :: r in rs;
      CollectedInScope(env, scope, es, order[..k], rs[..k]);
      assert rs[k] in rs;
    }
  }

  /**
   Unless an entry stores under the scope's key, every incident that a tree returns is in
   the path scope and so is every path it stores under an `as` name.
   */
  lemma {:induction false} ResultInScope(env: Env, scope: ChainTemplate, c: Conditional, templates: Templates)
    requires WellFormed(c) && KeepsScopeKey(c) && ScopedTemplates(env, scope, templates)
    ensures
      var (result, after) := Meaning(env, c, templates);
      && ScopedTemplates(env, scope, after)
      && (result.Success? && !c.Provider? ==> AllInScope(env, scope, result.value.incidents))
    decreases c, 2
  {
    match c
    case Provider(_) =>
    case Single(e) =>
      ResultInScope(env, scope, e.cond, templates);
      var (result, after) := Meaning(env, e.cond, templates);
      if result.Success? {
        EntryInScope(env, scope, e.(alias := ""), result.value, after);
      }
    case And(es) =>
      if es != [] {
        SortedInRange(es);
        ListInScope(env, scope, es, Sorted(es), templates);
        var (result, after) := Responses(env, es, Sorted(es), templates);
        if result.Success? {
          CollectedInScope(env, scope, es, Sorted(es), result.value);
        }
      }
    case Or(es) =>
      if es != [] {
        SortedInRange(es);
        ListInScope(env, scope, es, Sorted(es), templates);
        var (result, after) := Responses(env, es, Sorted(es), templates);
        if result.Success? {
          CollectedInScope(env, scope, es, Sorted(es), result.value);
        }
      }
  }

  lemma {:induction false} ListInScope(env: Env, scope: ChainTemplate, es: seq<Entry>, order: seq<nat>,
      templates: Templates)
    requires InRange(order, |es|) && forall e <- es :: WellFormed(e.cond)
    requires forall e <- es :: e.alias != PathScopeKey && KeepsScopeKey(e.cond)
    requires ScopedTemplates(env, scope, templates)
    ensures
      var (result, after) := Responses(env, es, order, templates);
      && ScopedTemplates(env, scope, after)
      && (result.Success? ==> forall r <- result.value :: AllInScope(env, scope, r.incidents))
    decreases es, 1, |order|
  {
    if order != [] {
      var k := |order| - 1;
      ListInScope(env, scope, es, order[..k], templates);
      var (result, before) := Responses(env, es, order[..k], templates);
      var e := es[order[k]];
      assert e in es;
      if result.Success? && !(e.from != "" && e.from !in before) {
        ResultInScope(env, scope, e.cond, before);
        var (inner, after) := Meaning(env, e.cond, before);
        if inner.Success? {
          EntryInScope(env, scope, e, inner.value, after);
        }
      }
    }
  }

  const Outside := Incident("out", map[])

  /** Provider 0 finds nothing, every other provider the incident outside; scopes compare paths. */
  const EscapeEnv := Env(
    (id, templates) => Success(Response(true, if id == 0 then [] else [Outside], map[])),
    (i: Incident) => i.uri,
    (paths: seq<string>, i: Incident) => i.uri !in paths,
    (paths: seq<string>, i: Incident) => i.uri in paths)

  const EscapeFirst := Entry("", PathScopeKey, false, false, Provider(0))

  const EscapeSecond := Entry("", "", false, false, Provider(1))

  const EscapeScope := ChainTemplate(["in"], map[], [])

  /** The first entry replaces the scope by an empty one. */
  lemma EscapeReplacesScope(templates: Templates)
    requires templates == map[PathScopeKey := EscapeScope]
    ensures EntryMeaning(EscapeEnv, EscapeFirst, templates) == (Success(Response(false, [], map[])), templates)
    ensures Stored(EscapeEnv, EscapeFirst, Response(false, [], map[]), templates)
            == map[PathScopeKey := ChainTemplate([], map[], [])]
  {
    assert Filtered(EscapeEnv, EscapeScope, []) == [];
    assert Paths(EscapeEnv, []) == [];
  }

  /** So the second one keeps its incident. */
  lemma EscapeKeepsIncident(templates: Templates)
    requires templates == map[PathScopeKey := ChainTemplate([], map[], [])]
    ensures EntryMeaning(EscapeEnv, EscapeSecond, templates) == (Success(Response(true, [Outside], map[])), templates)
  {
    FilteredByNothing(EscapeEnv, ChainTemplate([], map[], []), [Outside]);
    assert EscapeEnv.provider(1, templates) == Success(Response(true, [Outside], map[]));
    assert EntryResponse(EscapeEnv, EscapeSecond, Response(true, [Outside], map[]), templates).incidents == [Outside];
  }

  lemma EscapeResponses(es: seq<Entry>, start: Templates)
    requires es == [EscapeFirst, EscapeSecond] && start == map[PathScopeKey := EscapeScope]
    ensures Responses(EscapeEnv, es, [0, 1], start).0
            == Success([Response(false, [], map[]), Response(true, [Outside], map[])])
  {
    var order: seq<nat> := [0, 1];
    var replaced := map[PathScopeKey := ChainTemplate([], map[], [])];
    assert order[..0] == [] && order[..1] == [0] && order[..2] == order;
    assert Responses(EscapeEnv, es, order[..0], start) == (Success([]), start);
    RespondOne(EscapeEnv, es, [], 0, start);
    EscapeReplacesScope(start);
    assert Responses(EscapeEnv, es, order[..1], start) == (Success([] + [Response(false, [], map[])]), replaced);
    RespondOne(EscapeEnv, es, [0], 1, start);
    EscapeKeepsIncident(replaced);
    assert Responses(EscapeEnv, es, order[..2], start).0
           == Success([] + [Response(false, [], map[])] + [Response(true, [Outside], map[])]);
    assert [] + [Response(false, [], map[])] + [Response(true, [Outside], map[])]
           == [Response(false, [], map[]), Response(true, [Outside], map[])];
  }

  /**
   An `as` equal to the scope's key does break it: here the first entry finds nothing and
   stores an empty scope, so the second one returns an incident that is out of scope.
   */
  lemma ScopeKeyAsAliasEscapes()
    ensures
      var c := And([EscapeFirst, EscapeSecond]);
      var start := map[PathScopeKey := EscapeScope];
      && WellFormed(c) && !KeepsScopeKey(c) && ScopedTemplates(EscapeEnv, EscapeScope, start)
      && Meaning(EscapeEnv, c, start).0.Success?
      && !AllInScope(EscapeEnv, EscapeScope, Meaning(EscapeEnv, c, start).0.value.incidents)
  {
    var es := [EscapeFirst, EscapeSecond];
    var start := map[PathScopeKey := EscapeScope];
    assert WellFormed(And(es));
    assert es[0].alias == PathScopeKey;
    TwoUnchained(es);
    EscapeResponses(es, start);
    var rs := [Response(false, [], map[]), Response(true, [Outside], map[])];
    var order: seq<nat> := [0, 1];
    assert rs[..1] == [rs[0]] && order[..1] == [0];
    assert Collected(es, order, rs) == Collected(es, order[..1], rs[..1]) + [Outside];
    assert Outside in Collected(es, order, rs);
  }

  lemma TwoUnchained(es: seq<Entry>)
    requires |es| == 2 && UniqueAliases(es) && es[0].from == es[1].from == ""
    ensures Sorted(es) == [0, 1]
  {
    StartIsPath(es, 0);
    StartIsPath(es, 1);
    assert GatheredFrom(es, [0], 2) == [] && GatheredFrom(es, [1], 2) == [];
    assert GatheredFrom(es, [0], 1) == [] && GatheredFrom(es, [1], 1) == [];
    assert GatheredFrom(es, [0], 0) == [] && GatheredFrom(es, [1], 0) == [];
    assert SortedFrom(es, 2) == [];
    assert SortedFrom(es, 1) == [1];
  }
}
