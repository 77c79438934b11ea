/**
 What it means that a list of conditions is evaluated: what was seen at each of its
 entries, and how And and Or follow from that.
 */
module ConditionTraces {
  import opened Wrappers
  import opened Conditions
  import opened ConditionChains
  import opened ConditionEvaluation

  /**
   What is seen at one entry: the templates before it, what its condition answers, the
   templates after that, the incidents that are in scope, whether the entry matches, and
   the templates it leaves.
   */
  datatype Seen = Seen(
    before: Templates, answer: Response, between: Templates, incidents: seq<Incident>, matched: bool, after: Templates)

  /** An entry matches when its condition does, with an incident in scope; `not` flips that. */
  ghost predicate IsSeen(env: Env, e: Entry, s: Seen)
    requires WellFormed(e.cond)
  {
    && Meaning(env, e.cond, s.before) == (Success(s.answer), s.between)
    && s.incidents == (if PathScopeKey in s.between then Filtered(env, s.between[PathScopeKey], s.answer.incidents)
                       else s.answer.incidents)
    && (s.matched <==> if e.negated then !(s.answer.matched && s.incidents != [])
                       else s.answer.matched && s.incidents != [])
    && s.after == (if e.alias == "" then s.between
                   else s.between[e.alias := ChainTemplate(Paths(env, s.incidents), s.answer.context, [])])
  }

  /** The templates when the list has been gone through. */
  function LeftBy(templates: Templates, trace: seq<Seen>): Templates {
    if trace == [] then templates else trace[|trace| - 1].after
  }

  /** Under the entry's `as` name the paths of its incidents are stored, one each and in order, and its context. */
  lemma StoredAre(env: Env, e: Entry, s: Seen)
    requires WellFormed(e.cond) && IsSeen(env, e, s) && e.alias != ""
    ensures s.after.Keys == s.between.Keys + {e.alias}
    ensures forall name <- s.between :: name != e.alias ==> s.after[name] == s.between[name]
    ensures
      var stored := s.after[e.alias];
      && stored.extras == s.answer.context && stored.excludedPaths == []
      && |stored.filepaths| == |s.incidents|
      && forall k :: 0 <= k < |s.incidents| ==> stored.filepaths[k] == env.path(s.incidents[k])
  {
  }

  /** What is seen at the entries of the list, one after the other, in this order. */
  ghost predicate IsTrace(env: Env, es: seq<Entry>, order: seq<nat>, templates: Templates, trace: seq<Seen>)
    requires forall e <- es :: WellFormed(e.cond)
    decreases |order|
  {
    && |trace| == |order|
    && (order != [] ==>
          var n := |order| - 1;
          && IsTrace(env, es, order[..n], templates, trace[..n])
          && order[n] < |es|
          && trace[n].before == LeftBy(templates, trace[..n])
          && IsSeen(env, es[order[n]], trace[n]))
  }

  ghost function OutOf(s: Seen): Response {
    Response(s.matched, s.incidents, s.answer.context)
  }

  ghost function OutOfAll(trace: seq<Seen>): seq<Response> {
    seq(|trace|, k requires 0 <= k < |trace| => OutOf(trace[k]))
  }

  lemma EntryIsSeen(env: Env, e: Entry, templates: Templates) returns (s: Seen)
    requires WellFormed(e.cond) && EntryMeaning(env, e, templates).0.Success?
    ensures IsSeen(env, e, s) && s.before == templates
    ensures
      var (result, between) := EntryMeaning(env, e, templates);
      OutOf(s) == result.value && s.after == Stored(env, e, result.value, between)
  {
    var (answer, between) := Meaning(env, e.cond, templates);
    var r := EntryResponse(env, e, answer.value, between);
    s := Seen(templates, answer.value, between, r.incidents, r.matched, Stored(env, e, r, between));
  }

  /** An incident is kept unless it is outside the included paths or inside the excluded ones, where any are given. */
  lemma KeptIff(env: Env, scope: ChainTemplate, incidents: seq<Incident>, i: Incident)
    ensures i in Filtered(env, scope, incidents) <==>
      && i in incidents
      && (scope.filepaths == [] || !env.notIncluded(scope.filepaths, i))
      && (scope.excludedPaths == [] || !env.excluded(scope.excludedPaths, i))
  {
  }

  lemma SeenIsEntryMeaning(env: Env, e: Entry, s: Seen)
    requires WellFormed(e.cond) && IsSeen(env, e, s)
    ensures EntryMeaning(env, e, s.before) == (Success(OutOf(s)), s.between)
    ensures s.after == Stored(env, e, OutOf(s), s.between)
  {
  }

  lemma OutOfOneMore(trace: seq<Seen>, s: Seen)
    ensures OutOfAll(trace + [s]) == OutOfAll(trace) + [OutOf(s)]
  {
  }

  lemma TraceOneMore(env: Env, es: seq<Entry>, order: seq<nat>, templates: Templates, trace: seq<Seen>, s: Seen, i: nat)
    requires (forall e <- es :: WellFormed(e.cond)) && IsTrace(env, es, order, templates, trace)
    requires i < |es| && IsSeen(env, es[i], s) && s.before == LeftBy(templates, trace)
    ensures IsTrace(env, es, order + [i], templates, trace + [s])
  {
    assert (order + [i])[..|order|] == order && (trace + [s])[..|trace|] == trace;
  }

  lemma RespondedIsSeen(env: Env, es: seq<Entry>, prefix: seq<nat>, i: nat, templates: Templates) returns (s: Seen)
    requires InRange(prefix, |es|) && (forall e <- es :: WellFormed(e.cond)) && i < |es|
    requires Responses(env, es, prefix, templates).0.Success?
    requires InRange(prefix + [i], |es|) && Responses(env, es, prefix + [i], templates).0.Success?
    ensures IsSeen(env, es[i], s) && s.before == Responses(env, es, prefix, templates).1
    ensures Responses(env, es, prefix + [i], templates) ==
            (Success(Responses(env, es, prefix, templates).0.value + [OutOf(s)]), s.after)
  {
    RespondOne(env, es, prefix, i, templates);
    s := EntryIsSeen(env, es[i], Responses(env, es, prefix, templates).1);
  }

  lemma {:induction false} ResponsesAreTraced(env: Env, es: seq<Entry>, order: seq<nat>, templates: Templates)
      returns (trace: seq<Seen>)
    requires InRange(order, |es|) && (forall e <- es :: WellFormed(e.cond))
    requires Responses(env, es, order, templates).0.Success?
    ensures IsTrace(env, es, order, templates, trace)
    ensures Responses(env, es, order, templates) == (Success(OutOfAll(trace)), LeftBy(templates, trace))
    decreases |order|
  {
    trace := [];
    if order == [] {
      assert OutOfAll(trace) == [];
    } else {
      var prefix, i := order[..|order| - 1], order[|order| - 1];
      assert order == prefix + [i];
      trace := ResponsesAreTraced(env, es, prefix, templates);
      var s := RespondedIsSeen(env, es, prefix, i, templates);
      TraceOneMore(env, es, prefix, templates, trace, s, i);
      OutOfOneMore(trace, s);
      trace := trace + [s];
    }
  }

  /** An incident of the list is one of an entry that is not ignored. */
  lemma {:induction false} CollectedAre(es: seq<Entry>, order: seq<nat>, rs: seq<Response>, i: Incident)
    requires InRange(order, |es|) && |rs| == |order|
    ensures i in Collected(es, order, rs) <==>
            exists k :: 0 <= k < |rs| && !es[order[k]].ignorable && i in rs[k].incidents
    decreases |rs|
  {
    if rs != [] {
      var n := |rs| - 1;
      CollectedAre(es, order[..n], rs[..n], i);
      assert forall k :: 0 <= k < n ==> rs[..n][k] == rs[k] && order[..n][k] == order[k];
      if !es[order[n]].ignorable && i in rs[n].incidents {
        assert i in Collected(es, order, rs);
      }
    }
  }

  /** The incidents of a list are those in scope of its entries, but for the ignored ones. */
  ghost predicate CollectsFrom(es: seq<Entry>, order: seq<nat>, trace: seq<Seen>, incidents: seq<Incident>)
    requires InRange(order, |es|) && |trace| == |order|
  {
    forall i :: i in incidents <==>
      exists k :: 0 <= k < |trace| && !es[order[k]].ignorable && i in trace[k].incidents
  }

  lemma TraceCollects(es: seq<Entry>, order: seq<nat>, trace: seq<Seen>)
    requires InRange(order, |es|) && |trace| == |order|
    ensures CollectsFrom(es, order, trace, Collected(es, order, OutOfAll(trace)))
  {
    var rs := OutOfAll(trace);
    forall i
      ensures i in Collected(es, order, rs) <==>
              exists k :: 0 <= k < |trace| && !es[order[k]].ignorable && i in trace[k].incidents
    {
      CollectedAre(es, order, rs, i);
      assert forall k :: 0 <= k < |trace| ==> rs[k].incidents == trace[k].incidents;
    }
  }

  lemma OutOfAllAre(trace: seq<Seen>)
    ensures (forall r <- OutOfAll(trace) :: r.matched) <==> forall k :: 0 <= k < |trace| ==> trace[k].matched
    ensures (exists r <- OutOfAll(trace) :: r.matched) <==> exists k :: 0 <= k < |trace| && trace[k].matched
  {
    var rs := OutOfAll(trace);
    assert forall k :: 0 <= k < |trace| ==> rs[k].matched == trace[k].matched && rs[k] in rs;
  }

  /** And matches if and only if every entry does, as seen in the order of evaluation. */
  lemma AndMatchesIffAllDo(env: Env, es: seq<Entry>, templates: Templates) returns (trace: seq<Seen>)
    requires WellFormed(And(es)) && Meaning(env, And(es), templates).0.Success?
    ensures es != [] && InRange(Sorted(es), |es|)
    ensures IsTrace(env, es, Sorted(es), templates, trace)
    ensures
      var (result, after) := Meaning(env, And(es), templates);
      && (result.value.matched <==> forall k :: 0 <= k < |trace| ==> trace[k].matched)
      && CollectsFrom(es, Sorted(es), trace, result.value.incidents)
      && after == LeftBy(templates, trace)
  {
    SortedInRange(es);
    trace := ResponsesAreTraced(env, es, Sorted(es), templates);
    TraceCollects(es, Sorted(es), trace);
    OutOfAllAre(trace);
  }

  /** Or matches if and only if some entry does; all of them are evaluated all the same. */
  lemma OrMatchesIffSomeDoes(env: Env, es: seq<Entry>, templates: Templates) returns (trace: seq<Seen>)
    requires WellFormed(Or(es)) && Meaning(env, Or(es), templates).0.Success?
    ensures es != [] && InRange(Sorted(es), |es|)
    ensures IsTrace(env, es, Sorted(es), templates, trace)
    ensures
      var (result, after) := Meaning(env, Or(es), templates);
      && (result.value.matched <==> exists k :: 0 <= k < |trace| && trace[k].matched)
      && CollectsFrom(es, Sorted(es), trace, result.value.incidents)
      && after == LeftBy(templates, trace)
  {
    SortedInRange(es);
    trace := ResponsesAreTraced(env, es, Sorted(es), templates);
    TraceCollects(es, Sorted(es), trace);
    OutOfAllAre(trace);
  }

  // ----- when evaluation succeeds -----

  lemma SeenResponds(env: Env, es: seq<Entry>, prefix: seq<nat>, i: nat, templates: Templates, s: Seen)
    requires InRange(prefix, |es|) && (forall e <- es :: WellFormed(e.cond)) && i < |es|
    requires Responses(env, es, prefix, templates).0.Success?
    requires IsSeen(env, es[i], s) && s.before == Responses(env, es, prefix, templates).1
    ensures InRange(prefix + [i], |es|)
    ensures
      var r := Responses(env, es, prefix + [i], templates);
      if r.0.Success? then r == (Success(Responses(env, es, prefix, templates).0.value + [OutOf(s)]), s.after)
      else r.0.error.MissingContext?
  {
    RespondOne(env, es, prefix, i, templates);
    SeenIsEntryMeaning(env, es[i], s);
  }

  lemma FailedPrefix(env: Env, es: seq<Entry>, prefix: seq<nat>, i: nat, templates: Templates)
    requires InRange(prefix, |es|) && (forall e <- es :: WellFormed(e.cond)) && i < |es|
    requires Responses(env, es, prefix, templates).0.Failure?
    ensures InRange(prefix + [i], |es|)
    ensures Responses(env, es, prefix + [i], templates) == Responses(env, es, prefix, templates)
  {
    assert (prefix + [i])[..|prefix|] == prefix;
  }

  /** The responses are those of the trace, or a context value is missing. */
  ghost predicate RespondsAs(env: Env, es: seq<Entry>, order: seq<nat>, templates: Templates, trace: seq<Seen>)
    requires InRange(order, |es|) && forall e <- es :: WellFormed(e.cond)
  {
    var r := Responses(env, es, order, templates);
    if r.0.Success? then r == (Success(OutOfAll(trace)), LeftBy(templates, trace)) else r.0.error.MissingContext?
  }

  lemma RespondsOneMore(env: Env, es: seq<Entry>, prefix: seq<nat>, i: nat, templates: Templates, earlier: seq<Seen>,
      s: Seen)
    requires InRange(prefix, |es|) && (forall e <- es :: WellFormed(e.cond)) && i < |es|
    requires RespondsAs(env, es, prefix, templates, earlier)
    requires IsSeen(env, es[i], s) && s.before == LeftBy(templates, earlier)
    ensures InRange(prefix + [i], |es|) && RespondsAs(env, es, prefix + [i], templates, earlier + [s])
  {
    if Responses(env, es, prefix, templates).0.Success? {
      SeenResponds(env, es, prefix, i, templates, s);
      OutOfOneMore(earlier, s);
    } else {
      FailedPrefix(env, es, prefix, i, templates);
    }
  }

  lemma TraceParts(env: Env, es: seq<Entry>, prefix: seq<nat>, i: nat, templates: Templates, earlier: seq<Seen>,
      s: Seen)
    requires (forall e <- es :: WellFormed(e.cond)) && |prefix| == |earlier|
    requires IsTrace(env, es, prefix + [i], templates, earlier + [s])
    ensures IsTrace(env, es, prefix, templates, earlier)
    ensures i < |es| && s.before == LeftBy(templates, earlier) && IsSeen(env, es[i], s)
  {
    assert (prefix + [i])[..|prefix|] == prefix && (earlier + [s])[..|earlier|] == earlier;
  }

  lemma NothingResponds(env: Env, es: seq<Entry>, templates: Templates)
    requires forall e <- es :: WellFormed(e.cond)
    ensures RespondsAs(env, es, [], templates, [])
  {
    assert OutOfAll([]) == [];
  }

  lemma TracedOneMore(env: Env, es: seq<Entry>, order: seq<nat>, templates: Templates, trace: seq<Seen>, n: nat)
    requires InRange(order, |es|) && (forall e <- es :: WellFormed(e.cond)) && |order| == n + 1
    requires IsTrace(env, es, order, templates, trace)
    ensures InRange(order[..n], |es|) && IsTrace(env, es, order[..n], templates, trace[..n])
    ensures RespondsAs(env, es, order[..n], templates, trace[..n]) ==> RespondsAs(env, es, order, templates, trace)
  {
    var prefix, earlier, i, s := order[..n], trace[..n], order[n], trace[n];
    assert order == prefix + [i] && trace == earlier + [s];
    TraceParts(env, es, prefix, i, templates, earlier, s);
    if RespondsAs(env, es, prefix, templates, earlier) {
      RespondsOneMore(env, es, prefix, i, templates, earlier, s);
    }
  }

  /** What can be traced does not fail, except for a context value that is missing. */
  lemma {:induction false} TracedSucceeds(env: Env, es: seq<Entry>, order: seq<nat>, templates: Templates,
      trace: seq<Seen>)
    requires InRange(order, |es|)
    requires (forall e <- es :: WellFormed(e.cond)) && IsTrace(env, es, order, templates, trace)
    ensures RespondsAs(env, es, order, templates, trace)
    decreases |order|
  {
    if order == [] {
      NothingResponds(env, es, templates);
    } else {
      var n := |order| - 1;
      TracedOneMore(env, es, order, templates, trace, n);
      TracedSucceeds(env, es, order[..n], templates, trace[..n]);
    }
  }

  lemma SortedSucceedsIffTraced(env: Env, es: seq<Entry>, templates: Templates)
    requires WellFormed(And(es)) && es != [] && InRange(Sorted(es), |es|)
    ensures Responses(env, es, Sorted(es), templates).0.Success? <==>
            exists trace :: IsTrace(env, es, Sorted(es), templates, trace)
  {
    var r := Responses(env, es, Sorted(es), templates);
    if r.0.Success? {
      var trace := ResponsesAreTraced(env, es, Sorted(es), templates);
      assert IsTrace(env, es, Sorted(es), templates, trace);
    } else {
      forall trace | IsTrace(env, es, Sorted(es), templates, trace)
        ensures false
      {
        TracedSucceeds(env, es, Sorted(es), templates, trace);
        ContextIsNeverMissing(env, And(es), templates, r.0.error.name);
      }
    }
  }

  /** A list is evaluated without an error if and only if it is not empty and each of its entries is. */
  lemma SucceedsIffTraced(env: Env, es: seq<Entry>, templates: Templates)
    requires WellFormed(And(es))
    ensures Meaning(env, And(es), templates).0.Success? <==>
            es != [] && exists trace :: IsTrace(env, es, Sorted(es), templates, trace)
    ensures Meaning(env, Or(es), templates).0.Success? <==>
            es != [] && exists trace :: IsTrace(env, es, Sorted(es), templates, trace)
  {
    SortedInRange(es);
    if es != [] {
      SortedSucceedsIffTraced(env, es, templates);
    }
  }

  /** Some incident is in the path scope, or there is no path scope and some incident at all. */
  ghost predicate SomeInScope(env: Env, templates: Templates, incidents: seq<Incident>) {
    exists i <- incidents ::
      "konveyor.io/path-scope" in templates ==>
        var scope := templates["konveyor.io/path-scope"];
        && (scope.filepaths == [] || !env.notIncluded(scope.filepaths, i))
        && (scope.excludedPaths == [] || !env.excluded(scope.excludedPaths, i))
  }

  /** An entry with a provider's condition matches if the provider does, with an incident in scope; `not` flips that. */
  lemma ProviderEntryMatchesIff(env: Env, e: Entry, s: Seen)
    requires e.cond.Provider? && IsSeen(env, e, s)
    ensures env.provider(e.cond.id, s.before) == Success(s.answer) && s.between == s.before
    ensures
      s.matched <==> (s.answer.matched && SomeInScope(env, s.before, s.answer.incidents)) != e.negated
  {
    if s.incidents != [] {
      assert s.incidents[0] in s.incidents;
    }
  }

  /** What the provider answers at these templates makes the entry match. */
  ghost predicate ProviderMatches(env: Env, e: Entry, templates: Templates)
    requires e.cond.Provider?
  {
    var answer := env.provider(e.cond.id, templates);
    && answer.Success?
    && (answer.value.matched && SomeInScope(env, templates, answer.value.incidents)) != e.negated
  }

  lemma {:induction false} TraceOfProviders(env: Env, es: seq<Entry>, order: seq<nat>, templates: Templates,
      trace: seq<Seen>)
    requires (forall e <- es :: e.cond.Provider?) && InRange(order, |es|) && IsTrace(env, es, order, templates, trace)
    ensures forall k :: 0 <= k < |trace| ==> (trace[k].matched <==> ProviderMatches(env, es[order[k]], trace[k].before))
    decreases |order|
  {
    if order != [] {
      var n := |order| - 1;
      ProviderEntryMatchesIff(env, es[order[n]], trace[n]);
      TraceOfProviders(env, es, order[..n], templates, trace[..n]);
      assert forall k :: 0 <= k < n ==> trace[..n][k] == trace[k] && order[..n][k] == order[k];
    }
  }

  /** An And of provider conditions, without the recursion: which of them answer and match decides. */
  lemma FlatAndMatchesIff(env: Env, es: seq<Entry>, templates: Templates) returns (trace: seq<Seen>)
    requires UniqueAliases(es) && (forall e <- es :: e.cond.Provider?)
    requires Meaning(env, And(es), templates).0.Success?
    ensures InRange(Sorted(es), |es|) && IsTrace(env, es, Sorted(es), templates, trace)
    ensures Meaning(env, And(es), templates).0.value.matched <==>
            forall k :: 0 <= k < |trace| ==> ProviderMatches(env, es[Sorted(es)[k]], trace[k].before)
  {
    trace := AndMatchesIffAllDo(env, es, templates);
    TraceOfProviders(env, es, Sorted(es), templates, trace);
  }

  /** And an Or of provider conditions. */
  lemma FlatOrMatchesIff(env: Env, es: seq<Entry>, templates: Templates) returns (trace: seq<Seen>)
    requires UniqueAliases(es) && (forall e <- es :: e.cond.Provider?)
    requires Meaning(env, Or(es), templates).0.Success?
    ensures InRange(Sorted(es), |es|) && IsTrace(env, es, Sorted(es), templates, trace)
    ensures Meaning(env, Or(es), templates).0.value.matched <==>
            exists k :: 0 <= k < |trace| && ProviderMatches(env, es[Sorted(es)[k]], trace[k].before)
  {
    trace := OrMatchesIffSomeDoes(env, es, templates);
    TraceOfProviders(env, es, Sorted(es), templates, trace);
  }

  /** A rule with one entry answers as that entry. */
  lemma SingleAnswersAsItsEntry(env: Env, e: Entry, templates: Templates) returns (s: Seen)
    requires WellFormed(Single(e)) && Meaning(env, Single(e), templates).0.Success?
    ensures IsSeen(env, e, s) && s.before == templates
    ensures
      var (result, after) := Meaning(env, Single(e), templates);
      && result.value.matched == s.matched && result.value.incidents == s.incidents
      && after == s.between
  {
    s := EntryIsSeen(env, e, templates);
  }

  /** In the context of a list's result every name has the value of the last entry that gave it one. */
  lemma {:induction false} LastContextWins(trace: seq<Seen>, k: nat, name: string)
    requires k < |trace| && name in trace[k].answer.context
    requires forall j :: k < j < |trace| ==> name !in trace[j].answer.context
    ensures name in Merged(OutOfAll(trace)) && Merged(OutOfAll(trace))[name] == trace[k].answer.context[name]
    decreases |trace|
  {
    var n := |trace| - 1;
    assert OutOfAll(trace)[..n] == OutOfAll(trace[..n]);
    if k < n {
      assert name !in trace[n].answer.context;
      LastContextWins(trace[..n], k, name);
    }
  }
}
