/**
 When results can leave the path scope: exactly when, in the order of evaluation, an entry
 that stores its result under the scope's own key comes before one whose incidents count.
 */
module PathScope {
  import opened Wrappers
  import opened Conditions
  import opened ConditionChains
  import opened ConditionEvaluation

  // ----- the condition on the tree -----

  /**
   What is known from the tree alone at a point of its evaluation: whether an entry has
   stored under the scope's key, and under which names there may be paths out of scope.
   */
  datatype Taint = Taint(replaced: bool, names: set<string>)

  /** After entry `e`; `out` tells whether its incidents may be out of scope. */
  function Mark(e: Entry, out: bool, s: Taint): Taint {
    if e.alias == "" then s
    else Taint(s.replaced || e.alias == PathScopeKey, if out then s.names + {e.alias} else s.names - {e.alias})
  }

  /**
   Whether an entry with this condition may have incidents out of scope, and what is known
   afterwards. `None` means that evaluation always fails: some list is empty.
   */
  ghost function Spread(c: Conditional, s: Taint): (Option<bool>, Taint)
    requires WellFormed(c)
    decreases c, 2
  {
    match c
    case Provider(_) => (Some(s.replaced), s)
    case Single(e) => Spread(e.cond, s)
    case And(es) => if es == [] then (None, s) else SortedInRange(es); ListSpread(es, Sorted(es), s)
    case Or(es) => if es == [] then (None, s) else SortedInRange(es); ListSpread(es, Sorted(es), s)
  }

  /** The same for the collected incidents of a list, entry by entry in the order of evaluation. */
  ghost function ListSpread(es: seq<Entry>, order: seq<nat>, s: Taint): (Option<bool>, Taint)
    requires InRange(order, |es|) && forall e <- es :: WellFormed(e.cond)
    decreases es, 1, |order|
  {
    if order == [] then (Some(false), s)
    else
      var k := |order| - 1;
      match ListSpread(es, order[..k], s)
      case (None, t) => (None, t)
      case (Some(before), t) =>
        var e := es[order[k]];
        match Spread(e.cond, t)
        case (None, u) => (None, u)
        case (Some(out), u) => (Some(before || (out && !e.ignorable)), Mark(e, out, u))
  }

  /** No incident that is returned and no path that is left under a name may be out of scope. */
  ghost predicate KeepsScope(c: Conditional)
    requires WellFormed(c)
  {
    match Spread(c, Taint(false, {}))
    case (None, _) => true
    case (Some(out), t) => !out && t.names == {}
  }

  // ----- it is enough -----

  /** The path scope itself, or paths in scope. */
  ghost predicate CleanTemplate(env: Env, scope: ChainTemplate, templates: Templates, name: string)
    requires name in templates
  {
    || (name == PathScopeKey && templates[name] == scope)
    || PathsInScope(env, scope, templates[name].filepaths)
  }

  ghost predicate Follows(env: Env, scope: ChainTemplate, templates: Templates, s: Taint) {
    && (!s.replaced ==> PathScopeKey in templates && templates[PathScopeKey] == scope)
    && forall name <- templates :: name !in s.names ==> CleanTemplate(env, scope, templates, name)
  }

  /** What a caller relies on when the evaluation succeeds. */
  ghost predicate StaysInScope(env: Env, scope: ChainTemplate, c: Conditional, templates: Templates)
    requires WellFormed(c)
  {
    var (result, after) := Meaning(env, c, templates);
    result.Success? ==>
      && AllInScope(env, scope, result.value.incidents)
      && forall name <- after :: CleanTemplate(env, scope, after, name)
  }

  lemma PathsOfScoped(env: Env, scope: ChainTemplate, incidents: seq<Incident>)
    requires AllInScope(env, scope, incidents)
    ensures PathsInScope(env, scope, Paths(env, incidents))
  {
    var paths := Paths(env, incidents);
    forall path <- paths
      ensures exists i :: env.path(i) == path && InScope(env, scope, i)
    {
      var k :| 0 <= k < |paths| && paths[k] == path;
      assert env.path(incidents[k]) == path && incidents[k] in incidents;
    }
  }

  lemma StoreFollows(env: Env, scope: ChainTemplate, e: Entry, r: Response, templates: Templates, out: bool, s: Taint)
    requires Follows(env, scope, templates, s) && (!out ==> AllInScope(env, scope, r.incidents))
    ensures Follows(env, scope, Stored(env, e, r, templates), Mark(e, out, s))
  {
    if !out {
      PathsOfScoped(env, scope, r.incidents);
    }
    var after, t := Stored(env, e, r, templates), Mark(e, out, s);
    forall name | name in after && name !in t.names
      ensures CleanTemplate(env, scope, after, name)
    {
      if name != e.alias || e.alias == "" {
        assert CleanTemplate(env, scope, templates, name);
      }
    }
  }

  /** An entry's filter keeps what is in scope, and removes the rest while the scope is in place. */
  lemma FilterFollows(env: Env, scope: ChainTemplate, e: Entry, r: Response, templates: Templates, out: bool, s: Taint)
    requires Follows(env, scope, templates, s)
    requires !out ==> !s.replaced || AllInScope(env, scope, r.incidents)
    ensures !out ==> AllInScope(env, scope, EntryResponse(env, e, r, templates).incidents)
  {
  }

  lemma {:induction false} CollectedCounts(env: Env, scope: ChainTemplate, es: seq<Entry>, order: seq<nat>,
      rs: seq<Response>)
    requires InRange(order, |es|) && |rs| == |order|
    requires forall k :: 0 <= k < |rs| && !es[order[k]].ignorable ==> AllInScope(env, scope, rs[k].incidents)
    ensures AllInScope(env, scope, Collected(es, order, rs))
    decreases |rs|
  {
    if rs != [] {
      var k := |rs| - 1;
      CollectedCounts(env, scope, es, order[..k], rs[..k]);
    }
  }

  /** Whatever the providers do, the taint covers what is out of scope. */
  lemma {:induction false} SpreadCovers(env: Env, scope: ChainTemplate, c: Conditional, templates: Templates, s: Taint)
    requires WellFormed(c) && Follows(env, scope, templates, s)
    ensures
      var (result, after) := Meaning(env, c, templates);
      var (out, t) := Spread(c, s);
      result.Success? ==>
        && out.Some?
        && Follows(env, scope, after, t)
        && (!out.value ==> (c.Provider? && !t.replaced) || AllInScope(env, scope, result.value.incidents))
    decreases c, 2
  {
    match c
    case Provider(_) =>
    case Single(e) =>
      SpreadCovers(env, scope, e.cond, templates, s);
      var (result, after) := Meaning(env, e.cond, templates);
      if result.Success? {
        var (out, t) := Spread(e.cond, s);
        FilterFollows(env, scope, e, result.value, after, out.value, t);
      }
    case And(es) => if es != [] { CollectedCovers(env, scope, es, templates, s); }
    case Or(es) => if es != [] { CollectedCovers(env, scope, es, templates, s); }
  }

  lemma {:induction false} CollectedCovers(env: Env, scope: ChainTemplate, es: seq<Entry>, templates: Templates,
      s: Taint)
    requires UniqueAliases(es) && (forall e <- es :: WellFormed(e.cond)) && Follows(env, scope, templates, s)
    ensures InRange(Sorted(es), |es|)
    ensures
      var (result, after) := Responses(env, es, Sorted(es), templates);
      var (out, t) := ListSpread(es, Sorted(es), s);
      result.Success? ==>
        && out.Some?
        && Follows(env, scope, after, t)
        && (!out.value ==> AllInScope(env, scope, Collected(es, Sorted(es), result.value)))
    decreases es, 2
  {
    SortedInRange(es);
    ListSpreadCovers(env, scope, es, Sorted(es), templates, s);
    var (result, _) := Responses(env, es, Sorted(es), templates);
    if result.Success? && !ListSpread(es, Sorted(es), s).0.value {
      CollectedCounts(env, scope, es, Sorted(es), result.value);
    }
  }

  lemma {:induction false} ListSpreadCovers(
      env: Env, scope: ChainTemplate, es: seq<Entry>, order: seq<nat>, templates: Templates, s: Taint)
    requires InRange(order, |es|) && (forall e <- es :: WellFormed(e.cond)) && Follows(env, scope, templates, s)
    ensures
      var (result, after) := Responses(env, es, order, templates);
      var (out, t) := ListSpread(es, order, s);
      result.Success? ==>
        && out.Some?
        && Follows(env, scope, after, t)
        && (!out.value ==> forall k :: 0 <= k < |order| && !es[order[k]].ignorable ==>
              AllInScope(env, scope, result.value[k].incidents))
    decreases es, 1, |order|
  {
    if order != [] {
      var k := |order| - 1;
      ListSpreadCovers(env, scope, es, order[..k], templates, s);
      var (result, before) := Responses(env, es, order[..k], templates);
      var e := es[order[k]];
      if result.Success? && !(e.from != "" && e.from !in before) {
        var (_, t) := ListSpread(es, order[..k], s);
        SpreadCovers(env, scope, e.cond, before, t);
        var (inner, after) := Meaning(env, e.cond, before);
        if inner.Success? {
          var (out, u) := Spread(e.cond, t);
          FilterFollows(env, scope, e, inner.value, after, out.value, u);
          StoreFollows(env, scope, e, EntryResponse(env, e, inner.value, after), after, out.value, u);
        }
      }
    }
  }

  lemma KeepingIsEnough(env: Env, scope: ChainTemplate, c: Conditional, templates: Templates)
    requires WellFormed(c) && !c.Provider? && KeepsScope(c) && ScopedTemplates(env, scope, templates)
    ensures StaysInScope(env, scope, c, templates)
  {
    SpreadCovers(env, scope, c, templates, Taint(false, {}));
  }

  // ----- it is needed -----

  predicate ScopeReplaced(templates: Templates) {
    PathScopeKey in templates && templates[PathScopeKey] != EscapeScope
  }

  /**
   Providers that find nothing while the scope is in place, and an incident outside of it
   once it has been replaced; scopes compare paths.
   */
  const Adversary := Env(
    (id, templates) => Success(Response(true, if ScopeReplaced(templates) then [Outside] else [], map[])),
    (i: Incident) => i.uri,
    (paths: seq<string>, i: Incident) => i.uri !in paths,
    (paths: seq<string>, i: Incident) => i.uri in paths)

  predicate OnlyOutside(incidents: seq<Incident>) {
    forall i <- incidents :: i == Outside
  }

  /** The taint says truly what the adversary has achieved. */
  ghost predicate Achieved(templates: Templates, s: Taint) {
    && PathScopeKey in templates
    && (!s.replaced ==> templates[PathScopeKey] == EscapeScope)
    && (s.replaced ==>
          && templates[PathScopeKey].excludedPaths == []
          && forall path <- templates[PathScopeKey].filepaths :: path == "out")
    && forall name <- s.names :: name in templates && "out" in templates[name].filepaths
  }

  lemma OutsidePaths(incidents: seq<Incident>)
    requires OnlyOutside(incidents)
    ensures forall path <- Paths(Adversary, incidents) :: path == "out"
    ensures incidents != [] ==> "out" in Paths(Adversary, incidents)
  {
    var paths := Paths(Adversary, incidents);
    forall k | 0 <= k < |paths|
      ensures paths[k] == "out"
    {
      assert incidents[k] in incidents && Adversary.path(incidents[k]) == incidents[k].uri;
    }
    assert incidents != [] ==> paths[0] in paths;
  }

  lemma StoreAchieves(e: Entry, r: Response, templates: Templates, out: bool, s: Taint)
    requires Achieved(templates, s) && OnlyOutside(r.incidents) && (out ==> r.incidents != [])
    ensures Achieved(Stored(Adversary, e, r, templates), Mark(e, out, s))
  {
    OutsidePaths(r.incidents);
  }

  /** Once the scope has been replaced, the filter lets the outside incident through. */
  lemma FilterLetsThrough(e: Entry, r: Response, templates: Templates, out: bool, s: Taint)
    requires Achieved(templates, s) && OnlyOutside(r.incidents) && (out ==> r.incidents != [] && s.replaced)
    ensures
      var incidents := EntryResponse(Adversary, e, r, templates).incidents;
      OnlyOutside(incidents) && (out ==> incidents != [])
  {
    if out {
      var scope := templates[PathScopeKey];
      assert r.incidents[0] in r.incidents && r.incidents[0] == Outside;
      assert scope.filepaths != [] ==> scope.filepaths[0] in scope.filepaths && Outside.uri in scope.filepaths;
      assert !(scope.filepaths != [] && Adversary.notIncluded(scope.filepaths, Outside));
      assert InScope(Adversary, scope, Outside);
    }
  }

  /** What has been replaced stays so. */
  lemma {:induction false} SpreadKeepsReplaced(c: Conditional, s: Taint)
    requires WellFormed(c)
    ensures s.replaced ==> Spread(c, s).1.replaced
    decreases c, 2
  {
    match c
    case Provider(_) =>
    case Single(e) => SpreadKeepsReplaced(e.cond, s);
    case And(es) => if es != [] { SortedInRange(es); ListSpreadKeepsReplaced(es, Sorted(es), s); }
    case Or(es) => if es != [] { SortedInRange(es); ListSpreadKeepsReplaced(es, Sorted(es), s); }
  }

  lemma {:induction false} ListSpreadKeepsReplaced(es: seq<Entry>, order: seq<nat>, s: Taint)
    requires InRange(order, |es|) && forall e <- es :: WellFormed(e.cond)
    ensures s.replaced ==> ListSpread(es, order, s).1.replaced
    decreases es, 1, |order|
  {
    if order != [] {
      var k := |order| - 1;
      ListSpreadKeepsReplaced(es, order[..k], s);
      var (before, t) := ListSpread(es, order[..k], s);
      if before.Some? {
        SpreadKeepsReplaced(es[order[k]].cond, t);
      }
    }
  }

  /** What the taint of a condition allows, the adversary's evaluation of it does. */
  ghost predicate IsAchieved(c: Conditional, templates: Templates, s: Taint)
    requires WellFormed(c)
  {
    var (result, after) := Meaning(Adversary, c, templates);
    var (out, t) := Spread(c, s);
    out.Some? ==>
      && result.Success?
      && Achieved(after, t)
      && OnlyOutside(result.value.incidents)
      && (out.value ==> result.value.incidents != [] && t.replaced)
  }

  lemma {:induction false} SpreadIsAchieved(c: Conditional, templates: Templates, s: Taint)
    requires WellFormed(c) && Achieved(templates, s)
    ensures IsAchieved(c, templates, s)
    decreases c, 2
  {
    match c
    case Provider(_) => if s.replaced { EscapeScopeIsNotOutside(templates); }
    case Single(e) =>
      SpreadIsAchieved(e.cond, templates, s);
      var (result, after) := Meaning(Adversary, e.cond, templates);
      var (out, t) := Spread(e.cond, s);
      if out.Some? {
        FilterLetsThrough(e, result.value, after, out.value, t);
      }
    case And(es) =>
      if es != [] {
        SortedInOrder(es);
        ListSpreadIsAchieved(es, Sorted(es), |Sorted(es)|, templates, s);
        assert Sorted(es)[..|Sorted(es)|] == Sorted(es);
      }
    case Or(es) =>
      if es != [] {
        SortedInOrder(es);
        ListSpreadIsAchieved(es, Sorted(es), |Sorted(es)|, templates, s);
        assert Sorted(es)[..|Sorted(es)|] == Sorted(es);
      }
  }

  lemma EscapeScopeIsNotOutside(templates: Templates)
    requires PathScopeKey in templates && forall path <- templates[PathScopeKey].filepaths :: path == "out"
    ensures templates[PathScopeKey] != EscapeScope
  {
    assert EscapeScope.filepaths[0] in EscapeScope.filepaths;
  }

  /** One entry of a list: its response, and what it stores. */
  lemma EntryIsAchieved(e: Entry, before: Templates, t: Taint)
    requires WellFormed(e.cond) && Achieved(before, t) && IsAchieved(e.cond, before, t)
    ensures
      var (response, after) := EntryMeaning(Adversary, e, before);
      var (out, u) := Spread(e.cond, t);
      out.Some? ==>
        && response.Success?
        && Achieved(Stored(Adversary, e, response.value, after), Mark(e, out.value, u))
        && OnlyOutside(response.value.incidents)
        && (out.value ==> response.value.incidents != [] && u.replaced)
        && (t.replaced ==> u.replaced)
  {
    var (inner, after) := Meaning(Adversary, e.cond, before);
    var (out, u) := Spread(e.cond, t);
    SpreadKeepsReplaced(e.cond, t);
    if out.Some? {
      FilterLetsThrough(e, inner.value, after, out.value, u);
      StoreAchieves(e, EntryResponse(Adversary, e, inner.value, after), after, out.value, u);
    }
  }

  /** The same for a list. */
  ghost predicate ListIsAchieved(es: seq<Entry>, order: seq<nat>, templates: Templates, s: Taint)
    requires InRange(order, |es|) && forall e <- es :: WellFormed(e.cond)
  {
    var (result, after) := Responses(Adversary, es, order, templates);
    var (out, t) := ListSpread(es, order, s);
    out.Some? ==>
      && result.Success?
      && Achieved(after, t)
      && OnlyOutside(Collected(es, order, result.value))
      && (out.value ==> Collected(es, order, result.value) != [] && t.replaced)
  }

  lemma ListStepIsAchieved(es: seq<Entry>, prefix: seq<nat>, i: nat, templates: Templates, s: Taint)
    requires InRange(prefix, |es|) && i < |es| && forall e <- es :: WellFormed(e.cond)
    requires ListIsAchieved(es, prefix, templates, s)
    requires
      var (_, before) := Responses(Adversary, es, prefix, templates);
      var (out, t) := ListSpread(es, prefix, s);
      out.Some? ==> IsAchieved(es[i].cond, before, t)
    requires Responses(Adversary, es, prefix + [i], templates).0 != Failure(MissingContext(es[i].from))
    ensures ListIsAchieved(es, prefix + [i], templates, s)
  {
    assert (prefix + [i])[..|prefix|] == prefix;
    var (result, before) := Responses(Adversary, es, prefix, templates);
    var (collected, t) := ListSpread(es, prefix, s);
    if collected.Some? {
      EntryIsAchieved(es[i], before, t);
      RespondOne(Adversary, es, prefix, i, templates);
      var (response, _) := EntryMeaning(Adversary, es[i], before);
      if response.Success? {
        CollectedOne(es, prefix, i, result.value, response.value);
      }
    }
  }

  lemma {:induction false} ListSpreadIsAchieved(
      es: seq<Entry>, order: seq<nat>, n: nat, templates: Templates, s: Taint)
    requires InRange(order, |es|) && ProducersFirst(es, order) && n <= |order|
    requires (forall e <- es :: WellFormed(e.cond)) && Achieved(templates, s)
    ensures ListIsAchieved(es, order[..n], templates, s)
    decreases es, 1, n
  {
    if n > 0 {
      ListSpreadIsAchieved(es, order, n - 1, templates, s);
      var (_, before) := Responses(Adversary, es, order[..n - 1], templates);
      var (out, t) := ListSpread(es, order[..n - 1], s);
      if out.Some? {
        SpreadIsAchieved(es[order[n - 1]].cond, before, t);
      }
      NextPrefix(order, n - 1);
      ListContextIsNeverMissing(Adversary, es, order, n, templates, es[order[n - 1]].from);
      ListStepIsAchieved(es, order[..n - 1], order[n - 1], templates, s);
    }
  }

  const EscapeStart: Templates := map[PathScopeKey := EscapeScope]

  lemma KeepingIsNeeded(c: Conditional)
    requires WellFormed(c) && !KeepsScope(c)
    ensures ScopedTemplates(Adversary, EscapeScope, EscapeStart)
    ensures !StaysInScope(Adversary, EscapeScope, c, EscapeStart)
  {
    var s := Taint(false, {});
    SpreadIsAchieved(c, EscapeStart, s);
    var (result, after) := Meaning(Adversary, c, EscapeStart);
    var (out, t) := Spread(c, s);
    assert forall i :: Adversary.path(i) == "out" ==> !InScope(Adversary, EscapeScope, i);
    if out.value {
      assert result.value.incidents[0] in result.value.incidents;
      assert Adversary.path(Outside) == "out";
    } else {
      var name :| name in t.names;
      assert "out" in after[name].filepaths && "out" !in EscapeScope.filepaths;
      assert !CleanTemplate(Adversary, EscapeScope, after, name);
    }
  }

  /**
   Whatever the providers, the scope and the files are, results and stored paths stay in the
   path scope: for exactly those trees that keep it.
   */
  lemma ScopeIsKeptIff(c: Conditional)
    requires WellFormed(c) && !c.Provider?
    ensures KeepsScope(c)
            <==> forall env, scope, templates :: ScopedTemplates(env, scope, templates) ==>
                StaysInScope(env, scope, c, templates)
  {
    if KeepsScope(c) {
      forall env, scope, templates | ScopedTemplates(env, scope, templates)
        ensures StaysInScope(env, scope, c, templates)
      {
        KeepingIsEnough(env, scope, c, templates);
      }
    } else {
      KeepingIsNeeded(c);
    }
  }

  // ----- what the condition says -----

  /** A tree in which no entry stores under the scope's key keeps the scope. */
  lemma {:induction false} UntouchedKeyIsKept(c: Conditional)
    requires WellFormed(c) && KeepsScopeKey(c)
    ensures
      var (out, t) := Spread(c, Taint(false, {}));
      t == Taint(false, {}) && out != Some(true)
    decreases c, 2
  {
    match c
    case Provider(_) =>
    case Single(e) => UntouchedKeyIsKept(e.cond);
    case And(es) => if es != [] { SortedInRange(es); UntouchedListIsKept(es, Sorted(es)); }
    case Or(es) => if es != [] { SortedInRange(es); UntouchedListIsKept(es, Sorted(es)); }
  }

  lemma {:induction false} UntouchedListIsKept(es: seq<Entry>, order: seq<nat>)
    requires InRange(order, |es|) && forall e <- es :: WellFormed(e.cond)
    requires forall e <- es :: e.alias != PathScopeKey && KeepsScopeKey(e.cond)
    ensures
      var (out, t) := ListSpread(es, order, Taint(false, {}));
      t == Taint(false, {}) && out != Some(true)
    decreases es, 1, |order|
  {
    if order != [] {
      UntouchedListIsKept(es, order[..|order| - 1]);
      var e := es[order[|order| - 1]];
      assert e in es;
      UntouchedKeyIsKept(e.cond);
      assert Taint(false, {}).names - {e.alias} == {};
    }
  }

  predicate StoresUnderKey(e: Entry) {
    e.alias == PathScopeKey
  }

  /** The entry's incidents count: they are collected or stored. */
  predicate Counts(e: Entry) {
    !e.ignorable || e.alias != ""
  }

  ghost predicate ReplacedBefore(es: seq<Entry>, order: seq<nat>, n: nat)
    requires InRange(order, |es|) && n <= |order|
  {
    exists k :: 0 <= k < n && StoresUnderKey(es[order[k]])
  }

  /** In a list of provider conditions: what is known after `n` entries. */
  lemma {:induction false} FlatSpread(es: seq<Entry>, order: seq<nat>, n: nat)
    requires InRange(order, |es|) && NoDuplicates(order) && UniqueAliases(es) && n <= |order|
    requires forall e <- es :: e.cond.Provider?
    ensures
      var (out, t) := ListSpread(es, order[..n], Taint(false, {}));
      && out.Some?
      && (t.replaced <==> ReplacedBefore(es, order, n))
      && (forall name <- t.names :: name != "" && exists k :: 0 <= k < n && es[order[k]].alias == name)
      && (out.value || t.names != {}
          <==> exists l :: 0 <= l < n && Counts(es[order[l]]) && ReplacedBefore(es, order, l))
  {
    if n > 0 {
      FlatSpread(es, order, n - 1);
      assert order[..n][..n - 1] == order[..n - 1];
      var (before, t) := ListSpread(es, order[..n - 1], Taint(false, {}));
      var e := es[order[n - 1]];
      assert e in es;
      assert e.alias !in t.names;
      assert t.names - {e.alias} == t.names;
      assert ReplacedBefore(es, order, n) <==> ReplacedBefore(es, order, n - 1) || StoresUnderKey(e);
      FlatStep(es, order, n);
    }
  }

  lemma FlatStep(es: seq<Entry>, order: seq<nat>, n: nat)
    requires InRange(order, |es|) && 0 < n <= |order|
    ensures (exists l :: 0 <= l < n && Counts(es[order[l]]) && ReplacedBefore(es, order, l))
            <==> (exists l :: 0 <= l < n - 1 && Counts(es[order[l]]) && ReplacedBefore(es, order, l))
                 || (Counts(es[order[n - 1]]) && ReplacedBefore(es, order, n - 1))
  {
  }

  /**
   A list of provider conditions keeps the scope if and only if no entry that stores under
   the scope's key comes before an entry whose incidents are collected or stored.
   */
  lemma FlatListKeepsScopeIff(es: seq<Entry>)
    requires es != [] && UniqueAliases(es) && forall e <- es :: e.cond.Provider?
    ensures InRange(Sorted(es), |es|)
    ensures WellFormed(And(es)) && WellFormed(Or(es))
    ensures KeepsScope(And(es)) <==> KeepsScope(Or(es))
    ensures
      var order := Sorted(es);
      KeepsScope(And(es)) <==>
        forall k, l | 0 <= k < l < |order| && StoresUnderKey(es[order[k]]) :: !Counts(es[order[l]])
  {
    SortedInRange(es);
    SortedOnce(es);
    var order := Sorted(es);
    FlatSpread(es, order, |order|);
    assert order[..|order|] == order;
    if forall k, l | 0 <= k < l < |order| && StoresUnderKey(es[order[k]]) :: !Counts(es[order[l]]) {
      assert !exists l :: 0 <= l < |order| && Counts(es[order[l]]) && ReplacedBefore(es, order, l);
    } else {
      var k, l :| 0 <= k < l < |order| && StoresUnderKey(es[order[k]]) && Counts(es[order[l]]);
      assert ReplacedBefore(es, order, l);
    }
  }
}
