/**
 One uncancelled run of the rule engine: the rules are fanned out to workers through a
 buffered channel and their responses fanned in by one collector. Every channel operation
 and every update of the shared records is one step; the steps interleave freely.
 */
module WorkerPool {
  import opened Sums
  import opened Wrappers

  // ----- a rule's result -----

  datatype Rule = Rule(ruleSet: string, id: string, effort: Option<int>)

  datatype Violation = Violation(content: nat, incidents: nat)

  /** What evaluating a rule and creating its violation would give. */
  datatype Evaluation = Evaluation(
    err: Option<string>, matched: bool, incidents: nat, violation: Result<Violation, string>)

  datatype Response = Response(err: Option<string>, violation: Option<Violation>)

  datatype Verdict = Failed | Matched | Unmatched

  datatype RuleSet = RuleSet(
    errors: map<string, string>,
    violations: map<string, Violation>,
    insights: map<string, Violation>,
    unmatched: seq<string>)

  /** What a worker sends back. */
  function ResponseOf(e: Evaluation): Response {
    if e.matched && e.incidents > 0 then
      match e.violation
      case Failure(err) => Response(Some(err), None)
      case Success(v) => Response(e.err, if v.incidents == 0 then None else Some(v))
    else Response(e.err, None)
  }

  function VerdictOf(r: Response): Verdict {
    if r.err.Some? then Failed else if r.violation.Some? then Matched else Unmatched
  }

  predicate IsInsight(rule: Rule) {
    rule.effort == None || rule.effort == Some(0)
  }

  /** The rule set's records after the collector has seen a response. */
  function RecordIn(rs: RuleSet, rule: Rule, r: Response): RuleSet {
    if r.err.Some? then
      rs.(errors := rs.errors[rule.id := r.err.value])
    else if r.violation.Some? then
      if IsInsight(rule) then rs.(insights := rs.insights[rule.id := r.violation.value])
      else rs.(violations := rs.violations[rule.id := r.violation.value])
    else
      rs.(unmatched := rs.unmatched + [rule.id])
  }

  // ----- the machine -----

  const BufferSize := 10

  datatype Worker = Idle | Busy(rule: nat) | Returning(rule: nat)

  datatype Collector = Waiting | Collecting(rule: nat) | Recorded(rule: nat)

  /** `ranRules` tagging rules ran before; `records` is what they left in the rule sets. */
  datatype Run = Run(rules: seq<Rule>, evaluations: seq<Evaluation>, ranRules: nat, records: map<string, RuleSet>)

  /** `adding` is set between `wg.Add(1)` and the send; `collected` lists the recorded rules in order. */
  datatype State = State(
    next: nat, adding: bool, buffer: seq<nat>, workers: seq<Worker>, collector: Collector, wg: int,
    failed: nat, matched: nat, unmatched: nat, ruleSets: map<string, RuleSet>, progress: seq<int>,
    complete: bool, collected: seq<nat>)

  datatype Event = Add | Send | Take(w: nat) | Evaluate(w: nat) | Return(w: nat) | Record | Done | Complete

  predicate ValidRun(c: Run) {
    && |c.evaluations| == |c.rules|
    && forall rule <- c.rules :: rule.ruleSet in c.records
  }

  function TotalRules(c: Run): nat {
    |c.rules| + c.ranRules
  }

  function Start(c: Run, workers: nat): State {
    State(0, false, [], seq(workers, _ => Idle), Waiting, 0, 0, 0, 0, c.records, [], false, [])
  }

  predicate Enabled(c: Run, s: State, e: Event) {
    match e
    case Add => !s.adding && s.next < |c.rules|
    case Send => s.adding && |s.buffer| < BufferSize
    case Take(w) => w < |s.workers| && s.workers[w].Idle? && s.buffer != []
    case Evaluate(w) => w < |s.workers| && s.workers[w].Busy?
    case Return(w) => w < |s.workers| && s.workers[w].Returning? && s.collector.Waiting?
    case Record => s.collector.Collecting? && s.collector.rule < |c.rules|
    case Done => s.collector.Recorded?
    case Complete => !s.adding && s.next == |c.rules| && s.wg == 0 && !s.complete
  }

  /** The collector's counters, records and progress report for one response. */
  function Collect(c: Run, s: State, i: nat): State
    requires i < |c.rules| == |c.evaluations|
  {
    var rule, r := c.rules[i], ResponseOf(c.evaluations[i]);
    var t := match VerdictOf(r)
      case Failed => s.(failed := s.failed + 1)
      case Matched => s.(matched := s.matched + 1)
      case Unmatched => s.(unmatched := s.unmatched + 1);
    if rule.ruleSet !in s.ruleSets && VerdictOf(r) == Matched then t
    else
      t.(ruleSets := if rule.ruleSet in s.ruleSets
                     then s.ruleSets[rule.ruleSet := RecordIn(s.ruleSets[rule.ruleSet], rule, r)] else s.ruleSets,
         progress := s.progress + [t.matched + t.unmatched + t.failed + c.ranRules])
  }

  function Next(c: Run, s: State, e: Event): State
    requires ValidRun(c) && Enabled(c, s, e)
  {
    match e
    case Add => s.(adding := true, wg := s.wg + 1)
    case Send => s.(adding := false, buffer := s.buffer + [s.next], next := s.next + 1)
    case Take(w) => s.(buffer := s.buffer[1..], workers := s.workers[w := Busy(s.buffer[0])])
    case Evaluate(w) => s.(workers := s.workers[w := Returning(s.workers[w].rule)])
    case Return(w) => s.(workers := s.workers[w := Idle], collector := Collecting(s.workers[w].rule))
    case Record =>
      var i := s.collector.rule;
      Collect(c, s, i).(collector := Recorded(i), collected := s.collected + [i])
    case Done => s.(collector := Waiting, wg := s.wg - 1)
    case Complete => s.(complete := true, progress := s.progress + [TotalRules(c)])
  }

  ghost predicate IsRun(c: Run, workers: nat, run: seq<Event>) {
    run == [] || (IsRun(c, workers, run[..|run| - 1])
                  && Enabled(c, After(c, workers, run[..|run| - 1]), run[|run| - 1]))
  }

  ghost function After(c: Run, workers: nat, run: seq<Event>): State {
    if run == [] || !ValidRun(c) then Start(c, workers)
    else
      var s := After(c, workers, run[..|run| - 1]);
      if Enabled(c, s, run[|run| - 1]) then Next(c, s, run[|run| - 1]) else s
  }

  // ----- where the rules are -----

  predicate Holds(w: Worker, i: nat) {
    !w.Idle? && w.rule == i
  }

  function HoldsOne(i: nat): Worker -> nat {
    w => One(Holds(w, i))
  }

  function IsHolding(w: Worker): nat {
    One(!w.Idle?)
  }

  /** How many workers hold rule `i`. */
  function HoldersOf(workers: seq<Worker>, i: nat): nat {
    Total(workers, HoldsOne(i))
  }

  /** How many workers hold a rule. */
  function Holders(workers: seq<Worker>): nat {
    Total(workers, IsHolding)
  }

  /** In how many places rule `i` is. */
  function Places(s: State, i: nat): nat {
    Count(s.buffer, i) + HoldersOf(s.workers, i) + One(s.collector == Collecting(i)) + Count(s.collected, i)
  }

  /** The WaitGroup counts the rules being sent, buffered, held by workers or being collected. */
  ghost predicate Counted(s: State) {
    s.wg == One(s.adding) + |s.buffer| + Holders(s.workers) + One(!s.collector.Waiting?)
  }

  /** Every rule sent so far is in exactly one place, and no other rule is anywhere. */
  ghost predicate Conserved(s: State) {
    forall i: nat :: Places(s, i) == One(i < s.next)
  }

  ghost predicate InOrder(c: Run, s: State) {
    s.next + One(s.adding) <= |c.rules|
  }

  lemma CountedKeeps(c: Run, s: State, e: Event)
    requires ValidRun(c) && Enabled(c, s, e) && Counted(s)
    ensures Counted(Next(c, s, e))
  {
    match e {
      case Take(w) => TotalUpdate(s.workers, w, Busy(s.buffer[0]), IsHolding);
      case Evaluate(w) => TotalUpdate(s.workers, w, Returning(s.workers[w].rule), IsHolding);
      case Return(w) => TotalUpdate(s.workers, w, Idle, IsHolding);
      case _ =>
    }
  }

  lemma WorkerPlaces(c: Run, s: State, e: Event, i: nat)
    requires ValidRun(c) && Enabled(c, s, e) && (e.Take? || e.Evaluate?)
    ensures Places(Next(c, s, e), i) == Places(s, i)
  {
    TotalUpdate(s.workers, e.w, Next(c, s, e).workers[e.w], HoldsOne(i));
  }

  lemma ReturnPlaces(c: Run, s: State, e: Event, i: nat)
    requires ValidRun(c) && Enabled(c, s, e) && e.Return?
    ensures Places(Next(c, s, e), i) == Places(s, i)
  {
    TotalUpdate(s.workers, e.w, Idle, HoldsOne(i));
  }

  lemma RecordPlaces(c: Run, s: State, i: nat)
    requires ValidRun(c) && Enabled(c, s, Record)
    ensures Places(Next(c, s, Record), i) == Places(s, i)
  {
    CountAppend(s.collected, s.collector.rule, i);
  }

  /** A rule comes to a place when it is sent, and from then on it only moves. */
  lemma PlacesKeep(c: Run, s: State, e: Event, i: nat)
    requires ValidRun(c) && Enabled(c, s, e)
    ensures Places(Next(c, s, e), i) == Places(s, i) + One(e.Send? && i == s.next)
  {
    match e {
      case Send => CountAppend(s.buffer, s.next, i);
      case Take(_) => WorkerPlaces(c, s, e, i);
      case Evaluate(_) => WorkerPlaces(c, s, e, i);
      case Return(_) => ReturnPlaces(c, s, e, i);
      case Record => RecordPlaces(c, s, i);
      case _ =>
    }
  }

  lemma ConservedKeeps(c: Run, s: State, e: Event)
    requires ValidRun(c) && Enabled(c, s, e) && Conserved(s)
    ensures Conserved(Next(c, s, e))
  {
    forall i: nat
      ensures Places(Next(c, s, e), i) == One(i < Next(c, s, e).next)
    {
      PlacesKeep(c, s, e, i);
    }
  }

  // ----- what the collector has recorded -----

  function ResponseFor(c: Run, i: nat): Response
    requires i < |c.evaluations|
  {
    ResponseOf(c.evaluations[i])
  }

  predicate HasVerdict(c: Run, i: nat, v: Verdict) {
    i < |c.evaluations| && VerdictOf(ResponseFor(c, i)) == v
  }

  function Tally(c: Run, order: seq<nat>, v: Verdict): nat {
    if order == [] then 0 else One(HasVerdict(c, order[0], v)) + Tally(c, order[1..], v)
  }

  lemma {:induction false} TallyAppend(c: Run, order: seq<nat>, i: nat, v: Verdict)
    ensures Tally(c, order + [i], v) == Tally(c, order, v) + One(HasVerdict(c, i, v))
  {
    if order != [] {
      TallyAppend(c, order[1..], i, v);
      assert (order + [i])[1..] == order[1..] + [i];
    } else {
      assert order + [i] == [i] && [i][1..] == [];
    }
  }

  predicate InRange(order: seq<nat>, n: nat) {
    forall k :: 0 <= k < |order| ==> order[k] < n
  }

  /** The rule sets when the rules of `order` have been recorded in this order. */
  function RecordsAfter(c: Run, order: seq<nat>): (ruleSets: map<string, RuleSet>)
    requires ValidRun(c) && InRange(order, |c.rules|)
    ensures ruleSets.Keys == c.records.Keys
  {
    if order == [] then c.records
    else
      var before, i := RecordsAfter(c, order[..|order| - 1]), order[|order| - 1];
      var name := c.rules[i].ruleSet;
      before[name := RecordIn(before[name], c.rules[i], ResponseFor(c, i))]
  }

  ghost predicate Tallied(c: Run, s: State) {
    && s.failed == Tally(c, s.collected, Failed)
    && s.matched == Tally(c, s.collected, Matched)
    && s.unmatched == Tally(c, s.collected, Unmatched)
    && s.failed + s.matched + s.unmatched == |s.collected|
  }

  ghost predicate RecordsOk(c: Run, s: State) {
    && ValidRun(c)
    && InRange(s.collected, |c.rules|)
    && s.ruleSets == RecordsAfter(c, s.collected)
  }

  /** Progress rises by one for each rule; the report that ends the run gives the total. */
  ghost predicate ProgressOk(c: Run, s: State) {
    && |s.progress| == |s.collected| + One(s.complete)
    && (forall k :: 0 <= k < |s.collected| ==> s.progress[k] == c.ranRules + k + 1)
    && (s.complete ==> s.progress[|s.collected|] == TotalRules(c) && !s.adding && s.next == |c.rules| && s.wg == 0)
  }

  ghost predicate Inv(c: Run, s: State) {
    && InOrder(c, s)
    && Counted(s)
    && Conserved(s)
    && Tallied(c, s)
    && RecordsOk(c, s)
    && ProgressOk(c, s)
  }

  lemma TalliedKeeps(c: Run, s: State, e: Event)
    requires ValidRun(c) && Enabled(c, s, e) && Tallied(c, s)
    ensures Tallied(c, Next(c, s, e))
  {
    if e.Record? {
      TallyAppend(c, s.collected, s.collector.rule, Failed);
      TallyAppend(c, s.collected, s.collector.rule, Matched);
      TallyAppend(c, s.collected, s.collector.rule, Unmatched);
    }
  }

  lemma RecordsKeep(c: Run, s: State, e: Event)
    requires ValidRun(c) && Enabled(c, s, e) && RecordsOk(c, s)
    ensures RecordsOk(c, Next(c, s, e))
  {
    if e.Record? {
      var t := Next(c, s, e);
      var i := s.collector.rule;
      assert t.collected[..|s.collected|] == s.collected;
      assert c.rules[i] in c.rules && c.rules[i].ruleSet in s.ruleSets;
    }
  }

  lemma ProgressKeeps(c: Run, s: State, e: Event)
    requires ValidRun(c) && Enabled(c, s, e) && ProgressOk(c, s) && Tallied(c, s) && RecordsOk(c, s) && Counted(s)
    ensures ProgressOk(c, Next(c, s, e))
  {
    if e.Record? {
      assert c.rules[s.collector.rule] in c.rules;
      assert !s.complete;
    }
    if e.Evaluate? {
      TotalUpdate(s.workers, e.w, Returning(s.workers[e.w].rule), IsHolding);
    }
  }

  lemma StartIsOk(c: Run, workers: nat)
    requires ValidRun(c)
    ensures Inv(c, Start(c, workers))
  {
    var s := Start(c, workers);
    TotalZero(s.workers, IsHolding);
    forall i: nat
      ensures Places(s, i) == One(i < s.next)
    {
      TotalZero(s.workers, HoldsOne(i));
    }
  }

  lemma NextKeeps(c: Run, s: State, e: Event)
    requires ValidRun(c) && Enabled(c, s, e) && Inv(c, s)
    ensures Inv(c, Next(c, s, e))
  {
    CountedKeeps(c, s, e);
    ConservedKeeps(c, s, e);
    TalliedKeeps(c, s, e);
    RecordsKeep(c, s, e);
    ProgressKeeps(c, s, e);
    assert InOrder(c, Next(c, s, e));
  }

  // ----- whole runs -----

  /**
   In every interleaving the WaitGroup counts exactly the rules being sent, buffered, held
   by workers or being collected, and every rule sent so far is in exactly one place.
   */
  lemma {:induction false} RunKeepsInvariant(c: Run, workers: nat, run: seq<Event>)
    requires ValidRun(c) && IsRun(c, workers, run)
    ensures Inv(c, After(c, workers, run)) && |After(c, workers, run).workers| == workers
    decreases |run|
  {
    if run == [] {
      StartIsOk(c, workers);
    } else {
      RunKeepsInvariant(c, workers, run[..|run| - 1]);
      NextKeeps(c, After(c, workers, run[..|run| - 1]), run[|run| - 1]);
    }
  }

  /** `wg.Done` never makes the WaitGroup negative. */
  lemma WaitGroupStaysPositive(c: Run, workers: nat, run: seq<Event>)
    requires ValidRun(c) && IsRun(c, workers, run) && Enabled(c, After(c, workers, run), Done)
    ensures After(c, workers, run).wg > 0
  {
    RunKeepsInvariant(c, workers, run);
  }

  lemma HeldRulesAreRules(c: Run, s: State)
    requires Inv(c, s) && s.collector.Collecting?
    ensures s.collector.rule < |c.rules|
  {
    assert Places(s, s.collector.rule) == One(s.collector.rule < s.next);
  }

  lemma WorkerMoves(c: Run, s: State, w: nat) returns (e: Event)
    requires Inv(c, s) && w < |s.workers| && (s.workers[w].Idle? ==> s.buffer != [])
    ensures Enabled(c, s, e)
  {
    if s.workers[w].Idle? {
      e := Take(w);
    } else if s.workers[w].Busy? {
      e := Evaluate(w);
    } else if s.collector.Waiting? {
      e := Return(w);
    } else if s.collector.Collecting? {
      HeldRulesAreRules(c, s);
      e := Record;
    } else {
      e := Done;
    }
  }

  /** With at least one worker some step is possible until the run is complete. */
  lemma SomethingMoves(c: Run, workers: nat, run: seq<Event>) returns (e: Event)
    requires ValidRun(c) && IsRun(c, workers, run) && workers > 0 && !After(c, workers, run).complete
    ensures Enabled(c, After(c, workers, run), e)
  {
    RunKeepsInvariant(c, workers, run);
    var s := After(c, workers, run);
    if s.adding {
      if |s.buffer| < BufferSize {
        e := Send;
      } else {
        e := WorkerMoves(c, s, 0);
      }
    } else if s.next < |c.rules| {
      e := Add;
    } else if s.collector.Collecting? {
      HeldRulesAreRules(c, s);
      e := Record;
    } else if s.collector.Recorded? {
      e := Done;
    } else if s.buffer != [] {
      e := WorkerMoves(c, s, 0);
    } else if Holders(s.workers) > 0 {
      var w := TotalPositive(s.workers, IsHolding);
      e := WorkerMoves(c, s, w);
    } else {
      e := Complete;
    }
  }

  function WorkOf(w: Worker): nat {
    match w case Idle => 0 case Busy(_) => 4 case Returning(_) => 3
  }

  /** The steps that the rules still have to take. */
  function Work(c: Run, s: State): int {
    7 * (|c.rules| - s.next) - One(s.adding) + 5 * |s.buffer| + Total(s.workers, WorkOf)
    + (match s.collector case Waiting => 0 case Collecting(_) => 2 case Recorded(_) => 1)
    + One(!s.complete)
  }

  lemma StepShrinksWork(c: Run, s: State, e: Event)
    requires ValidRun(c) && Inv(c, s) && Enabled(c, s, e)
    ensures 0 <= Work(c, Next(c, s, e)) == Work(c, s) - 1
  {
    match e {
      case Take(w) => TotalUpdate(s.workers, w, Busy(s.buffer[0]), WorkOf);
      case Evaluate(w) => TotalUpdate(s.workers, w, Returning(s.workers[w].rule), WorkOf);
      case Return(w) => TotalUpdate(s.workers, w, Idle, WorkOf);
      case _ =>
    }
  }

  /** Every run takes exactly seven steps for each rule and one more: it ends, whatever the order. */
  lemma {:induction false} RunsAreFinite(c: Run, workers: nat, run: seq<Event>)
    requires ValidRun(c) && IsRun(c, workers, run)
    ensures |run| + Work(c, After(c, workers, run)) == 7 * |c.rules| + 1
    ensures Work(c, After(c, workers, run)) >= 0
    decreases |run|
  {
    if run == [] {
      TotalZero(Start(c, workers).workers, WorkOf);
    } else {
      var init := run[..|run| - 1];
      RunsAreFinite(c, workers, init);
      RunKeepsInvariant(c, workers, init);
      StepShrinksWork(c, After(c, workers, init), run[|run| - 1]);
    }
  }

  /** A run that has taken its seven steps for each rule and one more is complete. */
  lemma LongRunIsComplete(c: Run, workers: nat, run: seq<Event>)
    requires ValidRun(c) && IsRun(c, workers, run) && workers > 0
    ensures After(c, workers, run).complete <==> |run| == 7 * |c.rules| + 1
  {
    RunsAreFinite(c, workers, run);
    RunKeepsInvariant(c, workers, run);
    var s := After(c, workers, run);
    if s.complete {
      assert Holders(s.workers) == 0;
      NoHolders(s.workers, 0);
    } else {
      var e := SomethingMoves(c, workers, run);
      StepShrinksWork(c, s, e);
    }
  }

  /** Workers that hold nothing are idle. */
  lemma NoHolders(workers: seq<Worker>, i: nat)
    requires Holders(workers) == 0
    ensures HoldersOf(workers, i) == 0 && Total(workers, WorkOf) == 0
  {
    forall w | 0 <= w < |workers|
      ensures workers[w].Idle?
    {
      TotalAtLeast(workers, w, IsHolding);
    }
    TotalZero(workers, HoldsOne(i));
    TotalZero(workers, WorkOf);
  }

  /** When the run is complete every rule has been collected exactly once. */
  lemma CompleteCollectsEachRuleOnce(c: Run, workers: nat, run: seq<Event>, i: nat)
    requires ValidRun(c) && IsRun(c, workers, run) && After(c, workers, run).complete
    ensures Count(After(c, workers, run).collected, i) == One(i < |c.rules|)
  {
    RunKeepsInvariant(c, workers, run);
    var s := After(c, workers, run);
    assert s.buffer == [] && Holders(s.workers) == 0;
    NoHolders(s.workers, i);
    assert Places(s, i) == One(i < s.next);
  }

  lemma {:induction false} NothingMovesWithoutWorkers(c: Run, run: seq<Event>)
    requires ValidRun(c) && IsRun(c, 0, run)
    ensures After(c, 0, run).collected == [] && After(c, 0, run).collector.Waiting?
    decreases |run|
  {
    if run != [] {
      NothingMovesWithoutWorkers(c, run[..|run| - 1]);
      RunKeepsInvariant(c, 0, run[..|run| - 1]);
    }
  }

  /** The one worker is needed: with none, a run that has rules is never complete. */
  lemma WithoutWorkersNothingCompletes(c: Run, run: seq<Event>)
    requires ValidRun(c) && IsRun(c, 0, run) && c.rules != []
    ensures !After(c, 0, run).complete
  {
    NothingMovesWithoutWorkers(c, run);
    if After(c, 0, run).complete {
      CompleteCollectsEachRuleOnce(c, 0, run, 0);
    }
  }

  // ----- counters -----

  /** How many of the first `n` rules have this verdict. */
  function RulesWith(c: Run, v: Verdict, n: nat): nat {
    if n == 0 then 0 else RulesWith(c, v, n - 1) + One(HasVerdict(c, n - 1, v))
  }

  /** The tally, rule by rule. */
  function TallyByRule(c: Run, order: seq<nat>, v: Verdict, n: nat): nat {
    if n == 0 then 0
    else TallyByRule(c, order, v, n - 1) + if HasVerdict(c, n - 1, v) then Count<nat>(order, n - 1) else 0
  }

  lemma {:induction false} TallyByRuleStep(c: Run, order: seq<nat>, v: Verdict, n: nat)
    requires order != []
    ensures TallyByRule(c, order, v, n) ==
      TallyByRule(c, order[1..], v, n) + One(order[0] < n && HasVerdict(c, order[0], v))
  {
    if n > 0 {
      TallyByRuleStep(c, order, v, n - 1);
    }
  }

  lemma {:induction false} EmptyTally(c: Run, v: Verdict, n: nat)
    ensures TallyByRule(c, [], v, n) == 0
  {
    if n > 0 {
      EmptyTally(c, v, n - 1);
    }
  }

  lemma {:induction false} TallyIsByRule(c: Run, order: seq<nat>, v: Verdict, n: nat)
    requires InRange(order, n)
    ensures Tally(c, order, v) == TallyByRule(c, order, v, n)
    decreases order
  {
    if order == [] {
      EmptyTally(c, v, n);
    } else {
      TallyIsByRule(c, order[1..], v, n);
      TallyByRuleStep(c, order, v, n);
    }
  }

  lemma {:induction false} OnceEach(c: Run, order: seq<nat>, v: Verdict, n: nat)
    requires forall i: nat :: i < n ==> Count(order, i) == 1
    ensures TallyByRule(c, order, v, n) == RulesWith(c, v, n)
  {
    if n > 0 {
      OnceEach(c, order, v, n - 1);
    }
  }

  /** When the run is complete, the counters are the numbers of rules that failed, matched and did not match. */
  lemma CompleteCounts(c: Run, workers: nat, run: seq<Event>)
    requires ValidRun(c) && IsRun(c, workers, run) && After(c, workers, run).complete
    ensures
      var s, n := After(c, workers, run), |c.rules|;
      && s.failed == RulesWith(c, Failed, n)
      && s.matched == RulesWith(c, Matched, n)
      && s.unmatched == RulesWith(c, Unmatched, n)
      && s.failed + s.matched + s.unmatched == n
  {
    RunKeepsInvariant(c, workers, run);
    var order := After(c, workers, run).collected;
    forall i: nat | i < |c.rules|
      ensures Count(order, i) == 1
    {
      CompleteCollectsEachRuleOnce(c, workers, run, i);
    }
    CompleteTally(c, order, Failed);
    CompleteTally(c, order, Matched);
    CompleteTally(c, order, Unmatched);
    EveryRuleHasAVerdict(c, |c.rules|);
  }

  /** The reported progress rises by one for each rule up to the total, which is reported again at the end. */
  lemma CompleteProgress(c: Run, workers: nat, run: seq<Event>)
    requires ValidRun(c) && IsRun(c, workers, run) && After(c, workers, run).complete
    ensures |After(c, workers, run).progress| == |c.rules| + 1
    ensures forall k :: 0 <= k < |c.rules| ==> After(c, workers, run).progress[k] == c.ranRules + k + 1
    ensures After(c, workers, run).progress[|c.rules|] == TotalRules(c)
  {
    RunKeepsInvariant(c, workers, run);
    CompleteCounts(c, workers, run);
    assert Tallied(c, After(c, workers, run));
  }

  lemma CompleteTally(c: Run, order: seq<nat>, v: Verdict)
    requires InRange(order, |c.rules|) && forall i: nat :: i < |c.rules| ==> Count(order, i) == 1
    ensures Tally(c, order, v) == RulesWith(c, v, |c.rules|)
  {
    TallyIsByRule(c, order, v, |c.rules|);
    OnceEach(c, order, v, |c.rules|);
  }

  lemma {:induction false} EveryRuleHasAVerdict(c: Run, n: nat)
    requires n <= |c.evaluations|
    ensures RulesWith(c, Failed, n) + RulesWith(c, Matched, n) + RulesWith(c, Unmatched, n) == n
  {
    if n > 0 {
      EveryRuleHasAVerdict(c, n - 1);
    }
  }

  // ----- records -----

  /** What a rule set says about one rule id. */
  datatype Entry = Entry(
    error: Option<string>, violation: Option<Violation>, insight: Option<Violation>, unmatched: nat)

  function Lookup<V>(m: map<string, V>, id: string): Option<V> {
    if id in m then Some(m[id]) else None
  }

  function Occurrences(ids: seq<string>, id: string): nat {
    if ids == [] then 0 else Occurrences(ids[..|ids| - 1], id) + One(ids[|ids| - 1] == id)
  }

  function EntryOf(rs: RuleSet, id: string): Entry {
    Entry(Lookup(rs.errors, id), Lookup(rs.violations, id), Lookup(rs.insights, id), Occurrences(rs.unmatched, id))
  }

  lemma RecordTouchesNoOtherId(rs: RuleSet, rule: Rule, r: Response, id: string)
    requires rule.id != id
    ensures EntryOf(RecordIn(rs, rule, r), id) == EntryOf(rs, id)
  {
    assert (rs.unmatched + [rule.id])[..|rs.unmatched|] == rs.unmatched;
  }

  lemma RecordTouchesItsOwnId(rs: RuleSet, rule: Rule, r: Response)
    ensures EntryOf(RecordIn(rs, rule, r), rule.id) ==
      var e := EntryOf(rs, rule.id);
      match VerdictOf(r)
      case Failed => e.(error := r.err)
      case Matched => if IsInsight(rule) then e.(insight := r.violation) else e.(violation := r.violation)
      case Unmatched => e.(unmatched := e.unmatched + 1)
  {
    assert (rs.unmatched + [rule.id])[..|rs.unmatched|] == rs.unmatched;
  }

  predicate SameKey(a: Rule, b: Rule) {
    a.ruleSet == b.ruleSet && a.id == b.id
  }

  lemma {:induction false} CountLast(order: seq<nat>, i: nat)
    requires order != []
    ensures Count(order, i) == Count(order[..|order| - 1], i) + One(order[|order| - 1] == i)
  {
    CountAppend(order[..|order| - 1], order[|order| - 1], i);
    assert order[..|order| - 1] + [order[|order| - 1]] == order;
  }

  lemma {:induction false} RecordedAlone(c: Run, order: seq<nat>, i: nat)
    requires ValidRun(c) && InRange(order, |c.rules|) && i < |c.rules| && Count(order, i) <= 1
    requires forall j :: 0 <= j < |c.rules| && j != i ==> !SameKey(c.rules[j], c.rules[i])
    ensures c.rules[i].ruleSet in c.records
    ensures
      var rule := c.rules[i];
      var rs := c.records[rule.ruleSet];
      EntryOf(RecordsAfter(c, order)[rule.ruleSet], rule.id)
      == EntryOf(if Count(order, i) == 1 then RecordIn(rs, rule, ResponseFor(c, i)) else rs, rule.id)
    decreases |order|
  {
    assert c.rules[i] in c.rules;
    if order != [] {
      var init, j := order[..|order| - 1], order[|order| - 1];
      CountLast(order, i);
      RecordedAlone(c, init, i);
      var rule := c.rules[i];
      var before := RecordsAfter(c, init)[rule.ruleSet];
      if j == i {
        RecordTouchesItsOwnId(before, rule, ResponseFor(c, i));
        RecordTouchesItsOwnId(c.records[rule.ruleSet], rule, ResponseFor(c, i));
      } else if c.rules[j].ruleSet == rule.ruleSet {
        RecordTouchesNoOtherId(before, c.rules[j], ResponseFor(c, j), rule.id);
      }
    }
  }

  /**
   A rule whose id is unique in its rule set, and about which the tagging rules left nothing,
   ends up in exactly one of the errors, the violations, the insights and the unmatched list:
   the one its own evaluation calls for, with the error or violation it gave.
   */
  lemma RecordedExactlyOnce(c: Run, workers: nat, run: seq<Event>, i: nat)
    requires ValidRun(c) && IsRun(c, workers, run) && After(c, workers, run).complete && i < |c.rules|
    requires forall j :: 0 <= j < |c.rules| && j != i ==> !SameKey(c.rules[j], c.rules[i])
    requires c.rules[i].ruleSet in c.records
    requires EntryOf(c.records[c.rules[i].ruleSet], c.rules[i].id) == Entry(None, None, None, 0)
    ensures c.rules[i].ruleSet in After(c, workers, run).ruleSets
    ensures
      var rule, r := c.rules[i], ResponseFor(c, i);
      EntryOf(After(c, workers, run).ruleSets[rule.ruleSet], rule.id) ==
        match VerdictOf(r)
        case Failed => Entry(r.err, None, None, 0)
        case Matched => if IsInsight(rule) then Entry(None, None, r.violation, 0) else Entry(None, r.violation, None, 0)
        case Unmatched => Entry(None, None, None, 1)
  {
    RunKeepsInvariant(c, workers, run);
    CompleteCollectsEachRuleOnce(c, workers, run, i);
    RecordedAlone(c, After(c, workers, run).collected, i);
    RecordTouchesItsOwnId(c.records[c.rules[i].ruleSet], c.rules[i], ResponseFor(c, i));
  }

  /** The rule's condition matched, with an incident. */
  predicate Hits(e: Evaluation) {
    e.matched && e.incidents > 0
  }

  /** The rule could not be evaluated, or its violation not be built. */
  predicate Fails(e: Evaluation) {
    e.err.Some? || (Hits(e) && e.violation.Failure?)
  }

  /** A violation with incidents came of it. */
  predicate Yields(e: Evaluation) {
    !Fails(e) && Hits(e) && e.violation.value.incidents > 0
  }

  /**
   The same on the rule's own evaluation and effort: errors for a failure, violations for a
   result of a rule with an effort other than zero, insights for one without, and the
   unmatched list for the rest.
   */
  lemma RecordedByEffort(c: Run, workers: nat, run: seq<Event>, i: nat)
    requires ValidRun(c) && IsRun(c, workers, run) && After(c, workers, run).complete && i < |c.rules|
    requires forall j :: 0 <= j < |c.rules| && j != i ==> !SameKey(c.rules[j], c.rules[i])
    requires c.rules[i].ruleSet in c.records
    requires EntryOf(c.records[c.rules[i].ruleSet], c.rules[i].id) == Entry(None, None, None, 0)
    ensures c.rules[i].ruleSet in After(c, workers, run).ruleSets
    ensures
      var rule, e := c.rules[i], c.evaluations[i];
      var rs := After(c, workers, run).ruleSets[rule.ruleSet];
      && (rule.id in rs.errors <==> Fails(e))
      && (Fails(e) ==> rs.errors[rule.id] == if Hits(e) && e.violation.Failure? then e.violation.error else e.err.value)
      && (rule.id in rs.violations <==> Yields(e) && rule.effort.Some? && rule.effort.value != 0)
      && (rule.id in rs.insights <==> Yields(e) && (rule.effort.None? || rule.effort.value == 0))
      && (Yields(e) ==> (if rule.id in rs.insights then rs.insights[rule.id] else rs.violations[rule.id])
                        == e.violation.value)
      && (rule.id in rs.unmatched <==> !Fails(e) && !Yields(e))
  {
    RecordedExactlyOnce(c, workers, run, i);
    var rs := After(c, workers, run).ruleSets[c.rules[i].ruleSet];
    OccursIff(rs.unmatched, c.rules[i].id);
  }

  lemma {:induction false} OccursIff(ids: seq<string>, id: string)
    ensures Occurrences(ids, id) > 0 <==> id in ids
    decreases |ids|
  {
    if ids != [] {
      var n := |ids| - 1;
      OccursIff(ids[..n], id);
      assert ids == ids[..n] + [ids[n]];
    }
  }

  /** Rule `i` has this rule set, id and verdict, and is or is not an insight. */
  predicate Says(c: Run, i: nat, name: string, id: string, v: Verdict, insight: bool) {
    && i < |c.rules|
    && HasVerdict(c, i, v)
    && c.rules[i].ruleSet == name && c.rules[i].id == id
    && (v.Matched? ==> IsInsight(c.rules[i]) == insight)
  }

  /** Whether a rule set has the id where rules with this verdict are recorded. */
  predicate Lists(rs: RuleSet, id: string, v: Verdict, insight: bool) {
    match v
    case Failed => id in rs.errors
    case Matched => if insight then id in rs.insights else id in rs.violations
    case Unmatched => id in rs.unmatched
  }

  lemma RecordLists(rs: RuleSet, rule: Rule, r: Response, id: string, v: Verdict, insight: bool)
    ensures Lists(RecordIn(rs, rule, r), id, v, insight) <==>
              || Lists(rs, id, v, insight)
              || (rule.id == id && VerdictOf(r) == v && (v.Matched? ==> IsInsight(rule) == insight))
  {
  }

  lemma {:induction false} RecordedIffSaid(c: Run, order: seq<nat>, name: string, id: string, v: Verdict, insight: bool)
    requires ValidRun(c) && InRange(order, |c.rules|) && name in c.records
    ensures Lists(RecordsAfter(c, order)[name], id, v, insight) <==>
              Lists(c.records[name], id, v, insight) || exists i <- order :: Says(c, i, name, id, v, insight)
    decreases |order|
  {
    if order != [] {
      var init, i := order[..|order| - 1], order[|order| - 1];
      RecordedIffSaid(c, init, name, id, v, insight);
      assert forall j :: j in order <==> j in init || j == i;
      assert i in order;
      if c.rules[i].ruleSet == name {
        RecordLists(RecordsAfter(c, init)[name], c.rules[i], ResponseFor(c, i), id, v, insight);
      }
    }
  }

  /**
   When the run is complete, a rule set lists an id as failed, as a violation, as an insight
   or as unmatched if and only if it did before or some rule with this id came out so;
   rules that share an id are each recorded.
   */
  lemma RecordedIffSomeRuleSays(
      c: Run, workers: nat, run: seq<Event>, name: string, id: string, v: Verdict, insight: bool)
    requires ValidRun(c) && IsRun(c, workers, run) && After(c, workers, run).complete && name in c.records
    ensures name in After(c, workers, run).ruleSets
    ensures Lists(After(c, workers, run).ruleSets[name], id, v, insight) <==>
              Lists(c.records[name], id, v, insight) || exists i: nat :: Says(c, i, name, id, v, insight)
  {
    RunKeepsInvariant(c, workers, run);
    var order := After(c, workers, run).collected;
    RecordedIffSaid(c, order, name, id, v, insight);
    forall i: nat | i < |c.rules|
      ensures i in order
    {
      CompleteCollectsEachRuleOnce(c, workers, run, i);
      CountedIsMember(order, i);
    }
  }

  /** What the verdicts mean for a rule's evaluation. */
  lemma VerdictMeans(e: Evaluation)
    ensures
      var hit := e.matched && e.incidents > 0;
      && (VerdictOf(ResponseOf(e)) == Failed <==> e.err.Some? || (hit && e.violation.Failure?))
      && (VerdictOf(ResponseOf(e)) == Matched <==>
          e.err.None? && hit && e.violation.Success? && e.violation.value.incidents > 0)
  {
  }

  // ----- the code -----

  /** The part of `processRuleWorker` that turns an evaluation into a response. */
  method ProcessRule(e: Evaluation) returns (r: Response)
    ensures r == ResponseOf(e)
  {
    var err, violation := e.err, None;
    if e.matched && e.incidents > 0 {
      if e.violation.Failure? {
        err := Some(e.violation.error);
      } else if e.violation.value.incidents != 0 {
        violation := Some(e.violation.value);
      }
    }
    r := Response(err, violation);
  }

  /** The variables that one call of `RunRulesScopedWithOptions` shares with its collector. */
  class Collection {
    var wg: int
    var failedRules: nat
    var matchedRules: nat
    var unmatchedRules: nat
    var ruleSets: map<string, RuleSet>
    var progress: seq<int>
    const ranRules: nat

    constructor (ranRules: nat, ruleSets: map<string, RuleSet>)
      ensures wg == failedRules == matchedRules == unmatchedRules == 0 && progress == []
      ensures this.ranRules == ranRules && this.ruleSets == ruleSets
    {
      wg, failedRules, matchedRules, unmatchedRules := 0, 0, 0, 0;
      this.ruleSets, progress, this.ranRules := ruleSets, [], ranRules;
    }

    ghost predicate Agrees(c: Run, s: State)
      reads this
    {
      && wg == s.wg && failedRules == s.failed && matchedRules == s.matched && unmatchedRules == s.unmatched
      && ruleSets == s.ruleSets && progress == s.progress && ranRules == c.ranRules
    }

    /** The branch on the response: one counter and one record. */
    method Count(rule: Rule, response: Response)
      modifies this`failedRules, this`matchedRules, this`unmatchedRules, this`ruleSets
      ensures failedRules == old(failedRules) + One(VerdictOf(response).Failed?)
      ensures matchedRules == old(matchedRules) + One(VerdictOf(response).Matched?)
      ensures unmatchedRules == old(unmatchedRules) + One(VerdictOf(response).Unmatched?)
      ensures ruleSets ==
        if rule.ruleSet in old(ruleSets)
        then old(ruleSets)[rule.ruleSet := RecordIn(old(ruleSets)[rule.ruleSet], rule, response)] else old(ruleSets)
    {
      if response.err.Some? {
        failedRules := failedRules + 1;
        if rule.ruleSet in ruleSets {
          var rs := ruleSets[rule.ruleSet];
          ruleSets := ruleSets[rule.ruleSet := rs.(errors := rs.errors[rule.id := response.err.value])];
        }
      } else if response.violation.Some? {
        matchedRules := matchedRules + 1;
        if rule.ruleSet !in ruleSets {
          return;
        }
        var rs := ruleSets[rule.ruleSet];
        if rule.effort == None || rule.effort == Some(0) {
          ruleSets := ruleSets[rule.ruleSet := rs.(insights := rs.insights[rule.id := response.violation.value])];
        } else {
          ruleSets := ruleSets[rule.ruleSet := rs.(violations := rs.violations[rule.id := response.violation.value])];
        }
      } else {
        unmatchedRules := unmatchedRules + 1;
        if rule.ruleSet in ruleSets {
          var rs := ruleSets[rule.ruleSet];
          ruleSets := ruleSets[rule.ruleSet := rs.(unmatched := rs.unmatched + [rule.id])];
        }
      }
    }

    /** What the collector does with one response, up to `wg.Done`. */
    method Handle(rule: Rule, response: Response, ghost c: Run, ghost s: State, ghost i: nat)
      requires ValidRun(c) && i < |c.rules| && rule == c.rules[i] && response == ResponseFor(c, i)
      requires Agrees(c, s)
      modifies this
      ensures Agrees(c, Collect(c, s, i).(wg := s.wg - 1))
    {
      Count(rule, response);
      if response.err.Some? || response.violation.None? || rule.ruleSet in ruleSets {
        progress := progress + [matchedRules + unmatchedRules + failedRules + ranRules];
      }
      wg := wg - 1;
    }
  }
}
