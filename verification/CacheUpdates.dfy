/**
 The accounting of symbol cache updates: `Prepare` and `NotifyFileChanges` reserve updates
 in a WaitGroup and send them through a buffered channel to workers, which process them
 or, after a cancellation, drain them.
 */
module CacheUpdates {
  import opened Sums

  const BufferSize := 10

  /** The `index`-th update of a producer; it stands for that producer's `index`-th URI. */
  datatype Update = Update(producer: nat, index: nat)

  datatype Kind = Prepare | Notify

  /**
   `Sending(i)` is at the `select` for update `i` and `Releasing(n)` has `n` calls of
   `wg.Done()` to make. `Between(i)` is a `NotifyFileChanges` that has not yet
   reserved update `i`. `Returned(true)` is a `Prepare` that got past `wg.Wait()`.
   */
  datatype Phase = Begun | Sending(i: nat) | Releasing(n: nat) | Between(i: nat) | Waiting | Returned(waited: bool)

  datatype Producer = Producer(kind: Kind, size: nat, phase: Phase)

  datatype Worker = Idle | Processing(u: Update) | Reported(u: Update) | Draining | Dropping(u: Update) | Exited

  datatype State = State(
    wg: int, queue: seq<Update>, producers: seq<Producer>, workers: seq<Worker>, cancelled: bool,
    filesProcessed: nat, sent: set<Update>, processed: seq<Update>, dropped: seq<Update>)

  datatype Event =
    | Cancel
    | Begin(p: nat) | Reserve(p: nat) | Send(p: nat) | GiveUp(p: nat) | Release(p: nat) | WaitDone(p: nat)
    | Finish(p: nat)
    | Take(w: nat) | Process(w: nat) | Done(w: nat) | StartDraining(w: nat) | Drop(w: nat) | DropDone(w: nat)
    | Exit(w: nat)

  function Start(sizes: seq<(Kind, nat)>, workers: nat): State {
    State(0, [], seq(|sizes|, k requires 0 <= k < |sizes| => Producer(sizes[k].0, sizes[k].1, Begun)),
          seq(workers, _ => Idle), false, 0, {}, [], [])
  }

  predicate ProducerEnabled(s: State, p: nat, e: Event) {
    p < |s.producers|
    && var q := s.producers[p];
    match e
    case Begin(_) => q.phase.Begun?
    case Reserve(_) => q.phase.Between? && q.phase.i < q.size
    case Send(_) => q.phase.Sending? && q.phase.i < q.size && |s.queue| < BufferSize
    case GiveUp(_) => q.phase.Sending? && q.phase.i < q.size && s.cancelled
    case Release(_) => q.phase.Releasing?
    case WaitDone(_) => q.phase.Waiting? && s.wg == 0
    case Finish(_) => q.phase.Between? && q.phase.i >= q.size
    case _ => false
  }

  predicate WorkerEnabled(s: State, w: nat, e: Event) {
    w < |s.workers|
    && var x := s.workers[w];
    match e
    case Take(_) => x.Idle? && s.queue != []
    case Process(_) => x.Processing?
    case Done(_) => x.Reported?
    case StartDraining(_) => x.Idle? && s.cancelled
    case Drop(_) => x.Draining? && s.queue != []
    case DropDone(_) => x.Dropping?
    case Exit(_) => x.Draining? && s.queue == []
    case _ => false
  }

  predicate ByProducer(e: Event) {
    e.Begin? || e.Reserve? || e.Send? || e.GiveUp? || e.Release? || e.WaitDone? || e.Finish?
  }

  predicate Enabled(s: State, e: Event) {
    if e.Cancel? then true else if ByProducer(e) then ProducerEnabled(s, e.p, e) else WorkerEnabled(s, e.w, e)
  }

  /** After the last URI `Prepare` waits; `NotifyFileChanges` goes on to the next change. */
  function AfterItem(q: Producer, next: nat): Phase {
    if q.kind.Notify? then Between(next) else if next < q.size then Sending(next) else Waiting
  }

  /** The producer's own part of its step. */
  function ProducerNext(q: Producer, e: Event, cancelled: bool): Phase {
    match e
    case Begin(_) => if q.kind.Notify? then Between(0) else if cancelled then Returned(false) else AfterItem(q, 0)
    case Reserve(_) => if q.phase.Between? then Sending(q.phase.i) else q.phase
    case Send(_) => if q.phase.Sending? then AfterItem(q, q.phase.i + 1) else q.phase
    case GiveUp(_) =>
      if !q.phase.Sending? then q.phase
      else if q.kind.Notify? then Between(q.phase.i + 1)
      else if q.phase.i < q.size then Releasing(q.size - q.phase.i) else q.phase
    case Release(_) => if q.phase.Releasing? && q.phase.n > 1 then Releasing(q.phase.n - 1) else Returned(false)
    case WaitDone(_) => Returned(true)
    case Finish(_) => Returned(false)
    case _ => q.phase
  }

  /** What its step adds to the WaitGroup. */
  function Reserving(q: Producer, e: Event, cancelled: bool): int {
    match e
    case Begin(_) => if q.kind.Prepare? && !cancelled then q.size else 0
    case Reserve(_) => 1
    case GiveUp(_) => if q.kind.Notify? then -1 else 0
    case Release(_) => -1
    case _ => 0
  }

  function NextByProducer(s: State, e: Event): State
    requires ByProducer(e) && Enabled(s, e)
  {
    var q := s.producers[e.p];
    var t := s.(producers := s.producers[e.p := q.(phase := ProducerNext(q, e, s.cancelled))],
                wg := s.wg + Reserving(q, e, s.cancelled));
    if e.Send? then t.(queue := s.queue + [Update(e.p, q.phase.i)], sent := s.sent + {Update(e.p, q.phase.i)}) else t
  }

  function NextByWorker(s: State, e: Event): State
    requires !e.Cancel? && !ByProducer(e) && Enabled(s, e)
  {
    var x := s.workers[e.w];
    match e
    case Take(w) => s.(queue := s.queue[1..], workers := s.workers[w := Processing(s.queue[0])])
    case Process(w) =>
      s.(workers := s.workers[w := Reported(x.u)], processed := s.processed + [x.u],
         filesProcessed := s.filesProcessed + 1)
    case Done(w) => s.(workers := s.workers[w := Idle], wg := s.wg - 1)
    case StartDraining(w) => s.(workers := s.workers[w := Draining])
    case Drop(w) => s.(queue := s.queue[1..], workers := s.workers[w := Dropping(s.queue[0])])
    case DropDone(w) => s.(workers := s.workers[w := Draining], wg := s.wg - 1, dropped := s.dropped + [x.u])
    case Exit(w) => s.(workers := s.workers[w := Exited])
  }

  function Next(s: State, e: Event): State
    requires Enabled(s, e)
  {
    if e.Cancel? then s.(cancelled := true)
    else if ByProducer(e) then NextByProducer(s, e)
    else NextByWorker(s, e)
  }

  ghost predicate IsRun(sizes: seq<(Kind, nat)>, workers: nat, run: seq<Event>) {
    run == [] || (IsRun(sizes, workers, run[..|run| - 1])
                  && Enabled(After(sizes, workers, run[..|run| - 1]), run[|run| - 1]))
  }

  ghost function After(sizes: seq<(Kind, nat)>, workers: nat, run: seq<Event>): State {
    if run == [] then Start(sizes, workers)
    else
      var s := After(sizes, workers, run[..|run| - 1]);
      if Enabled(s, run[|run| - 1]) then Next(s, run[|run| - 1]) else s
  }

  // ----- the invariant -----

  /** The updates a producer has reserved and not sent. */
  function Reserved(q: Producer): nat {
    match q.phase
    case Sending(i) => if q.kind.Notify? then 1 else if i < q.size then q.size - i else 0
    case Releasing(n) => n
    case _ => 0
  }

  function InProcess(x: Worker): nat {
    One(x.Processing? || x.Reported? || x.Dropping?)
  }

  /** The WaitGroup counts the reserved unsent, the buffered and the in-process updates. */
  ghost predicate Counted(s: State) {
    s.wg == Total(s.producers, Reserved) + |s.queue| + Total(s.workers, InProcess)
  }

  predicate PhaseOk(q: Producer) {
    match q.phase
    case Sending(i) => i < q.size
    case Releasing(n) => q.kind.Prepare? && 0 < n <= q.size
    case Between(i) => q.kind.Notify? && i <= q.size
    case Waiting => q.kind.Prepare?
    case Returned(waited) => waited ==> q.kind.Prepare?
    case Begun => true
  }

  ghost predicate PhasesOk(s: State) {
    forall p :: 0 <= p < |s.producers| ==> PhaseOk(s.producers[p])
  }

  /** How far a producer has come: it has sent none of the updates from here on. */
  function Reached(q: Producer): nat {
    match q.phase
    case Begun => 0
    case Sending(i) => i
    case Between(i) => i
    case _ => q.size
  }

  /** A `Prepare` that is not cancelled sends its updates one after the other. */
  predicate HasSent(q: Producer, i: nat) {
    && q.kind.Prepare?
    && (|| (q.phase.Sending? && i < q.phase.i)
        || (q.phase.Waiting? && i < q.size)
        || (q.phase == Returned(true) && i < q.size))
  }

  ghost predicate SentOk(s: State) {
    && (forall u <- s.sent :: u.producer < |s.producers| && u.index < Reached(s.producers[u.producer]))
    && forall p: nat, i: nat :: p < |s.producers| && HasSent(s.producers[p], i) ==> Update(p, i) in s.sent
  }

  function Holding(u: Update): Worker -> nat {
    x => One(x == Processing(u) || x == Dropping(u))
  }

  function Settled(s: State, u: Update): nat {
    Count(s.processed, u) + Count(s.dropped, u)
  }

  /** In how many places the update is. */
  function Places(s: State, u: Update): nat {
    Count(s.queue, u) + Total(s.workers, Holding(u)) + Settled(s, u)
  }

  ghost predicate Conserved(s: State) {
    forall u :: Places(s, u) == One(u in s.sent)
  }

  /** Updates are dropped only after a cancellation. */
  ghost predicate DropsOk(s: State) {
    !s.cancelled ==> s.dropped == [] && forall w :: 0 <= w < |s.workers| ==>
      !s.workers[w].Draining? && !s.workers[w].Dropping? && !s.workers[w].Exited?
  }

  /** `Prepare` got past `wg.Wait()` only when all it sent had been processed or dropped. */
  ghost predicate WaitsOk(s: State) {
    forall p: nat, i: nat ::
      p < |s.producers| && s.producers[p].phase == Returned(true) && i < s.producers[p].size ==>
          Settled(s, Update(p, i)) == 1
  }

  ghost predicate Inv(s: State) {
    && Counted(s)
    && PhasesOk(s)
    && SentOk(s)
    && Conserved(s)
    && DropsOk(s)
    && WaitsOk(s)
    && s.filesProcessed == |s.processed|
  }

  // ----- every step keeps it -----

  lemma ReservedStep(s: State, e: Event)
    requires ByProducer(e) && Enabled(s, e) && PhaseOk(s.producers[e.p])
    ensures
      var q := s.producers[e.p];
      var q' := q.(phase := ProducerNext(q, e, s.cancelled));
      && PhaseOk(q')
      && Reserved(q') + One(e.Send?) == Reserved(q) + Reserving(q, e, s.cancelled)
  {
  }

  lemma CountedKeepsByProducer(s: State, e: Event)
    requires ByProducer(e) && Enabled(s, e) && Counted(s) && PhasesOk(s)
    ensures Counted(NextByProducer(s, e)) && PhasesOk(NextByProducer(s, e))
  {
    var q := s.producers[e.p];
    ReservedStep(s, e);
    TotalUpdate(s.producers, e.p, q.(phase := ProducerNext(q, e, s.cancelled)), Reserved);
  }

  lemma CountedKeepsByWorker(s: State, e: Event)
    requires !e.Cancel? && !ByProducer(e) && Enabled(s, e) && Counted(s)
    ensures Counted(NextByWorker(s, e))
  {
    TotalUpdate(s.workers, e.w, NextByWorker(s, e).workers[e.w], InProcess);
  }

  lemma SentKeeps(s: State, e: Event)
    requires ByProducer(e) && Enabled(s, e) && SentOk(s) && PhasesOk(s)
    ensures SentOk(NextByProducer(s, e))
  {
    var t := NextByProducer(s, e);
    var p, q := e.p, s.producers[e.p];
    forall u | u in t.sent
      ensures u.producer < |t.producers| && u.index < Reached(t.producers[u.producer])
    {
      assert u in s.sent || (e.Send? && u == Update(p, q.phase.i));
    }
    forall r: nat, i: nat | r < |t.producers| && HasSent(t.producers[r], i)
      ensures Update(r, i) in t.sent
    {
      if r != p || HasSent(q, i) {
        assert Update(r, i) in s.sent;
      } else {
        assert e.Send? && i == q.phase.i;
      }
    }
  }

  lemma SendIsFresh(s: State, e: Event)
    requires e.Send? && Enabled(s, e) && SentOk(s)
    ensures Update(e.p, s.producers[e.p].phase.i) !in s.sent
  {
  }

  lemma PlacesByProducer(s: State, e: Event, u: Update)
    requires ByProducer(e) && Enabled(s, e)
    ensures Places(NextByProducer(s, e), u) == Places(s, u) + One(e.Send? && u == Update(e.p, s.producers[e.p].phase.i))
  {
    if e.Send? {
      CountAppend(s.queue, Update(e.p, s.producers[e.p].phase.i), u);
    }
  }

  lemma PlacesByWorker(s: State, e: Event, u: Update)
    requires !e.Cancel? && !ByProducer(e) && Enabled(s, e)
    ensures Places(NextByWorker(s, e), u) == Places(s, u)
    ensures Settled(NextByWorker(s, e), u) >= Settled(s, u)
  {
    var x := s.workers[e.w];
    TotalUpdate(s.workers, e.w, NextByWorker(s, e).workers[e.w], Holding(u));
    if e.Process? {
      CountAppend(s.processed, x.u, u);
    }
    if e.DropDone? {
      CountAppend(s.dropped, x.u, u);
    }
  }

  lemma ConservedKeeps(s: State, e: Event)
    requires Enabled(s, e) && Conserved(s) && SentOk(s)
    ensures Conserved(Next(s, e))
  {
    var t := Next(s, e);
    forall u
      ensures Places(t, u) == One(u in t.sent)
    {
      assert Places(s, u) == One(u in s.sent);
      if ByProducer(e) {
        PlacesByProducer(s, e, u);
        if e.Send? {
          SendIsFresh(s, e);
        }
      } else if !e.Cancel? {
        PlacesByWorker(s, e, u);
      }
    }
  }

  lemma DropsKeep(s: State, e: Event)
    requires Enabled(s, e) && DropsOk(s)
    ensures DropsOk(Next(s, e))
  {
  }

  /** When the WaitGroup is at zero, everything that was sent is settled. */
  lemma ZeroMeansSettled(s: State, u: Update)
    requires Counted(s) && Conserved(s) && s.wg == 0
    ensures Settled(s, u) == One(u in s.sent)
  {
    assert Places(s, u) == One(u in s.sent);
    forall w | 0 <= w < |s.workers|
      ensures InProcess(s.workers[w]) == 0 && Holding(u)(s.workers[w]) == 0
    {
      TotalAtLeast(s.workers, w, InProcess);
    }
    TotalZero(s.workers, Holding(u));
  }

  lemma SettledStays(s: State, e: Event, u: Update)
    requires Enabled(s, e) && Conserved(s) && Conserved(Next(s, e)) && Settled(s, u) == 1
    ensures Settled(Next(s, e), u) == 1
  {
    assert Places(Next(s, e), u) <= 1;
    if !e.Cancel? && !ByProducer(e) {
      PlacesByWorker(s, e, u);
    }
  }

  lemma WaitSettles(s: State, p: nat, i: nat)
    requires Inv(s) && Enabled(s, WaitDone(p)) && i < s.producers[p].size
    ensures Settled(Next(s, WaitDone(p)), Update(p, i)) == 1
  {
    assert PhaseOk(s.producers[p]) && HasSent(s.producers[p], i);
    ZeroMeansSettled(s, Update(p, i));
  }

  lemma OnlyWaitDoneReturns(s: State, e: Event, p: nat)
    requires Enabled(s, e) && p < |s.producers|
    requires s.producers[p].phase != Returned(true) && Next(s, e).producers[p].phase == Returned(true)
    ensures e == WaitDone(p)
  {
  }

  lemma SizesStay(s: State, e: Event)
    requires Enabled(s, e)
    ensures |Next(s, e).producers| == |s.producers|
    ensures forall p :: 0 <= p < |s.producers| ==> Next(s, e).producers[p].size == s.producers[p].size
  {
  }

  lemma WaitsKeep(s: State, e: Event)
    requires Enabled(s, e) && Inv(s) && Conserved(Next(s, e))
    ensures WaitsOk(Next(s, e))
  {
    var t := Next(s, e);
    SizesStay(s, e);
    forall p: nat, i: nat | p < |t.producers| && t.producers[p].phase == Returned(true) && i < t.producers[p].size
      ensures Settled(t, Update(p, i)) == 1
    {
      if s.producers[p].phase == Returned(true) {
        SettledStays(s, e, Update(p, i));
      } else {
        OnlyWaitDoneReturns(s, e, p);
        WaitSettles(s, p, i);
      }
    }
  }

  lemma NextKeeps(s: State, e: Event)
    requires Enabled(s, e) && Inv(s)
    ensures Inv(Next(s, e))
  {
    ConservedKeeps(s, e);
    DropsKeep(s, e);
    WaitsKeep(s, e);
    if ByProducer(e) {
      CountedKeepsByProducer(s, e);
      SentKeeps(s, e);
    } else if !e.Cancel? {
      CountedKeepsByWorker(s, e);
    }
  }

  lemma StartIsOk(sizes: seq<(Kind, nat)>, workers: nat)
    ensures Inv(Start(sizes, workers))
  {
    var s := Start(sizes, workers);
    TotalZero(s.producers, Reserved);
    TotalZero(s.workers, InProcess);
    forall u
      ensures Places(s, u) == One(u in s.sent)
    {
      TotalZero(s.workers, Holding(u));
    }
  }

  // ----- whole runs -----

  /**
   In every interleaving, cancelled or not, the WaitGroup equals the reserved unsent plus
   the buffered plus the in-process updates, and every update sent is in exactly one place.
   */
  lemma {:induction false} RunKeepsInvariant(sizes: seq<(Kind, nat)>, workers: nat, run: seq<Event>)
    requires IsRun(sizes, workers, run)
    ensures Inv(After(sizes, workers, run))
    decreases |run|
  {
    if run == [] {
      StartIsOk(sizes, workers);
    } else {
      RunKeepsInvariant(sizes, workers, run[..|run| - 1]);
      NextKeeps(After(sizes, workers, run[..|run| - 1]), run[|run| - 1]);
    }
  }

  /** No call of `wg.Done()`, by whichever side, makes the WaitGroup negative. */
  lemma WaitGroupIsNeverNegative(sizes: seq<(Kind, nat)>, workers: nat, run: seq<Event>, e: Event)
    requires IsRun(sizes, workers, run) && Enabled(After(sizes, workers, run), e)
    ensures Next(After(sizes, workers, run), e).wg >= 0
    ensures e.Done? || e.DropDone? || e.Release? ==> After(sizes, workers, run).wg > 0
    ensures e.GiveUp? && After(sizes, workers, run).producers[e.p].kind.Notify? ==> After(sizes, workers, run).wg > 0
  {
    RunKeepsInvariant(sizes, workers, run);
    var s := After(sizes, workers, run);
    NextKeeps(s, e);
    if ByProducer(e) {
      TotalAtLeast(s.producers, e.p, Reserved);
    } else if !e.Cancel? {
      TotalAtLeast(s.workers, e.w, InProcess);
    }
  }

  /** A `Prepare` that got past its wait has had each of its updates processed or dropped, once. */
  lemma PreparedIsSettled(sizes: seq<(Kind, nat)>, workers: nat, run: seq<Event>, p: nat, i: nat)
    requires IsRun(sizes, workers, run)
    requires
      var s := After(sizes, workers, run);
      p < |s.producers| && s.producers[p].phase == Returned(true) && i < s.producers[p].size
    ensures Count(After(sizes, workers, run).processed, Update(p, i)) +
      Count(After(sizes, workers, run).dropped, Update(p, i)) == 1
  {
    RunKeepsInvariant(sizes, workers, run);
    assert Settled(After(sizes, workers, run), Update(p, i)) == 1;
  }

  /** Without a cancellation, each of them has been processed exactly once. */
  lemma PreparedIsProcessed(sizes: seq<(Kind, nat)>, workers: nat, run: seq<Event>, p: nat, i: nat)
    requires IsRun(sizes, workers, run)
    requires
      var s := After(sizes, workers, run);
      !s.cancelled && p < |s.producers| && s.producers[p].phase == Returned(true) && i < s.producers[p].size
    ensures Count(After(sizes, workers, run).processed, Update(p, i)) == 1
  {
    PreparedIsSettled(sizes, workers, run, p, i);
    RunKeepsInvariant(sizes, workers, run);
  }

  /** No update is processed twice, or processed after it was dropped. */
  lemma ProcessedAtMostOnce(sizes: seq<(Kind, nat)>, workers: nat, run: seq<Event>, u: Update)
    requires IsRun(sizes, workers, run)
    ensures Count(After(sizes, workers, run).processed, u) + Count(After(sizes, workers, run).dropped, u) <= 1
    ensures After(sizes, workers, run).filesProcessed == |After(sizes, workers, run).processed|
  {
    RunKeepsInvariant(sizes, workers, run);
    assert Places(After(sizes, workers, run), u) <= 1;
  }

  // ----- nothing is left out without a cancellation -----

  /** No `Prepare` gives up, and a `NotifyFileChanges` has sent what it has reached. */
  predicate IsUnbroken(q: Producer, p: nat, sent: set<Update>) {
    if q.kind.Prepare? then !q.phase.Releasing? && q.phase != Returned(false)
    else forall i: nat :: i < Reached(q) ==> Update(p, i) in sent
  }

  ghost predicate Unbroken(s: State) {
    !s.cancelled ==> forall p: nat {:trigger s.producers[p]} :: p < |s.producers| ==>
      IsUnbroken(s.producers[p], p, s.sent)
  }

  lemma OwnStepIsUnbroken(s: State, e: Event)
    requires ByProducer(e) && Enabled(s, e) && !s.cancelled && PhaseOk(s.producers[e.p])
    requires IsUnbroken(s.producers[e.p], e.p, s.sent)
    ensures IsUnbroken(NextByProducer(s, e).producers[e.p], e.p, NextByProducer(s, e).sent)
  {
  }

  lemma UnbrokenKeeps(s: State, e: Event)
    requires Enabled(s, e) && PhasesOk(s) && Unbroken(s)
    ensures Unbroken(Next(s, e))
  {
    if ByProducer(e) && !s.cancelled {
      var t := NextByProducer(s, e);
      OwnStepIsUnbroken(s, e);
      forall p: nat {:trigger t.producers[p]} | p < |t.producers|
        ensures IsUnbroken(t.producers[p], p, t.sent)
      {
        if p != e.p {
          assert IsUnbroken(s.producers[p], p, s.sent);
        }
      }
    }
  }

  lemma {:induction false} RunIsUnbroken(sizes: seq<(Kind, nat)>, workers: nat, run: seq<Event>)
    requires IsRun(sizes, workers, run)
    ensures Unbroken(After(sizes, workers, run))
    decreases |run|
  {
    if run != [] {
      RunIsUnbroken(sizes, workers, run[..|run| - 1]);
      RunKeepsInvariant(sizes, workers, run[..|run| - 1]);
      UnbrokenKeeps(After(sizes, workers, run[..|run| - 1]), run[|run| - 1]);
    }
  }

  /** Without a cancellation a `Prepare` returns only after its wait. */
  lemma PrepareWaits(sizes: seq<(Kind, nat)>, workers: nat, run: seq<Event>, p: nat)
    requires IsRun(sizes, workers, run)
    requires
      var s := After(sizes, workers, run);
      !s.cancelled && p < |s.producers| && s.producers[p].kind.Prepare? && s.producers[p].phase.Returned?
    ensures After(sizes, workers, run).producers[p].phase == Returned(true)
  {
    RunIsUnbroken(sizes, workers, run);
    assert IsUnbroken(After(sizes, workers, run).producers[p], p, After(sizes, workers, run).sent);
  }

  /**
   Without a cancellation a `NotifyFileChanges` that has returned has sent an update for
   every change, and when the WaitGroup is at zero each has been processed exactly once.
   */
  lemma NotifiedIsProcessed(sizes: seq<(Kind, nat)>, workers: nat, run: seq<Event>, p: nat, i: nat)
    requires IsRun(sizes, workers, run)
    requires
      var s := After(sizes, workers, run);
      && !s.cancelled && p < |s.producers| && s.producers[p].kind.Notify? && s.producers[p].phase.Returned?
      && i < s.producers[p].size
    ensures Update(p, i) in After(sizes, workers, run).sent
    ensures After(sizes, workers, run).wg == 0 ==> Count(After(sizes, workers, run).processed, Update(p, i)) == 1
  {
    var s := After(sizes, workers, run);
    RunIsUnbroken(sizes, workers, run);
    RunKeepsInvariant(sizes, workers, run);
    assert IsUnbroken(s.producers[p], p, s.sent);
    if s.wg == 0 {
      ZeroMeansSettled(s, Update(p, i));
    }
  }

  /** `Prepare` reserves all its updates at once, unless it finds the context cancelled. */
  lemma PrepareReserves(s: State, p: nat)
    requires Enabled(s, Begin(p)) && s.producers[p].kind.Prepare?
    ensures
      var size := s.producers[p].size;
      var phase := if s.cancelled then Returned(false) else if size == 0 then Waiting else Sending(0);
      Next(s, Begin(p)) == s.(wg := if s.cancelled then s.wg else s.wg + size,
                              producers := s.producers[p := Producer(Prepare, size, phase)])
  {
  }

  /**
   After a cancellation `NotifyFileChanges` takes back the one update it has reserved and
   goes on with the next change; `Prepare` goes on to take back all that it has not sent.
   */
  lemma GivingUp(s: State, p: nat)
    requires Enabled(s, GiveUp(p))
    ensures
      var q, i := s.producers[p], s.producers[p].phase.i;
      && s.cancelled && i < q.size
      && Next(s, GiveUp(p)) ==
           if q.kind.Notify? then
             s.(wg := s.wg - 1, producers := s.producers[p := q.(phase := Between(i + 1))])
           else
             s.(producers := s.producers[p := q.(phase := Releasing(q.size - i))])
  {
  }

  /** The buffer is first-in first-out. */
  lemma BufferIsAQueue(s: State, e: Event)
    requires Enabled(s, e)
    ensures
      Next(s, e).queue ==
        if e.Send? then s.queue + [Update(e.p, s.producers[e.p].phase.i)]
        else if e.Take? || e.Drop? then s.queue[1..]
        else s.queue
    ensures e.Take? ==> Next(s, e).workers[e.w] == Processing(s.queue[0])
    ensures e.Drop? ==> Next(s, e).workers[e.w] == Dropping(s.queue[0])
    ensures e.Send? ==> |s.queue| < 10
  {
  }

  // ----- progress without a cancellation -----

  lemma WorkerMoves(s: State, w: nat) returns (e: Event)
    requires Inv(s) && !s.cancelled && w < |s.workers| && (s.workers[w].Idle? ==> s.queue != [])
    ensures !e.Cancel? && Enabled(s, e)
  {
    e := if s.workers[w].Idle? then Take(w) else if s.workers[w].Processing? then Process(w) else Done(w);
  }

  /** A producer that has not returned moves, unless it is held up by a full buffer or a positive WaitGroup. */
  lemma ProducerMoves(s: State, p: nat) returns (e: Event)
    requires Inv(s) && p < |s.producers| && !s.producers[p].phase.Returned?
    requires s.producers[p].phase.Waiting? ==> s.wg == 0
    requires s.producers[p].phase.Sending? ==> |s.queue| < BufferSize
    ensures !e.Cancel? && Enabled(s, e)
  {
    var q := s.producers[p];
    assert PhaseOk(q);
    match q.phase {
      case Begun => e := Begin(p);
      case Sending(_) => e := Send(p);
      case Releasing(_) => e := Release(p);
      case Between(i) => e := if i < q.size then Reserve(p) else Finish(p);
      case Waiting => e := WaitDone(p);
    }
  }

  /** As long as some `Prepare` or `NotifyFileChanges` has not returned, something can move. */
  lemma SomethingMoves(sizes: seq<(Kind, nat)>, workers: nat, run: seq<Event>, p: nat) returns (e: Event)
    requires IsRun(sizes, workers, run) && workers > 0 && !After(sizes, workers, run).cancelled
    requires
      var s := After(sizes, workers, run);
      p < |s.producers| && !s.producers[p].phase.Returned?
    ensures !e.Cancel? && Enabled(After(sizes, workers, run), e)
  {
    RunKeepsInvariant(sizes, workers, run);
    WorkersStay(sizes, workers, run);
    var s := After(sizes, workers, run);
    if s.queue != [] {
      e := WorkerMoves(s, 0);
    } else if Total(s.workers, InProcess) > 0 {
      var w := TotalPositive(s.workers, InProcess);
      e := WorkerMoves(s, w);
    } else if s.producers[p].phase.Waiting? && s.wg > 0 {
      var r := TotalPositive(s.producers, Reserved);
      e := ProducerMoves(s, r);
    } else {
      e := ProducerMoves(s, p);
    }
  }

  lemma {:induction false} WorkersStay(sizes: seq<(Kind, nat)>, workers: nat, run: seq<Event>)
    requires IsRun(sizes, workers, run)
    ensures |After(sizes, workers, run).workers| == workers && |After(sizes, workers, run).producers| == |sizes|
    decreases |run|
  {
    if run != [] {
      WorkersStay(sizes, workers, run[..|run| - 1]);
    }
  }

  /** The steps a producer and its unsent updates still have to take. */
  function ProducerWork(q: Producer): nat {
    match q.phase
    case Begun => 6 * q.size + 3
    case Sending(i) => if i <= q.size then 6 * (q.size - i) + One(q.kind.Prepare?) else 0
    case Between(i) => if i <= q.size then 6 * (q.size - i) + 1 else 0
    case Waiting => 1
    case Releasing(n) => n
    case Returned(_) => 0
  }

  function WorkerWork(x: Worker): nat {
    if x.Processing? then 2 else if x.Reported? then 1 else 0
  }

  function Work(s: State): nat {
    Total(s.producers, ProducerWork) + 3 * |s.queue| + Total(s.workers, WorkerWork)
  }

  lemma ProducerStepShrinks(s: State, e: Event)
    requires ByProducer(e) && Enabled(s, e) && !s.cancelled && PhaseOk(s.producers[e.p])
    ensures
      var q := s.producers[e.p];
      ProducerWork(q.(phase := ProducerNext(q, e, false))) + 3 * One(e.Send?) < ProducerWork(q)
  {
  }

  lemma WorkerStepShrinks(s: State, e: Event)
    requires !e.Cancel? && !ByProducer(e) && Enabled(s, e) && !s.cancelled && DropsOk(s)
    ensures Work(NextByWorker(s, e)) < Work(s)
  {
    TotalUpdate(s.workers, e.w, NextByWorker(s, e).workers[e.w], WorkerWork);
  }

  /** Until it is cancelled every run gets shorter with every step, so every `Prepare` returns. */
  lemma StepShrinksWork(s: State, e: Event)
    requires Inv(s) && !s.cancelled && Enabled(s, e) && !e.Cancel?
    ensures Work(Next(s, e)) < Work(s)
  {
    if ByProducer(e) {
      assert PhaseOk(s.producers[e.p]);
      ProducerStepShrinks(s, e);
      TotalUpdate(s.producers, e.p, NextByProducer(s, e).producers[e.p], ProducerWork);
    } else {
      WorkerStepShrinks(s, e);
    }
  }

  // ----- after a cancellation -----

  ghost predicate WorkersGone(s: State) {
    forall w :: 0 <= w < |s.workers| ==> s.workers[w].Exited?
  }

  /** Every producer has returned, or is a `Prepare` at its wait. */
  ghost predicate ProducersGone(s: State) {
    forall p :: 0 <= p < |s.producers| ==> s.producers[p].phase.Returned? || s.producers[p].phase.Waiting?
  }

  /**
   Once workers and producers are gone, the WaitGroup counts exactly what was left in the
   buffer, so `Stop`'s wait and that of a `Prepare` end exactly when nothing was.
   */
  lemma StopReturnsIffNothingIsLeft(sizes: seq<(Kind, nat)>, workers: nat, run: seq<Event>)
    requires IsRun(sizes, workers, run)
    requires WorkersGone(After(sizes, workers, run)) && ProducersGone(After(sizes, workers, run))
    ensures After(sizes, workers, run).wg == |After(sizes, workers, run).queue|
    ensures After(sizes, workers, run).wg == 0 <==> After(sizes, workers, run).queue == []
  {
    RunKeepsInvariant(sizes, workers, run);
    TotalZero(After(sizes, workers, run).producers, Reserved);
    TotalZero(After(sizes, workers, run).workers, InProcess);
  }

  /** Some update was put into the buffer when all workers had gone. */
  ghost predicate SentTooLate(sizes: seq<(Kind, nat)>, workers: nat, run: seq<Event>) {
    exists k :: 0 <= k < |run| && run[k].Send? && WorkersGone(After(sizes, workers, run[..k]))
  }

  lemma SentTooLateStep(sizes: seq<(Kind, nat)>, workers: nat, run: seq<Event>, e: Event)
    ensures SentTooLate(sizes, workers, run + [e]) <==>
            SentTooLate(sizes, workers, run) || (e.Send? && WorkersGone(After(sizes, workers, run)))
  {
    var run' := run + [e];
    assert run'[..|run|] == run;
    assert forall k :: 0 <= k < |run| ==> run'[..k] == run[..k] && run'[k] == run[k];
    if e.Send? && WorkersGone(After(sizes, workers, run)) {
      assert run'[|run|].Send?;
    }
  }

  /** Workers stay gone, and the last one leaves an empty buffer behind. */
  lemma GoneWorkersStep(s: State, e: Event)
    requires Enabled(s, e)
    ensures WorkersGone(s) ==> WorkersGone(Next(s, e)) && (Next(s, e).queue == [] <==> s.queue == [] && !e.Send?)
    ensures !WorkersGone(s) && WorkersGone(Next(s, e)) ==> e.Exit? && Next(s, e).queue == []
  {
    if !WorkersGone(s) {
      var w :| 0 <= w < |s.workers| && !s.workers[w].Exited?;
      assert WorkersGone(Next(s, e)) ==> Next(s, e).workers[w].Exited?;
    }
  }

  /** While a worker is there, nothing has come too late. */
  lemma {:induction false} NotYetTooLate(sizes: seq<(Kind, nat)>, workers: nat, run: seq<Event>)
    requires IsRun(sizes, workers, run) && !WorkersGone(After(sizes, workers, run))
    ensures !SentTooLate(sizes, workers, run)
    decreases |run|
  {
    if run != [] {
      var before, e := run[..|run| - 1], run[|run| - 1];
      assert run == before + [e];
      GoneWorkersStep(After(sizes, workers, before), e);
      NotYetTooLate(sizes, workers, before);
      SentTooLateStep(sizes, workers, before, e);
    }
  }

  /**
   Once the workers are gone, whatever the producers do, something is in the buffer if and
   only if it was put there when they had already gone.
   */
  lemma {:induction false} LeftIffSentTooLate(sizes: seq<(Kind, nat)>, workers: nat, run: seq<Event>)
    requires IsRun(sizes, workers, run) && WorkersGone(After(sizes, workers, run))
    ensures After(sizes, workers, run).queue != [] <==> SentTooLate(sizes, workers, run)
    decreases |run|
  {
    if run != [] {
      var before, e := run[..|run| - 1], run[|run| - 1];
      assert run == before + [e];
      GoneWorkersStep(After(sizes, workers, before), e);
      SentTooLateStep(sizes, workers, before, e);
      if WorkersGone(After(sizes, workers, before)) {
        LeftIffSentTooLate(sizes, workers, before);
      } else {
        NotYetTooLate(sizes, workers, before);
      }
    }
  }

  /**
   When workers and producers are gone, the waits that are left (`Stop`'s, and that of a
   `Prepare` that has sent its last update) end if and only if no update was put into the
   buffer after the last worker had gone.
   */
  lemma WaitsEndIffNothingTooLate(sizes: seq<(Kind, nat)>, workers: nat, run: seq<Event>)
    requires IsRun(sizes, workers, run)
    requires WorkersGone(After(sizes, workers, run)) && ProducersGone(After(sizes, workers, run))
    ensures After(sizes, workers, run).wg == 0 <==> !SentTooLate(sizes, workers, run)
  {
    StopReturnsIffNothingIsLeft(sizes, workers, run);
    LeftIffSentTooLate(sizes, workers, run);
  }

  /** What was left stays: no later step takes it out or ends a wait. */
  lemma WhatIsLeftStays(s: State, e: Event)
    requires Inv(s) && WorkersGone(s) && s.queue != [] && Enabled(s, e)
    ensures !e.WaitDone? && WorkersGone(Next(s, e)) && s.queue <= Next(s, e).queue && Next(s, e).wg > 0
  {
    NextKeeps(s, e);
    assert s.wg > 0;
  }

  /** With the producers gone as well, nothing moves any more. */
  lemma NothingMovesThen(s: State, e: Event)
    requires Inv(s) && WorkersGone(s) && ProducersGone(s) && s.queue != [] && Enabled(s, e)
    ensures Next(s, e) == s.(cancelled := true)
  {
    assert s.wg > 0;
  }

  lemma Extend(sizes: seq<(Kind, nat)>, workers: nat, run: seq<Event>, s: State, e: Event) returns (run': seq<Event>)
    requires IsRun(sizes, workers, run) && After(sizes, workers, run) == s && Enabled(s, e)
    ensures IsRun(sizes, workers, run') && After(sizes, workers, run') == Next(s, e)
  {
    run' := run + [e];
    assert run'[..|run|] == run;
  }

  /** The worker sees the cancellation first and goes away. */
  lemma WorkerGoesFirst() returns (run: seq<Event>)
    ensures IsRun([(Notify, 1)], 1, run)
    ensures After([(Notify, 1)], 1, run) == State(0, [], [Producer(Notify, 1, Begun)], [Exited], true, 0, {}, [], [])
  {
    var sizes, q := [(Notify, 1)], Producer(Notify, 1, Begun);
    assert Start(sizes, 1).producers == [q] && Start(sizes, 1).workers == [Idle];
    run := Extend(sizes, 1, [], State(0, [], [q], [Idle], false, 0, {}, [], []), Cancel);
    run := Extend(sizes, 1, run, State(0, [], [q], [Idle], true, 0, {}, [], []), StartDraining(0));
    assert [Idle][0 := Draining] == [Draining];
    run := Extend(sizes, 1, run, State(0, [], [q], [Draining], true, 0, {}, [], []), Exit(0));
    assert [Draining][0 := Exited] == [Exited];
  }

  /** It does happen: a change notified after the worker has gone may still be put into the buffer. */
  lemma StopCanWaitForever() returns (run: seq<Event>)
    ensures IsRun([(Notify, 1)], 1, run)
    ensures
      var s := After([(Notify, 1)], 1, run);
      WorkersGone(s) && ProducersGone(s) && s.wg == 1 && s.queue == [Update(0, 0)]
  {
    var sizes, q, u := [(Notify, 1)], Producer(Notify, 1, Begun), Update(0, 0);
    run := WorkerGoesFirst();
    run := Extend(sizes, 1, run, State(0, [], [q], [Exited], true, 0, {}, [], []), Begin(0));
    run := Extend(sizes, 1, run, State(0, [], [q.(phase := Between(0))], [Exited], true, 0, {}, [], []), Reserve(0));
    run := Extend(sizes, 1, run, State(1, [], [q.(phase := Sending(0))], [Exited], true, 0, {}, [], []), Send(0));
    run := Extend(sizes, 1, run, State(1, [u], [q.(phase := Between(1))], [Exited], true, 0, {u}, [], []), Finish(0));
  }

  /** The worker sees the cancellation while `Prepare` is at its `select`. */
  lemma WorkerGoesDuringPrepare() returns (run: seq<Event>)
    ensures IsRun([(Prepare, 1)], 1, run)
    ensures After([(Prepare, 1)], 1, run) ==
      State(1, [], [Producer(Prepare, 1, Sending(0))], [Exited], true, 0, {}, [], [])
  {
    var sizes, q := [(Prepare, 1)], Producer(Prepare, 1, Begun);
    assert Start(sizes, 1).producers == [q] && Start(sizes, 1).workers == [Idle];
    run := Extend(sizes, 1, [], State(0, [], [q], [Idle], false, 0, {}, [], []), Begin(0));
    var q' := q.(phase := Sending(0));
    assert [q][0 := q'] == [q'];
    run := Extend(sizes, 1, run, State(1, [], [q'], [Idle], false, 0, {}, [], []), Cancel);
    run := Extend(sizes, 1, run, State(1, [], [q'], [Idle], true, 0, {}, [], []), StartDraining(0));
    assert [Idle][0 := Draining] == [Draining];
    run := Extend(sizes, 1, run, State(1, [], [q'], [Draining], true, 0, {}, [], []), Exit(0));
    assert [Draining][0 := Exited] == [Exited];
  }

  /** It befalls `Prepare` too: the `select` may still send, and then `Prepare` hangs in its own wait. */
  lemma CancelledPrepareCanHang() returns (run: seq<Event>)
    ensures IsRun([(Prepare, 1)], 1, run)
    ensures After([(Prepare, 1)], 1, run) ==
      State(1, [Update(0, 0)], [Producer(Prepare, 1, Waiting)], [Exited], true, 0, {Update(0, 0)}, [], [])
  {
    var q := Producer(Prepare, 1, Sending(0));
    run := WorkerGoesDuringPrepare();
    assert [q][0 := q.(phase := Waiting)] == [q.(phase := Waiting)];
    run := Extend([(Prepare, 1)], 1, run, State(1, [], [q], [Exited], true, 0, {}, [], []), Send(0));
  }

  // ----- the code -----

  /** The client's shared variables; the methods are the loops that do not block. */
  class Client {
    var wg: int
    var queue: seq<Update>
    var filesProcessed: nat
    ghost var dropped: seq<Update>

    constructor ()
      ensures wg == 0 && queue == [] && filesProcessed == 0 && dropped == []
    {
      wg, queue, filesProcessed, dropped := 0, [], 0, [];
    }

    /** The end of `Prepare`'s loop when the context is cancelled at URI `i` of `size`. */
    method ReleaseRemaining(size: nat, i: nat)
      requires i < size
      modifies this`wg
      ensures wg == old(wg) - Reserved(Producer(Prepare, size, Releasing(size - i)))
    {
      var remaining := size - i;
      for j := 0 to remaining
        invariant wg == old(wg) - j
      {
        wg := wg - 1;
      }
    }

    /** `processSymbolCacheUpdate`: the progress is reported before the update is released. */
    method ProcessUpdate(ghost s: State, ghost w: nat)
      requires w < |s.workers| && s.workers[w].Processing? && s.wg == wg && s.filesProcessed == filesProcessed
      modifies this`wg, this`filesProcessed
      ensures var t := Next(Next(s, Process(w)), Done(w)); wg == t.wg && filesProcessed == t.filesProcessed
    {
      filesProcessed := filesProcessed + 1;
      wg := wg - 1;
    }

    /** `drainPendingSymbolCacheUpdates`, when nothing is sent meanwhile. */
    method DrainPending()
      modifies this
      ensures queue == [] && wg == old(wg) - |old(queue)|
      ensures dropped == old(dropped) + old(queue) && filesProcessed == old(filesProcessed)
    {
      while queue != []
        invariant dropped + queue == old(dropped) + old(queue)
        invariant wg - |queue| == old(wg) - |old(queue)| && filesProcessed == old(filesProcessed)
        decreases |queue|
      {
        var fileURI := queue[0];
        assert dropped + queue == dropped + [fileURI] + queue[1..];
        queue := queue[1..];
        wg := wg - 1;
        dropped := dropped + [fileURI];
      }
    }
  }
}
