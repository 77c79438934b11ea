/**
 The ids of incoming calls: they are free again before the response is written, so two
 unanswered calls may come to share one, and this says exactly when.
 */
module ConnectionReuse {
  import opened Wrappers
  import opened InFlight
  import opened ConnectionProtocol
  import opened ConnectionInvariant
  import opened ConnectionSteps
  import opened ConnectionRequests
  import opened ConnectionTheorems

  ghost predicate Unanswered(s: Sys, r: nat) {
    r < |s.requests| && s.requests[r].id.Some? && !s.requests[r].phase.Finishing? && !s.requests[r].phase.Done?
  }

  /**
   Two calls whose response is not written yet have the same id only after the id of
   one of them has been forgotten (it waits for the writer or is writing).
   */
  lemma SharedIdMeansForgotten(states: seq<Sys>, events: seq<Event>, k: nat, r1: nat, r2: nat)
    requires IsRun(states, events) && k < |states| && r1 != r2
    requires Unanswered(states[k], r1) && Unanswered(states[k], r2)
    requires states[k].requests[r1].id == states[k].requests[r2].id
    ensures !Early(states[k].requests[r1].phase) || !Early(states[k].requests[r2].phase)
  {
    RunKeepsInvariant(states, events, k);
    var s := states[k];
    assert RequestOk(s.requests[r1], r1, PointersOf(s)) && RequestOk(s.requests[r2], r2, PointersOf(s));
  }

  /** The state in which call 0 was dequeued and answered but waits for the writer, and call 1 may have arrived. */
  function Reused(first: Phase, driver: Driver, handler: HandlerPc, delivered: bool, more: seq<Request>,
                  byID: map<ID, nat>): Sys
  {
    Sys(InitialFlight.(reading := true, incoming := 1 + |more|, incomingByID := byID, handlerRunning := true),
        [Request(Some(IntID(7)), first, driver, false, false, false, false, delivered)] + more, [], [],
        if more == [] then ReaderReading else ReaderPreempting(1), handler, Free, {},
        [0], [0], if delivered then [1] else [], [])
  }

  const Early0: Request := Request(Some(IntID(7)), Open, Nobody, false, false, false, false, false)

  const Connected: Sys := Initial.(writer := Free)

  const Started: Sys := Connected.(fl := InitialFlight.(reading := true), reader := ReaderReading)

  const Accepted: Sys := Started.(
    fl := Started.fl.(incoming := 1, incomingByID := map[IntID(7) := 0]),
    requests := [Early0],
    reader := ReaderPreempting(0))

  const InQueue: Sys := Accepted.(
    fl := Accepted.fl.(handlerQueue := [0], handlerRunning := true),
    requests := [Early0.(phase := Queued)],
    reader := ReaderReading,
    handler := HandlerPolling,
    enqueued := [0])

  lemma ReuseBegins()
    ensures Next(Initial, WriterMade) == Ok(Connected)
    ensures Next(Connected, Start) == Ok(Started)
    ensures Next(Started, ReadRequest(Some(IntID(7)))) == Ok(Accepted)
  {
    assert Started.requests + [Early0] == [Early0];
  }

  lemma ReuseQueues()
    ensures Next(Accepted, PreemptReturns(NotHandled)) == Ok(InQueue)
  {
    assert Accepted.requests[0 := InQueue.requests[0]] == InQueue.requests;
    assert Accepted.enqueued + [0] == [0] && Accepted.fl.handlerQueue + [0] == [0];
  }

  lemma ReuseDequeues()
    ensures Next(InQueue, HandlerPolls) ==
      Ok(Reused(Phase.Checking, Nobody, HandlerChecking(0), false, [], map[IntID(7) := 0]))
  {
    var t := Reused(Phase.Checking, Nobody, HandlerChecking(0), false, [], map[IntID(7) := 0]);
    assert InQueue.requests[0 := t.requests[0]] == t.requests;
    assert InQueue.dequeued + [0] == [0] && InQueue.fl.handlerQueue[1..] == [];
  }

  lemma ReuseIsHandled()
    ensures
      var s := Reused(Phase.Checking, Nobody, HandlerChecking(0), false, [], map[IntID(7) := 0]);
      var t := Reused(Open, Nobody, HandlerHandling(0), true, [], map[IntID(7) := 0]);
      && Enabled(s, HandlerChecks) && Next(s, HandlerChecks) == Ok(t)
      && Enabled(t, HandleReturns(false))
      && Next(t, HandleReturns(false)) ==
          Ok(Reused(Completing, ByHandler, HandlerReplying(0), true, [], map[IntID(7) := 0]))
  {
    var s := Reused(Phase.Checking, Nobody, HandlerChecking(0), false, [], map[IntID(7) := 0]);
    var t := Reused(Open, Nobody, HandlerHandling(0), true, [], map[IntID(7) := 0]);
    assert s.requests[0 := t.requests[0]] == t.requests;
    assert s.handled + [|s.dequeued|] == t.handled;
    var u := Reused(Completing, ByHandler, HandlerReplying(0), true, [], map[IntID(7) := 0]);
    assert t.requests[0 := u.requests[0]] == u.requests;
  }

  lemma ReuseArrives()
    ensures
      var s := Reused(Completing, ByHandler, HandlerReplying(0), true, [], map[IntID(7) := 0]);
      var t := Reused(Answering, ByHandler, HandlerReplying(0), true, [], map[]);
      && Enabled(s, DropID(0, true)) && Next(s, DropID(0, true)) == Ok(t)
      && Enabled(t, ReadRequest(Some(IntID(7))))
      && Next(t, ReadRequest(Some(IntID(7)))) ==
          Ok(Reused(Answering, ByHandler, HandlerReplying(0), true, [Early0], map[IntID(7) := 1]))
  {
    var s := Reused(Completing, ByHandler, HandlerReplying(0), true, [], map[IntID(7) := 0]);
    var t := Reused(Answering, ByHandler, HandlerReplying(0), true, [], map[]);
    assert s.requests[0 := t.requests[0]] == t.requests;
    assert s.fl.incomingByID - {IntID(7)} == map[];
    assert t.requests + [Early0] == [t.requests[0]] + [Early0];
  }

  /** `states` ends in `s` and its run goes on with `e` to `t`. */
  lemma ExtendRun(states: seq<Sys>, events: seq<Event>, s: Sys, e: Event, t: Sys)
    requires IsRun(states, events) && states[|states| - 1] == s
    requires Enabled(s, e) && Next(s, e) == Ok(t)
    ensures IsRun(states + [t], events + [e])
  {
  }

  lemma ReuseRunQueues() returns (states: seq<Sys>, events: seq<Event>)
    ensures IsRun(states, events) && states[|states| - 1] == InQueue
  {
    ReuseBegins();
    ReuseQueues();
    states, events := [Initial], [];
    ExtendRun(states, events, Initial, WriterMade, Connected);
    states, events := states + [Connected], events + [WriterMade];
    ExtendRun(states, events, Connected, Start, Started);
    states, events := states + [Started], events + [Start];
    ExtendRun(states, events, Started, ReadRequest(Some(IntID(7))), Accepted);
    states, events := states + [Accepted], events + [ReadRequest(Some(IntID(7)))];
    ExtendRun(states, events, Accepted, PreemptReturns(NotHandled), InQueue);
    states, events := states + [InQueue], events + [PreemptReturns(NotHandled)];
  }

  lemma ReuseRunHandles() returns (states: seq<Sys>, events: seq<Event>)
    ensures IsRun(states, events)
    ensures states[|states| - 1] == Reused(Completing, ByHandler, HandlerReplying(0), true, [], map[IntID(7) := 0])
  {
    states, events := ReuseRunQueues();
    var s := Reused(Phase.Checking, Nobody, HandlerChecking(0), false, [], map[IntID(7) := 0]);
    var t := Reused(Open, Nobody, HandlerHandling(0), true, [], map[IntID(7) := 0]);
    var u := Reused(Completing, ByHandler, HandlerReplying(0), true, [], map[IntID(7) := 0]);
    ReuseDequeues();
    ExtendRun(states, events, InQueue, HandlerPolls, s);
    states, events := states + [s], events + [HandlerPolls];
    ReuseIsHandled();
    ExtendRun(states, events, s, HandlerChecks, t);
    states, events := states + [t], events + [HandlerChecks];
    ExtendRun(states, events, t, HandleReturns(false), u);
    states, events := states + [u], events + [HandleReturns(false)];
  }

  /** That does happen: a reused id is accepted while the first response still waits for the writer. */
  lemma UnansweredCallsMayShareAnId() returns (states: seq<Sys>, events: seq<Event>)
    ensures IsRun(states, events)
    ensures
      var s := states[|states| - 1];
      Unanswered(s, 0) && Unanswered(s, 1) && s.requests[0].id == s.requests[1].id
  {
    states, events := ReuseRunHandles();
    var s := Reused(Completing, ByHandler, HandlerReplying(0), true, [], map[IntID(7) := 0]);
    var t := Reused(Answering, ByHandler, HandlerReplying(0), true, [], map[]);
    var u := Reused(Answering, ByHandler, HandlerReplying(0), true, [Early0], map[IntID(7) := 1]);
    ReuseArrives();
    ExtendRun(states, events, s, DropID(0, true), t);
    states, events := states + [t], events + [DropID(0, true)];
    ExtendRun(states, events, t, ReadRequest(Some(IntID(7))), u);
    states, events := states + [u], events + [ReadRequest(Some(IntID(7)))];
  }

  // ----- exactly when -----

  /** The response of a call with this id waits for the writer or is being written. */
  ghost predicate ResponsePending(s: Sys, id: ID) {
    exists r: nat :: r < |s.requests| && s.requests[r].id == Some(id) && PastItsID(s.requests[r].phase)
  }

  predicate PastItsID(p: Phase) {
    p.Answering? || p.Writing?
  }

  /** A call arrives under an id that is free while the response of an earlier call with that id is not written. */
  ghost predicate ReusesPendingID(s: Sys, e: Event) {
    e.ReadRequest? && e.wireID.Some? && e.wireID.value !in s.fl.incomingByID && ResponsePending(s, e.wireID.value)
  }

  /** Request `r` is unanswered and so is an earlier one with the same id. */
  ghost predicate SharesItsID(s: Sys, r: nat) {
    && Unanswered(s, r)
    && exists q: nat :: q < r && Unanswered(s, q) && s.requests[q].id == s.requests[r].id
  }

  /** What an arriving call looks like, and that it leaves the other requests alone. */
  lemma Arrival(s: Sys, id: ID, t: Sys)
    requires ReadRequestStep(s, Some(id)) == Ok(t)
    ensures |t.requests| == |s.requests| + 1 && t.requests[..|s.requests|] == s.requests
    ensures
      var q := t.requests[|s.requests|];
      && q.id == (if id in s.fl.incomingByID then None else Some(id))
      && (q.phase.Open? || q.phase.Completing?)
  {
  }

  lemma UnansweredIsFoundOrPast(s: Sys, r: nat)
    requires Inv(s) && Unanswered(s, r)
    ensures
      var id := s.requests[r].id.value;
      PastItsID(s.requests[r].phase) || (id in s.fl.incomingByID && s.fl.incomingByID[id] == r)
  {
    assert RequestOk(s.requests[r], r, PointersOf(s));
  }

  lemma SharedMeansPending(s: Sys, id: ID, t: Sys)
    requires Inv(s) && ReadRequestStep(s, Some(id)) == Ok(t) && SharesItsID(t, |s.requests|)
    ensures id !in s.fl.incomingByID && ResponsePending(s, id)
  {
    var n := |s.requests|;
    Arrival(s, id, t);
    var q: nat :| q < n && Unanswered(t, q) && t.requests[q].id == t.requests[n].id;
    assert t.requests[..n][q] == s.requests[q];
    UnansweredIsFoundOrPast(s, q);
  }

  lemma PendingMeansShared(s: Sys, id: ID, t: Sys)
    requires ReadRequestStep(s, Some(id)) == Ok(t)
    requires id !in s.fl.incomingByID && ResponsePending(s, id)
    ensures SharesItsID(t, |s.requests|)
  {
    var n := |s.requests|;
    Arrival(s, id, t);
    var q: nat :| q < n && s.requests[q].id == Some(id) && PastItsID(s.requests[q].phase);
    assert t.requests[..n][q] == s.requests[q];
    assert Unanswered(t, q) && t.requests[q].id == t.requests[n].id;
  }

  lemma ArrivalSharesIff(s: Sys, id: ID, t: Sys)
    requires Inv(s) && ReadRequestStep(s, Some(id)) == Ok(t)
    ensures SharesItsID(t, |s.requests|) <==> id !in s.fl.incomingByID && ResponsePending(s, id)
  {
    if SharesItsID(t, |s.requests|) {
      SharedMeansPending(s, id, t);
    }
    if id !in s.fl.incomingByID && ResponsePending(s, id) {
      PendingMeansShared(s, id, t);
    }
  }

  /**
   In any run, a call that arrives with an id shares it with an earlier unanswered call if
   and only if the id is not in `incomingByID` and a response to it is waiting or being written.
   */
  lemma ArrivingCallSharesIff(states: seq<Sys>, events: seq<Event>, k: nat, id: ID)
    requires IsRun(states, events) && k < |events| && events[k] == ReadRequest(Some(id))
    ensures SharesItsID(states[k + 1], |states[k].requests|) <==> ReusesPendingID(states[k], events[k])
  {
    RunKeepsInvariant(states, events, k);
    ArrivalSharesIff(states[k], id, states[k + 1]);
  }

  /** No two unanswered calls have the same id. */
  ghost predicate IDsAreDistinct(s: Sys) {
    forall r: nat :: r < |s.requests| ==> !SharesItsID(s, r)
  }

  lemma OlderStayDistinct(s: Sys, t: Sys, r: nat)
    requires OnlyMoveOn(s.requests, t.requests) && IDsAreDistinct(s) && r < |s.requests|
    ensures !SharesItsID(t, r)
  {
    if SharesItsID(t, r) {
      var q: nat :| q < r && Unanswered(t, q) && t.requests[q].id == t.requests[r].id;
      assert Unanswered(s, q) && Unanswered(s, r);
      assert SharesItsID(s, r);
    }
  }

  lemma StepKeepsDistinct(s: Sys, e: Event, t: Sys)
    requires Inv(s) && Enabled(s, e) && Next(s, e) == Ok(t) && IDsAreDistinct(s) && !ReusesPendingID(s, e)
    ensures IDsAreDistinct(t)
  {
    RequestsMoveOn(s, e, t);
    forall r: nat | r < |t.requests|
      ensures !SharesItsID(t, r)
    {
      if r < |s.requests| {
        OlderStayDistinct(s, t, r);
      } else {
        ArrivalIsDistinct(s, e, t, r);
      }
    }
  }

  lemma ArrivalIsDistinct(s: Sys, e: Event, t: Sys, r: nat)
    requires Inv(s) && Enabled(s, e) && Next(s, e) == Ok(t) && !ReusesPendingID(s, e)
    requires |s.requests| <= r < |t.requests|
    ensures !SharesItsID(t, r)
  {
    if !e.ReadRequest? {
      RequestsMoveOn(s, e, t);
    } else if e.wireID.Some? {
      Arrival(s, e.wireID.value, t);
      ArrivalSharesIff(s, e.wireID.value, t);
    }
  }

  lemma RunStepKeepsDistinct(states: seq<Sys>, events: seq<Event>, k: nat)
    requires IsRun(states, events) && k < |events| && IDsAreDistinct(states[k]) &&
      !ReusesPendingID(states[k], events[k])
    ensures IDsAreDistinct(states[k + 1])
  {
    RunKeepsInvariant(states, events, k);
    StepKeepsDistinct(states[k], events[k], states[k + 1]);
  }

  lemma {:induction false} DistinctWithoutReuse(states: seq<Sys>, events: seq<Event>, n: nat)
    requires IsRun(states, events) && n < |states|
    requires forall k :: 0 <= k < n ==> !ReusesPendingID(states[k], events[k])
    ensures IDsAreDistinct(states[n])
  {
    if n > 0 {
      DistinctWithoutReuse(states, events, n - 1);
      RunStepKeepsDistinct(states, events, n - 1);
    }
  }

  lemma ReuseIsShared(states: seq<Sys>, events: seq<Event>, k: nat)
    requires IsRun(states, events) && k < |events| && ReusesPendingID(states[k], events[k])
    ensures !IDsAreDistinct(states[k + 1])
  {
    ArrivingCallSharesIff(states, events, k, events[k].wireID.value);
    assert SharesItsID(states[k + 1], |states[k].requests|);
  }

  /**
   Throughout a run the ids of unanswered calls are pairwise distinct if and only if no
   call ever arrives under a free id whose earlier response is waiting or being written.
   */
  lemma DistinctIffNoReuse(states: seq<Sys>, events: seq<Event>)
    requires IsRun(states, events)
    ensures (forall k :: 0 <= k < |states| ==> IDsAreDistinct(states[k]))
            <==> (forall k :: 0 <= k < |events| ==> !ReusesPendingID(states[k], events[k]))
  {
    if forall k :: 0 <= k < |events| ==> !ReusesPendingID(states[k], events[k]) {
      forall k | 0 <= k < |states|
        ensures IDsAreDistinct(states[k])
      {
        DistinctWithoutReuse(states, events, k);
      }
    } else {
      var k :| 0 <= k < |events| && ReusesPendingID(states[k], events[k]);
      ReuseIsShared(states, events, k);
    }
  }
}
