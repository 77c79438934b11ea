/** What holds in every run of the connection. */
module ConnectionTheorems {
  import opened Wrappers
  import opened InFlight
  import opened ConnectionProtocol
  import opened ConnectionInvariant
  import opened ConnectionSteps
  import opened ConnectionRequests

  // ----- no panics -----

  lemma {:induction false} RunKeepsInvariant(states: seq<Sys>, events: seq<Event>, k: nat)
    requires IsRun(states, events) && k < |states|
    ensures Inv(states[k])
  {
    if k == 0 {
      InitialInv();
    } else {
      RunKeepsInvariant(states, events, k - 1);
      NextKeeps(states[k - 1], events[k - 1]);
    }
  }

  /** In no run can any enabled step reach one of the panics in the code. */
  lemma NoPanic(states: seq<Sys>, events: seq<Event>, k: nat, e: Event)
    requires IsRun(states, events) && k < |states| && Enabled(states[k], e)
    ensures Next(states[k], e).Ok?
  {
    RunKeepsInvariant(states, events, k);
    NextKeeps(states[k], e);
  }

  // ----- counters and closing -----

  /**
   `incoming` counts the requests that are accepted and not finished and bounds the
   size of `incomingByID`; the stream is closed at most once and before `done`;
   and `done` is closed exactly when the connection is idle, shutting down and not reading.
   */
  lemma CountersAndClosing(states: seq<Sys>, events: seq<Event>, k: nat)
    requires IsRun(states, events) && k < |states|
    ensures var fl := states[k].fl;
      && fl.incoming == |Unfinished(states[k].requests)|
      && |fl.incomingByID| <= fl.incoming
      && fl.outgoingNotifications == |ActiveNotes(states[k].notes)|
      && fl.dones <= fl.closes <= 1
      && fl.done == (fl.dones == 1)
      && fl.done == (fl.Idle() && fl.ShuttingDown() && !fl.reading)
      && (fl.closes == 1 ==> fl.ShuttingDown())
  {
    RunKeepsInvariant(states, events, k);
    IncomingBoundsByID(states[k].requests, states[k].fl.incomingByID);
  }

  // ----- shutdown is monotone -----

  /** The entry was added by a request that `acceptRequest` had already decided to reject. */
  ghost predicate BeingRejected(t: Sys, r: nat) {
    r < |t.requests| && t.requests[r].rejected && t.requests[r].phase.Completing? && t.requests[r].driver.ByReader?
  }

  /** What a step may do to the guarded state. */
  ghost predicate Forward(s: Sys, t: Sys) {
    && (s.fl.done ==> t.fl.done)
    && (s.fl.writeErr ==> t.fl.writeErr)
    && (s.fl.ShuttingDown() ==>
          && t.fl.ShuttingDown()
          && (t.fl.handlerQueue == s.fl.handlerQueue
              || (s.fl.handlerQueue != [] && t.fl.handlerQueue == s.fl.handlerQueue[1..]))
          && (t.fl.handlerRunning ==> s.fl.handlerRunning)
          && (s.fl.NoCalls() ==> t.fl.outgoingNotifications <= s.fl.outgoingNotifications)
          && (forall id :: id in t.fl.outgoingCalls ==>
                id in s.fl.outgoingCalls && t.fl.outgoingCalls[id] == s.fl.outgoingCalls[id])
          && (forall id :: id in t.fl.incomingByID ==>
                || (id in s.fl.incomingByID && t.fl.incomingByID[id] == s.fl.incomingByID[id])
                || BeingRejected(t, t.fl.incomingByID[id])))
  }

  /** Leaving the critical section only closes things. */
  lemma UnlockIsForward(s: Sys, u: Sys, fl: InFlight<nat, nat>)
    requires Locked(u, fl).Ok? && Forward(s, u.(fl := fl))
    ensures Forward(s, Locked(u, fl).state)
  {
  }

  lemma CallRegistersForward(s: Sys, i: nat)
    requires i < |s.calls| && CallRegistersStep(s, i).Ok?
    ensures Forward(s, CallRegistersStep(s, i).state)
  {
    UnlockIsForward(s, SetCall(s, i, Returned), s.fl);
  }

  lemma CallSendFailedForward(s: Sys, i: nat)
    requires i < |s.calls| && CallSendFailedStep(s, i).Ok?
    ensures Forward(s, CallSendFailedStep(s, i).state)
  {
    var t := SetCall(s, i, Returned);
    if CallID(i) in s.fl.outgoingCalls && s.fl.outgoingCalls[CallID(i)] == i {
      UnlockIsForward(s, Retire(t, i).state, s.fl.RemoveCall(CallID(i)));
    } else {
      UnlockIsForward(s, t, s.fl);
    }
  }

  lemma NotifyTriesForward(s: Sys)
    requires NotifyTriesStep(s).Ok?
    ensures Forward(s, NotifyTriesStep(s).state)
  {
    var (fl, admitted) := s.fl.AdmitNotification();
    var t := if admitted then s.(notes := s.notes + [NoteWaiting]) else s;
    UnlockIsForward(s, t, fl);
  }

  lemma WriteReturnsForward(s: Sys, job: Job, result: WriteResult)
    requires Holds(s, job) && WriteReturnsStep(s, job, result).Ok?
    ensures Forward(s, WriteReturnsStep(s, job, result).state)
  {
    var u := LogWrite(s, job, result);
    assert u.fl == s.fl;
    if result.Broken? && !u.fl.writeErr {
      UnlockIsForward(s, u.(requests := CancelAll(u.requests, u.fl.incomingByID.Values)), u.fl.RecordWriteError());
    }
  }

  lemma RespondForward(s: Sys, r: nat)
    requires r < |s.requests| && s.requests[r].id.Some? && RespondStep(s, r).Ok?
    ensures Forward(s, RespondStep(s, r).state)
  {
  }

  lemma AcceptCallForward(s: Sys, id: ID)
    requires ReadRequestStep(s, Some(id)).Ok?
    ensures Forward(s, ReadRequestStep(s, Some(id)).state)
  {
    var t := ReadRequestStep(s, Some(id)).state;
    var (fl, duplicate) := s.fl.AcceptCall(id, |s.requests|);
    assert t.fl.incomingByID == fl.incomingByID;
    assert !duplicate && s.fl.ShuttingDown() ==> BeingRejected(t, |s.requests|);
  }

  lemma ReadRequestForward(s: Sys, wireID: Option<ID>)
    requires ReadRequestStep(s, wireID).Ok?
    ensures Forward(s, ReadRequestStep(s, wireID).state)
  {
    if wireID.Some? {
      AcceptCallForward(s, wireID.value);
    }
  }

  lemma ReadResponseForward(s: Sys, id: ID)
    requires ReadResponseStep(s, id).Ok?
    ensures Forward(s, ReadResponseStep(s, id).state)
  {
    if id in s.fl.outgoingCalls {
      UnlockIsForward(s, Retire(s, s.fl.outgoingCalls[id]).state, s.fl.RemoveCall(id));
    } else {
      UnlockIsForward(s, s, s.fl);
    }
  }

  lemma ReadFailsForward(s: Sys)
    requires ReadFailsStep(s).Ok?
    ensures Forward(s, ReadFailsStep(s).state)
  {
  }

  lemma PreemptReturnsForward(s: Sys, r: nat, verdict: Verdict)
    requires r < |s.requests| && PreemptReturnsStep(s, r, verdict).Ok?
    ensures Forward(s, PreemptReturnsStep(s, r, verdict).state)
  {
  }

  lemma HandlerPollsForward(s: Sys)
    requires HandlerPollsStep(s).Ok?
    ensures Forward(s, HandlerPollsStep(s).state)
  {
  }

  lemma HandlerChecksForward(s: Sys, r: nat)
    requires r < |s.requests| && HandlerChecksStep(s, r).Ok?
    ensures Forward(s, HandlerChecksStep(s, r).state)
  {
  }

  lemma DropIDForward(s: Sys, r: nat, marshalled: bool)
    requires r < |s.requests| && s.requests[r].id.Some? && DropIDStep(s, r, marshalled).Ok?
    ensures Forward(s, DropIDStep(s, r, marshalled).state)
  {
  }

  lemma FinishRequestForward(s: Sys, r: nat)
    requires r < |s.requests| && FinishRequestStep(s, r).Ok?
    ensures Forward(s, FinishRequestStep(s, r).state)
  {
  }

  lemma StartForward(s: Sys, t: Sys)
    requires Enabled(s, Start) && Next(s, Start) == Ok(t)
    ensures Forward(s, t)
  {
  }

  lemma NotifyLeavesForward(s: Sys, e: Event, t: Sys)
    requires e.NotifyLeaves? && Enabled(s, e) && Next(s, e) == Ok(t)
    ensures Forward(s, t)
  {
  }

  lemma CloseCalledForward(s: Sys, t: Sys)
    requires Enabled(s, CloseCalled) && Next(s, CloseCalled) == Ok(t)
    ensures Forward(s, t)
  {
  }

  lemma CancelLooksUpForward(s: Sys, e: Event, t: Sys)
    requires e.CancelLooksUp? && Enabled(s, e) && Next(s, e) == Ok(t)
    ensures Forward(s, t)
  {
  }

  /** The other steps do not touch the guarded state. */
  lemma LocalEventForward(s: Sys, e: Event, t: Sys)
    requires Enabled(s, e) && Next(s, e) == Ok(t)
    requires
      || e.WriterMade? || e.CallNew? || e.CallUnmarshalable? || e.NotifyUnmarshalable? || e.Acquire?
      || e.CancelFires? || e.HandleReturns? || e.NotificationDone?
    ensures Forward(s, t)
  {
    assert t.fl == s.fl;
  }

  /**
   Once a shutdown has begun, no step ends it; no call is added to `outgoingCalls`, no
   request to the handler queue, no handler goroutine starts, with no call in flight no
   notification is admitted, and a request added to `incomingByID` is already rejected.
   */
  lemma ShutdownStep(s: Sys, e: Event, t: Sys)
    requires Enabled(s, e) && Next(s, e) == Ok(t)
    ensures Forward(s, t)
  {
    match e
    case CallRegisters(i) => CallRegistersForward(s, i);
    case CallSendFailed(i) => CallSendFailedForward(s, i);
    case NotifyTries => NotifyTriesForward(s);
    case WriteReturns(job, result) => WriteReturnsForward(s, job, result);
    case Respond(r) => RespondForward(s, r);
    case ReadRequest(wireID) => ReadRequestForward(s, wireID);
    case ReadResponse(id) => ReadResponseForward(s, id);
    case ReadFails => ReadFailsForward(s);
    case PreemptReturns(verdict) => PreemptReturnsForward(s, s.reader.r, verdict);
    case HandlerPolls => HandlerPollsForward(s);
    case HandlerChecks => HandlerChecksForward(s, s.handler.r);
    case DropID(r, marshalled) => DropIDForward(s, r, marshalled);
    case FinishRequest(r) => FinishRequestForward(s, r);
    case Start => StartForward(s, t);
    case NotifyLeaves(_) => NotifyLeavesForward(s, e, t);
    case CloseCalled => CloseCalledForward(s, t);
    case CancelLooksUp(_) => CancelLooksUpForward(s, e, t);
    case _ => LocalEventForward(s, e, t);
  }

  predicate IsSuffix<T(==)>(t: seq<T>, s: seq<T>) {
    |t| <= |s| && t == s[|s| - |t|..]
  }

  /** Entries of `incomingByID` that were not there before belong to requests that are being rejected. */
  ghost predicate OnlyRejections(s: InFlight<nat, nat>, t: Sys) {
    forall id :: id in t.fl.incomingByID ==>
      || (id in s.incomingByID && t.fl.incomingByID[id] == s.incomingByID[id])
      || BeingRejected(t, t.fl.incomingByID[id])
  }

  /** What a shutdown keeps between any two points of a run: the work in flight only shrinks. */
  ghost predicate Shrinks(s: InFlight<nat, nat>, t: Sys) {
    && t.fl.ShuttingDown()
    && (s.done ==> t.fl.done)
    && (t.fl.handlerRunning ==> s.handlerRunning)
    && IsSuffix(t.fl.handlerQueue, s.handlerQueue)
    && (forall id :: id in t.fl.outgoingCalls ==>
          id in s.outgoingCalls && t.fl.outgoingCalls[id] == s.outgoingCalls[id])
    && OnlyRejections(s, t)
  }

  /** A rejected request stays rejected as long as it can be found by its id. */
  lemma RejectionStays(t: Sys, u: Sys, id: ID)
    requires Inv(u) && OnlyMoveOn(t.requests, u.requests)
    requires id in u.fl.incomingByID && BeingRejected(t, u.fl.incomingByID[id])
    ensures BeingRejected(u, u.fl.incomingByID[id])
  {
    var r := u.fl.incomingByID[id];
    assert RequestOk(u.requests[r], r, PointersOf(u));
  }

  lemma RejectionsOneMore(s: InFlight<nat, nat>, t: Sys, u: Sys)
    requires OnlyRejections(s, t) && Forward(t, u) && t.fl.ShuttingDown()
    requires Inv(u) && OnlyMoveOn(t.requests, u.requests)
    ensures OnlyRejections(s, u)
  {
    forall id | id in u.fl.incomingByID && !BeingRejected(u, u.fl.incomingByID[id])
      ensures id in s.incomingByID && u.fl.incomingByID[id] == s.incomingByID[id]
    {
      if BeingRejected(t, u.fl.incomingByID[id]) {
        RejectionStays(t, u, id);
      }
    }
  }

  lemma ShrinksOneMore(s: InFlight<nat, nat>, t: Sys, u: Sys)
    requires Shrinks(s, t) && Forward(t, u)
    requires Inv(u) && OnlyMoveOn(t.requests, u.requests)
    ensures Shrinks(s, u)
  {
    RejectionsOneMore(s, t, u);
    var q := s.handlerQueue;
    assert t.fl.handlerQueue != [] ==> t.fl.handlerQueue[1..] == q[|q| - |t.fl.handlerQueue| + 1..];
  }

  lemma ShrinksItself(s: Sys)
    requires s.fl.ShuttingDown()
    ensures Shrinks(s.fl, s)
  {
  }

  lemma StepShrinks(s: InFlight<nat, nat>, t: Sys, e: Event, u: Sys)
    requires Shrinks(s, t) && Inv(t) && Enabled(t, e) && Next(t, e) == Ok(u)
    ensures Shrinks(s, u)
  {
    NextKeeps(t, e);
    ShutdownStep(t, e, u);
    RequestsMoveOn(t, e, u);
    ShrinksOneMore(s, t, u);
  }

  lemma RunShrinks(states: seq<Sys>, events: seq<Event>, s: InFlight<nat, nat>, k: nat)
    requires IsRun(states, events) && k < |events| && Shrinks(s, states[k])
    ensures Shrinks(s, states[k + 1])
  {
    RunKeepsInvariant(states, events, k);
    StepShrinks(s, states[k], events[k], states[k + 1]);
  }

  /**
   Between any two points of a run that come after the begin of a shutdown, the shutdown
   goes on, the calls in flight and the queue only shrink, no handler goroutine starts,
   and what is added to `incomingByID` is being rejected.
   */
  lemma {:induction false} ShutdownIsMonotone(states: seq<Sys>, events: seq<Event>, k: nat, l: nat)
    requires IsRun(states, events) && k <= l < |states| && states[k].fl.ShuttingDown()
    ensures Shrinks(states[k].fl, states[l])
    decreases l
  {
    if k == l {
      ShrinksItself(states[k]);
    } else {
      ShutdownIsMonotone(states, events, k, l - 1);
      RunShrinks(states, events, states[k].fl, l - 1);
    }
  }

  lemma NotificationStep(states: seq<Sys>, events: seq<Event>, k: nat)
    requires IsRun(states, events) && k < |events| && states[k].fl.ShuttingDown() && states[k].fl.NoCalls()
    ensures states[k + 1].fl.outgoingNotifications <= states[k].fl.outgoingNotifications
  {
    ShutdownStep(states[k], events[k], states[k + 1]);
  }

  /** During a shutdown, as long as no call is in flight in either direction, no notification is admitted. */
  lemma {:induction false} NoNotificationIsAdmitted(states: seq<Sys>, events: seq<Event>, k: nat, l: nat)
    requires IsRun(states, events) && k <= l < |states| && states[k].fl.ShuttingDown()
    requires forall m :: k <= m < l ==> states[m].fl.NoCalls()
    ensures states[l].fl.outgoingNotifications <= states[k].fl.outgoingNotifications
    decreases l
  {
    if k < l {
      NoNotificationIsAdmitted(states, events, k, l - 1);
      ShutdownIsMonotone(states, events, k, l - 1);
      NotificationStep(states, events, l - 1);
    }
  }

  lemma DoneMeansIdle(states: seq<Sys>, events: seq<Event>, k: nat)
    requires IsRun(states, events) && k < |states|
    ensures states[k].fl.done ==> states[k].fl.Idle() && states[k].fl.ShuttingDown()
  {
    RunKeepsInvariant(states, events, k);
  }

  /** Once `done` is closed the connection stays done, idle and shutting down. */
  lemma DoneIsForever(states: seq<Sys>, events: seq<Event>, k: nat, l: nat)
    requires IsRun(states, events) && k <= l < |states| && states[k].fl.done
    ensures states[l].fl.done && states[l].fl.Idle() && states[l].fl.ShuttingDown()
  {
    DoneMeansIdle(states, events, k);
    ShutdownIsMonotone(states, events, k, l);
    DoneMeansIdle(states, events, l);
  }

  // ----- outgoing calls -----

  /** When `done` is closed, every call that was ever registered has been retired. */
  lemma DoneRetiresEveryCall(states: seq<Sys>, events: seq<Event>, k: nat, i: nat)
    requires IsRun(states, events) && k < |states| && states[k].fl.done
    requires i < |states[k].calls| && states[k].calls[i].registered
    ensures states[k].calls[i].retired
  {
    RunKeepsInvariant(states, events, k);
    assert CallOk(states[k].calls[i], i, states[k].fl.outgoingCalls, states[k].writer);
  }

  /** `Call` returns only a call that is retired or waits in `outgoingCalls` under its own id. */
  lemma ReturnedCallIsTracked(states: seq<Sys>, events: seq<Event>, k: nat, i: nat)
    requires IsRun(states, events) && k < |states|
    requires i < |states[k].calls| && states[k].calls[i].phase.Returned?
    ensures
      var s := states[k];
      s.calls[i].retired <==> !(CallID(i) in s.fl.outgoingCalls && s.fl.outgoingCalls[CallID(i)] == i)
  {
    RunKeepsInvariant(states, events, k);
    assert CallOk(states[k].calls[i], i, states[k].fl.outgoingCalls, states[k].writer);
  }

  /** The first response with an id takes the call out; a second one changes nothing at all. */
  lemma SecondResponseChangesNothing(s: Sys, id: ID)
    requires Inv(s) && Enabled(s, ReadResponse(id))
    ensures
      var t := Next(s, ReadResponse(id)).state;
      && Enabled(t, ReadResponse(id))
      && Next(t, ReadResponse(id)) == Ok(t)
      && (id !in s.fl.outgoingCalls ==> t == s)
  {
    ReadResponseKeeps(s, id);
    var t := ReadResponseStep(s, id).state;
    UnlockUnchanged(s);
    UnlockUnchanged(t);
    assert id !in t.fl.outgoingCalls;
  }

  // ----- answers to incoming calls -----

  /**
   A request has at most one response write; it carries the request's own id, comes
   after the id was forgotten, and is never made for notifications or duplicate ids.
   */
  lemma AnswersAreUnique(states: seq<Sys>, events: seq<Event>, n: nat, k: nat, r: nat)
    requires IsRun(states, events) && n < |states|
    requires k < |states[n].wire| && states[n].wire[k].job == ReplyJob(r)
    ensures
      var s := states[n];
      && r < |s.requests| && s.requests[r].id.Some? && !s.requests[r].duplicate
      && s.wire[k].id == s.requests[r].id
      && (forall l :: 0 <= l < |s.wire| && s.wire[l].job == ReplyJob(r) ==> l == k)
      && (forall id :: id in s.fl.incomingByID ==> s.fl.incomingByID[id] != r)
  {
    var s := states[n];
    RunKeepsInvariant(states, events, n);
    assert SentOk(s.wire[k], s.requests, s.calls, s.notes);
    assert RequestOk(s.requests[r], r, PointersOf(s));
  }

  /** The id of a request that is being written, or is past that, no longer leads to it. */
  lemma IdLeavesBeforeTheWrite(states: seq<Sys>, events: seq<Event>, k: nat, r: nat)
    requires IsRun(states, events) && k < |states|
    requires states[k].writer == Held(ReplyJob(r))
    ensures forall id :: id in states[k].fl.incomingByID ==> states[k].fl.incomingByID[id] != r
  {
    RunKeepsInvariant(states, events, k);
  }

  lemma UnlockKeepsByID(fl: InFlight<nat, nat>)
    ensures fl.Unlock().Ok? ==> fl.Unlock().state.incomingByID == fl.incomingByID
  {
  }

  /** Forgetting an id removes the entry of the request that is being completed and no other. */
  lemma CompletionDropsItsOwnEntry(s: Sys, r: nat, marshalled: bool)
    requires Inv(s) && Enabled(s, DropID(r, marshalled))
    ensures
      var id := s.requests[r].id.value;
      && id in s.fl.incomingByID && s.fl.incomingByID[id] == r
      && Next(s, DropID(r, marshalled)).Ok?
      && Next(s, DropID(r, marshalled)).state.fl.incomingByID == s.fl.incomingByID - {id}
  {
    assert RequestOk(s.requests[r], r, PointersOf(s));
    DropIDKeeps(s, r, marshalled);
    UnlockKeepsByID(s.fl.DropRequest(s.requests[r].id.value));
  }

  /** `Respond` finds the very request it is meant for. */
  lemma RespondFindsItsRequest(s: Sys, r: nat)
    requires Inv(s) && Enabled(s, Respond(r))
    ensures Next(s, Respond(r)) == Ok(SetPhase(s, r, Completing, ByResponder))
  {
    assert RequestOk(s.requests[r], r, PointersOf(s));
    UnlockUnchanged(s);
  }

  // ----- the handler -----

  /**
   Requests leave the queue in the order they entered it, the handler is given a
   subsequence of them one after the other, and a waiting request has a running handler.
   */
  lemma HandlerOrder(states: seq<Sys>, events: seq<Event>, k: nat)
    requires IsRun(states, events) && k < |states|
    ensures
      var s := states[k];
      && s.enqueued == s.dequeued + s.fl.handlerQueue
      && (forall i, j :: 0 <= i < j < |s.handled| ==> s.handled[i] < s.handled[j])
      && (forall i :: 0 <= i < |s.handled| ==> 1 <= s.handled[i] <= |s.dequeued|)
      && (s.fl.handlerQueue != [] ==> s.fl.handlerRunning)
      && s.fl.handlerRunning == !s.handler.HandlerOff?
      && (forall i, j :: 0 <= i < j < |s.fl.handlerQueue| ==> s.fl.handlerQueue[i] != s.fl.handlerQueue[j])
  {
    RunKeepsInvariant(states, events, k);
  }

  /**
   After a write error every call that can be answered by id is cancelled or being
   rejected, and no call dequeued since then was ever given to the handler.
   */
  lemma WriteErrorStopsCalls(states: seq<Sys>, events: seq<Event>, k: nat)
    requires IsRun(states, events) && k < |states|
    ensures
      var s := states[k];
      && (s.fl.writeErr ==> forall id :: id in s.fl.incomingByID ==>
            var r := s.fl.incomingByID[id];
            r < |s.requests| && (s.requests[r].cancelled || BeingRejected(s, r)))
      && (forall r: nat :: r < |s.requests| && s.requests[r].id.Some? && s.requests[r].late ==>
          !s.requests[r].delivered)
  {
    RunKeepsInvariant(states, events, k);
    var s := states[k];
    forall id | s.fl.writeErr && id in s.fl.incomingByID
      ensures s.fl.incomingByID[id] < |s.requests|
      ensures s.requests[s.fl.incomingByID[id]].cancelled || BeingRejected(s, s.fl.incomingByID[id])
    {
      assert RequestOk(s.requests[s.fl.incomingByID[id]], s.fl.incomingByID[id], PointersOf(s));
    }
    forall r: nat {:trigger s.requests[r]} | r < |s.requests| && s.requests[r].id.Some? && s.requests[r].late
      ensures !s.requests[r].delivered
    {
      assert RequestOk(s.requests[r], r, PointersOf(s));
    }
  }
}
