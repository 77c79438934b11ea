/** Every enabled step keeps the invariant and reaches none of the code's panics. */
module ConnectionSteps {
  import opened Wrappers
  import opened InFlight
  import opened ConnectionProtocol
  import opened ConnectionInvariant

  /** The step reached no panic and kept the invariant. */
  ghost predicate Kept(o: Outcome<Sys>) {
    o.Ok? && Inv(o.state)
  }

  // ----- frames: what the log of writes and the queue order do not depend on -----

  ghost predicate LaterRequests(a: seq<Request>, b: seq<Request>) {
    && |a| <= |b|
    && forall r: nat {:trigger b[r]} :: r < |a| ==>
         && b[r].id == a[r].id
         && (a[r].phase.Finishing? || a[r].phase.Done? ==> b[r].phase.Finishing? || b[r].phase.Done?)
  }

  ghost predicate LaterCalls(a: seq<Call>, b: seq<Call>) {
    && |a| <= |b|
    && forall i: nat {:trigger b[i]} :: i < |a| ==>
         (a[i].phase.Failing? || a[i].phase.Returned? ==> b[i].phase.Failing? || b[i].phase.Returned?)
  }

  ghost predicate LaterNotes(a: seq<NotePhase>, b: seq<NotePhase>) {
    && |a| <= |b|
    && forall j: nat {:trigger b[j]} :: j < |a| ==>
         (a[j].NoteLeaving? || a[j].NoteLeft? ==> b[j].NoteLeaving? || b[j].NoteLeft?)
  }

  /** The log stays in order when requests, calls and notifications only move on. */
  lemma WireFrame(wire: seq<Sent>, requests: seq<Request>, calls: seq<Call>, notes: seq<NotePhase>,
                  requests': seq<Request>, calls': seq<Call>, notes': seq<NotePhase>)
    requires WireOk(wire, requests, calls, notes)
    requires LaterRequests(requests, requests') && LaterCalls(calls, calls') && LaterNotes(notes, notes')
    ensures WireOk(wire, requests', calls', notes')
  {
    forall k | 0 <= k < |wire|
      ensures SentOk(wire[k], requests', calls', notes')
    {
      assert SentOk(wire[k], requests, calls, notes);
    }
  }

  lemma OrderFrame(enqueued: seq<nat>, dequeued: seq<nat>, handled: seq<nat>, queue: seq<nat>,
                   handler: HandlerPc, n: nat, handler': HandlerPc, n': nat)
    requires OrderOk(enqueued, dequeued, handled, queue, handler, n)
    requires n <= n' && (handler' == handler || !handler'.HandlerChecking?)
    ensures OrderOk(enqueued, dequeued, handled, queue, handler', n')
  {
  }

  /** A section whose own updates keep the parts, the counters and the flags is safe. */
  lemma Leave(s: Sys, fl: InFlight<nat, nat>)
    requires PartsOk(s.(fl := fl)) && CountsOk(s.(fl := fl))
    requires FlagsOk(fl, s.reader, s.handler, s.writer)
    ensures Kept(Locked(s, fl))
  {
    UnlockSettles(s, fl);
  }

  // ----- one request moves on -----

  predicate OnlyReader(pc: ReaderPc, r: nat) {
    pc.ReaderPreempting? || pc.ReaderReplying? ==> pc.r == r
  }

  predicate OnlyHandler(pc: HandlerPc, r: nat) {
    pc.HandlerChecking? || pc.HandlerHandling? || pc.HandlerReplying? ==> pc.r == r
  }

  /** Request `r` becomes `q` outside queue and writer, and the goroutines that moved are about `r`. */
  lemma TableMove(requests: seq<Request>, p: Pointers, r: nat, q: Request, p': Pointers)
    requires TableOk(requests, p) && r < |requests|
    requires q.id == requests[r].id && (Early(q.phase) == Early(requests[r].phase) || q.id.None?)
    requires q.phase.Queued? == requests[r].phase.Queued?
    requires p' == p.(reader := p'.reader, handler := p'.handler)
    requires p'.reader == p.reader || (OnlyReader(p.reader, r) && OnlyReader(p'.reader, r))
    requires p'.handler == p.handler || (OnlyHandler(p.handler, r) && OnlyHandler(p'.handler, r))
    requires RequestOk(q, r, p')
    requires ReaderOk(requests[r := q], p'.reader) && HandlerOk(requests[r := q], p'.reader, p'.handler)
    ensures TableOk(requests[r := q], p')
  {
    var requests' := requests[r := q];
    forall k: nat {:trigger requests'[k]} | k < |requests|
      ensures RequestOk(requests'[k], k, p')
    {
      assert RequestOk(requests[k], k, p);
    }
  }

  lemma LaterMove(requests: seq<Request>, r: nat, q: Request)
    requires r < |requests| && q.id == requests[r].id
    requires requests[r].phase.Finishing? || requests[r].phase.Done? ==> q.phase.Finishing? || q.phase.Done?
    ensures LaterRequests(requests, requests[r := q])
  {
  }

  ghost predicate SameGoroutines(s: Sys, reader: ReaderPc, handler: HandlerPc) {
    && reader.ReaderNotStarted? == s.reader.ReaderNotStarted?
    && reader.ReaderExited? == s.reader.ReaderExited?
    && handler.HandlerOff? == s.handler.HandlerOff?
    && (handler == s.handler || !handler.HandlerChecking?)
  }

  /** `TableMove` for the whole state: a step of `processResult`, the reader or the handler for one request. */
  lemma MoveParts(s: Sys, r: nat, q: Request, reader: ReaderPc, handler: HandlerPc)
    requires PartsOk(s) && r < |s.requests|
    requires handler == s.handler || !handler.HandlerChecking?
    requires q.id == s.requests[r].id && (Early(q.phase) == Early(s.requests[r].phase) || q.id.None?)
    requires q.phase.Queued? == s.requests[r].phase.Queued?
    requires s.requests[r].phase.Finishing? ==> q.phase.Finishing? || q.phase.Done?
    requires s.requests[r].phase.Done? ==> q.phase.Done?
    requires reader == s.reader || (OnlyReader(s.reader, r) && OnlyReader(reader, r))
    requires handler == s.handler || (OnlyHandler(s.handler, r) && OnlyHandler(handler, r))
    requires RequestOk(q, r, PointersOf(s).(reader := reader, handler := handler))
    requires ReaderOk(s.requests[r := q], reader) && HandlerOk(s.requests[r := q], reader, handler)
    ensures PartsOk(s.(requests := s.requests[r := q], reader := reader, handler := handler))
  {
    TableMove(s.requests, PointersOf(s), r, q, PointersOf(s).(reader := reader, handler := handler));
    LaterMove(s.requests, r, q);
    WireFrame(s.wire, s.requests, s.calls, s.notes, s.requests[r := q], s.calls, s.notes);
    OrderFrame(s.enqueued, s.dequeued, s.handled, s.fl.handlerQueue, s.handler, |s.requests|, handler, |s.requests|);
  }

  lemma MoveKeeps(s: Sys, r: nat, q: Request, reader: ReaderPc, handler: HandlerPc)
    requires Inv(s) && r < |s.requests| && SameGoroutines(s, reader, handler)
    requires q.id == s.requests[r].id && (Early(q.phase) == Early(s.requests[r].phase) || q.id.None?)
    requires q.phase.Queued? == s.requests[r].phase.Queued?
    requires q.phase.Done? == s.requests[r].phase.Done?
    requires s.requests[r].phase.Finishing? ==> q.phase.Finishing?
    requires reader == s.reader || (OnlyReader(s.reader, r) && OnlyReader(reader, r))
    requires handler == s.handler || (OnlyHandler(s.handler, r) && OnlyHandler(handler, r))
    requires RequestOk(q, r, PointersOf(s).(reader := reader, handler := handler))
    requires ReaderOk(s.requests[r := q], reader) && HandlerOk(s.requests[r := q], reader, handler)
    ensures Inv(s.(requests := s.requests[r := q], reader := reader, handler := handler))
  {
    MoveParts(s, r, q, reader, handler);
    UnfinishedUpdate(s.requests, r, q);
  }

  lemma RespondKeeps(s: Sys, r: nat)
    requires Inv(s) && Enabled(s, Respond(r))
    ensures Kept(RespondStep(s, r))
  {
    UnlockUnchanged(s);
    assert RequestOk(s.requests[r], r, PointersOf(s));
    MoveKeeps(s, r, s.requests[r].(phase := Completing, driver := ByResponder), s.reader, s.handler);
  }

  lemma CancelFiresKeeps(s: Sys, r: nat)
    requires Inv(s) && Enabled(s, CancelFires(r))
    ensures Kept(Next(s, CancelFires(r)))
  {
    assert RequestOk(s.requests[r], r, PointersOf(s));
    MoveKeeps(s, r, s.requests[r].(cancelled := true), s.reader, s.handler);
  }

  lemma NotificationDoneKeeps(s: Sys, r: nat)
    requires Inv(s) && Enabled(s, NotificationDone(r))
    ensures Kept(Ok(SetPhase(s, r, Finishing, s.requests[r].driver)))
  {
    assert RequestOk(s.requests[r], r, PointersOf(s));
    MoveKeeps(s, r, s.requests[r].(phase := Finishing), s.reader, s.handler);
  }

  lemma PreemptAnswersKeeps(s: Sys, r: nat)
    requires Inv(s) && s.reader == ReaderPreempting(r) && MayReturn(s, r, false)
    ensures Kept(PreemptReturnsStep(s, r, Answers))
  {
    assert RequestOk(s.requests[r], r, PointersOf(s));
    MoveKeeps(s, r, s.requests[r].(phase := Completing, driver := ByReader), ReaderReplying(r), s.handler);
  }

  lemma PreemptGoesAsyncKeeps(s: Sys, r: nat)
    requires Inv(s) && s.reader == ReaderPreempting(r) && MayReturn(s, r, true)
    ensures Kept(PreemptReturnsStep(s, r, GoesAsync))
  {
    assert RequestOk(s.requests[r], r, PointersOf(s));
    assert s.requests[r := s.requests[r]] == s.requests;
    MoveKeeps(s, r, s.requests[r], ReaderReading, s.handler);
  }

  lemma HandleReturnsKeeps(s: Sys, r: nat, async: bool)
    requires Inv(s) && s.handler == HandlerHandling(r) && MayReturn(s, r, async)
    ensures Kept(HandleReturnsStep(s, r, async))
  {
    assert RequestOk(s.requests[r], r, PointersOf(s));
    if async {
      assert s.requests[r := s.requests[r]] == s.requests;
      MoveKeeps(s, r, s.requests[r], s.reader, HandlerPolling);
    } else {
      MoveKeeps(s, r, s.requests[r].(phase := Completing, driver := ByHandler), s.reader, HandlerReplying(r));
    }
  }

  lemma HandlerChecksKeeps(s: Sys, r: nat)
    requires Inv(s) && s.handler == HandlerChecking(r)
    ensures r < |s.requests| && Kept(HandlerChecksStep(s, r))
  {
    assert RequestOk(s.requests[r], r, PointersOf(s));
    if s.requests[r].cancelled {
      var q := s.requests[r].(phase := Completing, driver := ByHandler);
      MoveKeeps(s, r, q, s.reader, HandlerReplying(r));
      UnlockUnchanged(s.(requests := s.requests[r := q], handler := HandlerReplying(r)));
    } else {
      MoveKeeps(s, r, s.requests[r].(phase := Open, driver := Nobody, delivered := true), s.reader, HandlerHandling(r));
    }
  }

  lemma FinishParts(s: Sys, r: nat, q: Request, reader: ReaderPc, handler: HandlerPc)
    requires PartsOk(s) && r < |s.requests| && s.requests[r].phase.Finishing?
    requires q == s.requests[r].(phase := Done, cancelled := true)
    requires reader == if q.driver.ByReader? then ReaderReading else s.reader
    requires handler == if q.driver.ByHandler? then HandlerPolling else s.handler
    ensures PartsOk(s.(requests := s.requests[r := q], reader := reader, handler := handler))
    ensures SameGoroutines(s, reader, handler)
    ensures r in Unfinished(s.requests)
  {
    assert RequestOk(s.requests[r], r, PointersOf(s));
    MoveParts(s, r, q, reader, handler);
  }

  lemma FinishRequestKeeps(s: Sys, r: nat)
    requires Inv(s) && Enabled(s, FinishRequest(r))
    ensures Kept(FinishRequestStep(s, r))
  {
    assert RequestOk(s.requests[r], r, PointersOf(s));
    var q := s.requests[r].(phase := Done, cancelled := true);
    var reader := if q.driver.ByReader? then ReaderReading else s.reader;
    var handler := if q.driver.ByHandler? then HandlerPolling else s.handler;
    FinishParts(s, r, q, reader, handler);
    UnfinishedUpdate(s.requests, r, q);
    Leave(s.(requests := s.requests[r := q], reader := reader, handler := handler),
          s.fl.(incoming := s.fl.incoming - 1));
  }

  // ----- forgetting an id -----

  lemma DropTable(requests: seq<Request>, p: Pointers, r: nat, q: Request)
    requires TableOk(requests, p) && r < |requests|
    requires requests[r].phase.Completing? && requests[r].id.Some?
    requires q == requests[r].(phase := Answering) || q == requests[r].(phase := Finishing)
    ensures requests[r].id.value in p.byID && p.byID[requests[r].id.value] == r
    ensures TableOk(requests[r := q], p.(byID := p.byID - {requests[r].id.value}))
  {
    assert RequestOk(requests[r], r, p);
    var requests' := requests[r := q];
    var p' := p.(byID := p.byID - {requests[r].id.value});
    forall k: nat {:trigger requests'[k]} | k < |requests|
      ensures RequestOk(requests'[k], k, p')
    {
      assert RequestOk(requests[k], k, p);
    }
  }

  lemma DropParts(s: Sys, r: nat, q: Request)
    requires PartsOk(s) && Enabled(s, DropID(r, true))
    requires q == s.requests[r].(phase := Answering) || q == s.requests[r].(phase := Finishing)
    ensures PartsOk(s.(requests := s.requests[r := q], fl := s.fl.DropRequest(s.requests[r].id.value)))
  {
    DropTable(s.requests, PointersOf(s), r, q);
    LaterMove(s.requests, r, q);
    WireFrame(s.wire, s.requests, s.calls, s.notes, s.requests[r := q], s.calls, s.notes);
  }

  lemma DropIDKeeps(s: Sys, r: nat, marshalled: bool)
    requires Inv(s) && Enabled(s, DropID(r, marshalled))
    ensures Kept(DropIDStep(s, r, marshalled))
  {
    var q := s.requests[r].(phase := if marshalled then Answering else Finishing);
    DropParts(s, r, q);
    UnfinishedUpdate(s.requests, r, q);
    Leave(s.(requests := s.requests[r := q]), s.fl.DropRequest(s.requests[r].id.value));
  }

  // ----- the handler queue -----

  lemma EnqueueTable(requests: seq<Request>, p: Pointers, r: nat, handler: HandlerPc)
    requires TableOk(requests, p) && p.reader == ReaderPreempting(r) && r < |requests| && requests[r].phase.Open?
    requires handler == p.handler || (p.handler.HandlerOff? && handler.HandlerPolling?)
    requires !p.writeErr
    ensures TableOk(requests[r := requests[r].(phase := Queued)],
                    p.(reader := ReaderReading, handler := handler, queue := p.queue + [r]))
  {
    assert RequestOk(requests[r], r, p);
    var requests' := requests[r := requests[r].(phase := Queued)];
    var p' := p.(reader := ReaderReading, handler := handler, queue := p.queue + [r]);
    forall k: nat {:trigger requests'[k]} | k < |requests|
      ensures RequestOk(requests'[k], k, p')
    {
      assert RequestOk(requests[k], k, p);
    }
    assert r !in p.queue;
  }

  lemma EnqueueOrder(enqueued: seq<nat>, dequeued: seq<nat>, handled: seq<nat>, queue: seq<nat>,
                     handler: HandlerPc, n: nat, r: nat, handler': HandlerPc)
    requires OrderOk(enqueued, dequeued, handled, queue, handler, n)
    requires r < n && (handler' == handler || !handler'.HandlerChecking?)
    ensures OrderOk(enqueued + [r], dequeued, handled, queue + [r], handler', n)
  {
    assert enqueued + [r] == dequeued + (queue + [r]);
  }

  lemma EnqueueParts(s: Sys, r: nat, handler: HandlerPc)
    requires PartsOk(s) && s.reader == ReaderPreempting(r) && MayReturn(s, r, false)
    requires handler == s.handler || (s.handler.HandlerOff? && handler.HandlerPolling?)
    requires !s.fl.writeErr
    ensures PartsOk(SetPhase(s, r, Queued, Nobody).(
                      reader := ReaderReading, enqueued := s.enqueued + [r], handler := handler,
                      fl := s.fl.(handlerQueue := s.fl.handlerQueue + [r], handlerRunning := true)))
  {
    assert RequestOk(s.requests[r], r, PointersOf(s));
    var q := s.requests[r].(phase := Queued, driver := Nobody);
    EnqueueTable(s.requests, PointersOf(s), r, handler);
    LaterMove(s.requests, r, q);
    WireFrame(s.wire, s.requests, s.calls, s.notes, s.requests[r := q], s.calls, s.notes);
    EnqueueOrder(s.enqueued, s.dequeued, s.handled, s.fl.handlerQueue, s.handler, |s.requests|, r, handler);
  }

  lemma PreemptDeclinesKeeps(s: Sys, r: nat)
    requires Inv(s) && s.reader == ReaderPreempting(r) && MayReturn(s, r, false)
    ensures Kept(PreemptReturnsStep(s, r, NotHandled))
  {
    if s.fl.ShuttingDown() {
      PreemptAnswersKeeps(s, r);
      UnlockUnchanged(SetPhase(s, r, Completing, ByReader).(reader := ReaderReplying(r)));
    } else {
      var handler := if s.fl.handlerRunning then s.handler else HandlerPolling;
      EnqueueParts(s, r, handler);
      UnfinishedUpdate(s.requests, r, s.requests[r].(phase := Queued, driver := Nobody));
      Leave(SetPhase(s, r, Queued, Nobody).(reader := ReaderReading, enqueued := s.enqueued + [r],
            handler := handler),
            s.fl.Enqueue(r).0);
    }
  }

  lemma DequeueTable(requests: seq<Request>, p: Pointers, q: Request)
    requires TableOk(requests, p) && p.handler.HandlerPolling? && p.queue != []
    requires q == requests[p.queue[0]].(phase := Phase.Checking, late := p.writeErr)
    ensures TableOk(requests[p.queue[0] := q], p.(handler := HandlerChecking(p.queue[0]), queue := p.queue[1..]))
  {
    var r := p.queue[0];
    assert RequestOk(requests[r], r, p);
    var requests' := requests[r := q];
    var p' := p.(handler := HandlerChecking(r), queue := p.queue[1..]);
    forall k: nat {:trigger requests'[k]} | k < |requests|
      ensures RequestOk(requests'[k], k, p')
    {
      assert RequestOk(requests[k], k, p);
    }
  }

  lemma DequeueOrder(enqueued: seq<nat>, dequeued: seq<nat>, handled: seq<nat>, queue: seq<nat>, handler: HandlerPc,
      n: nat)
    requires OrderOk(enqueued, dequeued, handled, queue, handler, n) && queue != []
    ensures OrderOk(enqueued, dequeued + [queue[0]], handled, queue[1..], HandlerChecking(queue[0]), n)
  {
    assert enqueued == dequeued + [queue[0]] + queue[1..];
  }

  lemma DequeueParts(s: Sys, r: nat, q: Request)
    requires PartsOk(s) && s.handler.HandlerPolling? && s.fl.handlerQueue != [] && r == s.fl.handlerQueue[0]
    requires r < |s.requests| && q == s.requests[r].(phase := Phase.Checking, late := s.fl.writeErr)
    ensures PartsOk(s.(requests := s.requests[r := q], handler := HandlerChecking(r), dequeued := s.dequeued + [r],
                       fl := s.fl.(handlerQueue := s.fl.handlerQueue[1..])))
  {
    DequeueTable(s.requests, PointersOf(s), q);
    assert RequestOk(s.requests[r], r, PointersOf(s));
    LaterMove(s.requests, r, q);
    WireFrame(s.wire, s.requests, s.calls, s.notes, s.requests[r := q], s.calls, s.notes);
    DequeueOrder(s.enqueued, s.dequeued, s.handled, s.fl.handlerQueue, s.handler, |s.requests|);
  }

  lemma HandlerPollsKeeps(s: Sys)
    requires Inv(s) && s.handler.HandlerPolling?
    ensures Kept(HandlerPollsStep(s))
  {
    if s.fl.handlerQueue == [] {
      HandlerStopsParts(s);
      Leave(s.(handler := HandlerOff), s.fl.Dequeue().0);
    } else {
      var r := s.fl.handlerQueue[0];
      var q := s.requests[r].(phase := Phase.Checking, late := s.fl.writeErr);
      DequeueParts(s, r, q);
      UnfinishedUpdate(s.requests, r, q);
      Leave(s.(requests := s.requests[r := q], handler := HandlerChecking(r), dequeued := s.dequeued + [r]),
            s.fl.Dequeue().0);
    }
  }

  lemma HandlerStopsParts(s: Sys)
    requires PartsOk(s) && s.handler.HandlerPolling? && s.fl.handlerQueue == []
    ensures PartsOk(s.(handler := HandlerOff, fl := s.fl.(handlerRunning := false)))
  {
    GoroutinesTable(s.requests, PointersOf(s), s.reader, HandlerOff);
  }

  predicate IdleReader(pc: ReaderPc) {
    !pc.ReaderPreempting? && !pc.ReaderReplying?
  }

  predicate IdleHandler(pc: HandlerPc) {
    pc.HandlerOff? || pc.HandlerPolling?
  }

  /** A goroutine that is between requests starts or stops. */
  lemma GoroutinesTable(requests: seq<Request>, p: Pointers, reader: ReaderPc, handler: HandlerPc)
    requires TableOk(requests, p)
    requires reader == p.reader || (IdleReader(p.reader) && IdleReader(reader))
    requires handler == p.handler || (IdleHandler(p.handler) && IdleHandler(handler))
    ensures TableOk(requests, p.(reader := reader, handler := handler))
  {
    forall k: nat {:trigger requests[k]} | k < |requests|
      ensures RequestOk(requests[k], k, p.(reader := reader, handler := handler))
    {
      assert RequestOk(requests[k], k, p);
    }
  }

  // ----- reading a request -----

  lemma AppendTable(requests: seq<Request>, p: Pointers, q: Request, p': Pointers)
    requires TableOk(requests, p) && p.reader.ReaderReading?
    requires p' == p.(reader := p'.reader, byID := p'.byID)
    requires p'.reader == if q.rejected then ReaderReplying(|requests|) else ReaderPreempting(|requests|)
    requires q.phase == (if q.rejected then Completing else Open) &&
      q.driver == (if q.rejected then ByReader else Nobody)
    requires !q.cancelled && !q.late && !q.delivered && (q.duplicate ==> q.id.None?)
    requires if q.id.None? then p'.byID == p.byID
             else q.id.value !in p.byID && p'.byID == p.byID[q.id.value := |requests|]
    requires p.writeErr && q.id.Some? ==> q.rejected
    ensures TableOk(requests + [q], p')
  {
    var requests' := requests + [q];
    forall k: nat {:trigger requests'[k]} | k < |requests'|
      ensures RequestOk(requests'[k], k, p')
    {
      if k < |requests| {
        assert RequestOk(requests[k], k, p);
      }
    }
  }

  lemma LaterAppend(requests: seq<Request>, q: Request)
    ensures LaterRequests(requests, requests + [q])
  {
  }

  lemma AppendParts(s: Sys, q: Request, reader: ReaderPc, fl: InFlight<nat, nat>)
    requires PartsOk(s) && s.reader.ReaderReading?
    requires reader == if q.rejected then ReaderReplying(|s.requests|) else ReaderPreempting(|s.requests|)
    requires q.phase == (if q.rejected then Completing else Open) &&
      q.driver == (if q.rejected then ByReader else Nobody)
    requires !q.cancelled && !q.late && !q.delivered && (q.duplicate ==> q.id.None?)
    requires fl == s.fl.(incoming := fl.incoming, incomingByID := fl.incomingByID)
    requires if q.id.None? then fl.incomingByID == s.fl.incomingByID
             else q.id.value !in s.fl.incomingByID && fl.incomingByID == s.fl.incomingByID[q.id.value := |s.requests|]
    requires s.fl.writeErr && q.id.Some? ==> q.rejected
    ensures PartsOk(s.(requests := s.requests + [q], reader := reader, fl := fl))
  {
    AppendTable(s.requests, PointersOf(s), q, PointersOf(s).(reader := reader, byID := fl.incomingByID));
    LaterAppend(s.requests, q);
    WireFrame(s.wire, s.requests, s.calls, s.notes, s.requests + [q], s.calls, s.notes);
    OrderFrame(s.enqueued, s.dequeued, s.handled, s.fl.handlerQueue, s.handler, |s.requests|, s.handler,
        |s.requests| + 1);
  }

  lemma ReadRequestKeeps(s: Sys, wireID: Option<ID>)
    requires Inv(s) && s.reader.ReaderReading?
    ensures Kept(ReadRequestStep(s, wireID))
  {
    var r := |s.requests|;
    var fl, q := s.fl.AcceptNotification(), Request(None, Open, Nobody, false, false, false, false, false);
    if wireID.Some? {
      var duplicate := wireID.value in s.fl.incomingByID;
      fl := s.fl.AcceptCall(wireID.value, r).0;
      q := if duplicate then Request(None, Completing, ByReader, false, true, true, false, false)
           else if s.fl.ShuttingDown() then Request(wireID, Completing, ByReader, false, true, false, false, false)
           else Request(wireID, Open, Nobody, false, false, false, false, false);
    }
    var reader := if q.rejected then ReaderReplying(r) else ReaderPreempting(r);
    AppendParts(s, q, reader, fl);
    UnfinishedAppend(s.requests, q);
    Leave(s.(requests := s.requests + [q], reader := reader), fl);
  }

  // ----- the writer token -----

  predicate NotReply(w: Token) {
    !(w.Held? && w.job.ReplyJob?)
  }

  /** The requests do not depend on tokens that are not theirs. */
  lemma TokenTable(requests: seq<Request>, p: Pointers, writer: Token)
    requires TableOk(requests, p) && NotReply(p.writer) && NotReply(writer)
    ensures TableOk(requests, p.(writer := writer))
  {
    forall k: nat {:trigger requests[k]} | k < |requests|
      ensures RequestOk(requests[k], k, p.(writer := writer))
    {
      assert RequestOk(requests[k], k, p);
    }
  }

  /** A reply takes the token (`q` is writing) or gives it back (`q` is finishing). */
  lemma ReplyTable(requests: seq<Request>, p: Pointers, r: nat, q: Request, writer: Token)
    requires TableOk(requests, p) && r < |requests|
    requires
      || (requests[r].phase.Answering? && p.writer.Free? && writer == Held(ReplyJob(r)) &&
          q == requests[r].(phase := Writing))
      || (requests[r].phase.Writing? && p.writer == Held(ReplyJob(r)) && writer.Free? &&
          q == requests[r].(phase := Finishing))
    ensures TableOk(requests[r := q], p.(writer := writer))
  {
    assert RequestOk(requests[r], r, p);
    var requests' := requests[r := q];
    var p' := p.(writer := writer);
    forall k: nat {:trigger requests'[k]} | k < |requests|
      ensures RequestOk(requests'[k], k, p')
    {
      assert RequestOk(requests[k], k, p);
    }
  }

  lemma TokenCalls(calls: seq<Call>, outgoing: map<ID, nat>, w: Token, writer: Token)
    requires CallsOk(calls, outgoing, w)
    requires !(w.Held? && w.job.CallJob?) && !(writer.Held? && writer.job.CallJob?)
    ensures CallsOk(calls, outgoing, writer)
  {
    forall i: nat {:trigger calls[i]} | i < |calls|
      ensures CallOk(calls[i], i, outgoing, writer)
    {
      assert CallOk(calls[i], i, outgoing, w);
    }
  }

  /** Call `i` becomes `c`; the token may change only if it is about `i`. */
  lemma CallMove(calls: seq<Call>, outgoing: map<ID, nat>, w: Token, i: nat, c: Call, writer: Token)
    requires CallsOk(calls, outgoing, w) && i < |calls|
    requires c.registered == calls[i].registered && c.retired == calls[i].retired
    requires writer == w || ((w.Free? || w == Held(CallJob(i))) && (writer.Free? || writer == Held(CallJob(i))))
    requires CallOk(c, i, outgoing, writer)
    ensures CallsOk(calls[i := c], outgoing, writer)
  {
    var calls' := calls[i := c];
    forall k: nat {:trigger calls'[k]} | k < |calls|
      ensures CallOk(calls'[k], k, outgoing, writer)
    {
      assert CallOk(calls[k], k, outgoing, w);
    }
  }

  lemma TokenNotes(notes: seq<NotePhase>, w: Token, writer: Token)
    requires NotesOk(notes, w)
    requires !(w.Held? && w.job.NoteJob?) && !(writer.Held? && writer.job.NoteJob?)
    ensures NotesOk(notes, writer)
  {
  }

  lemma NoteMove(notes: seq<NotePhase>, w: Token, j: nat, p: NotePhase, writer: Token)
    requires NotesOk(notes, w) && j < |notes|
    requires writer == w || ((w.Free? || w == Held(NoteJob(j))) && (writer.Free? || writer == Held(NoteJob(j))))
    requires p.NoteSending? <==> writer == Held(NoteJob(j))
    ensures NotesOk(notes[j := p], writer)
  {
  }

  lemma LaterSame(requests: seq<Request>, calls: seq<Call>, notes: seq<NotePhase>)
    ensures LaterRequests(requests, requests) && LaterCalls(calls, calls) && LaterNotes(notes, notes)
  {
  }

  lemma AcquireParts(s: Sys, job: Job)
    requires PartsOk(s) && s.writer.Free? && Wants(s, job)
    ensures PartsOk(AcquireStep(s, job))
  {
    LaterSame(s.requests, s.calls, s.notes);
    match job
    case CallJob(i) =>
      assert CallOk(s.calls[i], i, s.fl.outgoingCalls, s.writer);
      TokenTable(s.requests, PointersOf(s), Held(job));
      CallMove(s.calls, s.fl.outgoingCalls, s.writer, i, s.calls[i].(phase := Sending), Held(job));
      TokenNotes(s.notes, s.writer, Held(job));
      WireFrame(s.wire, s.requests, s.calls, s.notes, s.requests, s.calls[i := s.calls[i].(phase := Sending)], s.notes);
    case NoteJob(j) =>
      TokenTable(s.requests, PointersOf(s), Held(job));
      TokenCalls(s.calls, s.fl.outgoingCalls, s.writer, Held(job));
      NoteMove(s.notes, s.writer, j, NoteSending, Held(job));
      WireFrame(s.wire, s.requests, s.calls, s.notes, s.requests, s.calls, s.notes[j := NoteSending]);
    case ReplyJob(r) =>
      var q := s.requests[r].(phase := Writing);
      ReplyTable(s.requests, PointersOf(s), r, q, Held(job));
      TokenCalls(s.calls, s.fl.outgoingCalls, s.writer, Held(job));
      TokenNotes(s.notes, s.writer, Held(job));
      LaterMove(s.requests, r, q);
      WireFrame(s.wire, s.requests, s.calls, s.notes, s.requests[r := q], s.calls, s.notes);
  }

  lemma AcquireCounts(s: Sys, job: Job)
    requires CountsOk(s) && Wants(s, job)
    ensures CountsOk(AcquireStep(s, job))
  {
    match job
    case CallJob(i) =>
    case NoteJob(j) => ActiveNotesUpdate(s.notes, j, NoteSending);
    case ReplyJob(r) => UnfinishedUpdate(s.requests, r, s.requests[r].(phase := Writing));
  }

  lemma AcquireKeeps(s: Sys, job: Job)
    requires Inv(s) && s.writer.Free? && Wants(s, job)
    ensures Kept(Ok(AcquireStep(s, job)))
  {
    AcquireParts(s, job);
    AcquireCounts(s, job);
  }

  /** The attempt is the job's first, so the log stays free of repetitions. */
  lemma WireAppend(wire: seq<Sent>, m: Sent, requests: seq<Request>, calls: seq<Call>, notes: seq<NotePhase>,
                   requests': seq<Request>, calls': seq<Call>, notes': seq<NotePhase>)
    requires WireOk(wire, requests, calls, notes)
    requires !SentOk(m, requests, calls, notes) && SentOk(m, requests', calls', notes')
    requires forall k :: 0 <= k < |wire| && wire[k].job == m.job ==> wire[k].id == m.id
    requires LaterRequests(requests, requests') && LaterCalls(calls, calls') && LaterNotes(notes, notes')
    ensures WireOk(wire + [m], requests', calls', notes')
  {
    WireFrame(wire, requests, calls, notes, requests', calls', notes');
    forall k | 0 <= k < |wire|
      ensures wire[k].job != m.job
    {
      assert SentOk(wire[k], requests, calls, notes);
    }
  }

  /** The log has no attempt by the job that is writing. */
  lemma NotSentYet(s: Sys, job: Job)
    requires WireOk(s.wire, s.requests, s.calls, s.notes) && Holds(s, job)
    ensures forall k :: 0 <= k < |s.wire| ==> s.wire[k].job != job
  {
    forall k | 0 <= k < |s.wire|
      ensures s.wire[k].job != job
    {
      assert SentOk(s.wire[k], s.requests, s.calls, s.notes);
    }
  }

  lemma LogWriteParts(s: Sys, job: Job, result: WriteResult)
    requires PartsOk(s) && Holds(s, job)
    ensures PartsOk(LogWrite(s, job, result))
  {
    LaterSame(s.requests, s.calls, s.notes);
    NotSentYet(s, job);
    var m := Sent(job, MessageID(s, job), result);
    match job
    case CallJob(i) =>
      assert CallOk(s.calls[i], i, s.fl.outgoingCalls, s.writer);
      var c := s.calls[i].(phase := if result.Written? then Returned else Failing);
      TokenTable(s.requests, PointersOf(s), Free);
      CallMove(s.calls, s.fl.outgoingCalls, s.writer, i, c, Free);
      TokenNotes(s.notes, s.writer, Free);
      WireAppend(s.wire, m, s.requests, s.calls, s.notes, s.requests, s.calls[i := c], s.notes);
    case NoteJob(j) =>
      TokenTable(s.requests, PointersOf(s), Free);
      TokenCalls(s.calls, s.fl.outgoingCalls, s.writer, Free);
      NoteMove(s.notes, s.writer, j, NoteLeaving, Free);
      WireAppend(s.wire, m, s.requests, s.calls, s.notes, s.requests, s.calls, s.notes[j := NoteLeaving]);
    case ReplyJob(r) =>
      assert RequestOk(s.requests[r], r, PointersOf(s));
      var q := s.requests[r].(phase := Finishing);
      ReplyTable(s.requests, PointersOf(s), r, q, Free);
      TokenCalls(s.calls, s.fl.outgoingCalls, s.writer, Free);
      TokenNotes(s.notes, s.writer, Free);
      LaterMove(s.requests, r, q);
      WireAppend(s.wire, m, s.requests, s.calls, s.notes, s.requests[r := q], s.calls, s.notes);
  }

  lemma LogWriteCounts(s: Sys, job: Job, result: WriteResult)
    requires CountsOk(s) && Holds(s, job)
    ensures CountsOk(LogWrite(s, job, result))
  {
    match job
    case CallJob(i) =>
    case NoteJob(j) => ActiveNotesUpdate(s.notes, j, NoteLeaving);
    case ReplyJob(r) => UnfinishedUpdate(s.requests, r, s.requests[r].(phase := Finishing));
  }

  // ----- the first write error -----

  /** Cancelling every call that can be answered by id keeps the table in order, now with the error recorded. */
  lemma CancelTable(requests: seq<Request>, p: Pointers)
    requires TableOk(requests, p)
    ensures TableOk(CancelAll(requests, p.byID.Values), p.(writeErr := true))
  {
    var requests' := CancelAll(requests, p.byID.Values);
    forall k: nat {:trigger requests'[k]} | k < |requests|
      ensures RequestOk(requests'[k], k, p.(writeErr := true))
    {
      assert RequestOk(requests[k], k, p);
      if requests[k].id.Some? && Early(requests[k].phase) {
        assert p.byID[requests[k].id.value] in p.byID.Values;
      }
    }
  }

  lemma CancelUnfinished(requests: seq<Request>, cancelled: set<nat>)
    ensures Unfinished(CancelAll(requests, cancelled)) == Unfinished(requests)
    ensures LaterRequests(requests, CancelAll(requests, cancelled))
  {
  }

  lemma RecordErrorKeeps(s: Sys)
    requires Inv(s)
    ensures Kept(RecordError(s))
  {
    if s.fl.writeErr {
      UnlockUnchanged(s);
    } else {
      var requests' := CancelAll(s.requests, s.fl.incomingByID.Values);
      CancelTable(s.requests, PointersOf(s));
      CancelUnfinished(s.requests, s.fl.incomingByID.Values);
      LaterSame(s.requests, s.calls, s.notes);
      WireFrame(s.wire, s.requests, s.calls, s.notes, requests', s.calls, s.notes);
      Leave(s.(requests := requests'), s.fl.RecordWriteError());
    }
  }

  lemma WriteReturnsKeeps(s: Sys, job: Job, result: WriteResult)
    requires Inv(s) && Holds(s, job)
    ensures Kept(WriteReturnsStep(s, job, result))
  {
    LogWriteParts(s, job, result);
    LogWriteCounts(s, job, result);
    if result.Broken? {
      RecordErrorKeeps(LogWrite(s, job, result));
    }
  }

  // ----- Call -----

  lemma CallNewKeeps(s: Sys)
    requires Inv(s)
    ensures Kept(Ok(s.(calls := s.calls + [Call(Fresh, false, false)])))
  {
    CallAppend(s.calls, s.fl.outgoingCalls, s.writer);
    LaterSame(s.requests, s.calls, s.notes);
    WireFrame(s.wire, s.requests, s.calls, s.notes, s.requests, s.calls + [Call(Fresh, false, false)], s.notes);
  }

  lemma CallAppend(calls: seq<Call>, outgoing: map<ID, nat>, w: Token)
    requires CallsOk(calls, outgoing, w)
    ensures CallsOk(calls + [Call(Fresh, false, false)], outgoing, w)
    ensures LaterCalls(calls, calls + [Call(Fresh, false, false)])
  {
    var calls' := calls + [Call(Fresh, false, false)];
    forall k: nat {:trigger calls'[k]} | k < |calls'|
      ensures CallOk(calls'[k], k, outgoing, w)
    {
      if k < |calls| {
        assert CallOk(calls[k], k, outgoing, w);
      }
    }
  }

  /** A call that never got into the map is retired by its caller. */
  lemma CallGivesUp(calls: seq<Call>, outgoing: map<ID, nat>, w: Token, i: nat)
    requires CallsOk(calls, outgoing, w) && i < |calls| && calls[i].phase.Fresh?
    ensures !calls[i].retired
    ensures CallsOk(calls[i := calls[i].(phase := Returned, retired := true)], outgoing, w)
  {
    assert CallOk(calls[i], i, outgoing, w);
    var calls' := calls[i := calls[i].(phase := Returned, retired := true)];
    forall k: nat {:trigger calls'[k]} | k < |calls|
      ensures CallOk(calls'[k], k, outgoing, w)
    {
      assert CallOk(calls[k], k, outgoing, w);
    }
  }

  lemma CallUnmarshalableKeeps(s: Sys, i: nat)
    requires Inv(s) && i < |s.calls| && s.calls[i].phase.Fresh?
    ensures Kept(Retire(SetCall(s, i, Returned), i))
  {
    CallGivesUp(s.calls, s.fl.outgoingCalls, s.writer, i);
    var c := s.calls[i].(phase := Returned, retired := true);
    assert s.calls[i := s.calls[i].(phase := Returned)][i := c] == s.calls[i := c];
    LaterSame(s.requests, s.calls, s.notes);
    WireFrame(s.wire, s.requests, s.calls, s.notes, s.requests, s.calls[i := c], s.notes);
  }

  lemma CallEnters(calls: seq<Call>, outgoing: map<ID, nat>, w: Token, i: nat)
    requires CallsOk(calls, outgoing, w) && i < |calls| && calls[i].phase.Fresh?
    ensures CallsOk(calls[i := calls[i].(phase := Waiting, registered := true)], outgoing[CallID(i) := i], w)
  {
    assert CallOk(calls[i], i, outgoing, w);
    var calls' := calls[i := calls[i].(phase := Waiting, registered := true)];
    forall k: nat {:trigger calls'[k]} | k < |calls|
      ensures CallOk(calls'[k], k, outgoing[CallID(i) := i], w)
    {
      assert CallOk(calls[k], k, outgoing, w);
    }
  }

  lemma CallRegistersKeeps(s: Sys, i: nat)
    requires Inv(s) && i < |s.calls| && s.calls[i].phase.Fresh?
    ensures Kept(CallRegistersStep(s, i))
  {
    if s.fl.ShuttingDown() {
      CallUnmarshalableKeeps(s, i);
      UnlockUnchanged(SetCall(s, i, Returned));
    } else {
      CallEnters(s.calls, s.fl.outgoingCalls, s.writer, i);
      var calls' := s.calls[i := s.calls[i].(phase := Waiting, registered := true)];
      LaterSame(s.requests, s.calls, s.notes);
      WireFrame(s.wire, s.requests, s.calls, s.notes, s.requests, calls', s.notes);
      Leave(s.(calls := calls'), s.fl.RegisterCall(CallID(i), i).0);
    }
  }

  /** A registered call leaves the map and is retired in the same section. */
  lemma CallLeaves(calls: seq<Call>, outgoing: map<ID, nat>, w: Token, id: ID, c: Call)
    requires CallsOk(calls, outgoing, w) && id in outgoing
    requires outgoing[id] < |calls|
    requires
      || c == calls[outgoing[id]].(retired := true)
      || (calls[outgoing[id]].phase.Failing? && c == calls[outgoing[id]].(phase := Returned, retired := true))
    ensures !calls[outgoing[id]].retired
    ensures CallsOk(calls[outgoing[id] := c], outgoing - {id}, w)
  {
    var i := outgoing[id];
    assert CallOk(calls[i], i, outgoing, w);
    var calls' := calls[i := c];
    forall k: nat {:trigger calls'[k]} | k < |calls|
      ensures CallOk(calls'[k], k, outgoing - {id}, w)
    {
      assert CallOk(calls[k], k, outgoing, w);
    }
  }

  lemma CallSendFailedKeeps(s: Sys, i: nat)
    requires Inv(s) && i < |s.calls| && s.calls[i].phase.Failing?
    ensures Kept(CallSendFailedStep(s, i))
  {
    var id := CallID(i);
    LaterSame(s.requests, s.calls, s.notes);
    if id in s.fl.outgoingCalls && s.fl.outgoingCalls[id] == i {
      var c := s.calls[i].(phase := Returned, retired := true);
      CallLeaves(s.calls, s.fl.outgoingCalls, s.writer, id, c);
      assert s.calls[i := s.calls[i].(phase := Returned)][i := c] == s.calls[i := c];
      WireFrame(s.wire, s.requests, s.calls, s.notes, s.requests, s.calls[i := c], s.notes);
      Leave(s.(calls := s.calls[i := c]), s.fl.RemoveCall(id));
    } else {
      var c := s.calls[i].(phase := Returned);
      assert CallOk(s.calls[i], i, s.fl.outgoingCalls, s.writer);
      CallMove(s.calls, s.fl.outgoingCalls, s.writer, i, c, s.writer);
      WireFrame(s.wire, s.requests, s.calls, s.notes, s.requests, s.calls[i := c], s.notes);
      UnlockUnchanged(s.(calls := s.calls[i := c]));
    }
  }

  lemma ReadResponseKeeps(s: Sys, id: ID)
    requires Inv(s) && s.reader.ReaderReading?
    ensures Kept(ReadResponseStep(s, id))
  {
    UnlockUnchanged(s);
    if id in s.fl.outgoingCalls {
      var i := s.fl.outgoingCalls[id];
      var c := s.calls[i].(retired := true);
      CallLeaves(s.calls, s.fl.outgoingCalls, s.writer, id, c);
      LaterSame(s.requests, s.calls, s.notes);
      WireFrame(s.wire, s.requests, s.calls, s.notes, s.requests, s.calls[i := c], s.notes);
      Leave(s.(calls := s.calls[i := c]), s.fl.RemoveCall(id));
    }
  }

  /** When the reader exits, every registered call is retired, each for the first time. */
  lemma AllCallsLeave(s: Sys)
    requires CallsOk(s.calls, s.fl.outgoingCalls, s.writer)
    ensures AllRetirable(s)
    ensures CallsOk(RetireAll(s.calls, s.fl.outgoingCalls.Values), map[], s.writer)
  {
    var calls' := RetireAll(s.calls, s.fl.outgoingCalls.Values);
    forall k: nat {:trigger calls'[k]} | k < |s.calls|
      ensures CallOk(calls'[k], k, map[], s.writer)
    {
      assert CallOk(s.calls[k], k, s.fl.outgoingCalls, s.writer);
      if s.calls[k].registered && !s.calls[k].retired {
        assert s.fl.outgoingCalls[CallID(k)] in s.fl.outgoingCalls.Values;
      }
    }
  }

  lemma ReadFailsKeeps(s: Sys)
    requires Inv(s) && s.reader.ReaderReading?
    ensures Kept(ReadFailsStep(s))
  {
    AllCallsLeave(s);
    GoroutinesTable(s.requests, PointersOf(s), ReaderExited, s.handler);
    var calls' := RetireAll(s.calls, s.fl.outgoingCalls.Values);
    LaterSame(s.requests, s.calls, s.notes);
    WireFrame(s.wire, s.requests, s.calls, s.notes, s.requests, calls', s.notes);
    Leave(s.(reader := ReaderExited, calls := calls'), s.fl.StopReading());
  }

  // ----- Notify -----

  /** A finished connection has no call in flight, so it refuses notifications. */
  lemma DoneHasNoCalls(s: Sys)
    requires MapOk(s.requests, s.fl.incomingByID) && s.fl.incoming == |Unfinished(s.requests)|
    requires FlagsOk(s.fl, s.reader, s.handler, s.writer) && s.fl.done
    ensures s.fl.NoCalls()
  {
    IncomingBoundsByID(s.requests, s.fl.incomingByID);
  }

  lemma NotifyAdmittedParts(s: Sys)
    requires PartsOk(s)
    ensures PartsOk(s.(notes := s.notes + [NoteWaiting],
                       fl := s.fl.(outgoingNotifications := s.fl.outgoingNotifications + 1)))
  {
    LaterSame(s.requests, s.calls, s.notes);
    WireFrame(s.wire, s.requests, s.calls, s.notes, s.requests, s.calls, s.notes + [NoteWaiting]);
  }

  lemma NotifyTriesKeeps(s: Sys)
    requires Inv(s)
    ensures Kept(NotifyTriesStep(s))
  {
    if s.fl.NoCalls() && s.fl.ShuttingDown() {
      UnlockUnchanged(s);
    } else {
      if s.fl.done {
        DoneHasNoCalls(s);
      }
      NotifyAdmittedParts(s);
      ActiveNotesAppend(s.notes, NoteWaiting);
      Leave(s.(notes := s.notes + [NoteWaiting]), s.fl.AdmitNotification().0);
    }
  }

  lemma NotifyUnmarshalableKeeps(s: Sys, j: nat)
    requires Inv(s) && j < |s.notes| && s.notes[j].NoteWaiting?
    ensures Kept(Ok(SetNote(s, j, NoteLeaving)))
  {
    ActiveNotesUpdate(s.notes, j, NoteLeaving);
    NoteMove(s.notes, s.writer, j, NoteLeaving, s.writer);
    LaterSame(s.requests, s.calls, s.notes);
    WireFrame(s.wire, s.requests, s.calls, s.notes, s.requests, s.calls, s.notes[j := NoteLeaving]);
  }

  lemma NotifyLeavesKeeps(s: Sys, j: nat)
    requires Inv(s) && j < |s.notes| && s.notes[j].NoteLeaving?
    ensures Kept(Locked(SetNote(s, j, NoteLeft), s.fl.LeaveNotification()))
  {
    ActiveNotesUpdate(s.notes, j, NoteLeft);
    assert j in ActiveNotes(s.notes);
    NoteMove(s.notes, s.writer, j, NoteLeft, s.writer);
    LaterSame(s.requests, s.calls, s.notes);
    WireFrame(s.wire, s.requests, s.calls, s.notes, s.requests, s.calls, s.notes[j := NoteLeft]);
    Leave(SetNote(s, j, NoteLeft), s.fl.LeaveNotification());
  }

  // ----- start, Close, Cancel -----

  lemma WriterMadeKeeps(s: Sys)
    requires Inv(s) && s.writer.Unmade?
    ensures Inv(s.(writer := Free))
  {
    TokenTable(s.requests, PointersOf(s), Free);
    TokenCalls(s.calls, s.fl.outgoingCalls, s.writer, Free);
    TokenNotes(s.notes, s.writer, Free);
  }

  lemma StartKeeps(s: Sys)
    requires Inv(s) && !s.writer.Unmade? && s.reader.ReaderNotStarted?
    ensures Kept(StartStep(s))
  {
    var reader := if s.fl.done then s.reader else ReaderReading;
    GoroutinesTable(s.requests, PointersOf(s), reader, s.handler);
    Leave(s.(reader := reader), s.fl.StartReading());
  }

  lemma CloseCalledKeeps(s: Sys)
    requires Inv(s)
    ensures Kept(Locked(s, s.fl.(connClosing := true)))
  {
    Leave(s, s.fl.(connClosing := true));
  }

  lemma CancelLooksUpKeeps(s: Sys, id: ID)
    requires Inv(s)
    ensures Kept(CancelLooksUpStep(s, id))
  {
    UnlockUnchanged(s);
    UnlockUnchanged(if id in s.fl.incomingByID then s.(cancelling := s.cancelling + {s.fl.incomingByID[id]}) else s);
  }

  // ----- all steps -----

  predicate IsCallerEvent(e: Event) {
    || e.CallNew? || e.CallUnmarshalable? || e.CallRegisters? || e.CallSendFailed?
    || e.NotifyTries? || e.NotifyUnmarshalable? || e.NotifyLeaves?
    || e.Acquire? || e.WriteReturns? || e.WriterMade? || e.Start? || e.CloseCalled? || e.CancelLooksUp?
  }

  lemma CallerEventKeeps(s: Sys, e: Event)
    requires Inv(s) && Enabled(s, e) && IsCallerEvent(e)
    ensures Kept(Next(s, e))
  {
    match e
    case WriterMade => WriterMadeKeeps(s);
    case Start => StartKeeps(s);
    case CallNew => CallNewKeeps(s);
    case CallUnmarshalable(i) => CallUnmarshalableKeeps(s, i);
    case CallRegisters(i) => CallRegistersKeeps(s, i);
    case CallSendFailed(i) => CallSendFailedKeeps(s, i);
    case NotifyTries => NotifyTriesKeeps(s);
    case NotifyUnmarshalable(j) => NotifyUnmarshalableKeeps(s, j);
    case NotifyLeaves(j) => NotifyLeavesKeeps(s, j);
    case Acquire(job) => AcquireKeeps(s, job);
    case WriteReturns(job, result) => WriteReturnsKeeps(s, job, result);
    case CloseCalled => CloseCalledKeeps(s);
    case CancelLooksUp(id) => CancelLooksUpKeeps(s, id);
  }

  lemma PreemptReturnsKeeps(s: Sys, verdict: Verdict)
    requires Inv(s) && Enabled(s, PreemptReturns(verdict))
    ensures Kept(PreemptReturnsStep(s, s.reader.r, verdict))
  {
    match verdict
    case GoesAsync => PreemptGoesAsyncKeeps(s, s.reader.r);
    case Answers => PreemptAnswersKeeps(s, s.reader.r);
    case NotHandled => PreemptDeclinesKeeps(s, s.reader.r);
  }

  lemma RequestEventKeeps(s: Sys, e: Event)
    requires Inv(s) && Enabled(s, e) && !IsCallerEvent(e)
    ensures Kept(Next(s, e))
  {
    match e
    case Respond(r) => RespondKeeps(s, r);
    case CancelFires(r) => CancelFiresKeeps(s, r);
    case ReadRequest(wireID) => ReadRequestKeeps(s, wireID);
    case ReadResponse(id) => ReadResponseKeeps(s, id);
    case ReadFails => ReadFailsKeeps(s);
    case PreemptReturns(verdict) => PreemptReturnsKeeps(s, verdict);
    case HandlerPolls => HandlerPollsKeeps(s);
    case HandlerChecks => HandlerChecksKeeps(s, s.handler.r);
    case HandleReturns(async) => HandleReturnsKeeps(s, s.handler.r, async);
    case DropID(r, marshalled) => DropIDKeeps(s, r, marshalled);
    case NotificationDone(r) => NotificationDoneKeeps(s, r);
    case FinishRequest(r) => FinishRequestKeeps(s, r);
  }

  /** No enabled event reaches a panic, and every one keeps the invariant. */
  lemma NextKeeps(s: Sys, e: Event)
    requires Inv(s) && Enabled(s, e)
    ensures Kept(Next(s, e))
  {
    if IsCallerEvent(e) {
      CallerEventKeeps(s, e);
    } else {
      RequestEventKeeps(s, e);
    }
  }
}
