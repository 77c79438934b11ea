/**
 What comes of a message or a call: the whole new state, spelled out on the fields of the
 old one, after each section that admits or refuses something and after each check of the
 handler goroutine. These hold in every state that satisfies the invariant.
 */
module ConnectionAdmission {
  import opened Wrappers
  import opened InFlight
  import opened ConnectionProtocol
  import opened ConnectionInvariant
  import opened ConnectionSteps

  /** `Close` was called, the reader has failed, or a write has. */
  predicate Closing(fl: InFlight<nat, nat>) {
    fl.connClosing || fl.readErr || fl.writeErr
  }

  // ----- outgoing -----

  /** `Notify` gets through unless a shutdown has begun and no call is in flight in either direction. */
  lemma NotifyIsAdmittedIff(s: Sys)
    requires Inv(s)
    ensures
      Next(s, NotifyTries) == Ok(
        if Closing(s.fl) && s.fl.outgoingCalls == map[] && s.fl.incomingByID == map[] then s
        else s.(notes := s.notes + [NoteWaiting],
                fl := s.fl.(outgoingNotifications := s.fl.outgoingNotifications + 1)))
  {
    NotifyTriesKeeps(s);
    UnlockUnchanged(s);
  }

  /** A call waits for its response if and only if no shutdown has begun; otherwise it fails at once. */
  lemma CallIsRegisteredIff(s: Sys, i: nat)
    requires Inv(s) && Enabled(s, CallRegisters(i))
    ensures
      Next(s, CallRegisters(i)) == Ok(
        if Closing(s.fl) then s.(calls := s.calls[i := Call(Returned, false, true)])
        else s.(calls := s.calls[i := Call(Waiting, true, false)],
                fl := s.fl.(outgoingCalls := s.fl.outgoingCalls[CallID(i) := i])))
  {
    assert CallOk(s.calls[i], i, s.fl.outgoingCalls, s.writer);
    CallRegistersKeeps(s, i);
    if Closing(s.fl) {
      var c := s.calls[i].(phase := Returned);
      UnlockUnchanged(SetCall(s, i, Returned));
      assert s.calls[i := c][i := c.(retired := true)] == s.calls[i := c.(retired := true)];
    }
  }

  /** A call is over when it was written, and has to be taken back when it was not. */
  lemma CallIsWritten(s: Sys, i: nat, result: WriteResult)
    requires Inv(s) && Enabled(s, WriteReturns(CallJob(i), result))
    ensures Next(s, WriteReturns(CallJob(i), result)).Ok?
    ensures
      var t := Next(s, WriteReturns(CallJob(i), result)).state;
      && t.calls == s.calls[i := s.calls[i].(phase := if result == Written then Returned else Failing)]
      && t.fl.writeErr == (s.fl.writeErr || result == Broken)
      && t.fl.outgoingCalls == s.fl.outgoingCalls
      && t.writer == Free
  {
    WriteReturnsKeeps(s, CallJob(i), result);
  }

  lemma KnownIDIsItsCall(s: Sys, i: nat)
    requires Inv(s) && i < |s.calls|
    ensures CallID(i) in s.fl.outgoingCalls <==> s.calls[i].registered && !s.calls[i].retired
    ensures CallID(i) in s.fl.outgoingCalls ==> s.fl.outgoingCalls[CallID(i)] == i
  {
    assert CallOk(s.calls[i], i, s.fl.outgoingCalls, s.writer);
  }

  /** A call that could not be written leaves the map and is retired ... */
  lemma FailedCallIsRetired(s: Sys, i: nat)
    requires Inv(s) && Enabled(s, CallSendFailed(i)) && !s.calls[i].retired
    ensures Next(s, CallSendFailed(i)).Ok?
    ensures
      var t := Next(s, CallSendFailed(i)).state;
      && t.calls == s.calls[i := Call(Returned, true, true)]
      && t.fl.outgoingCalls == s.fl.outgoingCalls - {CallID(i)}
  {
    CallSendFailedKeeps(s, i);
    assert CallOk(s.calls[i], i, s.fl.outgoingCalls, s.writer);
    var c := s.calls[i].(phase := Returned);
    assert s.calls[i := c][i := c.(retired := true)] == s.calls[i := c.(retired := true)];
  }

  /** ... unless a response or the reader's end was first. */
  lemma RetiredCallJustReturns(s: Sys, i: nat)
    requires Inv(s) && Enabled(s, CallSendFailed(i)) && s.calls[i].retired
    ensures Next(s, CallSendFailed(i)) == Ok(s.(calls := s.calls[i := s.calls[i].(phase := Returned)]))
  {
    KnownIDIsItsCall(s, i);
    UnlockUnchanged(SetCall(s, i, Returned));
  }

  /** A response retires the call that waits under its id; any other response changes nothing. */
  lemma ResponseRetiresItsCall(s: Sys, i: nat)
    requires Inv(s) && Enabled(s, ReadResponse(CallID(i))) && i < |s.calls|
    ensures Next(s, ReadResponse(CallID(i))).Ok?
    ensures
      var t := Next(s, ReadResponse(CallID(i))).state;
      if s.calls[i].registered && !s.calls[i].retired then
        && t.calls == s.calls[i := s.calls[i].(retired := true)]
        && t.fl.outgoingCalls == s.fl.outgoingCalls - {CallID(i)}
      else
        t == s
  {
    KnownIDIsItsCall(s, i);
    ReadResponseKeeps(s, CallID(i));
    UnlockUnchanged(s);
  }

  // ----- incoming -----

  /** A notification always goes to the preempter. */
  lemma NotificationArrives(s: Sys)
    requires Inv(s) && Enabled(s, ReadRequest(None))
    ensures
      Next(s, ReadRequest(None)) == Ok(
        s.(requests := s.requests + [Request(None, Open, Nobody, false, false, false, false, false)],
           reader := ReaderPreempting(|s.requests|), fl := s.fl.(incoming := s.fl.incoming + 1)))
  {
    ReadRequestKeeps(s, None);
  }

  /** So does a call, if its id is free and no shutdown has begun. */
  lemma CallIsAccepted(s: Sys, id: ID)
    requires Inv(s) && Enabled(s, ReadRequest(Some(id))) && id !in s.fl.incomingByID && !Closing(s.fl)
    ensures
      Next(s, ReadRequest(Some(id))) == Ok(
        s.(requests := s.requests + [Request(Some(id), Open, Nobody, false, false, false, false, false)],
           reader := ReaderPreempting(|s.requests|),
           fl := s.fl.(incoming := s.fl.incoming + 1,
                       incomingByID := s.fl.incomingByID[id := |s.requests|])))
  {
    ReadRequestKeeps(s, Some(id));
  }

  /** A call whose id is taken is counted and rejected; it loses its id, so it is never answered. */
  lemma DuplicateIsRejected(s: Sys, id: ID)
    requires Inv(s) && Enabled(s, ReadRequest(Some(id))) && id in s.fl.incomingByID
    ensures
      Next(s, ReadRequest(Some(id))) == Ok(
        s.(requests := s.requests + [Request(None, Completing, ByReader, false, true, true, false, false)],
           reader := ReaderReplying(|s.requests|), fl := s.fl.(incoming := s.fl.incoming + 1)))
  {
    ReadRequestKeeps(s, Some(id));
  }

  /** Any other call during a shutdown is counted and rejected under its own id. */
  lemma LateCallIsRejected(s: Sys, id: ID)
    requires Inv(s) && Enabled(s, ReadRequest(Some(id))) && id !in s.fl.incomingByID && Closing(s.fl)
    ensures
      Next(s, ReadRequest(Some(id))) == Ok(
        s.(requests := s.requests + [Request(Some(id), Completing, ByReader, false, true, false, false, false)],
           reader := ReaderReplying(|s.requests|),
           fl := s.fl.(incoming := s.fl.incoming + 1,
                       incomingByID := s.fl.incomingByID[id := |s.requests|])))
  {
    ReadRequestKeeps(s, Some(id));
  }

  /** What the preempter leaves goes into the queue unless a shutdown has begun, and a handler goroutine runs. */
  lemma RequestIsQueuedIff(s: Sys)
    requires Inv(s) && Enabled(s, PreemptReturns(NotHandled))
    ensures
      var r := s.reader.r;
      Next(s, PreemptReturns(NotHandled)) == Ok(
        if Closing(s.fl) then
          s.(requests := s.requests[r := s.requests[r].(phase := Completing, driver := ByReader)],
             reader := ReaderReplying(r))
        else
          s.(requests := s.requests[r := s.requests[r].(phase := Queued, driver := Nobody)], reader := ReaderReading,
             enqueued := s.enqueued + [r],
             handler := if s.handler.HandlerOff? then HandlerPolling else s.handler,
             fl := s.fl.(handlerQueue := s.fl.handlerQueue + [r], handlerRunning := true)))
  {
    PreemptDeclinesKeeps(s, s.reader.r);
    if Closing(s.fl) {
      UnlockUnchanged(SetPhase(s, s.reader.r, Completing, ByReader).(reader := ReaderReplying(s.reader.r)));
    }
  }

  /** What the preempter answers is answered by the reader; what it takes over waits for `Respond`. */
  lemma PreemptedIsNotQueued(s: Sys, verdict: Verdict)
    requires Inv(s) && Enabled(s, PreemptReturns(verdict)) && verdict != NotHandled
    ensures
      var r := s.reader.r;
      Next(s, PreemptReturns(verdict)) == Ok(
        if verdict == GoesAsync then s.(reader := ReaderReading)
        else s.(requests := s.requests[r := s.requests[r].(phase := Completing, driver := ByReader)],
                reader := ReaderReplying(r)))
  {
  }

  /** The handler goroutine takes the front of the queue, and ends if and only if the queue is empty. */
  lemma FrontIsDequeued(s: Sys)
    requires Inv(s) && Enabled(s, HandlerPolls)
    ensures Next(s, HandlerPolls).Ok?
    ensures
      var t := Next(s, HandlerPolls).state;
      if s.fl.handlerQueue == [] then
        t.handler == HandlerOff && !t.fl.handlerRunning && t.requests == s.requests
      else
        var r := s.fl.handlerQueue[0];
        && t.handler == HandlerChecking(r)
        && t.requests == s.requests[r := s.requests[r].(phase := Phase.Checking, late := s.fl.writeErr)]
        && t.fl.handlerQueue == s.fl.handlerQueue[1..]
        && t.dequeued == s.dequeued + [r]
  {
    HandlerPollsKeeps(s);
  }

  /** A dequeued request is given to the handler if and only if it has not been cancelled. */
  lemma DequeuedIsHandledIff(s: Sys)
    requires Inv(s) && Enabled(s, HandlerChecks)
    ensures
      var r := s.handler.r;
      Next(s, HandlerChecks) == Ok(
        if s.requests[r].cancelled then
          s.(requests := s.requests[r := s.requests[r].(phase := Completing, driver := ByHandler)],
             handler := HandlerReplying(r))
        else
          s.(requests := s.requests[r := s.requests[r].(phase := Open, driver := Nobody, delivered := true)],
             handler := HandlerHandling(r), handled := s.handled + [|s.dequeued|]))
  {
    var r := s.handler.r;
    HandlerChecksKeeps(s, r);
    if s.requests[r].cancelled {
      UnlockUnchanged(SetPhase(s, r, Completing, ByHandler).(handler := HandlerReplying(r)));
    }
  }

  /** What the handler answers is answered by its goroutine; what it takes over waits for `Respond`. */
  lemma HandledIsAnswered(s: Sys, async: bool)
    requires Inv(s) && Enabled(s, HandleReturns(async))
    ensures
      var r := s.handler.r;
      Next(s, HandleReturns(async)) == Ok(
        if async then s.(handler := HandlerPolling)
        else s.(requests := s.requests[r := s.requests[r].(phase := Completing, driver := ByHandler)],
                handler := HandlerReplying(r)))
  {
  }

  /** The reader starts unless the connection is already done. */
  lemma ReaderStartsIff(s: Sys)
    requires Inv(s) && Enabled(s, Start)
    ensures Next(s, Start).Ok?
    ensures Next(s, Start).state.reader == if s.fl.done then s.reader else ReaderReading
    ensures Next(s, Start).state.fl.reading == !s.fl.done
  {
    StartKeeps(s);
  }

  /** `Cancel` of a known call goes to that call; of any other id it does nothing. */
  lemma CancelFindsItsCall(s: Sys, id: ID)
    requires Inv(s)
    ensures
      Next(s, CancelLooksUp(id)) == Ok(
        if id in s.fl.incomingByID then s.(cancelling := s.cancelling + {s.fl.incomingByID[id]}) else s)
    ensures id in s.fl.incomingByID ==>
              s.fl.incomingByID[id] < |s.requests| && s.requests[s.fl.incomingByID[id]].id == Some(id)
  {
    CancelLooksUpKeeps(s, id);
    UnlockUnchanged(s);
    UnlockUnchanged(if id in s.fl.incomingByID then s.(cancelling := s.cancelling + {s.fl.incomingByID[id]}) else s);
  }
}
