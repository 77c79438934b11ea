/**
 A shutdown ends: until the connection is done it can take a step of its own, unless it
 is waiting for nothing but responses, and every such step shrinks the work that is left.
 */
module ConnectionShutdown {
  import opened Wrappers
  import opened InFlight
  import opened ConnectionProtocol
  import opened ConnectionInvariant
  import opened ConnectionSteps
  import opened ConnectionTheorems
  import opened Sums

  /** New input, or a call of Close or Cancel: steps that the connection does not wait for. */
  predicate IsInput(e: Event) {
    || e.CallNew? || e.NotifyTries? || e.CloseCalled? || e.CancelLooksUp? || e.CancelFires?
    || e.ReadRequest? || e.ReadResponse?
  }

  /** Input, or an error of a stream that has not been closed: what only the peer or a caller can bring about. */
  predicate FromOutside(s: Sys, e: Event) {
    IsInput(e) || (e.ReadFails? && s.fl.closerOpen)
  }

  // ----- the work that is left -----

  function RequestRank(q: Request): nat {
    match q.phase
    case Queued => 7
    case Checking => 6
    case Open => 5
    case Completing => 4
    case Answering => 3
    case Writing => 2
    case Finishing => 1
    case Done => 0
  }

  function CallRank(c: Call): nat {
    match c.phase
    case Fresh => 4
    case Waiting => 3
    case Sending => 2
    case Failing => 1
    case Returned => 0
  }

  function NoteRank(n: NotePhase): nat {
    match n
    case NoteWaiting => 3
    case NoteSending => 2
    case NoteLeaving => 1
    case NoteLeft => 0
  }

  function ReaderRank(pc: ReaderPc): nat {
    match pc
    case ReaderNotStarted => 3
    case ReaderReading => 1
    case ReaderExited => 0
    case _ => 2
  }

  function HandlerRank(pc: HandlerPc): nat {
    match pc
    case HandlerOff => 0
    case HandlerPolling => 1
    case _ => 2
  }

  ghost function RequestRanks(requests: seq<Request>): seq<nat> {
    seq(|requests|, r requires 0 <= r < |requests| => RequestRank(requests[r]))
  }

  ghost function CallRanks(calls: seq<Call>): seq<nat> {
    seq(|calls|, i requires 0 <= i < |calls| => CallRank(calls[i]))
  }

  ghost function NoteRanks(notes: seq<NotePhase>): seq<nat> {
    seq(|notes|, j requires 0 <= j < |notes| => NoteRank(notes[j]))
  }

  ghost function Work(s: Sys): nat {
    3 * Sum(RequestRanks(s.requests)) + Sum(CallRanks(s.calls)) + Sum(NoteRanks(s.notes))
    + ReaderRank(s.reader) + HandlerRank(s.handler) + One(s.writer.Unmade?)
  }

  lemma RequestWork(requests: seq<Request>, r: nat, q: Request)
    requires r < |requests|
    ensures Sum(RequestRanks(requests[r := q])) ==
      Sum(RequestRanks(requests)) - RequestRank(requests[r]) + RequestRank(q)
  {
    assert RequestRanks(requests[r := q]) == RequestRanks(requests)[r := RequestRank(q)];
    SumUpdate(RequestRanks(requests), r, RequestRank(q));
  }

  lemma CallWork(calls: seq<Call>, i: nat, c: Call)
    requires i < |calls|
    ensures Sum(CallRanks(calls[i := c])) == Sum(CallRanks(calls)) - CallRank(calls[i]) + CallRank(c)
  {
    assert CallRanks(calls[i := c]) == CallRanks(calls)[i := CallRank(c)];
    SumUpdate(CallRanks(calls), i, CallRank(c));
  }

  lemma NoteWork(notes: seq<NotePhase>, j: nat, p: NotePhase)
    requires j < |notes|
    ensures Sum(NoteRanks(notes[j := p])) == Sum(NoteRanks(notes)) - NoteRank(notes[j]) + NoteRank(p)
  {
    assert NoteRanks(notes[j := p]) == NoteRanks(notes)[j := NoteRank(p)];
    SumUpdate(NoteRanks(notes), j, NoteRank(p));
  }

  // ----- every step that is not input shrinks it -----

  lemma CallStepShrinks(s: Sys, e: Event, t: Sys)
    requires Enabled(s, e) && Next(s, e) == Ok(t) && s.fl.ShuttingDown()
    requires e.CallUnmarshalable? || e.CallRegisters? || e.CallSendFailed?
    ensures Work(t) < Work(s)
  {
    CallWork(s.calls, e.i, t.calls[e.i]);
    assert t.calls == s.calls[e.i := t.calls[e.i]];
  }

  lemma NoteStepShrinks(s: Sys, e: Event, t: Sys)
    requires Enabled(s, e) && Next(s, e) == Ok(t)
    requires e.NotifyUnmarshalable? || e.NotifyLeaves?
    ensures Work(t) < Work(s)
  {
    NoteWork(s.notes, e.j, t.notes[e.j]);
  }

  lemma AcquireShrinks(s: Sys, job: Job)
    requires Wants(s, job)
    ensures Work(AcquireStep(s, job)) < Work(s)
  {
    match job
    case CallJob(i) => CallWork(s.calls, i, s.calls[i].(phase := Sending));
    case NoteJob(j) => NoteWork(s.notes, j, NoteSending);
    case ReplyJob(r) => RequestWork(s.requests, r, s.requests[r].(phase := Writing));
  }

  lemma LogWriteShrinks(s: Sys, job: Job, result: WriteResult)
    requires Holds(s, job)
    ensures Work(LogWrite(s, job, result)) < Work(s)
  {
    match job
    case CallJob(i) => CallWork(s.calls, i, s.calls[i].(phase := if result.Written? then Returned else Failing));
    case NoteJob(j) => NoteWork(s.notes, j, NoteLeaving);
    case ReplyJob(r) => RequestWork(s.requests, r, s.requests[r].(phase := Finishing));
  }

  lemma RecordErrorIsNoWork(s: Sys)
    requires RecordError(s).Ok?
    ensures Work(RecordError(s).state) == Work(s)
  {
    assert RequestRanks(CancelAll(s.requests, s.fl.incomingByID.Values)) == RequestRanks(s.requests);
  }

  lemma WriteStepShrinks(s: Sys, job: Job, result: WriteResult)
    requires Holds(s, job) && WriteReturnsStep(s, job, result).Ok?
    ensures Work(WriteReturnsStep(s, job, result).state) < Work(s)
  {
    LogWriteShrinks(s, job, result);
    if result.Broken? {
      RecordErrorIsNoWork(LogWrite(s, job, result));
    }
  }

  lemma RespondShrinks(s: Sys, r: nat)
    requires Inv(s) && Enabled(s, Respond(r))
    ensures RespondStep(s, r).Ok? && Work(RespondStep(s, r).state) < Work(s)
  {
    RespondFindsItsRequest(s, r);
    RequestWork(s.requests, r, s.requests[r].(phase := Completing, driver := ByResponder));
  }

  lemma ReadFailsShrinks(s: Sys)
    requires s.reader.ReaderReading? && ReadFailsStep(s).Ok?
    ensures Work(ReadFailsStep(s).state) < Work(s)
  {
    assert CallRanks(RetireAll(s.calls, s.fl.outgoingCalls.Values)) == CallRanks(s.calls);
  }

  lemma PreemptReturnsShrinks(s: Sys, r: nat, verdict: Verdict)
    requires s.reader == ReaderPreempting(r) && MayReturn(s, r, verdict.GoesAsync?) && s.fl.ShuttingDown()
    requires PreemptReturnsStep(s, r, verdict).Ok?
    ensures Work(PreemptReturnsStep(s, r, verdict).state) < Work(s)
  {
    RequestWork(s.requests, r, s.requests[r].(phase := Completing, driver := ByReader));
  }

  lemma HandlerPollsShrinks(s: Sys)
    requires QueueOk(s.requests, s.fl.handlerQueue) && s.handler.HandlerPolling? && HandlerPollsStep(s).Ok?
    ensures Work(HandlerPollsStep(s).state) < Work(s)
  {
    if s.fl.handlerQueue != [] {
      var r := s.fl.handlerQueue[0];
      RequestWork(s.requests, r, s.requests[r].(phase := Phase.Checking, late := s.fl.writeErr));
    }
  }

  lemma HandlerChecksShrinks(s: Sys, r: nat)
    requires s.handler == HandlerChecking(r) && r < |s.requests| && s.requests[r].phase.Checking?
    requires HandlerChecksStep(s, r).Ok?
    ensures Work(HandlerChecksStep(s, r).state) < Work(s)
  {
    RequestWork(s.requests, r, HandlerChecksStep(s, r).state.requests[r]);
  }

  lemma HandleReturnsShrinks(s: Sys, r: nat, async: bool)
    requires s.handler == HandlerHandling(r) && MayReturn(s, r, async)
    ensures Work(HandleReturnsStep(s, r, async).state) < Work(s)
  {
    RequestWork(s.requests, r, s.requests[r].(phase := Completing, driver := ByHandler));
  }

  lemma DropIDShrinks(s: Sys, r: nat, marshalled: bool)
    requires Enabled(s, DropID(r, marshalled)) && DropIDStep(s, r, marshalled).Ok?
    ensures Work(DropIDStep(s, r, marshalled).state) < Work(s)
  {
    RequestWork(s.requests, r, s.requests[r].(phase := if marshalled then Answering else Finishing));
  }

  lemma NotificationDoneShrinks(s: Sys, r: nat)
    requires Enabled(s, NotificationDone(r))
    ensures Work(SetPhase(s, r, Finishing, s.requests[r].driver)) < Work(s)
  {
    RequestWork(s.requests, r, s.requests[r].(phase := Finishing));
  }

  lemma FinishRequestShrinks(s: Sys, r: nat)
    requires Enabled(s, FinishRequest(r)) && FinishRequestStep(s, r).Ok?
    ensures Work(FinishRequestStep(s, r).state) < Work(s)
  {
    RequestWork(s.requests, r, s.requests[r].(phase := Done, cancelled := true));
  }

  lemma StartShrinks(s: Sys, t: Sys)
    requires Enabled(s, Start) && StartStep(s) == Ok(t) && !s.fl.done
    ensures Work(t) < Work(s)
  {
  }

  /** During a shutdown every step that is not input leaves less work. */
  lemma StepShrinksWork(s: Sys, e: Event, t: Sys)
    requires Inv(s) && Enabled(s, e) && Next(s, e) == Ok(t) && !IsInput(e)
    requires s.fl.ShuttingDown() && !s.fl.done
    ensures Work(t) < Work(s)
  {
    match e
    case WriterMade =>
    case Start => StartShrinks(s, t);
    case CallUnmarshalable(_) | CallRegisters(_) | CallSendFailed(_) => CallStepShrinks(s, e, t);
    case NotifyUnmarshalable(_) | NotifyLeaves(_) => NoteStepShrinks(s, e, t);
    case Acquire(job) => AcquireShrinks(s, job);
    case WriteReturns(job, result) => WriteStepShrinks(s, job, result);
    case Respond(r) => RespondShrinks(s, r);
    case ReadFails => ReadFailsShrinks(s);
    case PreemptReturns(verdict) => PreemptReturnsShrinks(s, s.reader.r, verdict);
    case HandlerPolls => HandlerPollsShrinks(s);
    case HandlerChecks => HandlerChecksShrinks(s, s.handler.r);
    case HandleReturns(async) => HandleReturnsShrinks(s, s.handler.r, async);
    case DropID(r, marshalled) => DropIDShrinks(s, r, marshalled);
    case NotificationDone(r) => NotificationDoneShrinks(s, r);
    case FinishRequest(r) => FinishRequestShrinks(s, r);
  }

  // ----- and one is possible unless only responses are awaited -----

  /** A step of the job that holds the token, or the job itself takes the free token. */
  lemma TokenMoves(s: Sys, job: Job) returns (e: Event)
    requires Inv(s) && !s.writer.Unmade? && Wants(s, job)
    ensures Enabled(s, e) && !FromOutside(s, e)
  {
    if s.writer.Free? {
      e := Acquire(job);
    } else {
      e := HolderMoves(s, s.writer.job);
    }
  }

  lemma HolderMoves(s: Sys, job: Job) returns (e: Event)
    requires Inv(s) && s.writer == Held(job)
    ensures Enabled(s, e) && !FromOutside(s, e)
  {
    match job {
      case CallJob(i) => assert CallOk(s.calls[i], i, s.fl.outgoingCalls, s.writer);
      case NoteJob(j) => assert s.notes[j].NoteSending?;
      case ReplyJob(r) => assert RequestOk(s.requests[r], r, PointersOf(s));
    }
    e := WriteReturns(job, Written);
  }

  /** `processResult` never gets stuck. */
  lemma ActiveMoves(s: Sys, r: nat) returns (e: Event)
    requires Inv(s) && !s.writer.Unmade? && r < |s.requests| && Active(s.requests[r].phase)
    ensures Enabled(s, e) && !FromOutside(s, e)
  {
    assert RequestOk(s.requests[r], r, PointersOf(s));
    match s.requests[r].phase
    case Completing => e := if s.requests[r].id.Some? then DropID(r, true) else NotificationDone(r);
    case Answering => e := TokenMoves(s, ReplyJob(r));
    case Writing => e := HolderMoves(s, ReplyJob(r));
    case Finishing => e := FinishRequest(r);
  }

  lemma HandlerMoves(s: Sys) returns (e: Event)
    requires Inv(s) && !s.writer.Unmade? && !s.handler.HandlerOff?
    ensures Enabled(s, e) && !FromOutside(s, e)
  {
    match s.handler
    case HandlerPolling => e := HandlerPolls;
    case HandlerChecking(r) => e := HandlerChecks;
    case HandlerHandling(r) =>
      assert RequestOk(s.requests[r], r, PointersOf(s));
      e := HandleReturns(!s.requests[r].phase.Open?);
    case HandlerReplying(r) => e := ActiveMoves(s, r);
  }

  lemma ReaderMoves(s: Sys) returns (e: Event)
    requires Inv(s) && !s.writer.Unmade? && !s.reader.ReaderNotStarted? && !s.reader.ReaderExited?
    requires s.reader.ReaderReading? ==> !s.fl.closerOpen
    ensures Enabled(s, e) && !FromOutside(s, e)
  {
    match s.reader
    case ReaderReading => e := ReadFails;
    case ReaderPreempting(r) =>
      assert RequestOk(s.requests[r], r, PointersOf(s));
      e := PreemptReturns(if s.requests[r].phase.Open? then Answers else GoesAsync);
    case ReaderReplying(r) => e := ActiveMoves(s, r);
  }

  lemma RequestMoves(s: Sys, r: nat) returns (e: Event)
    requires Inv(s) && !s.writer.Unmade? && r in Unfinished(s.requests)
    ensures Enabled(s, e) && !FromOutside(s, e)
  {
    assert RequestOk(s.requests[r], r, PointersOf(s));
    var q := s.requests[r];
    if Active(q.phase) {
      e := ActiveMoves(s, r);
    } else if q.phase.Open? && q.id.Some? {
      e := Respond(r);
    } else if s.reader == ReaderPreempting(r) {
      e := ReaderMoves(s);
    } else {
      e := HandlerMoves(s);
    }
  }

  lemma NoteMoves(s: Sys, j: nat) returns (e: Event)
    requires Inv(s) && !s.writer.Unmade? && j in ActiveNotes(s.notes)
    ensures Enabled(s, e) && !FromOutside(s, e)
  {
    match s.notes[j]
    case NoteWaiting => e := TokenMoves(s, NoteJob(j));
    case NoteSending => e := HolderMoves(s, NoteJob(j));
    case NoteLeaving => e := NotifyLeaves(j);
  }

  lemma CallMoves(s: Sys, i: nat) returns (e: Event)
    requires Inv(s) && !s.writer.Unmade? && i < |s.calls| && !s.calls[i].phase.Returned?
    ensures Enabled(s, e) && !FromOutside(s, e)
  {
    assert CallOk(s.calls[i], i, s.fl.outgoingCalls, s.writer);
    match s.calls[i].phase
    case Fresh => e := CallRegisters(i);
    case Waiting => e := TokenMoves(s, CallJob(i));
    case Sending => e := HolderMoves(s, CallJob(i));
    case Failing => e := CallSendFailed(i);
  }

  /**
   Nothing is left to do but to wait for the peer's responses: the reader is at its read
   on the open stream, every call has been written or given up, and some are not answered.
   */
  ghost predicate AwaitsPeer(s: Sys) {
    && s.reader.ReaderReading? && s.fl.closerOpen
    && s.fl.outgoingNotifications == 0 && s.fl.incoming == 0 && !s.fl.handlerRunning
    && s.fl.outgoingCalls != map[]
    && forall i :: 0 <= i < |s.calls| ==> s.calls[i].phase.Returned?
  }

  lemma SomeStep(s: Sys) returns (e: Event)
    requires Inv(s) && s.fl.ShuttingDown() && !s.fl.done && !AwaitsPeer(s)
    ensures Enabled(s, e) && !FromOutside(s, e)
  {
    if s.writer.Unmade? {
      e := WriterMade;
    } else if s.reader.ReaderNotStarted? {
      e := Start;
    } else if s.fl.outgoingNotifications != 0 {
      var j :| j in ActiveNotes(s.notes);
      e := NoteMoves(s, j);
    } else if s.fl.incoming != 0 {
      var r :| r in Unfinished(s.requests);
      e := RequestMoves(s, r);
    } else if s.fl.handlerRunning {
      e := HandlerMoves(s);
    } else if i: nat :| i < |s.calls| && !s.calls[i].phase.Returned? {
      e := CallMoves(s, i);
    } else {
      e := ReaderMoves(s);
    }
  }

  lemma WaitingMeansNoStep(s: Sys, e: Event)
    requires Inv(s) && AwaitsPeer(s) && Enabled(s, e)
    ensures FromOutside(s, e)
  {
    assert Unfinished(s.requests) == {} && ActiveNotes(s.notes) == {};
    assert forall r :: 0 <= r < |s.requests| ==> r in Unfinished(s.requests) || s.requests[r].phase.Done?;
    assert forall j :: 0 <= j < |s.notes| ==> j in ActiveNotes(s.notes) || s.notes[j].NoteLeft?;
  }

  /** A step of the connection itself, which leaves less work. */
  ghost predicate OwnStep(s: Sys, e: Event) {
    && Enabled(s, e) && !FromOutside(s, e)
    && Next(s, e).Ok? && Work(Next(s, e).state) < Work(s)
  }

  /**
   Until it is done, a connection that is shutting down can take a step of its own if and
   only if it is not down to waiting for responses. What the handler, the preempter and a
   write in progress owe is counted among its steps, but not the failure of an open stream:
   the error of a read is the connection's own step only after it has closed the stream.
   */
  lemma ShutdownIsNotStuck(states: seq<Sys>, events: seq<Event>, k: nat)
    requires IsRun(states, events) && k < |states|
    requires states[k].fl.ShuttingDown() && !states[k].fl.done
    ensures (exists e :: OwnStep(states[k], e)) <==> !AwaitsPeer(states[k])
  {
    var s := states[k];
    RunKeepsInvariant(states, events, k);
    if AwaitsPeer(s) {
      forall e | Enabled(s, e)
        ensures FromOutside(s, e)
      {
        WaitingMeansNoStep(s, e);
      }
    } else {
      var e := SomeStep(s);
      NextKeeps(s, e);
      StepShrinksWork(s, e, Next(s, e).state);
      assert OwnStep(s, e);
    }
  }

  lemma ResponseStep(s: Sys, id: ID)
    requires Inv(s) && AwaitsPeer(s) && id in s.fl.outgoingCalls
    ensures Enabled(s, ReadResponse(id)) && Next(s, ReadResponse(id)).Ok?
    ensures
      var t, i := Next(s, ReadResponse(id)).state, s.fl.outgoingCalls[id];
      && i < |s.calls| && !s.calls[i].retired && Ok(t.fl) == s.fl.RemoveCall(id).Unlock() && Inv(t)
      && t == s.(calls := s.calls[i := s.calls[i].(retired := true)], fl := t.fl)
  {
    NextKeeps(s, ReadResponse(id));
  }

  lemma ReadEnds(s: Sys)
    requires Inv(s) && s.reader.ReaderReading? && s.fl.Idle() && s.fl.ShuttingDown()
    ensures Enabled(s, ReadFails) && Next(s, ReadFails).Ok? && Next(s, ReadFails).state.fl.done
  {
    NextKeeps(s, ReadFails);
    assert s.fl.outgoingCalls == map[];
  }

  /** Each awaited response ends the wait for its call; the last one closes the stream, and then the read ends. */
  lemma ResponsesEndTheWait(s: Sys, id: ID)
    requires Inv(s) && s.fl.ShuttingDown() && !s.fl.done && AwaitsPeer(s) && id in s.fl.outgoingCalls
    ensures Enabled(s, ReadResponse(id)) && Next(s, ReadResponse(id)).Ok?
    ensures
      var t := Next(s, ReadResponse(id)).state;
      && t.fl.outgoingCalls == s.fl.outgoingCalls - {id} && t.fl.ShuttingDown() && !t.fl.done
      && (if s.fl.outgoingCalls.Keys == {id} then
            !t.fl.closerOpen && Enabled(t, ReadFails) && Next(t, ReadFails).Ok? && Next(t, ReadFails).state.fl.done
          else AwaitsPeer(t))
  {
    ResponseStep(s, id);
    var t := Next(s, ReadResponse(id)).state;
    assert (s.fl.outgoingCalls - {id}).Keys == s.fl.outgoingCalls.Keys - {id};
    if s.fl.outgoingCalls.Keys == {id} {
      assert s.fl.RemoveCall(id).outgoingCalls == map[];
      ReadEnds(t);
    } else {
      var other :| other in s.fl.outgoingCalls && other != id;
      assert other in s.fl.RemoveCall(id).outgoingCalls;
    }
  }
}
