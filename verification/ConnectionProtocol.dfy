/**
 The connection as a state machine. Callers, the reader goroutine, the handler
 goroutine, asynchronous responders and the single writer token interleave freely;
 every critical section on the connection's mutex is one step.

 The Handler and the Preempter are the environment. `Enabled` holds them to their
 written contract: an asynchronous result only for a call, one `Respond` for each
 such call (possibly before the handler has returned), none for any other message.
 */
module ConnectionProtocol {
  import opened Wrappers
  import opened InFlight

  // ----- outgoing calls and notifications -----

  datatype CallPhase = Fresh | Waiting | Sending | Failing | Returned

  /** Calls are numbered from 0; `retired` is the closed state of `AsyncCall.ready`. */
  datatype Call = Call(phase: CallPhase, registered: bool, retired: bool)

  datatype NotePhase = NoteWaiting | NoteSending | NoteLeaving | NoteLeft

  // ----- incoming requests -----

  datatype Phase =
    | Open        // held by the preempter or the handler, or waiting for Respond
    | Queued      // in the handler queue
    | Checking    // dequeued, its context not checked yet
    | Completing  // processResult has started
    | Answering   // the id is forgotten, the response waits for the writer
    | Writing     // the response is being written
    | Finishing   // only the decrement of `incoming` is left
    | Done

  datatype Driver = Nobody | ByReader | ByHandler | ByResponder

  /**
   `id` is `None` for a notification and for a request whose id was already in use
   (`duplicate`). `rejected` means that `acceptRequest` chose an error under the lock;
   `late` that the request was dequeued after a write error had been recorded, and
   `delivered` that it was passed to the handler.
   */
  datatype Request = Request(
    id: Option<ID>,
    phase: Phase,
    driver: Driver,
    cancelled: bool,
    rejected: bool,
    duplicate: bool,
    late: bool,
    delivered: bool)

  /** `processResult` is running for the request. */
  predicate Active(p: Phase) {
    p.Completing? || p.Answering? || p.Writing? || p.Finishing?
  }

  /** The request's id is not forgotten yet. */
  predicate Early(p: Phase) {
    p.Open? || p.Queued? || p.Checking? || p.Completing?
  }

  datatype ReaderPc = ReaderNotStarted | ReaderReading | ReaderPreempting(r: nat) | ReaderReplying(r: nat)
      | ReaderExited

  datatype HandlerPc = HandlerOff | HandlerPolling | HandlerChecking(r: nat) | HandlerHandling(r: nat)
      | HandlerReplying(r: nat)

  // ----- the writer token -----

  datatype Job = CallJob(call: nat) | NoteJob(note: nat) | ReplyJob(request: nat)

  datatype Token = Unmade | Free | Held(job: Job)

  datatype WriteResult = Written | CtxExpired | Broken

  /** One attempt to write a message; `id` is the id in the message. */
  datatype Sent = Sent(job: Job, id: Option<ID>, result: WriteResult)

  // ----- the whole system -----

  /**
   `enqueued` and `dequeued` list requests in the order they went through the handler
   queue, `handled` the ordinals (from 1) in `dequeued` that reached the handler, and
   `wire` the attempts to write.
   */
  datatype Sys = Sys(
    fl: InFlight<nat, nat>,
    requests: seq<Request>,
    calls: seq<Call>,
    notes: seq<NotePhase>,
    reader: ReaderPc,
    handler: HandlerPc,
    writer: Token,
    cancelling: set<nat>,
    enqueued: seq<nat>,
    dequeued: seq<nat>,
    handled: seq<nat>,
    wire: seq<Sent>)

  const InitialFlight: InFlight<nat, nat> :=
    InFlight(false, false, false, false, true, map[], 0, 0, map[], [], false, false, 0, 0)

  const Initial: Sys :=
    Sys(InitialFlight, [], [], [], ReaderNotStarted, HandlerOff, Unmade, {}, [], [], [], [])

  /** Identifiers come from an atomic counter whose first value is 1. */
  function CallID(i: nat): ID {
    IntID(i + 1)
  }

  datatype Verdict = GoesAsync | Answers | NotHandled

  datatype Event =
    | WriterMade
    | Start
    | CallNew
    | CallUnmarshalable(i: nat)
    | CallRegisters(i: nat)
    | CallSendFailed(i: nat)
    | NotifyTries
    | NotifyUnmarshalable(j: nat)
    | NotifyLeaves(j: nat)
    | Acquire(job: Job)
    | WriteReturns(job: Job, result: WriteResult)
    | CloseCalled
    | Respond(r: nat)
    | CancelLooksUp(id: ID)
    | CancelFires(r: nat)
    | ReadRequest(wireID: Option<ID>)
    | ReadResponse(id: ID)
    | ReadFails
    | PreemptReturns(verdict: Verdict)
    | HandlerPolls
    | HandlerChecks
    | HandleReturns(async: bool)
    | DropID(r: nat, marshalled: bool)
    | NotificationDone(r: nat)
    | FinishRequest(r: nat)

  predicate Wants(s: Sys, job: Job) {
    match job
    case CallJob(i) => i < |s.calls| && s.calls[i].phase.Waiting?
    case NoteJob(j) => j < |s.notes| && s.notes[j].NoteWaiting?
    case ReplyJob(r) => r < |s.requests| && s.requests[r].phase.Answering?
  }

  predicate Holds(s: Sys, job: Job) {
    && s.writer == Held(job)
    && match job
       case CallJob(i) => i < |s.calls| && s.calls[i].phase.Sending?
       case NoteJob(j) => j < |s.notes| && s.notes[j].NoteSending?
       case ReplyJob(r) => r < |s.requests| && s.requests[r].phase.Writing?
  }

  /** A result other than "later" is given once, and "later" only for calls. */
  predicate MayReturn(s: Sys, r: nat, async: bool) {
    && r < |s.requests|
    && (if async then s.requests[r].id.Some? else s.requests[r].phase.Open?)
  }

  predicate Enabled(s: Sys, e: Event) {
    match e
    case WriterMade => s.writer.Unmade?
    case Start => !s.writer.Unmade? && s.reader.ReaderNotStarted?
    case CallNew => true
    case CallUnmarshalable(i) => i < |s.calls| && s.calls[i].phase.Fresh?
    case CallRegisters(i) => i < |s.calls| && s.calls[i].phase.Fresh?
    case CallSendFailed(i) => i < |s.calls| && s.calls[i].phase.Failing?
    case NotifyTries => true
    case NotifyUnmarshalable(j) => j < |s.notes| && s.notes[j].NoteWaiting?
    case NotifyLeaves(j) => j < |s.notes| && s.notes[j].NoteLeaving?
    case Acquire(job) => s.writer.Free? && Wants(s, job)
    case WriteReturns(job, result) => Holds(s, job) && (job.ReplyJob? ==> !result.CtxExpired?)
    case CloseCalled => true
    case Respond(r) => r < |s.requests| && s.requests[r].phase.Open? && s.requests[r].id.Some?
    case CancelLooksUp(id) => true
    case CancelFires(r) => r in s.cancelling && r < |s.requests|
    case ReadRequest(_) => s.reader.ReaderReading?
    case ReadResponse(_) => s.reader.ReaderReading?
    case ReadFails => s.reader.ReaderReading?
    case PreemptReturns(v) => s.reader.ReaderPreempting? && MayReturn(s, s.reader.r, v.GoesAsync?)
    case HandlerPolls => s.handler.HandlerPolling?
    case HandlerChecks => s.handler.HandlerChecking? && s.handler.r < |s.requests|
    case HandleReturns(async) => s.handler.HandlerHandling? && MayReturn(s, s.handler.r, async)
    case DropID(r, _) => r < |s.requests| && s.requests[r].phase.Completing? && s.requests[r].id.Some?
    case NotificationDone(r) => r < |s.requests| && s.requests[r].phase.Completing? && s.requests[r].id.None?
    case FinishRequest(r) => r < |s.requests| && s.requests[r].phase.Finishing?
  }

  /** Leave the critical section with the guarded state `fl`. */
  function Locked(s: Sys, fl: InFlight<nat, nat>): Outcome<Sys> {
    match fl.Unlock()
    case Ok(g) => Ok(s.(fl := g))
    case Panicked(why) => Panicked(why)
  }

  function SetPhase(s: Sys, r: nat, phase: Phase, driver: Driver): Sys
    requires r < |s.requests|
  {
    s.(requests := s.requests[r := s.requests[r].(phase := phase, driver := driver)])
  }

  /** The last section of `newConnection`; when the connection is done already, nothing is started. */
  function StartStep(s: Sys): Outcome<Sys> {
    Locked(s.(reader := if s.fl.done then s.reader else ReaderReading), s.fl.StartReading())
  }

  // ----- Call -----

  function Retire(s: Sys, i: nat): Outcome<Sys>
    requires i < |s.calls|
  {
    if s.calls[i].retired then Panicked(RetiredTwice)
    else Ok(s.(calls := s.calls[i := s.calls[i].(retired := true)]))
  }

  function SetCall(s: Sys, i: nat, phase: CallPhase): Sys
    requires i < |s.calls|
  {
    s.(calls := s.calls[i := s.calls[i].(phase := phase)])
  }

  function CallRegistersStep(s: Sys, i: nat): Outcome<Sys>
    requires i < |s.calls|
  {
    var (fl, registered) := s.fl.RegisterCall(CallID(i), i);
    if registered then
      Locked(s.(calls := s.calls[i := s.calls[i].(phase := Waiting, registered := true)]), fl)
    else
      match Locked(SetCall(s, i, Returned), fl)
      case Ok(t) => Retire(t, i)
      case Panicked(why) => Panicked(why)
  }

  function CallSendFailedStep(s: Sys, i: nat): Outcome<Sys>
    requires i < |s.calls|
  {
    var t := SetCall(s, i, Returned);
    if CallID(i) in s.fl.outgoingCalls && s.fl.outgoingCalls[CallID(i)] == i then
      match Retire(t, i)
      case Ok(u) => Locked(u, s.fl.RemoveCall(CallID(i)))
      case Panicked(why) => Panicked(why)
    else
      Locked(t, s.fl)
  }

  // ----- Notify -----

  function SetNote(s: Sys, j: nat, phase: NotePhase): Sys
    requires j < |s.notes|
  {
    s.(notes := s.notes[j := phase])
  }

  function NotifyTriesStep(s: Sys): Outcome<Sys> {
    var (fl, admitted) := s.fl.AdmitNotification();
    Locked(if admitted then s.(notes := s.notes + [NoteWaiting]) else s, fl)
  }

  // ----- write -----

  function AcquireStep(s: Sys, job: Job): Sys
    requires Wants(s, job)
  {
    var t := s.(writer := Held(job));
    match job
    case CallJob(i) => SetCall(t, i, Sending)
    case NoteJob(j) => SetNote(t, j, NoteSending)
    case ReplyJob(r) => SetPhase(t, r, Writing, t.requests[r].driver)
  }

  function CancelAll(requests: seq<Request>, cancelled: set<nat>): (result: seq<Request>)
    ensures |result| == |requests|
    ensures forall r :: 0 <= r < |requests| ==>
              result[r] == if r in cancelled then requests[r].(cancelled := true) else requests[r]
  {
    seq(|requests|, r requires 0 <= r < |requests| =>
      if r in cancelled then requests[r].(cancelled := true) else requests[r])
  }

  /** The section of `write` that records the first write error. */
  function RecordError(s: Sys): Outcome<Sys> {
    if s.fl.writeErr then Locked(s, s.fl)
    else Locked(s.(requests := CancelAll(s.requests, s.fl.incomingByID.Values)), s.fl.RecordWriteError())
  }

  function MessageID(s: Sys, job: Job): Option<ID> {
    match job
    case CallJob(i) => Some(CallID(i))
    case NoteJob(_) => None
    case ReplyJob(r) => if r < |s.requests| then s.requests[r].id else None
  }

  /** The write returns, the token goes back, and the job moves on. */
  function LogWrite(s: Sys, job: Job, result: WriteResult): Sys
    requires Holds(s, job)
  {
    var t := s.(writer := Free, wire := s.wire + [Sent(job, MessageID(s, job), result)]);
    match job
    case CallJob(i) => SetCall(t, i, if result.Written? then Returned else Failing)
    case NoteJob(j) => SetNote(t, j, NoteLeaving)
    case ReplyJob(r) => SetPhase(t, r, Finishing, t.requests[r].driver)
  }

  function WriteReturnsStep(s: Sys, job: Job, result: WriteResult): Outcome<Sys>
    requires Holds(s, job)
  {
    var t := LogWrite(s, job, result);
    if result.Broken? then RecordError(t) else Ok(t)
  }

  // ----- Respond and Cancel -----

  function RespondStep(s: Sys, r: nat): Outcome<Sys>
    requires r < |s.requests| && s.requests[r].id.Some?
  {
    var id := s.requests[r].id.value;
    match Locked(s, s.fl)
    case Panicked(why) => Panicked(why)
    case Ok(t) =>
      if id !in t.fl.incomingByID then Panicked(InternalError)
      else if t.fl.incomingByID[id] >= |t.requests| then Panicked(DanglingReference)
      else if t.requests[t.fl.incomingByID[id]].phase.Done? then Panicked(InternalError)
      else Ok(SetPhase(t, t.fl.incomingByID[id], Completing, ByResponder))
  }

  function CancelLooksUpStep(s: Sys, id: ID): Outcome<Sys> {
    Locked(if id in s.fl.incomingByID then s.(cancelling := s.cancelling + {s.fl.incomingByID[id]}) else s, s.fl)
  }

  // ----- the reader goroutine -----

  function ReadRequestStep(s: Sys, wireID: Option<ID>): Outcome<Sys> {
    var r := |s.requests|;
    match wireID
    case None =>
      Locked(s.(requests := s.requests + [Request(None, Open, Nobody, false, false, false, false, false)],
                reader := ReaderPreempting(r)),
             s.fl.AcceptNotification())
    case Some(id) =>
      var (fl, duplicate) := s.fl.AcceptCall(id, r);
      var request :=
        if duplicate then Request(None, Completing, ByReader, false, true, true, false, false)
        else if s.fl.ShuttingDown() then Request(wireID, Completing, ByReader, false, true, false, false, false)
        else Request(wireID, Open, Nobody, false, false, false, false, false);
      Locked(s.(requests := s.requests + [request],
                reader := if request.rejected then ReaderReplying(r) else ReaderPreempting(r)),
             fl)
  }

  function ReadResponseStep(s: Sys, id: ID): Outcome<Sys> {
    if id in s.fl.outgoingCalls then
      if s.fl.outgoingCalls[id] >= |s.calls| then Panicked(DanglingReference)
      else match Retire(s, s.fl.outgoingCalls[id])
           case Ok(t) => Locked(t, s.fl.RemoveCall(id))
           case Panicked(why) => Panicked(why)
    else
      Locked(s, s.fl)
  }

  /** Each call in the map can be retired, and none is there twice. */
  predicate AllRetirable(s: Sys) {
    && (forall id :: id in s.fl.outgoingCalls ==>
          s.fl.outgoingCalls[id] < |s.calls| && !s.calls[s.fl.outgoingCalls[id]].retired)
    && (forall i, j :: i in s.fl.outgoingCalls && j in s.fl.outgoingCalls && i != j ==>
          s.fl.outgoingCalls[i] != s.fl.outgoingCalls[j])
  }

  function RetireAll(calls: seq<Call>, pending: set<nat>): (result: seq<Call>)
    ensures |result| == |calls|
    ensures forall i :: 0 <= i < |calls| ==>
              result[i] == if i in pending then calls[i].(retired := true) else calls[i]
  {
    seq(|calls|, i requires 0 <= i < |calls| =>
      if i in pending then calls[i].(retired := true) else calls[i])
  }

  function ReadFailsStep(s: Sys): Outcome<Sys> {
    if AllRetirable(s) then
      Locked(s.(reader := ReaderExited, calls := RetireAll(s.calls, s.fl.outgoingCalls.Values)), s.fl.StopReading())
    else
      Panicked(RetiredTwice)
  }

  function PreemptReturnsStep(s: Sys, r: nat, verdict: Verdict): Outcome<Sys>
    requires r < |s.requests|
  {
    match verdict
    case GoesAsync => Ok(s.(reader := ReaderReading))
    case Answers => Ok(SetPhase(s, r, Completing, ByReader).(reader := ReaderReplying(r)))
    case NotHandled =>
      var (fl, queued) := s.fl.Enqueue(r);
      if queued then
        Locked(SetPhase(s, r, Queued, Nobody).(reader := ReaderReading, enqueued := s.enqueued + [r],
                 handler := if s.fl.handlerRunning then s.handler else HandlerPolling),
               fl)
      else
        Locked(SetPhase(s, r, Completing, ByReader).(reader := ReaderReplying(r)), fl)
  }

  // ----- the handler goroutine -----

  function HandlerPollsStep(s: Sys): Outcome<Sys> {
    var (fl, next) := s.fl.Dequeue();
    match next
    case None => Locked(s.(handler := HandlerOff), fl)
    case Some(r) =>
      if r >= |s.requests| then Panicked(DanglingReference)
      else Locked(s.(requests := s.requests[r := s.requests[r].(phase := Phase.Checking, late := s.fl.writeErr)],
                     handler := HandlerChecking(r), dequeued := s.dequeued + [r]),
                  fl)
  }

  function HandlerChecksStep(s: Sys, r: nat): Outcome<Sys>
    requires r < |s.requests|
  {
    if s.requests[r].cancelled then
      Locked(SetPhase(s, r, Completing, ByHandler).(handler := HandlerReplying(r)), s.fl)
    else
      Ok(s.(requests := s.requests[r := s.requests[r].(phase := Open, driver := Nobody, delivered := true)],
            handler := HandlerHandling(r), handled := s.handled + [|s.dequeued|]))
  }

  function HandleReturnsStep(s: Sys, r: nat, async: bool): Outcome<Sys>
    requires r < |s.requests|
  {
    if async then Ok(s.(handler := HandlerPolling))
    else Ok(SetPhase(s, r, Completing, ByHandler).(handler := HandlerReplying(r)))
  }

  // ----- processResult -----

  function DropIDStep(s: Sys, r: nat, marshalled: bool): Outcome<Sys>
    requires r < |s.requests| && s.requests[r].id.Some?
  {
    Locked(SetPhase(s, r, if marshalled then Answering else Finishing, s.requests[r].driver),
           s.fl.DropRequest(s.requests[r].id.value))
  }

  function FinishRequestStep(s: Sys, r: nat): Outcome<Sys>
    requires r < |s.requests|
  {
    var driver := s.requests[r].driver;
    var t := s.(requests := s.requests[r := s.requests[r].(phase := Done, cancelled := true)],
                reader := if driver.ByReader? then ReaderReading else s.reader,
                handler := if driver.ByHandler? then HandlerPolling else s.handler);
    if s.fl.incoming == 0 then Panicked(IncomingAlreadyZero)
    else Locked(t, s.fl.(incoming := s.fl.incoming - 1))
  }

  function Next(s: Sys, e: Event): Outcome<Sys>
    requires Enabled(s, e)
  {
    match e
    case WriterMade => Ok(s.(writer := Free))
    case Start => StartStep(s)
    case CallNew => Ok(s.(calls := s.calls + [Call(Fresh, false, false)]))
    case CallUnmarshalable(i) => Retire(SetCall(s, i, Returned), i)
    case CallRegisters(i) => CallRegistersStep(s, i)
    case CallSendFailed(i) => CallSendFailedStep(s, i)
    case NotifyTries => NotifyTriesStep(s)
    case NotifyUnmarshalable(j) => Ok(SetNote(s, j, NoteLeaving))
    case NotifyLeaves(j) => Locked(SetNote(s, j, NoteLeft), s.fl.LeaveNotification())
    case Acquire(job) => Ok(AcquireStep(s, job))
    case WriteReturns(job, result) => WriteReturnsStep(s, job, result)
    case CloseCalled => Locked(s, s.fl.(connClosing := true))
    case Respond(r) => RespondStep(s, r)
    case CancelLooksUp(id) => CancelLooksUpStep(s, id)
    case CancelFires(r) =>
      Ok(s.(requests := s.requests[r := s.requests[r].(cancelled := true)], cancelling := s.cancelling - {r}))
    case ReadRequest(wireID) => ReadRequestStep(s, wireID)
    case ReadResponse(id) => ReadResponseStep(s, id)
    case ReadFails => ReadFailsStep(s)
    case PreemptReturns(verdict) => PreemptReturnsStep(s, s.reader.r, verdict)
    case HandlerPolls => HandlerPollsStep(s)
    case HandlerChecks => HandlerChecksStep(s, s.handler.r)
    case HandleReturns(async) => HandleReturnsStep(s, s.handler.r, async)
    case DropID(r, marshalled) => DropIDStep(s, r, marshalled)
    case NotificationDone(r) => Ok(SetPhase(s, r, Finishing, s.requests[r].driver))
    case FinishRequest(r) => FinishRequestStep(s, r)
  }

  /** The states of a run, one more than its events. */
  ghost predicate IsRun(states: seq<Sys>, events: seq<Event>) {
    && |states| == |events| + 1
    && states[0] == Initial
    && forall k :: 0 <= k < |events| ==>
        Enabled(states[k], events[k]) && Next(states[k], events[k]) == Ok(states[k + 1])
  }
}
