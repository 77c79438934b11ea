/** What any step may do to the table of incoming requests. */
module ConnectionRequests {
  import opened Wrappers
  import opened InFlight
  import opened ConnectionProtocol
  import opened ConnectionInvariant
  import opened ConnectionSteps

  /** Requests are only added; they keep their id and their rejection, and finished ones stay so. */
  ghost predicate OnlyMoveOn(a: seq<Request>, b: seq<Request>) {
    && |a| <= |b|
    && forall r: nat {:trigger b[r]} :: r < |a| ==>
         && b[r].id == a[r].id
         && b[r].rejected == a[r].rejected
         && (a[r].phase.Finishing? || a[r].phase.Done? ==> b[r].phase.Finishing? || b[r].phase.Done?)
  }

  /** The same, when no request is added. */
  ghost predicate AllMoveOn(a: seq<Request>, b: seq<Request>) {
    |a| == |b| && OnlyMoveOn(a, b)
  }

  lemma OneMovesOn(a: seq<Request>, r: nat, q: Request)
    requires r < |a| && q.id == a[r].id && q.rejected == a[r].rejected
    requires a[r].phase.Finishing? || a[r].phase.Done? ==> q.phase.Finishing? || q.phase.Done?
    ensures AllMoveOn(a, a[r := q])
  {
  }

  lemma WriteMovesOn(s: Sys, job: Job, result: WriteResult)
    requires Holds(s, job) && WriteReturnsStep(s, job, result).Ok?
    ensures AllMoveOn(s.requests, WriteReturnsStep(s, job, result).state.requests)
  {
    if job.ReplyJob? {
      var r := job.request;
      OneMovesOn(s.requests, r, s.requests[r].(phase := Finishing));
    }
  }

  lemma ReadRequestMovesOn(s: Sys, wireID: Option<ID>)
    requires ReadRequestStep(s, wireID).Ok?
    ensures OnlyMoveOn(s.requests, ReadRequestStep(s, wireID).state.requests)
  {
  }

  lemma PreemptMovesOn(s: Sys, r: nat, verdict: Verdict)
    requires r < |s.requests| && (verdict.GoesAsync? || s.requests[r].phase.Open?) &&
      PreemptReturnsStep(s, r, verdict).Ok?
    ensures AllMoveOn(s.requests, PreemptReturnsStep(s, r, verdict).state.requests)
  {
  }

  lemma HandlerPollsMovesOn(s: Sys)
    requires QueueOk(s.requests, s.fl.handlerQueue) && HandlerPollsStep(s).Ok?
    ensures AllMoveOn(s.requests, HandlerPollsStep(s).state.requests)
  {
  }

  lemma HandlerChecksMovesOn(s: Sys, r: nat)
    requires r < |s.requests| && s.requests[r].phase.Checking? && HandlerChecksStep(s, r).Ok?
    ensures AllMoveOn(s.requests, HandlerChecksStep(s, r).state.requests)
  {
  }

  lemma HandleReturnsMovesOn(s: Sys, r: nat, async: bool)
    requires r < |s.requests| && (async || s.requests[r].phase.Open?) && HandleReturnsStep(s, r, async).Ok?
    ensures AllMoveOn(s.requests, HandleReturnsStep(s, r, async).state.requests)
  {
  }

  lemma RespondMovesOn(s: Sys, r: nat)
    requires TableOk(s.requests, PointersOf(s)) && r < |s.requests| && s.requests[r].id.Some? &&
      s.requests[r].phase.Open?
    requires RespondStep(s, r).Ok?
    ensures AllMoveOn(s.requests, RespondStep(s, r).state.requests)
  {
    assert RequestOk(s.requests[r], r, PointersOf(s));
  }

  lemma AcquireMovesOn(s: Sys, job: Job)
    requires Wants(s, job)
    ensures AllMoveOn(s.requests, AcquireStep(s, job).requests)
  {
  }

  lemma DropIDMovesOn(s: Sys, r: nat, marshalled: bool)
    requires Enabled(s, DropID(r, marshalled)) && DropIDStep(s, r, marshalled).Ok?
    ensures AllMoveOn(s.requests, DropIDStep(s, r, marshalled).state.requests)
  {
  }

  lemma FinishMovesOn(s: Sys, r: nat)
    requires Enabled(s, FinishRequest(r)) && FinishRequestStep(s, r).Ok?
    ensures AllMoveOn(s.requests, FinishRequestStep(s, r).state.requests)
  {
  }

  lemma SmallStepMovesOn(s: Sys, e: Event, t: Sys)
    requires Enabled(s, e) && Next(s, e) == Ok(t) && (e.NotificationDone? || e.CancelFires?)
    ensures AllMoveOn(s.requests, t.requests)
  {
  }

  predicate TouchesNoRequest(e: Event) {
    || e.WriterMade? || e.Start? || e.CallNew? || e.CallUnmarshalable? || e.CallRegisters? || e.CallSendFailed?
    || e.NotifyTries? || e.NotifyUnmarshalable? || e.NotifyLeaves? || e.CloseCalled? || e.CancelLooksUp?
    || e.ReadResponse? || e.ReadFails?
  }

  lemma OtherwiseRequestsStay(s: Sys, e: Event, t: Sys)
    requires Enabled(s, e) && Next(s, e) == Ok(t) && TouchesNoRequest(e)
    ensures t.requests == s.requests
  {
  }

  /**
   Every step leaves each request its id and its rejection, no finished request becomes
   unfinished, and only an arrival adds one.
   */
  lemma RequestsMoveOn(s: Sys, e: Event, t: Sys)
    requires Inv(s) && Enabled(s, e) && Next(s, e) == Ok(t)
    ensures OnlyMoveOn(s.requests, t.requests) && (!e.ReadRequest? ==> |t.requests| == |s.requests|)
  {
    match e
    case WriteReturns(job, result) => WriteMovesOn(s, job, result);
    case ReadRequest(wireID) => ReadRequestMovesOn(s, wireID);
    case PreemptReturns(verdict) => PreemptMovesOn(s, s.reader.r, verdict);
    case HandlerPolls => HandlerPollsMovesOn(s);
    case HandlerChecks => HandlerChecksMovesOn(s, s.handler.r);
    case HandleReturns(async) => HandleReturnsMovesOn(s, s.handler.r, async);
    case Respond(r) => RespondMovesOn(s, r);
    case Acquire(job) => AcquireMovesOn(s, job);
    case DropID(r, marshalled) => DropIDMovesOn(s, r, marshalled);
    case FinishRequest(r) => FinishMovesOn(s, r);
    case NotificationDone(_) | CancelFires(_) => SmallStepMovesOn(s, e, t);
    case _ => OtherwiseRequestsStay(s, e, t);
  }
}
