/**
 Causes: what is recorded in the state of a connection is there if and only if a certain
 event has happened earlier in the run.
 */
module ConnectionHistory {
  import opened Wrappers
  import opened InFlight
  import opened ConnectionProtocol
  import opened ConnectionInvariant
  import opened ConnectionSteps
  import opened ConnectionRequests
  import opened ConnectionTheorems
  import opened ConnectionAdmission

  /** What is false at first and set by some steps is true exactly when one of them has been taken. */
  lemma {:induction false} SetBySome(states: seq<Sys>, events: seq<Event>, k: nat, isSet: Sys -> bool,
      sets: (Sys, Event) -> bool)
    requires k < |states| && k <= |events| && !isSet(states[0])
    requires forall j: nat {:trigger events[j]} :: j < k ==>
               isSet(states[j + 1]) == (isSet(states[j]) || sets(states[j], events[j]))
    ensures isSet(states[k]) <==> exists j :: 0 <= j < k && sets(states[j], events[j])
  {
    if k > 0 {
      SetBySome(states, events, k - 1, isSet, sets);
      var e := events[k - 1];
      assert isSet(states[k]) == (isSet(states[k - 1]) || sets(states[k - 1], e));
    }
  }

  // ----- flags -----

  predicate Breaks(e: Event) {
    e.WriteReturns? && e.result.Broken?
  }

  /** Nothing is in flight, and a shutdown has begun. */
  predicate MayClose(fl: InFlight<nat, nat>) {
    && fl.outgoingCalls == map[] && fl.outgoingNotifications == 0 && fl.incoming == 0 && !fl.handlerRunning
    && Closing(fl)
  }

  ghost predicate FlagsRecorded(fl: InFlight<nat, nat>, e: Event, fl': InFlight<nat, nat>) {
    && fl'.connClosing == (fl.connClosing || e.CloseCalled?)
    && fl'.readErr == (fl.readErr || e.ReadFails?)
    && fl'.writeErr == (fl.writeErr || Breaks(e))
    && !fl'.closerOpen == (!fl.closerOpen || MayClose(fl'))
    && fl'.done == (MayClose(fl') && !fl'.reading)
  }

  /** The guarded state just before the section is left. */
  predicate IsSection(fl: InFlight<nat, nat>, e: Event, g: InFlight<nat, nat>) {
    && g.connClosing == (fl.connClosing || e.CloseCalled?)
    && g.readErr == (fl.readErr || e.ReadFails?)
    && g.writeErr == (fl.writeErr || Breaks(e))
    && g.closerOpen == fl.closerOpen
  }

  lemma MayCloseMeans(fl: InFlight<nat, nat>)
    ensures MayClose(fl) <==> fl.Idle() && fl.ShuttingDown()
  {
  }

  /** Leaving the section only closes the stream, and only when that is called for. */
  lemma UnlockFlags(g: InFlight<nat, nat>)
    requires g.Unlock().Ok?
    ensures
      var u := g.Unlock().state;
      && u.connClosing == g.connClosing && u.readErr == g.readErr && u.writeErr == g.writeErr
      && (u.closerOpen ==> g.closerOpen)
      && (g.closerOpen && !u.closerOpen ==> MayClose(u))
  {
  }

  lemma LeavingRecordsFlags(fl: InFlight<nat, nat>, e: Event, g: InFlight<nat, nat>, s: Sys)
    requires IsSection(fl, e, g) && (Ok(s.fl) == g.Unlock() || s.fl == g)
    requires FlagsOk(s.fl, s.reader, s.handler, s.writer) && Settled(s.fl)
    ensures FlagsRecorded(fl, e, s.fl)
  {
    MayCloseMeans(s.fl);
    if Ok(s.fl) == g.Unlock() {
      UnlockFlags(g);
    }
  }

  lemma CallerSection(s: Sys, e: Event, t: Sys) returns (g: InFlight<nat, nat>)
    requires Enabled(s, e) && Next(s, e) == Ok(t)
    requires e.CallRegisters? || e.CallSendFailed? || e.NotifyTries? || e.NotifyLeaves?
    ensures IsSection(s.fl, e, g) && Ok(t.fl) == g.Unlock()
  {
    match e
    case CallRegisters(i) => g := s.fl.RegisterCall(CallID(i), i).0;
    case NotifyTries => g := s.fl.AdmitNotification().0;
    case NotifyLeaves(_) => g := s.fl.LeaveNotification();
    case CallSendFailed(i) =>
      g := if CallID(i) in s.fl.outgoingCalls && s.fl.outgoingCalls[CallID(i)] == i then s.fl.RemoveCall(CallID(i))
           else s.fl;
  }

  lemma WriteSection(s: Sys, job: Job, result: WriteResult, t: Sys) returns (g: InFlight<nat, nat>)
    requires Holds(s, job) && WriteReturnsStep(s, job, result) == Ok(t)
    ensures IsSection(s.fl, WriteReturns(job, result), g) && (Ok(t.fl) == g.Unlock() || t.fl == g)
  {
    assert LogWrite(s, job, result).fl == s.fl;
    g := if result.Broken? then s.fl.RecordWriteError() else s.fl;
  }

  lemma ReaderSection(s: Sys, e: Event, t: Sys) returns (g: InFlight<nat, nat>)
    requires Enabled(s, e) && Next(s, e) == Ok(t) && (e.ReadRequest? || e.ReadResponse? || e.ReadFails?)
    ensures IsSection(s.fl, e, g) && Ok(t.fl) == g.Unlock()
  {
    match e
    case ReadRequest(wireID) =>
      g := if wireID.None? then s.fl.AcceptNotification() else s.fl.AcceptCall(wireID.value, |s.requests|).0;
    case ReadResponse(id) => g := if id in s.fl.outgoingCalls then s.fl.RemoveCall(id) else s.fl;
    case ReadFails => g := s.fl.StopReading();
  }

  lemma PreemptSection(s: Sys, r: nat, verdict: Verdict, t: Sys) returns (g: InFlight<nat, nat>)
    requires r < |s.requests| && PreemptReturnsStep(s, r, verdict) == Ok(t)
    ensures IsSection(s.fl, PreemptReturns(verdict), g) && (Ok(t.fl) == g.Unlock() || t.fl == g)
  {
    g := if verdict.NotHandled? then s.fl.Enqueue(r).0 else s.fl;
  }

  lemma HandlerSection(s: Sys, e: Event, t: Sys) returns (g: InFlight<nat, nat>)
    requires Enabled(s, e) && Next(s, e) == Ok(t) && (e.HandlerPolls? || e.HandlerChecks?)
    ensures IsSection(s.fl, e, g) && (Ok(t.fl) == g.Unlock() || t.fl == g)
  {
    g := if e.HandlerPolls? then s.fl.Dequeue().0 else s.fl;
  }

  lemma ReplySection(s: Sys, e: Event, t: Sys) returns (g: InFlight<nat, nat>)
    requires Enabled(s, e) && Next(s, e) == Ok(t) && (e.Respond? || e.DropID? || e.FinishRequest?)
    ensures IsSection(s.fl, e, g) && Ok(t.fl) == g.Unlock()
  {
    match e
    case Respond(_) => g := s.fl;
    case DropID(r, _) => g := s.fl.DropRequest(s.requests[r].id.value);
    case FinishRequest(_) => g := s.fl.(incoming := s.fl.incoming - 1);
  }

  lemma OtherSection(s: Sys, e: Event, t: Sys) returns (g: InFlight<nat, nat>)
    requires Enabled(s, e) && Next(s, e) == Ok(t)
    requires e.Start? || e.CloseCalled? || e.CancelLooksUp?
    ensures IsSection(s.fl, e, g) && Ok(t.fl) == g.Unlock()
  {
    match e
    case Start => g := s.fl.StartReading();
    case CloseCalled => g := s.fl.(connClosing := true);
    case CancelLooksUp(_) => g := s.fl;
  }

  lemma NoSection(s: Sys, e: Event, t: Sys)
    requires Enabled(s, e) && Next(s, e) == Ok(t)
    requires
      || e.WriterMade? || e.CallNew? || e.CallUnmarshalable? || e.NotifyUnmarshalable? || e.Acquire?
      || e.CancelFires? || e.HandleReturns? || e.NotificationDone?
    ensures t.fl == s.fl
  {
  }

  lemma SectionOf(s: Sys, e: Event, t: Sys) returns (g: InFlight<nat, nat>)
    requires Enabled(s, e) && Next(s, e) == Ok(t)
    ensures IsSection(s.fl, e, g) && (Ok(t.fl) == g.Unlock() || t.fl == g)
  {
    match e
    case CallRegisters(_) | CallSendFailed(_) | NotifyTries | NotifyLeaves(_) => g := CallerSection(s, e, t);
    case WriteReturns(job, result) => g := WriteSection(s, job, result, t);
    case ReadRequest(_) | ReadResponse(_) | ReadFails => g := ReaderSection(s, e, t);
    case PreemptReturns(verdict) => g := PreemptSection(s, s.reader.r, verdict, t);
    case HandlerPolls | HandlerChecks => g := HandlerSection(s, e, t);
    case Respond(_) | DropID(_, _) | FinishRequest(_) => g := ReplySection(s, e, t);
    case Start | CloseCalled | CancelLooksUp(_) => g := OtherSection(s, e, t);
    case _ =>
      NoSection(s, e, t);
      g := s.fl;
  }

  lemma StepRecordsFlags(s: Sys, e: Event, t: Sys)
    requires Enabled(s, e) && Next(s, e) == Ok(t) && Inv(t)
    ensures FlagsRecorded(s.fl, e, t.fl)
  {
    var g := SectionOf(s, e, t);
    LeavingRecordsFlags(s.fl, e, g, t);
  }

  lemma FlagsAreRecorded(states: seq<Sys>, events: seq<Event>, j: nat)
    requires IsRun(states, events) && j < |events|
    ensures FlagsRecorded(states[j].fl, events[j], states[j + 1].fl)
  {
    RunKeepsInvariant(states, events, j + 1);
    StepRecordsFlags(states[j], events[j], states[j + 1]);
  }

  lemma FlagsAreRecordedBefore(states: seq<Sys>, events: seq<Event>, k: nat)
    requires IsRun(states, events) && k < |states|
    ensures forall j: nat {:trigger events[j]} :: j < k ==> FlagsRecorded(states[j].fl, events[j], states[j + 1].fl)
  {
    forall j: nat {:trigger events[j]} | j < k
      ensures FlagsRecorded(states[j].fl, events[j], states[j + 1].fl)
    {
      FlagsAreRecorded(states, events, j);
    }
  }

  /** The flags of a shutdown say what has happened. */
  lemma ShutdownHasItsCauses(states: seq<Sys>, events: seq<Event>, k: nat)
    requires IsRun(states, events) && k < |states|
    ensures states[k].fl.connClosing <==> exists j :: 0 <= j < k && events[j].CloseCalled?
    ensures states[k].fl.readErr <==> exists j :: 0 <= j < k && events[j].ReadFails?
    ensures states[k].fl.writeErr <==> exists j :: 0 <= j < k && Breaks(events[j])
  {
    FlagsAreRecordedBefore(states, events, k);
    SetBySome(states, events, k, (s: Sys) => s.fl.connClosing, (s: Sys, e: Event) => e.CloseCalled?);
    SetBySome(states, events, k, (s: Sys) => s.fl.readErr, (s: Sys, e: Event) => e.ReadFails?);
    SetBySome(states, events, k, (s: Sys) => s.fl.writeErr, (s: Sys, e: Event) => Breaks(e));
  }

  lemma DoneIffMayClose(s: Sys)
    requires Inv(s)
    ensures s.fl.done <==> MayClose(s.fl) && !s.fl.reading
  {
    MayCloseMeans(s.fl);
  }

  ghost predicate CouldClose(states: seq<Sys>, k: nat)
    requires k < |states|
  {
    exists j :: 0 <= j <= k && MayClose(states[j].fl)
  }

  lemma ClosedFlag(fl: InFlight<nat, nat>, e: Event, fl': InFlight<nat, nat>)
    requires FlagsRecorded(fl, e, fl')
    ensures !fl'.closerOpen <==> !fl.closerOpen || MayClose(fl')
  {
  }

  lemma OneMoreChance(states: seq<Sys>, k: nat)
    requires 0 < k < |states|
    ensures CouldClose(states, k) <==> CouldClose(states, k - 1) || MayClose(states[k].fl)
  {
  }

  lemma {:induction false} ClosedOnceItCould(states: seq<Sys>, events: seq<Event>, k: nat)
    requires IsRun(states, events) && k < |states|
    ensures !states[k].fl.closerOpen <==> CouldClose(states, k)
  {
    if k > 0 {
      ClosedOnceItCould(states, events, k - 1);
      FlagsAreRecorded(states, events, k - 1);
      ClosedFlag(states[k - 1].fl, events[k - 1], states[k].fl);
      OneMoreChance(states, k);
    }
  }

  /**
   The stream is closed as soon as nothing is in flight during a shutdown, and only then;
   `done` is closed when moreover the reader is not running.
   */
  lemma ClosedAsSoonAsPossible(states: seq<Sys>, events: seq<Event>, k: nat)
    requires IsRun(states, events) && k < |states|
    ensures !states[k].fl.closerOpen <==> exists j :: 0 <= j <= k && MayClose(states[j].fl)
    ensures states[k].fl.done <==> MayClose(states[k].fl) && !states[k].fl.reading
  {
    RunKeepsInvariant(states, events, k);
    DoneIffMayClose(states[k]);
    ClosedOnceItCould(states, events, k);
  }

  // ----- incoming requests -----

  predicate IsOver(p: Phase) {
    p.Finishing? || p.Done?
  }

  /** The handler goroutine looks whether the request was cancelled while it waited. */
  predicate Checks(s: Sys, e: Event, r: nat) {
    e.HandlerChecks? && s.handler == HandlerChecking(r)
  }

  predicate Cancels(s: Sys, e: Event, r: nat) {
    || e == CancelFires(r)
    || e == FinishRequest(r)
    || (Breaks(e) && !s.fl.writeErr && r in s.fl.incomingByID.Values)
  }

  predicate WritesReply(e: Event, r: nat) {
    e.WriteReturns? && e.job == ReplyJob(r)
  }

  /** What the step makes of request `r`, which was `q` and is `q'`. */
  predicate RequestRecorded(s: Sys, e: Event, r: nat, q: Request, q': Request) {
    && q'.id == q.id
    && q'.delivered == (q.delivered || (Checks(s, e, r) && !q.cancelled))
    && q'.cancelled == (q.cancelled || Cancels(s, e, r))
    && (q.phase.Checking? && !q'.phase.Checking? ==> Checks(s, e, r))
    && (q.id.Some? ==> (IsOver(q'.phase) <==> IsOver(q.phase) || e == DropID(r, false) || WritesReply(e, r)))
    && (IsOver(q.phase) ==> e != DropID(r, false) && !WritesReply(e, r))
  }

  predicate IsNew(q: Request) {
    !q.delivered && !q.cancelled && !q.phase.Checking? && !IsOver(q.phase)
  }

  ghost predicate RequestsRecorded(s: Sys, e: Event, requests: seq<Request>) {
    && |s.requests| <= |requests|
    && (forall r: nat {:trigger requests[r]} :: r < |s.requests| ==>
          RequestRecorded(s, e, r, s.requests[r], requests[r]))
    && (forall r: nat {:trigger requests[r]} :: |s.requests| <= r < |requests| ==> IsNew(requests[r]))
  }

  /** Events that say nothing about any request. */
  predicate IsSilent(s: Sys, e: Event) {
    && !e.HandlerChecks? && !e.CancelFires? && !e.FinishRequest? && !e.DropID? && !Breaks(e)
    && !(e.WriteReturns? && e.job.ReplyJob?)
  }

  lemma SilentStepRecords(s: Sys, e: Event, r: nat, q: Request)
    requires IsSilent(s, e) && r < |s.requests|
    requires q.id == s.requests[r].id
    requires q.delivered == s.requests[r].delivered && q.cancelled == s.requests[r].cancelled
    requires s.requests[r].phase.Checking? ==> q.phase.Checking?
    requires q.id.Some? ==> (IsOver(q.phase) <==> IsOver(s.requests[r].phase))
    ensures RequestsRecorded(s, e, s.requests[r := q])
  {
  }

  lemma UntouchedIsRecorded(s: Sys, e: Event)
    requires IsSilent(s, e)
    ensures RequestsRecorded(s, e, s.requests)
  {
  }

  lemma WriteChangesRequests(s: Sys, job: Job, result: WriteResult, t: Sys)
    requires Holds(s, job) && WriteReturnsStep(s, job, result) == Ok(t)
    ensures
      var requests := if job.ReplyJob? then s.requests[job.request := s.requests[job.request].(phase := Finishing)]
                      else s.requests;
      t.requests == if result.Broken? && !s.fl.writeErr then CancelAll(requests, s.fl.incomingByID.Values) else requests
  {
    assert LogWrite(s, job, result).fl == s.fl;
  }

  lemma WriteRecordsOne(s: Sys, job: Job, result: WriteResult, r: nat)
    requires Holds(s, job) && r < |s.requests|
    ensures
      var q := if job == ReplyJob(r) then s.requests[r].(phase := Finishing) else s.requests[r];
      var q' := if result.Broken? && !s.fl.writeErr && r in s.fl.incomingByID.Values then q.(cancelled := true) else q;
      RequestRecorded(s, WriteReturns(job, result), r, s.requests[r], q')
  {
  }

  lemma WriteIsRecorded(s: Sys, job: Job, result: WriteResult, t: Sys)
    requires Holds(s, job) && WriteReturnsStep(s, job, result) == Ok(t)
    ensures RequestsRecorded(s, WriteReturns(job, result), t.requests)
  {
    WriteChangesRequests(s, job, result, t);
    forall r: nat {:trigger t.requests[r]} | r < |s.requests|
      ensures RequestRecorded(s, WriteReturns(job, result), r, s.requests[r], t.requests[r])
    {
      WriteRecordsOne(s, job, result, r);
    }
  }

  lemma ArrivalIsRecorded(s: Sys, wireID: Option<ID>, t: Sys)
    requires ReadRequestStep(s, wireID) == Ok(t)
    ensures RequestsRecorded(s, ReadRequest(wireID), t.requests)
  {
  }

  lemma PreemptIsRecorded(s: Sys, verdict: Verdict, t: Sys)
    requires Inv(s) && Enabled(s, PreemptReturns(verdict)) && Next(s, PreemptReturns(verdict)) == Ok(t)
    ensures RequestsRecorded(s, PreemptReturns(verdict), t.requests)
  {
    var e, r := PreemptReturns(verdict), s.reader.r;
    if verdict.NotHandled? {
      RequestIsQueuedIff(s);
    } else {
      PreemptedIsNotQueued(s, verdict);
    }
    if verdict.GoesAsync? {
      UntouchedIsRecorded(s, e);
    } else {
      SilentStepRecords(s, e, r, t.requests[r]);
    }
  }

  lemma PollIsRecorded(s: Sys, t: Sys)
    requires QueueOk(s.requests, s.fl.handlerQueue) && HandlerPollsStep(s) == Ok(t)
    ensures RequestsRecorded(s, HandlerPolls, t.requests)
  {
    if s.fl.handlerQueue == [] {
      UntouchedIsRecorded(s, HandlerPolls);
    } else {
      var r := s.fl.handlerQueue[0];
      SilentStepRecords(s, HandlerPolls, r, t.requests[r]);
    }
  }

  lemma CheckIsRecorded(s: Sys, t: Sys)
    requires Enabled(s, HandlerChecks) && s.requests[s.handler.r].phase.Checking? && Next(s, HandlerChecks) == Ok(t)
    ensures RequestsRecorded(s, HandlerChecks, t.requests)
  {
  }

  lemma HandleIsRecorded(s: Sys, async: bool, t: Sys)
    requires Enabled(s, HandleReturns(async)) && Next(s, HandleReturns(async)) == Ok(t)
    requires async || s.requests[s.handler.r].phase.Open?
    ensures RequestsRecorded(s, HandleReturns(async), t.requests)
  {
    if async {
      UntouchedIsRecorded(s, HandleReturns(async));
    } else {
      SilentStepRecords(s, HandleReturns(async), s.handler.r, t.requests[s.handler.r]);
    }
  }

  lemma RespondIsRecorded(s: Sys, r: nat)
    requires Inv(s) && Enabled(s, Respond(r))
    ensures Next(s, Respond(r)).Ok? && RequestsRecorded(s, Respond(r), Next(s, Respond(r)).state.requests)
  {
    RespondFindsItsRequest(s, r);
    SilentStepRecords(s, Respond(r), r, s.requests[r].(phase := Completing, driver := ByResponder));
  }

  lemma AcquireIsRecorded(s: Sys, job: Job)
    requires s.writer.Free? && Wants(s, job)
    ensures RequestsRecorded(s, Acquire(job), AcquireStep(s, job).requests)
  {
    if job.ReplyJob? {
      SilentStepRecords(s, Acquire(job), job.request, s.requests[job.request].(phase := Writing));
    } else {
      UntouchedIsRecorded(s, Acquire(job));
    }
  }

  lemma EndIsRecorded(s: Sys, e: Event, t: Sys)
    requires Enabled(s, e) && Next(s, e) == Ok(t) && (e.DropID? || e.FinishRequest?)
    ensures RequestsRecorded(s, e, t.requests)
  {
  }

  lemma SmallStepIsRecorded(s: Sys, e: Event, t: Sys)
    requires Enabled(s, e) && Next(s, e) == Ok(t) && (e.NotificationDone? || e.CancelFires?)
    ensures RequestsRecorded(s, e, t.requests)
  {
  }

  lemma GoroutineStepRecords(s: Sys, e: Event, t: Sys)
    requires Inv(s) && Enabled(s, e) && Next(s, e) == Ok(t)
    requires e.ReadRequest? || e.PreemptReturns? || e.HandlerPolls? || e.HandlerChecks? || e.HandleReturns?
    ensures RequestsRecorded(s, e, t.requests)
  {
    match e
    case ReadRequest(wireID) => ArrivalIsRecorded(s, wireID, t);
    case PreemptReturns(verdict) => PreemptIsRecorded(s, verdict, t);
    case HandlerPolls => PollIsRecorded(s, t);
    case HandlerChecks => CheckIsRecorded(s, t);
    case HandleReturns(async) => HandleIsRecorded(s, async, t);
  }

  lemma ReplyStepRecords(s: Sys, e: Event, t: Sys)
    requires Inv(s) && Enabled(s, e) && Next(s, e) == Ok(t)
    requires e.WriteReturns? || e.Respond? || e.Acquire? || e.DropID? || e.FinishRequest? || e.NotificationDone? ||
      e.CancelFires?
    ensures RequestsRecorded(s, e, t.requests)
  {
    match e
    case WriteReturns(job, result) => WriteIsRecorded(s, job, result, t);
    case Respond(r) => RespondIsRecorded(s, r);
    case Acquire(job) => AcquireIsRecorded(s, job);
    case DropID(_, _) | FinishRequest(_) => EndIsRecorded(s, e, t);
    case NotificationDone(_) | CancelFires(_) => SmallStepIsRecorded(s, e, t);
  }

  lemma StepRecordsRequests(s: Sys, e: Event, t: Sys)
    requires Inv(s) && Enabled(s, e) && Next(s, e) == Ok(t)
    ensures RequestsRecorded(s, e, t.requests)
  {
    if TouchesNoRequest(e) {
      OtherwiseRequestsStay(s, e, t);
      UntouchedIsRecorded(s, e);
    } else if e.ReadRequest? || e.PreemptReturns? || e.HandlerPolls? || e.HandlerChecks? || e.HandleReturns? {
      GoroutineStepRecords(s, e, t);
    } else {
      ReplyStepRecords(s, e, t);
    }
  }

  lemma RequestsAreRecorded(states: seq<Sys>, events: seq<Event>, k: nat)
    requires IsRun(states, events) && k < |events|
    ensures RequestsRecorded(states[k], events[k], states[k + 1].requests)
  {
    RunKeepsInvariant(states, events, k);
    StepRecordsRequests(states[k], events[k], states[k + 1]);
  }

  lemma RequestsAreRecordedBefore(states: seq<Sys>, events: seq<Event>, k: nat)
    requires IsRun(states, events) && k < |states|
    ensures forall j: nat {:trigger events[j]} :: j < k ==>
              RequestsRecorded(states[j], events[j], states[j + 1].requests)
  {
    forall j: nat {:trigger events[j]} | j < k
      ensures RequestsRecorded(states[j], events[j], states[j + 1].requests)
    {
      RequestsAreRecorded(states, events, j);
    }
  }

  predicate IsDelivered(s: Sys, r: nat) {
    r < |s.requests| && s.requests[r].delivered
  }

  predicate ChecksUncancelled(s: Sys, e: Event, r: nat) {
    Checks(s, e, r) && r < |s.requests| && !s.requests[r].cancelled
  }

  lemma DeliveredStep(s: Sys, e: Event, t: Sys, r: nat)
    requires RequestsRecorded(s, e, t.requests)
    ensures IsDelivered(t, r) == (IsDelivered(s, r) || ChecksUncancelled(s, e, r))
  {
  }

  /** A request is delivered to the handler if and only if a check has found it not cancelled. */
  lemma DeliveredIffCheckedInTime(states: seq<Sys>, events: seq<Event>, k: nat, r: nat)
    requires IsRun(states, events) && k < |states|
    ensures IsDelivered(states[k], r) <==> exists j :: 0 <= j < k && ChecksUncancelled(states[j], events[j], r)
  {
    forall j: nat {:trigger events[j]} | j < k
      ensures IsDelivered(states[j + 1], r) == (IsDelivered(states[j], r) || ChecksUncancelled(states[j], events[j], r))
    {
      RequestsAreRecorded(states, events, j);
      DeliveredStep(states[j], events[j], states[j + 1], r);
    }
    SetBySome(states, events, k, (s: Sys) => IsDelivered(s, r), (s: Sys, e: Event) => ChecksUncancelled(s, e, r));
  }

  predicate IsCancelled(s: Sys, r: nat) {
    r < |s.requests| && s.requests[r].cancelled
  }

  lemma CancelledStep(s: Sys, e: Event, t: Sys, r: nat)
    requires RequestsRecorded(s, e, t.requests)
    ensures IsCancelled(t, r) == (IsCancelled(s, r) || (r < |s.requests| && Cancels(s, e, r)))
  {
  }

  /**
   The context of a request is cancelled if and only if `Cancel` reached it, it has been
   finished, or the first write error found its id in `incomingByID`.
   */
  lemma CancelledHasItsCause(states: seq<Sys>, events: seq<Event>, k: nat, r: nat)
    requires IsRun(states, events) && k < |states|
    ensures IsCancelled(states[k], r) <==>
      exists j :: 0 <= j < k && r < |states[j].requests| && Cancels(states[j], events[j], r)
  {
    forall j: nat {:trigger events[j]} | j < k
      ensures IsCancelled(states[j + 1], r) ==
        (IsCancelled(states[j], r) || (r < |states[j].requests| && Cancels(states[j], events[j], r)))
    {
      RequestsAreRecorded(states, events, j);
      CancelledStep(states[j], events[j], states[j + 1], r);
    }
    SetBySome(states, events, k, (s: Sys) => IsCancelled(s, r),
              (s: Sys, e: Event) => r < |s.requests| && Cancels(s, e, r));
  }

  // ----- every dequeued request is checked -----

  lemma CallerStepKeepsLists(s: Sys, e: Event, t: Sys)
    requires Enabled(s, e) && Next(s, e) == Ok(t) && IsCallerEvent(e) && !e.WriteReturns?
    ensures t.dequeued == s.dequeued && t.wire == s.wire
  {
  }

  lemma WriteKeepsDequeued(s: Sys, job: Job, result: WriteResult, t: Sys)
    requires Holds(s, job) && WriteReturnsStep(s, job, result) == Ok(t)
    ensures t.dequeued == s.dequeued
  {
    assert LogWrite(s, job, result).dequeued == s.dequeued;
  }

  lemma RequestStepKeepsLists(s: Sys, e: Event, t: Sys)
    requires Enabled(s, e) && Next(s, e) == Ok(t) && !IsCallerEvent(e)
    ensures t.wire == s.wire && (!e.HandlerPolls? ==> t.dequeued == s.dequeued)
  {
  }

  lemma OnlyPollsDequeue(s: Sys, e: Event, t: Sys)
    requires Enabled(s, e) && Next(s, e) == Ok(t) && !e.HandlerPolls?
    ensures t.dequeued == s.dequeued
  {
    if e.WriteReturns? {
      WriteKeepsDequeued(s, e.job, e.result, t);
    } else if IsCallerEvent(e) {
      CallerStepKeepsLists(s, e, t);
    } else {
      RequestStepKeepsLists(s, e, t);
    }
  }

  lemma PollDequeues(s: Sys, t: Sys)
    requires HandlerPollsStep(s) == Ok(t)
    ensures t.dequeued == s.dequeued || (s.fl.handlerQueue != [] && t.dequeued == s.dequeued + [s.fl.handlerQueue[0]])
    ensures t.dequeued != s.dequeued ==> t.handler == HandlerChecking(s.fl.handlerQueue[0])
  {
  }

  /** What has just been dequeued is about to be checked. */
  lemma DequeuedStep(s: Sys, e: Event, t: Sys, r: nat)
    requires Enabled(s, e) && Next(s, e) == Ok(t) && Inv(t) && r in t.dequeued && r !in s.dequeued
    ensures t.handler == HandlerChecking(r) && r < |t.requests| && t.requests[r].phase.Checking?
  {
    if e.HandlerPolls? {
      PollDequeues(s, t);
    } else {
      OnlyPollsDequeue(s, e, t);
    }
  }

  lemma OnlyACheckEndsChecking(s: Sys, e: Event, t: Sys, r: nat)
    requires RequestsRecorded(s, e, t.requests) && r < |s.requests| && s.requests[r].phase.Checking?
    ensures r < |t.requests| && (t.requests[r].phase.Checking? || Checks(s, e, r))
  {
    assert RequestRecorded(s, e, r, s.requests[r], t.requests[r]);
  }

  predicate IsChecking(s: Sys, r: nat) {
    r < |s.requests| && s.requests[r].phase.Checking?
  }

  lemma {:induction false} DequeuedIsChecked(states: seq<Sys>, events: seq<Event>, k: nat, r: nat)
    requires IsRun(states, events) && k < |states| && r in states[k].dequeued
    ensures IsChecking(states[k], r) || exists j :: 0 <= j < k && Checks(states[j], events[j], r)
  {
    if k > 0 {
      var s, e, t := states[k - 1], events[k - 1], states[k];
      if r in s.dequeued {
        DequeuedIsChecked(states, events, k - 1, r);
        RequestsAreRecorded(states, events, k - 1);
        if IsChecking(s, r) {
          OnlyACheckEndsChecking(s, e, t, r);
        }
      } else {
        RunKeepsInvariant(states, events, k);
        DequeuedStep(s, e, t, r);
      }
    }
  }

  /**
   Every request that has left the queue and is past its check, call or notification, was
   delivered to the handler, unless it was cancelled by the time of the check.
   */
  lemma DequeuedIsDelivered(states: seq<Sys>, events: seq<Event>, k: nat, r: nat)
    requires IsRun(states, events) && k < |states|
    requires r in states[k].dequeued && !IsChecking(states[k], r)
    ensures
      || IsDelivered(states[k], r)
      || exists j :: 0 <= j < k && Checks(states[j], events[j], r) && IsCancelled(states[j], r)
  {
    DequeuedIsChecked(states, events, k, r);
    DeliveredIffCheckedInTime(states, events, k, r);
    var j :| 0 <= j < k && Checks(states[j], events[j], r);
    assert ChecksUncancelled(states[j], events[j], r) || IsCancelled(states[j], r);
  }

  // ----- every call is answered -----

  predicate CallIsOver(s: Sys, r: nat) {
    r < |s.requests| && s.requests[r].id.Some? && IsOver(s.requests[r].phase)
  }

  /** The end of a call: its answer is written, or cannot be. */
  predicate Ends(s: Sys, e: Event, r: nat) {
    r < |s.requests| && s.requests[r].id.Some? && (e == DropID(r, false) || WritesReply(e, r))
  }

  lemma OverStep(s: Sys, e: Event, t: Sys, r: nat)
    requires RequestsRecorded(s, e, t.requests)
    ensures CallIsOver(t, r) == (CallIsOver(s, r) || Ends(s, e, r))
    ensures !(CallIsOver(s, r) && Ends(s, e, r))
  {
  }

  lemma OverIffEnded(states: seq<Sys>, events: seq<Event>, k: nat, r: nat)
    requires IsRun(states, events) && k < |states|
    ensures CallIsOver(states[k], r) <==> exists j :: 0 <= j < k && Ends(states[j], events[j], r)
  {
    forall j: nat {:trigger events[j]} | j < k
      ensures CallIsOver(states[j + 1], r) == (CallIsOver(states[j], r) || Ends(states[j], events[j], r))
    {
      RequestsAreRecorded(states, events, j);
      OverStep(states[j], events[j], states[j + 1], r);
    }
    SetBySome(states, events, k, (s: Sys) => CallIsOver(s, r), (s: Sys, e: Event) => Ends(s, e, r));
  }

  /** A call ends once. */
  lemma EndsOnce(states: seq<Sys>, events: seq<Event>, j: nat, k: nat, r: nat)
    requires IsRun(states, events) && j < k < |events| && Ends(states[j], events[j], r)
    ensures !Ends(states[k], events[k], r)
  {
    OverIffEnded(states, events, k, r);
    RequestsAreRecorded(states, events, k);
    OverStep(states[k], events[k], states[k + 1], r);
  }

  lemma OnlyWritesAreLogged(s: Sys, e: Event, t: Sys)
    requires Enabled(s, e) && Next(s, e) == Ok(t) && !e.WriteReturns?
    ensures t.wire == s.wire
  {
    if IsCallerEvent(e) {
      CallerStepKeepsLists(s, e, t);
    } else {
      RequestStepKeepsLists(s, e, t);
    }
  }

  lemma WriteIsLogged(s: Sys, job: Job, result: WriteResult, t: Sys)
    requires Holds(s, job) && WriteReturnsStep(s, job, result) == Ok(t)
    ensures t.wire == s.wire + [Sent(job, MessageID(s, job), result)]
  {
    assert LogWrite(s, job, result).wire == s.wire + [Sent(job, MessageID(s, job), result)];
  }

  /** There has been an attempt to write the message of this job. */
  ghost predicate IsAttempted(s: Sys, job: Job) {
    exists m :: 0 <= m < |s.wire| && s.wire[m].job == job
  }

  lemma AttemptStep(s: Sys, e: Event, t: Sys, job: Job)
    requires Enabled(s, e) && Next(s, e) == Ok(t)
    ensures IsAttempted(t, job) == (IsAttempted(s, job) || (e.WriteReturns? && e.job == job))
  {
    if e.WriteReturns? {
      WriteIsLogged(s, e.job, e.result, t);
      OneMoreAttempt(s.wire, Sent(e.job, MessageID(s, e.job), e.result), job);
    } else {
      OnlyWritesAreLogged(s, e, t);
    }
  }

  lemma OneMoreAttempt(wire: seq<Sent>, m: Sent, job: Job)
    ensures (exists k :: 0 <= k < |wire + [m]| && (wire + [m])[k].job == job) <==>
            (exists k :: 0 <= k < |wire| && wire[k].job == job) || m.job == job
  {
    var longer := wire + [m];
    assert longer[|wire|] == m;
    assert forall k :: 0 <= k < |wire| ==> longer[k] == wire[k];
  }

  lemma AttemptedIffWritten(states: seq<Sys>, events: seq<Event>, k: nat, job: Job)
    requires IsRun(states, events) && k < |states|
    ensures IsAttempted(states[k], job) <==> exists j :: 0 <= j < k && events[j].WriteReturns? && events[j].job == job
  {
    forall j: nat {:trigger events[j]} | j < k
      ensures IsAttempted(states[j + 1], job) ==
        (IsAttempted(states[j], job) || (events[j].WriteReturns? && events[j].job == job))
    {
      AttemptStep(states[j], events[j], states[j + 1], job);
    }
    SetBySome(states, events, k, (s: Sys) => IsAttempted(s, job),
              (s: Sys, e: Event) => e.WriteReturns? && e.job == job);
  }

  lemma UnmarshalableEnds(states: seq<Sys>, events: seq<Event>, j: nat, r: nat)
    requires IsRun(states, events) && j < |events| && events[j] == DropID(r, false)
    ensures Ends(states[j], events[j], r)
  {
  }

  lemma WrittenReplyEnds(states: seq<Sys>, events: seq<Event>, j: nat, r: nat)
    requires IsRun(states, events) && j < |events| && WritesReply(events[j], r)
    ensures Ends(states[j], events[j], r)
  {
    RunKeepsInvariant(states, events, j);
    assert RequestOk(states[j].requests[r], r, PointersOf(states[j]));
  }

  lemma WrittenWasMarshalable(states: seq<Sys>, events: seq<Event>, i: nat, j: nat, r: nat)
    requires IsRun(states, events) && i < |events| && j < |events| && WritesReply(events[i], r)
    ensures events[j] != DropID(r, false)
  {
    if events[j] == DropID(r, false) {
      WrittenReplyEnds(states, events, i, r);
      UnmarshalableEnds(states, events, j, r);
      if i < j {
        EndsOnce(states, events, i, j, r);
      } else {
        EndsOnce(states, events, j, i, r);
      }
    }
  }

  /** Of every call that is over an answer has been written, unless its answer could not be encoded. */
  lemma CallIsAnsweredIff(states: seq<Sys>, events: seq<Event>, k: nat, r: nat)
    requires IsRun(states, events) && k < |states| && CallIsOver(states[k], r)
    ensures IsAttempted(states[k], ReplyJob(r)) <==> !exists j :: 0 <= j < k && events[j] == DropID(r, false)
  {
    OverIffEnded(states, events, k, r);
    AttemptedIffWritten(states, events, k, ReplyJob(r));
    if IsAttempted(states[k], ReplyJob(r)) {
      var i: nat :| i < k && WritesReply(events[i], r);
      forall j: nat | j < k
        ensures events[j] != DropID(r, false)
      {
        WrittenWasMarshalable(states, events, i, j, r);
      }
    }
  }

  // ----- outgoing calls -----

  /** What retires a registered call: a response with its id, the failure of its write, or the reader's end. */
  predicate Retires(e: Event, i: nat) {
    e == ReadResponse(CallID(i)) || e == CallSendFailed(i) || e == ReadFails
  }

  predicate WritesCall(e: Event, i: nat) {
    e.WriteReturns? && e.job == CallJob(i)
  }

  predicate DeliversCall(e: Event, i: nat) {
    WritesCall(e, i) && e.result.Written?
  }

  predicate PastWrite(c: Call) {
    c.phase.Failing? || c.phase.Returned?
  }

  predicate CallRecorded(e: Event, i: nat, c: Call, c': Call) {
    if c.registered then
      && c'.registered
      && c'.retired == (c.retired || Retires(e, i))
      && PastWrite(c') == (PastWrite(c) || WritesCall(e, i))
      && c'.phase.Returned? == (c.phase.Returned? || e == CallSendFailed(i) || DeliversCall(e, i))
    else
      c'.registered ==> !c'.retired && c'.phase.Waiting?
  }

  ghost predicate CallsRecorded(calls: seq<Call>, e: Event, calls': seq<Call>) {
    && |calls| <= |calls'|
    && (forall i: nat {:trigger calls'[i]} :: i < |calls| ==> CallRecorded(e, i, calls[i], calls'[i]))
    && (forall i: nat {:trigger calls'[i]} :: |calls| <= i < |calls'| ==> !calls'[i].registered)
  }

  lemma OneCallRecorded(calls: seq<Call>, e: Event, i: nat, c: Call)
    requires i < |calls| && CallRecorded(e, i, calls[i], c)
    requires forall k: nat :: k != i ==> !Retires(e, k) && !WritesCall(e, k)
    ensures CallsRecorded(calls, e, calls[i := c])
  {
    var calls' := calls[i := c];
    forall k: nat {:trigger calls'[k]} | k < |calls|
      ensures CallRecorded(e, k, calls[k], calls'[k])
    {
      if k != i {
        assert !Retires(e, k) && !WritesCall(e, k);
      }
    }
  }

  lemma NoCallRecorded(calls: seq<Call>, e: Event)
    requires forall k: nat :: k < |calls| && calls[k].registered ==>
               (Retires(e, k) ==> calls[k].retired) && e != CallSendFailed(k) && !WritesCall(e, k)
    ensures CallsRecorded(calls, e, calls)
  {
    forall k: nat {:trigger calls[k]} | k < |calls|
      ensures CallRecorded(e, k, calls[k], calls[k])
    {
      if calls[k].registered {
        assert (Retires(e, k) ==> calls[k].retired) && e != CallSendFailed(k) && !WritesCall(e, k);
      }
    }
  }

  predicate TouchesNoCall(e: Event) {
    && !e.CallNew? && !e.CallUnmarshalable? && !e.CallRegisters? && !e.CallSendFailed?
    && !e.Acquire? && !e.WriteReturns? && !e.ReadResponse? && !e.ReadFails?
  }

  lemma OtherwiseCallsStay(s: Sys, e: Event, t: Sys)
    requires Enabled(s, e) && Next(s, e) == Ok(t) && TouchesNoCall(e)
    ensures t.calls == s.calls
  {
  }

  lemma NewCallIsRecorded(s: Sys, e: Event, t: Sys)
    requires Inv(s) && Enabled(s, e) && Next(s, e) == Ok(t) && (e.CallNew? || e.CallUnmarshalable?)
    ensures CallsRecorded(s.calls, e, t.calls)
  {
    if e.CallUnmarshalable? {
      assert CallOk(s.calls[e.i], e.i, s.fl.outgoingCalls, s.writer);
      OneCallRecorded(s.calls, e, e.i, s.calls[e.i].(phase := Returned, retired := true));
    }
  }

  lemma RegistrationIsRecorded(s: Sys, i: nat, t: Sys)
    requires Inv(s) && Enabled(s, CallRegisters(i)) && Next(s, CallRegisters(i)) == Ok(t)
    ensures CallsRecorded(s.calls, CallRegisters(i), t.calls)
  {
    CallIsRegisteredIff(s, i);
    assert CallOk(s.calls[i], i, s.fl.outgoingCalls, s.writer);
    OneCallRecorded(s.calls, CallRegisters(i), i, t.calls[i]);
  }

  lemma FailureIsRecorded(s: Sys, i: nat, t: Sys)
    requires Inv(s) && Enabled(s, CallSendFailed(i)) && Next(s, CallSendFailed(i)) == Ok(t)
    ensures CallsRecorded(s.calls, CallSendFailed(i), t.calls)
  {
    assert CallOk(s.calls[i], i, s.fl.outgoingCalls, s.writer);
    if s.calls[i].retired {
      RetiredCallJustReturns(s, i);
    } else {
      FailedCallIsRetired(s, i);
    }
    OneCallRecorded(s.calls, CallSendFailed(i), i, t.calls[i]);
  }

  lemma SendingIsRecorded(s: Sys, job: Job)
    requires Inv(s) && s.writer.Free? && Wants(s, job)
    ensures CallsRecorded(s.calls, Acquire(job), AcquireStep(s, job).calls)
  {
    if job.CallJob? {
      OneCallRecorded(s.calls, Acquire(job), job.call, s.calls[job.call].(phase := Sending));
    } else {
      NoCallRecorded(s.calls, Acquire(job));
    }
  }

  lemma CallWriteIsRecorded(s: Sys, job: Job, result: WriteResult, t: Sys)
    requires Inv(s) && Enabled(s, WriteReturns(job, result)) && WriteReturnsStep(s, job, result) == Ok(t)
    ensures CallsRecorded(s.calls, WriteReturns(job, result), t.calls)
  {
    assert LogWrite(s, job, result).calls == t.calls;
    if job.CallJob? {
      OneCallRecorded(s.calls, WriteReturns(job, result), job.call, t.calls[job.call]);
    } else {
      NoCallRecorded(s.calls, WriteReturns(job, result));
    }
  }

  lemma SameID(i: nat, k: nat)
    ensures CallID(i) == CallID(k) <==> i == k
  {
  }

  lemma ResponseIsRecorded(s: Sys, id: ID, t: Sys)
    requires Inv(s) && Enabled(s, ReadResponse(id)) && Next(s, ReadResponse(id)) == Ok(t)
    ensures CallsRecorded(s.calls, ReadResponse(id), t.calls)
  {
    if id in s.fl.outgoingCalls {
      var i := s.fl.outgoingCalls[id];
      ResponseRetiresItsCall(s, i);
      KnownIDIsItsCall(s, i);
      OneCallRecorded(s.calls, ReadResponse(id), i, t.calls[i]);
    } else {
      SecondResponseChangesNothing(s, id);
      forall k: nat | k < |s.calls| && s.calls[k].registered && id == CallID(k)
        ensures s.calls[k].retired
      {
        KnownIDIsItsCall(s, k);
      }
      NoCallRecorded(s.calls, ReadResponse(id));
    }
  }

  lemma EndOfReadingIsRecorded(s: Sys, t: Sys)
    requires Inv(s) && Enabled(s, ReadFails) && Next(s, ReadFails) == Ok(t)
    ensures CallsRecorded(s.calls, ReadFails, t.calls)
  {
    assert t.calls == RetireAll(s.calls, s.fl.outgoingCalls.Values);
    forall i: nat {:trigger t.calls[i]} | i < |s.calls|
      ensures CallRecorded(ReadFails, i, s.calls[i], t.calls[i])
    {
      KnownIDIsItsCall(s, i);
      assert CallOk(s.calls[i], i, s.fl.outgoingCalls, s.writer);
      if s.calls[i].registered && !s.calls[i].retired {
        assert s.fl.outgoingCalls[CallID(i)] in s.fl.outgoingCalls.Values;
      }
    }
  }

  lemma CallerStepRecords(s: Sys, e: Event, t: Sys)
    requires Inv(s) && Enabled(s, e) && Next(s, e) == Ok(t)
    requires e.CallNew? || e.CallUnmarshalable? || e.CallRegisters? || e.CallSendFailed?
    ensures CallsRecorded(s.calls, e, t.calls)
  {
    match e
    case CallNew | CallUnmarshalable(_) => NewCallIsRecorded(s, e, t);
    case CallRegisters(i) => RegistrationIsRecorded(s, i, t);
    case CallSendFailed(i) => FailureIsRecorded(s, i, t);
  }

  lemma StreamStepRecords(s: Sys, e: Event, t: Sys)
    requires Inv(s) && Enabled(s, e) && Next(s, e) == Ok(t)
    requires e.Acquire? || e.WriteReturns? || e.ReadResponse? || e.ReadFails?
    ensures CallsRecorded(s.calls, e, t.calls)
  {
    match e
    case Acquire(job) => SendingIsRecorded(s, job);
    case WriteReturns(job, result) => CallWriteIsRecorded(s, job, result, t);
    case ReadResponse(id) => ResponseIsRecorded(s, id, t);
    case ReadFails => EndOfReadingIsRecorded(s, t);
  }

  lemma CallsAreRecorded(states: seq<Sys>, events: seq<Event>, k: nat)
    requires IsRun(states, events) && k < |events|
    ensures CallsRecorded(states[k].calls, events[k], states[k + 1].calls)
  {
    RunKeepsInvariant(states, events, k);
    if TouchesNoCall(events[k]) {
      OtherwiseCallsStay(states[k], events[k], states[k + 1]);
      NoCallRecorded(states[k].calls, events[k]);
    } else if events[k].Acquire? || events[k].WriteReturns? || events[k].ReadResponse? || events[k].ReadFails? {
      StreamStepRecords(states[k], events[k], states[k + 1]);
    } else {
      CallerStepRecords(states[k], events[k], states[k + 1]);
    }
  }

  predicate IsRegistered(s: Sys, i: nat) {
    i < |s.calls| && s.calls[i].registered
  }

  predicate IsRetired(s: Sys, i: nat) {
    IsRegistered(s, i) && s.calls[i].retired
  }

  /**
   A registered call is retired, which is what its caller waits for, if and only if since
   its registration its response was read, its write failed, or the reader ended.
   */
  lemma RetiredHasItsCause(states: seq<Sys>, events: seq<Event>, k: nat, i: nat)
    requires IsRun(states, events) && k < |states|
    ensures IsRetired(states[k], i) <==>
      exists j :: 0 <= j < k && IsRegistered(states[j], i) && Retires(events[j], i)
  {
    forall j: nat {:trigger events[j]} | j < k
      ensures IsRetired(states[j + 1], i) ==
        (IsRetired(states[j], i) || (IsRegistered(states[j], i) && Retires(events[j], i)))
    {
      CallsAreRecorded(states, events, j);
      RetiredStep(states[j].calls, events[j], states[j + 1].calls, i);
    }
    SetBySome(states, events, k, (s: Sys) => IsRetired(s, i),
              (s: Sys, e: Event) => IsRegistered(s, i) && Retires(e, i));
  }

  lemma RetiredStep(calls: seq<Call>, e: Event, calls': seq<Call>, i: nat)
    requires CallsRecorded(calls, e, calls')
    ensures
      var was := i < |calls| && calls[i].registered;
      (i < |calls'| && calls'[i].registered && calls'[i].retired)
        == ((was && calls[i].retired) || (was && Retires(e, i)))
  {
    if i < |calls| {
      assert CallRecorded(e, i, calls[i], calls'[i]);
    }
  }

  predicate IsPastWrite(s: Sys, i: nat) {
    IsRegistered(s, i) && PastWrite(s.calls[i])
  }

  lemma PastWriteStep(calls: seq<Call>, e: Event, calls': seq<Call>, i: nat)
    requires CallsRecorded(calls, e, calls')
    ensures
      var was := i < |calls| && calls[i].registered;
      (i < |calls'| && calls'[i].registered && PastWrite(calls'[i]))
        == ((was && PastWrite(calls[i])) || (was && WritesCall(e, i)))
  {
    if i < |calls| {
      assert CallRecorded(e, i, calls[i], calls'[i]);
    }
  }

  /** The message of every registered call that has returned, or has failed, has been tried to be written. */
  lemma RegisteredCallIsSent(states: seq<Sys>, events: seq<Event>, k: nat, i: nat)
    requires IsRun(states, events) && k < |states| && IsPastWrite(states[k], i)
    ensures IsAttempted(states[k], CallJob(i))
  {
    forall j: nat {:trigger events[j]} | j < k
      ensures IsPastWrite(states[j + 1], i) ==
        (IsPastWrite(states[j], i) || (IsRegistered(states[j], i) && WritesCall(events[j], i)))
    {
      CallsAreRecorded(states, events, j);
      PastWriteStep(states[j].calls, events[j], states[j + 1].calls, i);
    }
    SetBySome(states, events, k, (s: Sys) => IsPastWrite(s, i),
              (s: Sys, e: Event) => IsRegistered(s, i) && WritesCall(e, i));
    AttemptedIffWritten(states, events, k, CallJob(i));
  }

  predicate HasReturned(s: Sys, i: nat) {
    IsRegistered(s, i) && s.calls[i].phase.Returned?
  }

  lemma ReturnedStep(calls: seq<Call>, e: Event, calls': seq<Call>, i: nat)
    requires CallsRecorded(calls, e, calls')
    ensures
      var was := i < |calls| && calls[i].registered;
      (i < |calls'| && calls'[i].registered && calls'[i].phase.Returned?)
        == ((was && calls[i].phase.Returned?) || (was && (e == CallSendFailed(i) || DeliversCall(e, i))))
  {
    if i < |calls| {
      assert CallRecorded(e, i, calls[i], calls'[i]);
    }
  }

  lemma ReturnedHasItsCause(states: seq<Sys>, events: seq<Event>, k: nat, i: nat)
    requires IsRun(states, events) && k < |states|
    ensures HasReturned(states[k], i) <==>
      exists j :: 0 <= j < k && IsRegistered(states[j], i)
        && (events[j] == CallSendFailed(i) || DeliversCall(events[j], i))
  {
    forall j: nat {:trigger events[j]} | j < k
      ensures HasReturned(states[j + 1], i) ==
        (HasReturned(states[j], i)
         || (IsRegistered(states[j], i) && (events[j] == CallSendFailed(i) || DeliversCall(events[j], i))))
    {
      CallsAreRecorded(states, events, j);
      ReturnedStep(states[j].calls, events[j], states[j + 1].calls, i);
    }
    SetBySome(states, events, k, (s: Sys) => HasReturned(s, i),
              (s: Sys, e: Event) => IsRegistered(s, i) && (e == CallSendFailed(i) || DeliversCall(e, i)));
  }

  /** When `Call` has returned, the call is retired, or its request has been written successfully. */
  lemma ReturnedCallIsRetiredOrWritten(states: seq<Sys>, events: seq<Event>, k: nat, i: nat)
    requires IsRun(states, events) && k < |states| && HasReturned(states[k], i)
    ensures states[k].calls[i].retired || exists j :: 0 <= j < k && events[j] == WriteReturns(CallJob(i), Written)
  {
    ReturnedHasItsCause(states, events, k, i);
    RetiredHasItsCause(states, events, k, i);
    var j :| 0 <= j < k && IsRegistered(states[j], i) && (events[j] == CallSendFailed(i) || DeliversCall(events[j], i));
    if events[j] == CallSendFailed(i) {
      assert Retires(events[j], i);
    } else {
      assert events[j] == WriteReturns(CallJob(i), Written);
    }
  }

  // ----- outgoing notifications -----

  predicate NoteIsOver(s: Sys, j: nat) {
    j < |s.notes| && (s.notes[j].NoteLeaving? || s.notes[j].NoteLeft?)
  }

  /** The notification is written, or cannot be encoded. */
  predicate EndsNote(e: Event, j: nat) {
    e == NotifyUnmarshalable(j) || (e.WriteReturns? && e.job == NoteJob(j))
  }

  predicate TouchesNotes(e: Event) {
    || e.NotifyTries? || e.NotifyUnmarshalable? || e.NotifyLeaves?
    || (e.Acquire? && e.job.NoteJob?) || (e.WriteReturns? && e.job.NoteJob?)
  }

  lemma OtherwiseNotesStay(s: Sys, e: Event, t: Sys)
    requires Enabled(s, e) && Next(s, e) == Ok(t) && !TouchesNotes(e)
    ensures t.notes == s.notes
  {
  }

  lemma WriteEndsNote(s: Sys, j: nat, result: WriteResult, t: Sys)
    requires Holds(s, NoteJob(j)) && WriteReturnsStep(s, NoteJob(j), result) == Ok(t)
    ensures t.notes == s.notes[j := NoteLeaving]
  {
    assert LogWrite(s, NoteJob(j), result).notes == t.notes;
  }

  lemma WriteNoteStep(s: Sys, i: nat, result: WriteResult, t: Sys, j: nat)
    requires Holds(s, NoteJob(i)) && WriteReturnsStep(s, NoteJob(i), result) == Ok(t)
    ensures NoteIsOver(t, j) == (NoteIsOver(s, j) || i == j) && !(NoteIsOver(s, j) && i == j)
  {
    WriteEndsNote(s, i, result, t);
  }

  lemma SmallNoteStep(s: Sys, e: Event, t: Sys, j: nat)
    requires Enabled(s, e) && Next(s, e) == Ok(t)
    requires e.NotifyUnmarshalable? || e.NotifyLeaves? || e.Acquire?
    ensures NoteIsOver(t, j) == (NoteIsOver(s, j) || EndsNote(e, j)) && !(NoteIsOver(s, j) && EndsNote(e, j))
  {
  }

  lemma NoteStep(s: Sys, e: Event, t: Sys, j: nat)
    requires Inv(s) && Enabled(s, e) && Next(s, e) == Ok(t)
    ensures NoteIsOver(t, j) == (NoteIsOver(s, j) || EndsNote(e, j)) && !(NoteIsOver(s, j) && EndsNote(e, j))
  {
    if !TouchesNotes(e) {
      OtherwiseNotesStay(s, e, t);
    } else if e.NotifyTries? {
      NotifyIsAdmittedIff(s);
    } else if e.WriteReturns? {
      WriteNoteStep(s, e.job.note, e.result, t, j);
    } else {
      SmallNoteStep(s, e, t, j);
    }
  }

  lemma NoteOverIffEnded(states: seq<Sys>, events: seq<Event>, k: nat, j: nat)
    requires IsRun(states, events) && k < |states|
    ensures NoteIsOver(states[k], j) <==> exists i :: 0 <= i < k && EndsNote(events[i], j)
  {
    forall i: nat {:trigger events[i]} | i < k
      ensures NoteIsOver(states[i + 1], j) == (NoteIsOver(states[i], j) || EndsNote(events[i], j))
    {
      RunKeepsInvariant(states, events, i);
      NoteStep(states[i], events[i], states[i + 1], j);
    }
    SetBySome(states, events, k, (s: Sys) => NoteIsOver(s, j), (s: Sys, e: Event) => EndsNote(e, j));
  }

  lemma NoteEndsOnce(states: seq<Sys>, events: seq<Event>, i: nat, k: nat, j: nat)
    requires IsRun(states, events) && i < k < |events| && EndsNote(events[i], j)
    ensures !EndsNote(events[k], j)
  {
    NoteOverIffEnded(states, events, k, j);
    RunKeepsInvariant(states, events, k);
    NoteStep(states[k], events[k], states[k + 1], j);
  }

  /** Every notification that was admitted and is over has been tried to be written, unless it could not be encoded. */
  lemma NotificationIsSentIff(states: seq<Sys>, events: seq<Event>, k: nat, j: nat)
    requires IsRun(states, events) && k < |states| && NoteIsOver(states[k], j)
    ensures IsAttempted(states[k], NoteJob(j)) <==> !exists i :: 0 <= i < k && events[i] == NotifyUnmarshalable(j)
  {
    NoteOverIffEnded(states, events, k, j);
    AttemptedIffWritten(states, events, k, NoteJob(j));
    if IsAttempted(states[k], NoteJob(j)) {
      var i: nat :| i < k && events[i].WriteReturns? && events[i].job == NoteJob(j);
      forall l: nat | l < k && events[l] == NotifyUnmarshalable(j)
        ensures false
      {
        if i < l {
          NoteEndsOnce(states, events, i, l, j);
        } else {
          NoteEndsOnce(states, events, l, i, j);
        }
      }
    }
  }
}
