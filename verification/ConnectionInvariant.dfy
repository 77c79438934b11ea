/**
 The inductive invariant of the connection, one predicate for each group of state
 components.
 */
module ConnectionInvariant {
  import opened Wrappers
  import opened InFlight
  import opened ConnectionProtocol

  // ----- incoming requests -----

  /** The parts of the state that point into the table of requests. */
  datatype Pointers = Pointers(
    reader: ReaderPc,
    handler: HandlerPc,
    byID: map<ID, nat>,
    queue: seq<nat>,
    writeErr: bool,
    writer: Token)

  function PointersOf(s: Sys): Pointers {
    Pointers(s.reader, s.handler, s.fl.incomingByID, s.fl.handlerQueue, s.fl.writeErr, s.writer)
  }

  ghost function Unfinished(requests: seq<Request>): set<nat> {
    set r: nat | r < |requests| && !requests[r].phase.Done?
  }

  /** What the fields of request number `r` say about each other and about the rest. */
  ghost predicate RequestOk(q: Request, r: nat, p: Pointers) {
    && (q.phase.Open? || q.phase.Queued? || q.phase.Checking? ==> q.driver.Nobody?)
    && (Active(q.phase) ==> !q.driver.Nobody?)
    && (Active(q.phase) && q.driver.ByReader? ==> p.reader == ReaderReplying(r))
    && (Active(q.phase) && q.driver.ByHandler? ==> p.handler == HandlerReplying(r))
    && (q.phase.Checking? ==> p.handler == HandlerChecking(r))
    && (q.phase.Open? && q.id.None? ==> p.reader == ReaderPreempting(r) || p.handler == HandlerHandling(r))
    && (q.driver.ByResponder? || q.phase.Answering? || q.phase.Writing? ==> q.id.Some?)
    && (q.rejected ==> q.driver.ByReader?)
    && (q.duplicate ==> q.id.None?)
    // a call whose id is not forgotten is found under it
    && (q.id.Some? && Early(q.phase) ==> q.id.value in p.byID && p.byID[q.id.value] == r)
    && (q.phase.Queued? ==> r in p.queue)
    && (q.phase.Writing? <==> p.writer == Held(ReplyJob(r)))
    // after a write error such a call is cancelled or on its way to be rejected
    && (p.writeErr && q.id.Some? && Early(q.phase) ==> q.cancelled || (q.phase.Completing? && q.rejected))
    && (q.late && q.id.Some? ==> q.cancelled && !q.delivered)
    && (q.phase.Queued? || q.phase.Checking? || p.reader == ReaderPreempting(r) ==> !q.delivered)
  }

  ghost predicate ReaderOk(requests: seq<Request>, reader: ReaderPc) {
    match reader
    case ReaderPreempting(r) => r < |requests| && (requests[r].phase.Open? || requests[r].driver.ByResponder?)
    case ReaderReplying(r) => r < |requests| && requests[r].driver.ByReader? && Active(requests[r].phase)
    case _ => true
  }

  ghost predicate HandlerOk(requests: seq<Request>, reader: ReaderPc, handler: HandlerPc) {
    match handler
    case HandlerChecking(r) => r < |requests| && requests[r].phase.Checking?
    case HandlerHandling(r) =>
      r < |requests| && (requests[r].phase.Open? || requests[r].driver.ByResponder?) && reader != ReaderPreempting(r)
    case HandlerReplying(r) => r < |requests| && requests[r].driver.ByHandler? && Active(requests[r].phase)
    case _ => true
  }

  /** `incomingByID` leads to calls with that id. */
  ghost predicate MapOk(requests: seq<Request>, byID: map<ID, nat>) {
    forall id :: id in byID ==>
      byID[id] < |requests| && requests[byID[id]].id == Some(id) && Early(requests[byID[id]].phase)
  }

  /** The handler queue holds queued requests, each once. */
  ghost predicate QueueOk(requests: seq<Request>, queue: seq<nat>) {
    && (forall k :: 0 <= k < |queue| ==> queue[k] < |requests| && requests[queue[k]].phase.Queued?)
    && (forall k, l :: 0 <= k < l < |queue| ==> queue[k] != queue[l])
  }

  ghost predicate EachOk(requests: seq<Request>, p: Pointers) {
    forall r: nat {:trigger requests[r]} :: r < |requests| ==> RequestOk(requests[r], r, p)
  }

  ghost predicate TableOk(requests: seq<Request>, p: Pointers) {
    && EachOk(requests, p)
    && ReaderOk(requests, p.reader)
    && HandlerOk(requests, p.reader, p.handler)
    && MapOk(requests, p.byID)
    && QueueOk(requests, p.queue)
    && (p.writer.Held? && p.writer.job.ReplyJob? ==> p.writer.job.request < |requests|)
  }

  // ----- outgoing calls and notifications -----

  ghost predicate CallOk(c: Call, i: nat, outgoing: map<ID, nat>, writer: Token) {
    && (c.registered && !c.retired ==> CallID(i) in outgoing && outgoing[CallID(i)] == i)
    && (c.phase.Fresh? ==> !c.registered && !c.retired)
    && (!c.registered ==> c.phase.Fresh? || (c.phase.Returned? && c.retired))
    && (c.phase.Sending? <==> writer == Held(CallJob(i)))
  }

  /** `outgoingCalls` holds exactly the registered calls that are not retired. */
  ghost predicate CallsOk(calls: seq<Call>, outgoing: map<ID, nat>, writer: Token) {
    && (forall id :: id in outgoing ==>
          && outgoing[id] < |calls|
          && id == CallID(outgoing[id])
          && calls[outgoing[id]].registered
          && !calls[outgoing[id]].retired)
    && (forall i: nat {:trigger calls[i]} :: i < |calls| ==> CallOk(calls[i], i, outgoing, writer))
    && (writer.Held? && writer.job.CallJob? ==> writer.job.call < |calls|)
  }

  ghost function ActiveNotes(notes: seq<NotePhase>): set<nat> {
    set j: nat | j < |notes| && !notes[j].NoteLeft?
  }

  ghost predicate NotesOk(notes: seq<NotePhase>, writer: Token) {
    && (forall j: nat {:trigger notes[j]} :: j < |notes| ==> (notes[j].NoteSending? <==> writer == Held(NoteJob(j))))
    && (writer.Held? && writer.job.NoteJob? ==> writer.job.note < |notes|)
  }

  // ----- flags, write log, order -----

  /** The goroutine flags, and the facts about closing that hold even inside a critical section. */
  ghost predicate FlagsOk(fl: InFlight<nat, nat>, reader: ReaderPc, handler: HandlerPc, writer: Token) {
    && fl.reading == (!reader.ReaderNotStarted? && !reader.ReaderExited?)
    && fl.readErr == reader.ReaderExited?
    && fl.handlerRunning == !handler.HandlerOff?
    && (fl.handlerQueue != [] ==> fl.handlerRunning)
    && fl.closes == (if fl.closerOpen then 0 else 1)
    && fl.dones == (if fl.done then 1 else 0)
    && (!fl.closerOpen ==> fl.ShuttingDown())
    && (fl.done ==> fl.Idle() && fl.ShuttingDown() && !fl.reading && !fl.closerOpen)
    && (writer.Unmade? ==> reader.ReaderNotStarted?)
    && (fl.readErr ==> fl.outgoingCalls == map[])
  }

  /** Outside critical sections the stream and `done` are closed as soon as they can be. */
  ghost predicate Settled(fl: InFlight<nat, nat>) {
    && (fl.Idle() && fl.ShuttingDown() ==> !fl.closerOpen)
    && (fl.Idle() && fl.ShuttingDown() && !fl.reading ==> fl.done)
  }

  /** A logged write attempt is by a job that is past its write, and carries the job's id. */
  ghost predicate SentOk(m: Sent, requests: seq<Request>, calls: seq<Call>, notes: seq<NotePhase>) {
    match m.job
    case CallJob(i) => i < |calls| && (calls[i].phase.Failing? || calls[i].phase.Returned?) && m.id == Some(CallID(i))
    case NoteJob(j) => j < |notes| && (notes[j].NoteLeaving? || notes[j].NoteLeft?) && m.id == None
    case ReplyJob(r) =>
      r < |requests| && (requests[r].phase.Finishing? || requests[r].phase.Done?) && m.id == requests[r].id &&
          m.id.Some?
  }

  /** No job has two write attempts. */
  ghost predicate WireOk(wire: seq<Sent>, requests: seq<Request>, calls: seq<Call>, notes: seq<NotePhase>) {
    && (forall k :: 0 <= k < |wire| ==> SentOk(wire[k], requests, calls, notes))
    && (forall k, l :: 0 <= k < l < |wire| ==> wire[k].job != wire[l].job)
  }

  /** The queue is first-in first-out and the handler gets requests in that order. */
  ghost predicate OrderOk(enqueued: seq<nat>, dequeued: seq<nat>, handled: seq<nat>, queue: seq<nat>,
                          handler: HandlerPc, requests: nat)
  {
    && enqueued == dequeued + queue
    && (forall k :: 0 <= k < |enqueued| ==> enqueued[k] < requests)
    && (forall k, l :: 0 <= k < l < |handled| ==> handled[k] < handled[l])
    && (forall k :: 0 <= k < |handled| ==> 1 <= handled[k] <= |dequeued|)
    && (handler.HandlerChecking? ==>
          && dequeued != []
          && dequeued[|dequeued| - 1] == handler.r
          && (forall k :: 0 <= k < |handled| ==> handled[k] < |dequeued|))
  }

  /** The parts that say nothing about counters and closing. */
  ghost predicate PartsOk(s: Sys) {
    && TableOk(s.requests, PointersOf(s))
    && CallsOk(s.calls, s.fl.outgoingCalls, s.writer)
    && NotesOk(s.notes, s.writer)
    && WireOk(s.wire, s.requests, s.calls, s.notes)
    && OrderOk(s.enqueued, s.dequeued, s.handled, s.fl.handlerQueue, s.handler, |s.requests|)
  }

  ghost predicate CountsOk(s: Sys) {
    && s.fl.incoming == |Unfinished(s.requests)|
    && s.fl.outgoingNotifications == |ActiveNotes(s.notes)|
  }

  ghost predicate Inv(s: Sys) {
    && PartsOk(s)
    && CountsOk(s)
    && FlagsOk(s.fl, s.reader, s.handler, s.writer)
    && Settled(s.fl)
  }

  lemma InitialInv()
    ensures Inv(Initial)
  {
    assert Unfinished([]) == {};
    assert ActiveNotes([]) == {};
  }

  // ----- counting -----

  lemma UnfinishedUpdate(requests: seq<Request>, r: nat, q: Request)
    requires r < |requests|
    ensures |Unfinished(requests[r := q])| ==
              |Unfinished(requests)| - (if requests[r].phase.Done? then 0 else 1) + (if q.phase.Done? then 0 else 1)
  {
    var rest := Unfinished(requests) - {r};
    assert Unfinished(requests) == if requests[r].phase.Done? then rest else rest + {r};
    assert Unfinished(requests[r := q]) == if q.phase.Done? then rest else rest + {r};
  }

  lemma UnfinishedAppend(requests: seq<Request>, q: Request)
    requires !q.phase.Done?
    ensures |Unfinished(requests + [q])| == |Unfinished(requests)| + 1
  {
    assert Unfinished(requests + [q]) == Unfinished(requests) + {|requests|};
  }

  lemma ActiveNotesUpdate(notes: seq<NotePhase>, j: nat, p: NotePhase)
    requires j < |notes|
    ensures |ActiveNotes(notes[j := p])| ==
              |ActiveNotes(notes)| - (if notes[j].NoteLeft? then 0 else 1) + (if p.NoteLeft? then 0 else 1)
  {
    var rest := ActiveNotes(notes) - {j};
    assert ActiveNotes(notes) == if notes[j].NoteLeft? then rest else rest + {j};
    assert ActiveNotes(notes[j := p]) == if p.NoteLeft? then rest else rest + {j};
  }

  lemma ActiveNotesAppend(notes: seq<NotePhase>, p: NotePhase)
    requires !p.NoteLeft?
    ensures |ActiveNotes(notes + [p])| == |ActiveNotes(notes)| + 1
  {
    assert ActiveNotes(notes + [p]) == ActiveNotes(notes) + {|notes|};
  }

  /** A map into `range` whose values are all different is no larger than `range`. */
  lemma InjectiveMapSize(m: map<ID, nat>, range: set<nat>)
    requires forall id :: id in m ==> m[id] in range
    requires forall i, j :: i in m && j in m && i != j ==> m[i] != m[j]
    ensures |m| <= |range|
    decreases |m|
  {
    if m != map[] {
      var id :| id in m;
      var rest := m - {id};
      assert |rest| == |m| - 1 by {
        assert m.Keys == rest.Keys + {id};
      }
      InjectiveMapSize(rest, range - {m[id]});
    }
  }

  /** `incoming` bounds the number of calls that can be answered by id. */
  lemma IncomingBoundsByID(requests: seq<Request>, byID: map<ID, nat>)
    requires MapOk(requests, byID)
    ensures |byID| <= |Unfinished(requests)|
  {
    InjectiveMapSize(byID, Unfinished(requests));
  }

  // ----- leaving a critical section -----

  /**
   A section that keeps the flags in order leaves the connection settled; it panics
   on unlocking exactly when it made a finished connection non-idle.
   */
  lemma UnlockSettles(s: Sys, fl: InFlight<nat, nat>)
    requires FlagsOk(fl, s.reader, s.handler, s.writer)
    ensures Locked(s, fl).Ok?
    ensures var t := Locked(s, fl).state;
      && FlagsOk(t.fl, s.reader, s.handler, s.writer)
      && Settled(t.fl)
      && t == s.(fl := t.fl)
      && t.fl == fl.(closerOpen := t.fl.closerOpen, done := t.fl.done, closes := t.fl.closes, dones := t.fl.dones)
  {
  }

  lemma UnlockUnchanged(s: Sys)
    requires FlagsOk(s.fl, s.reader, s.handler, s.writer) && Settled(s.fl)
    ensures Locked(s, s.fl) == Ok(s)
  {
  }
}
