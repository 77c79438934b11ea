/**
 The state of a connection that is guarded by its mutex (`inFlightState` and the
 `done` channel), and the critical sections that the connection's methods run
 under that mutex.

 A section is given twice: as a function on `InFlight` values, which the protocol
 model composes into steps, and as a method of the class `Connection`, which
 updates the fields one assignment at a time and is proved to compute that function.
 */
module InFlight {
  import opened Wrappers

  datatype ID = IntID(number: int) | StringID(text: string)

  datatype Panic =
    | NonIdleWhenDone
    | IncomingAlreadyZero
    | RetiredTwice
    | InternalError
    | DanglingReference

  /** A step either ends in a state or runs into one of the panics in the code. */
  datatype Outcome<+S> = Ok(state: S) | Panicked(why: Panic)

  /**
   `A` is the type of references to outgoing calls, `R` to incoming requests.
   `closes` and `dones` count the calls of `closer.Close` and of `close(c.done)`
   (with `onDone`).
   */
  datatype InFlight<A, R> = InFlight(
    connClosing: bool,
    reading: bool,
    readErr: bool,
    writeErr: bool,
    closerOpen: bool,
    outgoingCalls: map<ID, A>,
    outgoingNotifications: int,
    incoming: int,
    incomingByID: map<ID, R>,
    handlerQueue: seq<R>,
    handlerRunning: bool,
    done: bool,
    closes: nat,
    dones: nat)
  {
    predicate Idle() {
      outgoingCalls == map[] && outgoingNotifications == 0 && incoming == 0 && !handlerRunning
    }

    predicate ShuttingDown() {
      connClosing || readErr || writeErr
    }

    /** No call in either direction is in flight. */
    predicate NoCalls() {
      outgoingCalls == map[] && incomingByID == map[]
    }

    /** What `updateInFlight` does after the section's own updates. */
    function Unlock(): Outcome<InFlight<A, R>> {
      if done then
        if Idle() then Ok(this) else Panicked(NonIdleWhenDone)
      else if Idle() && ShuttingDown() then
        var s := if closerOpen then this.(closerOpen := false, closes := closes + 1) else this;
        Ok(if s.reading then s else s.(done := true, dones := s.dones + 1))
      else
        Ok(this)
    }

    function StartReading(): InFlight<A, R> {
      if done then this else this.(reading := true)
    }

    function AdmitNotification(): (InFlight<A, R>, bool) {
      if NoCalls() && ShuttingDown() then (this, false)
      else (this.(outgoingNotifications := outgoingNotifications + 1), true)
    }

    function LeaveNotification(): InFlight<A, R> {
      this.(outgoingNotifications := outgoingNotifications - 1)
    }

    function RegisterCall(id: ID, call: A): (InFlight<A, R>, bool) {
      if ShuttingDown() then (this, false)
      else (this.(outgoingCalls := outgoingCalls[id := call]), true)
    }

    function RemoveCall(id: ID): InFlight<A, R> {
      this.(outgoingCalls := outgoingCalls - {id})
    }

    function StopReading(): InFlight<A, R> {
      this.(reading := false, readErr := true, outgoingCalls := map[])
    }

    /** First section of `acceptRequest`; the flag says whether the id is already in use. */
    function AcceptCall(id: ID, request: R): (InFlight<A, R>, bool) {
      var s := this.(incoming := incoming + 1);
      if id in incomingByID then (s, true)
      else (s.(incomingByID := incomingByID[id := request]), false)
    }

    function AcceptNotification(): InFlight<A, R> {
      this.(incoming := incoming + 1)
    }

    /** Second section of `acceptRequest`; the flag says whether the request was queued. */
    function Enqueue(request: R): (InFlight<A, R>, bool) {
      if ShuttingDown() then (this, false)
      else (this.(handlerQueue := handlerQueue + [request], handlerRunning := true), true)
    }

    function Dequeue(): (InFlight<A, R>, Option<R>) {
      if handlerQueue != [] then (this.(handlerQueue := handlerQueue[1..]), Some(handlerQueue[0]))
      else (this.(handlerRunning := false), None)
    }

    function DropRequest(id: ID): InFlight<A, R> {
      this.(incomingByID := incomingByID - {id})
    }

    function RecordWriteError(): InFlight<A, R> {
      this.(writeErr := true)
    }
  }

  /** Unlocking twice is the same as unlocking once: sections that only read change nothing. */
  lemma UnlockIsIdempotent<A, R>(s: InFlight<A, R>)
    requires s.Unlock().Ok?
    ensures s.Unlock().state.Unlock() == s.Unlock()
  {
  }

  /** `AsyncCall`: `ready` is the closed state of its channel. */
  class AsyncCall {
    const id: ID
    var ready: bool

    constructor (id: ID)
      ensures this.id == id && !ready
    {
      this.id := id;
      ready := false;
    }

    /** The code panics when the call is already retired. */
    method Retire()
      requires !ready
      modifies this
      ensures ready
    {
      ready := true;
    }
  }

  /** `incomingRequest`: an id of `None` marks a notification. */
  class IncomingRequest {
    var id: Option<ID>
    var cancelled: bool

    constructor (id: Option<ID>)
      ensures this.id == id && !cancelled
    {
      this.id := id;
      cancelled := false;
    }
  }

  class Connection {
    var connClosing: bool
    var reading: bool
    var readErr: bool
    var writeErr: bool
    var closerOpen: bool
    var outgoingCalls: map<ID, AsyncCall>
    var outgoingNotifications: int
    var incoming: int
    var incomingByID: map<ID, IncomingRequest>
    var handlerQueue: seq<IncomingRequest>
    var handlerRunning: bool
    var done: bool
    ghost var closes: nat
    ghost var dones: nat

    ghost function View(): InFlight<AsyncCall, IncomingRequest>
      reads this
    {
      InFlight(connClosing, reading, readErr, writeErr, closerOpen, outgoingCalls, outgoingNotifications,
               incoming, incomingByID, handlerQueue, handlerRunning, done, closes, dones)
    }

    constructor ()
      ensures View() == InFlight(false, false, false, false, true, map[], 0, 0, map[], [], false, false, 0, 0)
    {
      connClosing, reading, readErr, writeErr := false, false, false, false;
      closerOpen := true;
      outgoingCalls, incomingByID := map[], map[];
      outgoingNotifications, incoming := 0, 0;
      handlerQueue := [];
      handlerRunning := false;
      done := false;
      closes, dones := 0, 0;
    }

    predicate Idle()
      reads this
      ensures Idle() == View().Idle()
    {
      outgoingCalls == map[] && outgoingNotifications == 0 && incoming == 0 && !handlerRunning
    }

    predicate ShuttingDown()
      reads this
      ensures ShuttingDown() == View().ShuttingDown()
    {
      if connClosing then true
      else if readErr then true
      else writeErr
    }

    /** The end of `updateInFlight`: its precondition is that the code's panic is not reached. */
    method Unlock()
      requires View().Unlock().Ok?
      modifies this
      ensures Ok(View()) == old(View()).Unlock()
    {
      if done {
        return;
      }
      if Idle() && ShuttingDown() {
        if closerOpen {
          closes := closes + 1;
          closerOpen := false;
        }
        if !reading {
          dones := dones + 1;
          done := true;
        }
      }
    }

    method StartReading()
      requires View().StartReading().Unlock().Ok?
      modifies this
      ensures Ok(View()) == old(View()).StartReading().Unlock()
    {
      if !done {
        reading := true;
      }
      Unlock();
    }

    method Close()
      requires View().(connClosing := true).Unlock().Ok?
      modifies this
      ensures Ok(View()) == old(View()).(connClosing := true).Unlock()
    {
      connClosing := true;
      Unlock();
    }

    method AdmitNotification() returns (admitted: bool)
      requires View().AdmitNotification().0.Unlock().Ok?
      modifies this
      ensures Ok(View()) == old(View()).AdmitNotification().0.Unlock()
      ensures admitted == old(View()).AdmitNotification().1
    {
      admitted := false;
      if outgoingCalls == map[] && incomingByID == map[] {
        if ShuttingDown() {
          Unlock();
          return;
        }
      }
      outgoingNotifications := outgoingNotifications + 1;
      admitted := true;
      Unlock();
    }

    method LeaveNotification()
      requires View().LeaveNotification().Unlock().Ok?
      modifies this
      ensures Ok(View()) == old(View()).LeaveNotification().Unlock()
    {
      outgoingNotifications := outgoingNotifications - 1;
      Unlock();
    }

    /** The section of `Call`; a refused call is retired by its caller. */
    method RegisterCall(call: AsyncCall) returns (registered: bool)
      requires !call.ready
      requires View().RegisterCall(call.id, call).0.Unlock().Ok?
      modifies this, call
      ensures Ok(View()) == old(View()).RegisterCall(call.id, call).0.Unlock()
      ensures registered == old(View()).RegisterCall(call.id, call).1
      ensures call.ready == !registered
    {
      registered := !ShuttingDown();
      if registered {
        outgoingCalls := outgoingCalls[call.id := call];
      }
      Unlock();
      if !registered {
        call.Retire();
      }
    }

    /** The section that `Call` runs after a failed write. */
    method SendingFailed(call: AsyncCall)
      requires call.id in outgoingCalls && outgoingCalls[call.id] == call ==> !call.ready
      requires View().RemoveCall(call.id).Unlock().Ok? && View().Unlock().Ok?
      modifies this, call
      ensures old(call.id in outgoingCalls && outgoingCalls[call.id] == call) ==>
                Ok(View()) == old(View()).RemoveCall(call.id).Unlock() && call.ready
      ensures !old(call.id in outgoingCalls && outgoingCalls[call.id] == call) ==>
                Ok(View()) == old(View()).Unlock() && call.ready == old(call.ready)
    {
      if call.id in outgoingCalls && outgoingCalls[call.id] == call {
        outgoingCalls := outgoingCalls - {call.id};
        call.Retire();
      }
      Unlock();
    }

    /** The section of `readIncoming` for a response with the given id. */
    method DeliverResponse(id: ID)
      requires id in outgoingCalls ==> !outgoingCalls[id].ready
      requires View().RemoveCall(id).Unlock().Ok?
      modifies this, if id in outgoingCalls then {outgoingCalls[id]} else {}
      ensures Ok(View()) == old(View()).RemoveCall(id).Unlock()
      ensures old(id in outgoingCalls) ==> old(outgoingCalls[id]).ready
    {
      if id in outgoingCalls {
        var call := outgoingCalls[id];
        outgoingCalls := outgoingCalls - {id};
        call.Retire();
      } else {
        assert outgoingCalls - {id} == outgoingCalls;
      }
      Unlock();
    }

    /** The loop of `readIncoming`'s last section. */
    static method RetireAll(calls: map<ID, AsyncCall>)
      requires forall id :: id in calls ==> !calls[id].ready
      requires forall i, j :: i in calls && j in calls && i != j ==> calls[i] != calls[j]
      modifies calls.Values
      ensures forall id :: id in calls ==> calls[id].ready
    {
      var pending := calls.Keys;
      while pending != {}
        invariant pending <= calls.Keys
        invariant forall id :: id in calls ==> calls[id].ready == (id !in pending)
        decreases |pending|
      {
        var id :| id in pending;
        calls[id].Retire();
        pending := pending - {id};
      }
    }

    /** The last section of `readIncoming`: every call still waiting is retired. */
    method StopReading()
      requires forall id :: id in outgoingCalls ==> !outgoingCalls[id].ready
      requires forall i, j :: i in outgoingCalls && j in outgoingCalls && i != j ==>
        outgoingCalls[i] != outgoingCalls[j]
      requires View().StopReading().Unlock().Ok?
      modifies this, outgoingCalls.Values
      ensures Ok(View()) == old(View()).StopReading().Unlock()
      ensures forall id :: id in old(outgoingCalls) ==> old(outgoingCalls)[id].ready
    {
      reading := false;
      readErr := true;
      RetireAll(outgoingCalls);
      outgoingCalls := map[];
      Unlock();
    }

    /** First section of `acceptRequest`; `rejected` is whether an error was chosen under the lock. */
    method Accept(request: IncomingRequest) returns (rejected: bool)
      requires request.id.Some? ==> View().AcceptCall(request.id.value, request).0.Unlock().Ok?
      requires request.id.None? ==> View().AcceptNotification().Unlock().Ok?
      modifies this, request
      ensures old(request.id).Some? ==>
                var (s, duplicate) := old(View()).AcceptCall(old(request.id).value, request);
                && Ok(View()) == s.Unlock()
                && rejected == (duplicate || old(View()).ShuttingDown())
                && request.id == if duplicate then None else old(request.id)
      ensures old(request.id).None? ==>
                Ok(View()) == old(View()).AcceptNotification().Unlock() && !rejected && request.id == None
      ensures request.cancelled == old(request.cancelled)
    {
      rejected := false;
      incoming := incoming + 1;
      if request.id.Some? {
        if request.id.value in incomingByID {
          rejected := true;
          request.id := None;
          Unlock();
          return;
        }
        incomingByID := incomingByID[request.id.value := request];
        rejected := ShuttingDown();
      }
      Unlock();
    }

    /** Second section of `acceptRequest`; `started` is whether a handler goroutine was started. */
    method Enqueue(request: IncomingRequest) returns (queued: bool, started: bool)
      requires View().Enqueue(request).0.Unlock().Ok?
      modifies this
      ensures Ok(View()) == old(View()).Enqueue(request).0.Unlock()
      ensures queued == old(View()).Enqueue(request).1
      ensures started == (queued && !old(handlerRunning))
    {
      queued, started := false, false;
      if ShuttingDown() {
        Unlock();
        return;
      }
      queued := true;
      handlerQueue := handlerQueue + [request];
      if !handlerRunning {
        handlerRunning := true;
        started := true;
      }
      Unlock();
    }

    /** First section of `handleAsync`'s loop. */
    method Dequeue() returns (request: IncomingRequest?)
      requires View().Dequeue().0.Unlock().Ok?
      modifies this
      ensures Ok(View()) == old(View()).Dequeue().0.Unlock()
      ensures match old(View()).Dequeue().1 case Some(r) => request == r case None => request == null
    {
      request := null;
      if |handlerQueue| > 0 {
        request, handlerQueue := handlerQueue[0], handlerQueue[1..];
      } else {
        handlerRunning := false;
      }
      Unlock();
    }

    /** The section of `processResult` that forgets the id before the response is sent. */
    method DropRequest(id: ID)
      requires View().DropRequest(id).Unlock().Ok?
      modifies this
      ensures Ok(View()) == old(View()).DropRequest(id).Unlock()
    {
      incomingByID := incomingByID - {id};
      Unlock();
    }

    /** The last section of `processResult`; it panics when `incoming` is zero. */
    method FinishRequest()
      requires incoming != 0
      requires View().(incoming := incoming - 1).Unlock().Ok?
      modifies this
      ensures Ok(View()) == old(View()).(incoming := old(incoming) - 1).Unlock()
    {
      incoming := incoming - 1;
      Unlock();
    }

    /** The loop of that section: every request that can be answered by id is cancelled. */
    method CancelAll()
      modifies incomingByID.Values
      ensures forall r <- incomingByID.Values :: r.id == old(r.id) && r.cancelled
    {
      var pending := incomingByID.Keys;
      while pending != {}
        invariant pending <= incomingByID.Keys
        invariant forall r <- incomingByID.Values :: r.id == old(r.id)
        invariant forall id :: id in incomingByID && id !in pending ==> incomingByID[id].cancelled
        decreases |pending|
      {
        var id :| id in pending;
        incomingByID[id].cancelled := true;
        pending := pending - {id};
      }
    }

    /** The section of `write`: the first failure cancels every call that can be answered by id. */
    method RecordWriteError()
      requires View().RecordWriteError().Unlock().Ok?
      modifies this, incomingByID.Values
      ensures Ok(View()) == old(View()).RecordWriteError().Unlock()
      ensures forall r <- old(incomingByID.Values) ::
                r.id == old(r.id) && r.cancelled == (old(r.cancelled) || !old(writeErr))
    {
      if !writeErr {
        writeErr := true;
        CancelAll();
      }
      Unlock();
    }
  }
}
