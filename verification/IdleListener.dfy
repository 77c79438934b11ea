/**
 The idle listener as a state machine over its channel operations.

 `Accept`, `Close`, `connClosed` and the timer goroutine each receive from whichever of
 three channels is ready, work, and send or close one of them. Every receive, send,
 close, `time.AfterFunc` and `Stop` is one step; processes interleave freely and a
 timer may fire between any two steps.
 */
module IdleListener {
  import opened Wrappers
  import opened Sums

  /** `Closing(c)`: the timer's goroutine took the token; `c` is whether it closed the wrapped listener. */
  datatype TimerPhase = Armed | Firing | Closing(wrappedClosed: bool) | Fired | Stopped

  /** `tracked` connections are counted in `active`; the others were accepted after an explicit close. */
  datatype ConnPhase = ConnOpen(tracked: bool) | ConnClosing(tracked: bool) | ConnClosed

  datatype Proc =
    | AcceptSelect(ok: bool)              // the wrapped Accept has returned
    | CloseSelect                         // Close was called
    | ConnSelect(conn: nat)               // connClosed for a connection
    | SendCount(n: int, accepted: bool)   // about to send on active
    | SendTimer(timer: nat, waits: bool)  // about to send on idleTimer, then perhaps wait for timedOut
    | StopTimer(timer: nat, closing: bool)
    | StartTimer                          // the count fell to zero
    | CloseActive                         // about to close(active)
    | CloseWrapped
    | WaitTimedOut
    | Finished

  datatype Chan = FromActive | FromClosedActive | FromTimedOut | FromIdleTimer

  /** Where the ownership token is; an auxiliary variable that no step reads. */
  datatype Place = InActive | InClosedActive | InIdleTimer | InTimedOut | WithProc(p: nat) | WithTimer(t: nat)

  datatype Sys = Sys(
    active: Option<int>,
    activeClosed: bool,
    timedOut: bool,
    idleTimer: Option<nat>,
    timers: seq<TimerPhase>,
    procs: seq<Proc>,
    conns: seq<ConnPhase>,
    timerCloses: nat,
    explicitCloses: nat,
    place: Place)

  datatype Panic =
    | TimerFiredWhileActive
    | TimerFiredAfterClose
    | TimerFiredTwice
    | TimedOutBeforeLastClose
    | IdleBeforeLastClose
    | SendOnClosed
    | CloseOfClosed
    | WrongTimer

  datatype Outcome = Ok(state: Sys) | Panicked(why: Panic)

  /** `NewIdleListener` has created its timer and is about to send it. */
  const Initial: Sys :=
    Sys(None, false, false, None, [Armed], [SendTimer(0, false)], [], 0, 0, WithProc(0))

  datatype Event =
    | AcceptReturns(ok: bool)
    | CloseCalled
    | ConnCloses(c: nat)
    | Receive(p: nat, from: Chan)
    | Act(p: nat)
    | TimerFires(t: nat)
    | TimerReceives(t: nat, from: Chan)
    | TimerActs(t: nat)

  predicate Receivable(s: Sys, from: Chan) {
    match from
    case FromActive => s.active.Some?
    case FromClosedActive => s.active.None? && s.activeClosed
    case FromTimedOut => s.timedOut
    case FromIdleTimer => s.idleTimer.Some?
  }

  predicate Selecting(p: Proc) {
    p.AcceptSelect? || p.CloseSelect? || p.ConnSelect?
  }

  /** A send waits until the one-element buffer is empty; sending on a closed channel panics. */
  predicate CanAct(s: Sys, p: Proc) {
    match p
    case SendCount(_, _) => s.active.None? || s.activeClosed
    case SendTimer(_, _) => s.idleTimer.None?
    case StopTimer(t, _) => t < |s.timers|
    case StartTimer => true
    case CloseActive => true
    case CloseWrapped => true
    case WaitTimedOut => s.timedOut
    case _ => false
  }

  predicate Enabled(s: Sys, e: Event) {
    match e
    case AcceptReturns(_) => true
    case CloseCalled => true
    case ConnCloses(c) => c < |s.conns| && s.conns[c].ConnOpen?
    case Receive(p, from) =>
      && p < |s.procs| && Selecting(s.procs[p]) && Receivable(s, from)
      && (s.procs[p].ConnSelect? ==> s.procs[p].conn < |s.conns|)
    case Act(p) => p < |s.procs| && CanAct(s, s.procs[p])
    case TimerFires(t) => t < |s.timers| && s.timers[t].Armed?
    case TimerReceives(t, from) => t < |s.timers| && s.timers[t].Firing? && Receivable(s, from)
    case TimerActs(t) => t < |s.timers| && s.timers[t].Closing?
  }

  function SetProc(s: Sys, p: nat, proc: Proc): Sys
    requires p < |s.procs|
  {
    s.(procs := s.procs[p := proc])
  }

  /** The select of `Accept`. */
  function AcceptReceives(s: Sys, p: nat, ok: bool, from: Chan): Outcome
    requires p < |s.procs| && Receivable(s, from)
  {
    match from
    case FromActive =>
      var n := if ok then s.active.value + 1 else s.active.value;
      Ok(SetProc(s, p, SendCount(n, ok)).(active := None, place := WithProc(p)))
    case FromClosedActive =>
      Ok(SetProc(s, p, Finished).(conns := if ok then s.conns + [ConnOpen(false)] else s.conns))
    case FromTimedOut => Ok(SetProc(s, p, Finished))
    case FromIdleTimer =>
      var t := s.idleTimer.value;
      Ok(SetProc(s, p, if ok then StopTimer(t, false) else SendTimer(t, false)).(
           idleTimer := None, place := WithProc(p)))
  }

  /** The select of `Close`. */
  function CloseReceives(s: Sys, p: nat, from: Chan): Outcome
    requires p < |s.procs| && Receivable(s, from)
  {
    match from
    case FromActive => Ok(SetProc(s, p, CloseActive).(active := None, place := WithProc(p)))
    case FromClosedActive => Ok(SetProc(s, p, CloseWrapped))
    case FromTimedOut => Ok(SetProc(s, p, Finished))
    case FromIdleTimer =>
      Ok(SetProc(s, p, StopTimer(s.idleTimer.value, true)).(idleTimer := None, place := WithProc(p)))
  }

  /** The select of `connClosed`. */
  function ConnReceives(s: Sys, p: nat, c: nat, from: Chan): Outcome
    requires p < |s.procs| && c < |s.conns| && Receivable(s, from)
  {
    match from
    case FromActive =>
      var n := s.active.value - 1;
      Ok(SetProc(s, p, if n == 0 then StartTimer else SendCount(n, false)).(
           active := None, place := WithProc(p), conns := s.conns[c := ConnClosed]))
    case FromClosedActive => Ok(SetProc(s, p, Finished).(conns := s.conns[c := ConnClosed]))
    case FromTimedOut => Panicked(TimedOutBeforeLastClose)
    case FromIdleTimer => Panicked(IdleBeforeLastClose)
  }

  /** The select of `timerExpired`; the code relies on receiving its own timer. */
  function TimerReceivesStep(s: Sys, t: nat, from: Chan): Outcome
    requires t < |s.timers| && Receivable(s, from)
  {
    match from
    case FromActive => Panicked(TimerFiredWhileActive)
    case FromClosedActive => Panicked(TimerFiredAfterClose)
    case FromTimedOut => Panicked(TimerFiredTwice)
    case FromIdleTimer =>
      if s.idleTimer.value != t then Panicked(WrongTimer)
      else Ok(s.(timers := s.timers[t := Closing(false)], idleTimer := None, place := WithTimer(t)))
  }

  /** `timerExpired` closes the wrapped listener and then `timedOut`. */
  function TimerActsStep(s: Sys, t: nat): Outcome
    requires t < |s.timers| && s.timers[t].Closing?
  {
    if !s.timers[t].wrappedClosed then
      Ok(s.(timers := s.timers[t := Closing(true)], timerCloses := s.timerCloses + 1))
    else if s.timedOut then Panicked(CloseOfClosed)
    else Ok(s.(timers := s.timers[t := Fired], timedOut := true, place := InTimedOut))
  }

  function ActStep(s: Sys, p: nat): Outcome
    requires p < |s.procs| && CanAct(s, s.procs[p])
  {
    match s.procs[p]
    case SendCount(n, accepted) =>
      if s.activeClosed then Panicked(SendOnClosed)
      else Ok(SetProc(s, p, Finished).(
                active := Some(n), place := InActive,
                conns := if accepted then s.conns + [ConnOpen(true)] else s.conns))
    case SendTimer(t, waits) =>
      Ok(SetProc(s, p, if waits then WaitTimedOut else Finished).(idleTimer := Some(t), place := InIdleTimer))
    case StopTimer(t, closing) =>
      if s.timers[t].Armed? then
        Ok(SetProc(s, p, if closing then CloseActive else SendCount(1, true)).(timers := s.timers[t := Stopped]))
      else
        Ok(SetProc(s, p, SendTimer(t, true)))
    case StartTimer => Ok(SetProc(s, p, SendTimer(|s.timers|, false)).(timers := s.timers + [Armed]))
    case CloseActive =>
      if s.activeClosed then Panicked(CloseOfClosed)
      else Ok(SetProc(s, p, CloseWrapped).(activeClosed := true, place := InClosedActive))
    case CloseWrapped => Ok(SetProc(s, p, Finished).(explicitCloses := s.explicitCloses + 1))
    case WaitTimedOut => Ok(SetProc(s, p, Finished))
  }

  function Next(s: Sys, e: Event): Outcome
    requires Enabled(s, e)
  {
    match e
    case AcceptReturns(ok) => Ok(s.(procs := s.procs + [AcceptSelect(ok)]))
    case CloseCalled => Ok(s.(procs := s.procs + [CloseSelect]))
    case ConnCloses(c) =>
      Ok(s.(procs := s.procs + [ConnSelect(c)], conns := s.conns[c := ConnClosing(s.conns[c].tracked)]))
    case Receive(p, from) =>
      (match s.procs[p]
       case AcceptSelect(ok) => AcceptReceives(s, p, ok, from)
       case CloseSelect => CloseReceives(s, p, from)
       case ConnSelect(c) => ConnReceives(s, p, c, from))
    case Act(p) => ActStep(s, p)
    case TimerFires(t) => Ok(s.(timers := s.timers[t := Firing]))
    case TimerReceives(t, from) => TimerReceivesStep(s, t, from)
    case TimerActs(t) => TimerActsStep(s, t)
  }

  ghost predicate IsRun(states: seq<Sys>, events: seq<Event>) {
    && |states| == |events| + 1
    && states[0] == Initial
    && forall k :: 0 <= k < |events| ==>
        Enabled(states[k], events[k]) && Next(states[k], events[k]) == Ok(states[k + 1])
  }

  // ----- the invariant -----

  predicate Holding(p: Proc) {
    p.SendCount? || p.SendTimer? || p.StopTimer? || p.StartTimer? || p.CloseActive?
  }

  /** The token is at `s.place` and nowhere else. */
  ghost predicate OneToken(s: Sys) {
    && (s.active.Some? <==> s.place.InActive?)
    && (s.activeClosed <==> s.place.InClosedActive?)
    && (s.idleTimer.Some? <==> s.place.InIdleTimer?)
    && (s.timedOut <==> s.place.InTimedOut?)
    && (forall p: nat {:trigger s.procs[p]} :: p < |s.procs| ==> (Holding(s.procs[p]) <==> s.place == WithProc(p)))
    && (forall t: nat {:trigger s.timers[t]} :: t < |s.timers| ==> (s.timers[t].Closing? <==> s.place == WithTimer(t)))
    && (s.place.WithProc? ==> s.place.p < |s.procs|)
    && (s.place.WithTimer? ==> s.place.t < |s.timers|)
  }

  /** The accepted connections that `active` has to count. */
  ghost function Tracked(conns: seq<ConnPhase>): set<nat> {
    set c: nat | c < |conns| && !conns[c].ConnClosed? && conns[c].tracked
  }

  predicate Live(t: TimerPhase) {
    t.Armed? || t.Firing?
  }

  /** What the place of the token says about the newest timer and the count of connections. */
  ghost predicate PlaceOk(s: Sys)
    requires OneToken(s) && |s.timers| > 0
  {
    var last := |s.timers| - 1;
    match s.place
    case InActive => s.timers[last].Stopped? && s.active == Some(|Tracked(s.conns)|) && s.active.value >= 1
    case InClosedActive => s.timers[last].Stopped?
    case InIdleTimer => Live(s.timers[last]) && s.idleTimer == Some(last) && Tracked(s.conns) == {}
    case InTimedOut => s.timers[last].Fired? && Tracked(s.conns) == {}
    case WithTimer(t) => t == last && Tracked(s.conns) == {}
    case WithProc(p) =>
      match s.procs[p]
      case SendCount(n, accepted) =>
        s.timers[last].Stopped? && n == |Tracked(s.conns)| + (if accepted then 1 else 0) && n >= 1
      case SendTimer(t, waits) => t == last && Live(s.timers[last]) && Tracked(s.conns) == {}
      case StopTimer(t, _) => t == last && Live(s.timers[last]) && Tracked(s.conns) == {}
      case StartTimer => s.timers[last].Stopped? && Tracked(s.conns) == {}
      case CloseActive => s.timers[last].Stopped?
  }

  /** Only the newest timer can be anything but stopped. */
  ghost predicate OldTimersStopped(timers: seq<TimerPhase>) {
    forall t :: 0 <= t < |timers| - 1 ==> timers[t].Stopped?
  }

  ghost predicate ProcOk(s: Sys, p: Proc) {
    && (p.ConnSelect? ==> p.conn < |s.conns| && s.conns[p.conn].ConnClosing?)
    && (p.CloseWrapped? ==> s.activeClosed)
    && (p.WaitTimedOut? || (p.SendTimer? && p.waits) ==>
          |s.timers| > 0 && !s.timers[|s.timers| - 1].Armed? && !s.timers[|s.timers| - 1].Stopped?)
  }

  /** Each closing connection has one `connClosed`; connections that are not counted came after a close. */
  ghost predicate ConnsOk(s: Sys) {
    && (forall p, q {:trigger s.procs[p], s.procs[q]} :: 0 <= p < q < |s.procs| && s.procs[p].ConnSelect? ==>
        s.procs[q] != s.procs[p])
    && (forall c :: 0 <= c < |s.conns| && !s.conns[c].ConnClosed? && !s.conns[c].tracked ==> s.activeClosed)
  }

  ghost predicate ClosesOk(s: Sys) {
    && (s.explicitCloses > 0 ==> s.activeClosed)
    && s.timerCloses == (match s.place
                         case InTimedOut => 1
                         case WithTimer(t) => if t < |s.timers| && s.timers[t] == Closing(true) then 1 else 0
                         case _ => 0)
  }

  ghost predicate Inv(s: Sys) {
    && |s.timers| > 0
    && OneToken(s)
    && PlaceOk(s)
    && OldTimersStopped(s.timers)
    && (forall p: nat {:trigger s.procs[p]} :: p < |s.procs| ==> ProcOk(s, s.procs[p]))
    && ConnsOk(s)
    && ClosesOk(s)
  }

  lemma InitialInv()
    ensures Inv(Initial)
  {
    assert Tracked([]) == {};
  }

  lemma TrackedUpdate(conns: seq<ConnPhase>, c: nat, phase: ConnPhase)
    requires c < |conns| && !conns[c].ConnClosed?
    requires phase.ConnClosed? || phase.tracked == conns[c].tracked
    ensures Tracked(conns[c := phase]) == if phase.ConnClosed? then Tracked(conns) - {c} else Tracked(conns)
    ensures conns[c].tracked ==> c in Tracked(conns)
  {
  }

  lemma TrackedAppend(conns: seq<ConnPhase>, tracked: bool)
    ensures |Tracked(conns + [ConnOpen(tracked)])| == |Tracked(conns)| + (if tracked then 1 else 0)
    ensures !tracked ==> Tracked(conns + [ConnOpen(tracked)]) == Tracked(conns)
  {
    assert Tracked(conns + [ConnOpen(tracked)]) == Tracked(conns) + (if tracked then {|conns|} else {});
  }

  ghost predicate Kept(o: Outcome) {
    o.Ok? && Inv(o.state)
  }

  lemma SpawnKeeps(s: Sys, proc: Proc)
    requires Inv(s) && (proc.AcceptSelect? || proc.CloseSelect?)
    ensures Inv(s.(procs := s.procs + [proc]))
  {
    var t := s.(procs := s.procs + [proc]);
    assert forall p: nat {:trigger t.procs[p]} :: p < |s.procs| ==> t.procs[p] == s.procs[p];
  }

  lemma ConnClosesKeeps(s: Sys, c: nat)
    requires Inv(s) && Enabled(s, ConnCloses(c))
    ensures Kept(Next(s, ConnCloses(c)))
  {
    TrackedUpdate(s.conns, c, ConnClosing(s.conns[c].tracked));
  }

  lemma AcceptGetsCountKeeps(s: Sys, p: nat)
    requires Inv(s) && Enabled(s, Receive(p, FromActive)) && s.procs[p].AcceptSelect?
    ensures Kept(AcceptReceives(s, p, s.procs[p].ok, FromActive))
  {
  }

  lemma AcceptGetsTimerKeeps(s: Sys, p: nat)
    requires Inv(s) && Enabled(s, Receive(p, FromIdleTimer)) && s.procs[p].AcceptSelect?
    ensures Kept(AcceptReceives(s, p, s.procs[p].ok, FromIdleTimer))
  {
  }

  lemma AcceptFindsClosedKeeps(s: Sys, p: nat, from: Chan)
    requires Inv(s) && Enabled(s, Receive(p, from)) && s.procs[p].AcceptSelect?
    requires from.FromClosedActive? || from.FromTimedOut?
    ensures Kept(AcceptReceives(s, p, s.procs[p].ok, from))
  {
    TrackedAppend(s.conns, false);
  }

  lemma AcceptReceivesKeeps(s: Sys, p: nat, from: Chan)
    requires Inv(s) && Enabled(s, Receive(p, from)) && s.procs[p].AcceptSelect?
    ensures Kept(AcceptReceives(s, p, s.procs[p].ok, from))
  {
    match from
    case FromActive => AcceptGetsCountKeeps(s, p);
    case FromIdleTimer => AcceptGetsTimerKeeps(s, p);
    case _ => AcceptFindsClosedKeeps(s, p, from);
  }

  lemma CloseReceivesKeeps(s: Sys, p: nat, from: Chan)
    requires Inv(s) && Enabled(s, Receive(p, from)) && s.procs[p].CloseSelect?
    ensures Kept(CloseReceives(s, p, from))
  {
  }

  lemma ConnReceivesCountKeeps(s: Sys, p: nat)
    requires Inv(s) && Enabled(s, Receive(p, FromActive)) && s.procs[p].ConnSelect?
    ensures Kept(ConnReceives(s, p, s.procs[p].conn, FromActive))
  {
    assert ProcOk(s, s.procs[p]);
    TrackedUpdate(s.conns, s.procs[p].conn, ConnClosed);
  }

  lemma ConnFindsClosedKeeps(s: Sys, p: nat)
    requires Inv(s) && Enabled(s, Receive(p, FromClosedActive)) && s.procs[p].ConnSelect?
    ensures Kept(ConnReceives(s, p, s.procs[p].conn, FromClosedActive))
  {
    assert ProcOk(s, s.procs[p]);
    TrackedUpdate(s.conns, s.procs[p].conn, ConnClosed);
  }

  /** The two panics of `connClosed`. */
  lemma ConnIsNeverIdle(s: Sys, p: nat, from: Chan)
    requires Inv(s) && p < |s.procs| && s.procs[p].ConnSelect? && Receivable(s, from)
    requires s.procs[p].conn < |s.conns|
    ensures !from.FromTimedOut? && !from.FromIdleTimer?
  {
    assert ProcOk(s, s.procs[p]);
    assert s.conns[s.procs[p].conn].tracked ==> s.procs[p].conn in Tracked(s.conns);
  }

  lemma ConnReceivesKeeps(s: Sys, p: nat, from: Chan)
    requires Inv(s) && Enabled(s, Receive(p, from)) && s.procs[p].ConnSelect?
    ensures Kept(ConnReceives(s, p, s.procs[p].conn, from))
  {
    ConnIsNeverIdle(s, p, from);
    if from.FromActive? {
      ConnReceivesCountKeeps(s, p);
    } else {
      ConnFindsClosedKeeps(s, p);
    }
  }

  lemma SendCountKeeps(s: Sys, p: nat)
    requires Inv(s) && Enabled(s, Act(p)) && s.procs[p].SendCount?
    ensures Kept(ActStep(s, p))
  {
    TrackedAppend(s.conns, true);
  }

  lemma SendTimerKeeps(s: Sys, p: nat)
    requires Inv(s) && Enabled(s, Act(p)) && s.procs[p].SendTimer?
    ensures Kept(ActStep(s, p))
  {
  }

  lemma StopTimerKeeps(s: Sys, p: nat)
    requires Inv(s) && Enabled(s, Act(p)) && s.procs[p].StopTimer?
    ensures Kept(ActStep(s, p))
  {
  }

  lemma StartTimerKeeps(s: Sys, p: nat)
    requires Inv(s) && Enabled(s, Act(p)) && s.procs[p].StartTimer?
    ensures Kept(ActStep(s, p))
  {
  }

  lemma CloseActiveKeeps(s: Sys, p: nat)
    requires Inv(s) && Enabled(s, Act(p)) && s.procs[p].CloseActive?
    ensures Kept(ActStep(s, p))
  {
  }

  lemma LastActKeeps(s: Sys, p: nat)
    requires Inv(s) && Enabled(s, Act(p)) && (s.procs[p].CloseWrapped? || s.procs[p].WaitTimedOut?)
    ensures Kept(ActStep(s, p))
  {
    assert ProcOk(s, s.procs[p]);
  }

  lemma ActKeeps(s: Sys, p: nat)
    requires Inv(s) && Enabled(s, Act(p))
    ensures Kept(ActStep(s, p))
  {
    match s.procs[p]
    case SendCount(_, _) => SendCountKeeps(s, p);
    case SendTimer(_, _) => SendTimerKeeps(s, p);
    case StopTimer(_, _) => StopTimerKeeps(s, p);
    case StartTimer => StartTimerKeeps(s, p);
    case CloseActive => CloseActiveKeeps(s, p);
    case _ => LastActKeeps(s, p);
  }

  lemma TimerKeeps(s: Sys, e: Event)
    requires Inv(s) && Enabled(s, e) && (e.TimerFires? || e.TimerReceives? || e.TimerActs?)
    ensures Kept(Next(s, e))
  {
  }

  /** No step reaches a panic, blocks a send, or loses or copies the token. */
  lemma NextKeeps(s: Sys, e: Event)
    requires Inv(s) && Enabled(s, e)
    ensures Kept(Next(s, e))
  {
    match e
    case AcceptReturns(ok) => SpawnKeeps(s, AcceptSelect(ok));
    case CloseCalled => SpawnKeeps(s, CloseSelect);
    case ConnCloses(c) => ConnClosesKeeps(s, c);
    case Receive(p, from) =>
      match s.procs[p] {
        case AcceptSelect(_) => AcceptReceivesKeeps(s, p, from);
        case CloseSelect => CloseReceivesKeeps(s, p, from);
        case ConnSelect(_) => ConnReceivesKeeps(s, p, from);
      }
    case Act(p) => ActKeeps(s, p);
    case TimerFires(_) | TimerReceives(_, _) | TimerActs(_) => TimerKeeps(s, e);
  }

  // ----- what holds in every run -----

  lemma {:induction false} RunKeepsInvariant(states: seq<Sys>, events: seq<Event>, k: nat)
    requires IsRun(states, events) && k < |states|
    ensures Inv(states[k])
  {
    if k == 0 {
      InitialInv();
    } else {
      RunKeepsInvariant(states, events, k - 1);
      NextKeeps(states[k - 1], events[k - 1]);
    }
  }

  /** None of the five panics, nor a send on or close of a closed channel, can be reached. */
  lemma NoPanic(states: seq<Sys>, events: seq<Event>, k: nat, e: Event)
    requires IsRun(states, events) && k < |states| && Enabled(states[k], e)
    ensures Next(states[k], e).Ok?
  {
    RunKeepsInvariant(states, events, k);
    NextKeeps(states[k], e);
  }

  /** At most one channel can be received from, and a process that sends never waits. */
  lemma OneChannelIsReady(states: seq<Sys>, events: seq<Event>, k: nat)
    requires IsRun(states, events) && k < |states|
    ensures forall a, b :: Receivable(states[k], a) && Receivable(states[k], b) ==> a == b
    ensures forall p: nat {:trigger states[k].procs[p]} :: p < |states[k].procs| && Holding(states[k].procs[p]) ==>
              && CanAct(states[k], states[k].procs[p])
              && (forall a :: !Receivable(states[k], a))
              && (forall q: nat {:trigger states[k].procs[q]} ::
                    q < |states[k].procs| && Holding(states[k].procs[q]) ==> q == p)
  {
    RunKeepsInvariant(states, events, k);
  }

  lemma OneLiveTimer(states: seq<Sys>, events: seq<Event>, k: nat, t: nat)
    requires IsRun(states, events) && k < |states|
    requires t < |states[k].timers| && !states[k].timers[t].Stopped?
    ensures t == |states[k].timers| - 1
    ensures Live(states[k].timers[t]) ==> !states[k].activeClosed && !states[k].timedOut && states[k].active.None?
  {
    RunKeepsInvariant(states, events, k);
  }

  /** Until an explicit close, the count is the number of accepted connections that are not closed. */
  lemma CountIsExact(states: seq<Sys>, events: seq<Event>, k: nat)
    requires IsRun(states, events) && k < |states| && states[k].active.Some?
    ensures states[k].active.value == |set c: nat | c < |states[k].conns| && !states[k].conns[c].ConnClosed?| >= 1
  {
    var s := states[k];
    RunKeepsInvariant(states, events, k);
    assert Tracked(s.conns) == set c: nat | c < |s.conns| && !s.conns[c].ConnClosed?;
  }

  /** While the idle timer can fire, or after it has, no connection is open. */
  lemma IdleMeansNoConnections(states: seq<Sys>, events: seq<Event>, k: nat, c: nat)
    requires IsRun(states, events) && k < |states| && c < |states[k].conns|
    requires states[k].timedOut || (exists t :: 0 <= t < |states[k].timers| && Live(states[k].timers[t]))
    ensures states[k].conns[c].ConnClosed?
  {
    var s := states[k];
    RunKeepsInvariant(states, events, k);
    assert c !in Tracked(s.conns);
  }

  /** The wrapped listener is closed by the timer, at most once, or by `Close`, but never by both. */
  lemma ClosedByOneSide(states: seq<Sys>, events: seq<Event>, k: nat)
    requires IsRun(states, events) && k < |states|
    ensures states[k].timerCloses <= 1
    ensures states[k].timerCloses == 0 || states[k].explicitCloses == 0
    ensures states[k].timedOut ==> states[k].timerCloses == 1
  {
    RunKeepsInvariant(states, events, k);
  }

  // ----- how often Close closes the wrapped listener -----

  function CloseCalls(events: seq<Event>): nat {
    if events == [] then 0 else CloseCalls(events[..|events| - 1]) + One(events[|events| - 1].CloseCalled?)
  }

  /** A call of `Close` on its way to closing the wrapped listener. */
  function ToClose(p: Proc): nat {
    One(p.CloseSelect? || (p.StopTimer? && p.closing) || p.CloseActive? || p.CloseWrapped?)
  }

  /** No timer's function is running or has run. */
  predicate NotExpired(timers: seq<TimerPhase>) {
    |timers| > 0 && (timers[|timers| - 1].Armed? || timers[|timers| - 1].Stopped?)
  }

  lemma ReceiveKeepsToClose(s: Sys, p: nat, from: Chan, t: Sys)
    requires Inv(s) && Enabled(s, Receive(p, from)) && Next(s, Receive(p, from)) == Ok(t) && NotExpired(s.timers)
    ensures t.explicitCloses + Total(t.procs, ToClose) == s.explicitCloses + Total(s.procs, ToClose)
    ensures t.timers == s.timers
  {
    TotalUpdate(s.procs, p, t.procs[p], ToClose);
  }

  lemma ActKeepsToClose(s: Sys, p: nat, t: Sys)
    requires Inv(s) && Enabled(s, Act(p)) && ActStep(s, p) == Ok(t) && NotExpired(s.timers)
    ensures t.explicitCloses + Total(t.procs, ToClose) == s.explicitCloses + Total(s.procs, ToClose)
  {
    TotalUpdate(s.procs, p, t.procs[p], ToClose);
  }

  /** A timer that has gone off stays the last one. */
  lemma ExpiredStays(s: Sys, e: Event, t: Sys)
    requires Inv(s) && Enabled(s, e) && Next(s, e) == Ok(t) && NotExpired(t.timers)
    ensures NotExpired(s.timers)
  {
  }

  lemma StepKeepsToClose(s: Sys, e: Event, t: Sys)
    requires Inv(s) && Enabled(s, e) && Next(s, e) == Ok(t) && NotExpired(s.timers)
    ensures t.explicitCloses + Total(t.procs, ToClose) ==
            s.explicitCloses + Total(s.procs, ToClose) + One(e.CloseCalled?)
  {
    match e
    case AcceptReturns(ok) => TotalAppend(s.procs, AcceptSelect(ok), ToClose);
    case CloseCalled => TotalAppend(s.procs, CloseSelect, ToClose);
    case ConnCloses(c) => TotalAppend(s.procs, ConnSelect(c), ToClose);
    case Receive(p, from) => ReceiveKeepsToClose(s, p, from, t);
    case Act(p) => ActKeepsToClose(s, p, t);
    case _ =>
  }

  /**
   Until a timer's function has started, each call of `Close` has closed the wrapped
   listener once or is still on its way to it; otherwise none does. So one call closes
   it at most once.
   */
  lemma {:induction false} ExplicitClosesAreCounted(states: seq<Sys>, events: seq<Event>, k: nat)
    requires IsRun(states, events) && k < |states|
    ensures states[k].explicitCloses <= CloseCalls(events[..k])
    ensures states[k].explicitCloses ==
      if NotExpired(states[k].timers) then CloseCalls(events[..k]) - Total(states[k].procs, ToClose) else 0
  {
    RunKeepsInvariant(states, events, k);
    if k > 0 {
      var s, e, t := states[k - 1], events[k - 1], states[k];
      assert events[..k][..k - 1] == events[..k - 1];
      RunKeepsInvariant(states, events, k - 1);
      ExplicitClosesAreCounted(states, events, k - 1);
      if NotExpired(t.timers) {
        ExpiredStays(s, e, t);
        StepKeepsToClose(s, e, t);
      }
    }
  }

  // ----- nobody waits forever -----

  function ProcRank(p: Proc): nat {
    match p
    case AcceptSelect(_) | CloseSelect | ConnSelect(_) => 6
    case StopTimer(_, _) | StartTimer => 5
    case SendCount(_, _) | SendTimer(_, _) | CloseActive => 4
    case CloseWrapped => 2
    case WaitTimedOut => 1
    case Finished => 0
  }

  function TimerRank(t: TimerPhase): nat {
    match t
    case Firing => 3
    case Closing(wrappedClosed) => if wrappedClosed then 1 else 2
    case Armed | Fired | Stopped => 0
  }

  ghost function ProcRanks(procs: seq<Proc>): seq<nat> {
    seq(|procs|, p requires 0 <= p < |procs| => ProcRank(procs[p]))
  }

  ghost function TimerRanks(timers: seq<TimerPhase>): seq<nat> {
    seq(|timers|, t requires 0 <= t < |timers| => TimerRank(timers[t]))
  }

  ghost function Work(s: Sys): nat {
    Sum(ProcRanks(s.procs)) + Sum(TimerRanks(s.timers))
  }

  lemma ProcWork(procs: seq<Proc>, p: nat, proc: Proc)
    requires p < |procs|
    ensures Sum(ProcRanks(procs[p := proc])) == Sum(ProcRanks(procs)) - ProcRank(procs[p]) + ProcRank(proc)
  {
    assert ProcRanks(procs[p := proc]) == ProcRanks(procs)[p := ProcRank(proc)];
    SumUpdate(ProcRanks(procs), p, ProcRank(proc));
  }

  lemma TimerWork(timers: seq<TimerPhase>, t: nat, timer: TimerPhase)
    requires t < |timers|
    ensures Sum(TimerRanks(timers[t := timer])) == Sum(TimerRanks(timers)) - TimerRank(timers[t]) + TimerRank(timer)
  {
    assert TimerRanks(timers[t := timer]) == TimerRanks(timers)[t := TimerRank(timer)];
    SumUpdate(TimerRanks(timers), t, TimerRank(timer));
  }

  predicate IsInput(e: Event) {
    e.AcceptReturns? || e.CloseCalled? || e.ConnCloses? || e.TimerFires?
  }

  lemma ReceiveShrinks(s: Sys, p: nat, from: Chan, t: Sys)
    requires Enabled(s, Receive(p, from)) && Next(s, Receive(p, from)) == Ok(t)
    ensures Work(t) < Work(s)
  {
    ProcWork(s.procs, p, t.procs[p]);
  }

  lemma StartTimerShrinks(s: Sys, p: nat)
    requires p < |s.procs| && s.procs[p].StartTimer?
    ensures Work(ActStep(s, p).state) < Work(s)
  {
    ProcWork(s.procs, p, SendTimer(|s.timers|, false));
    assert TimerRanks(s.timers + [Armed]) == TimerRanks(s.timers) + [0];
    SumAppend(TimerRanks(s.timers), 0);
  }

  lemma ActShrinks(s: Sys, p: nat)
    requires p < |s.procs| && CanAct(s, s.procs[p]) && ActStep(s, p).Ok?
    ensures Work(ActStep(s, p).state) < Work(s)
  {
    if s.procs[p].StartTimer? {
      StartTimerShrinks(s, p);
    } else {
      ProcWork(s.procs, p, ActStep(s, p).state.procs[p]);
      if s.procs[p].StopTimer? {
        TimerWork(s.timers, s.procs[p].timer, Stopped);
      }
    }
  }

  lemma TimerStepShrinks(s: Sys, e: Event, t: Sys)
    requires Enabled(s, e) && Next(s, e) == Ok(t) && (e.TimerReceives? || e.TimerActs?)
    ensures Work(t) < Work(s)
  {
    TimerWork(s.timers, e.t, t.timers[e.t]);
  }

  /**
   Whenever a call of Accept, Close or connClosed has not returned, or a timer is firing,
   a step is possible that needs no further input, and each such step leaves less to do.
   */
  lemma NobodyIsStuck(states: seq<Sys>, events: seq<Event>, k: nat) returns (e: Event)
    requires IsRun(states, events) && k < |states|
    requires
      || (exists p :: 0 <= p < |states[k].procs| && !states[k].procs[p].Finished?)
      || (exists t :: 0 <= t < |states[k].timers| && (states[k].timers[t].Firing? || states[k].timers[t].Closing?))
    ensures Enabled(states[k], e) && !IsInput(e)
    ensures Next(states[k], e).Ok? && Work(Next(states[k], e).state) < Work(states[k])
  {
    RunKeepsInvariant(states, events, k);
    e := SomeStep(states[k]);
    NextKeeps(states[k], e);
    var t := Next(states[k], e).state;
    if e.Receive? {
      ReceiveShrinks(states[k], e.p, e.from, t);
    } else if e.Act? {
      ActShrinks(states[k], e.p);
    } else {
      TimerStepShrinks(states[k], e, t);
    }
  }

  lemma SomeStep(s: Sys) returns (e: Event)
    requires Inv(s)
    requires
      || (exists p :: 0 <= p < |s.procs| && !s.procs[p].Finished?)
      || (exists t :: 0 <= t < |s.timers| && (s.timers[t].Firing? || s.timers[t].Closing?))
    ensures Enabled(s, e) && !IsInput(e)
  {
    var last := |s.timers| - 1;
    if s.place.WithProc? {
      e := Act(s.place.p);
    } else if s.place.WithTimer? {
      e := TimerActs(s.place.t);
    } else if s.place.InIdleTimer? && s.timers[last].Firing? {
      e := TimerReceives(last, FromIdleTimer);
    } else {
      var p :| 0 <= p < |s.procs| && !s.procs[p].Finished?;
      assert ProcOk(s, s.procs[p]);
      if Selecting(s.procs[p]) {
        e := Receive(p, if s.active.Some? then FromActive else if s.activeClosed then FromClosedActive
                        else if s.timedOut then FromTimedOut else FromIdleTimer);
      } else {
        e := Act(p);
      }
    }
  }

  // ----- the methods -----

  /** The channel that a select receives from when it is the only one ready. */
  function ReadyChan(s: Sys): Option<Chan> {
    if s.active.Some? then Some(FromActive)
    else if s.activeClosed then Some(FromClosedActive)
    else if s.timedOut then Some(FromTimedOut)
    else if s.idleTimer.Some? then Some(FromIdleTimer)
    else None
  }

  /** A single process runs until it has returned or waits. */
  function Complete(s: Sys): Outcome
    requires |s.procs| == 1
    decreases ProcRank(s.procs[0])
  {
    var p := s.procs[0];
    if Selecting(p) && ReadyChan(s).Some? && Enabled(s, Receive(0, ReadyChan(s).value)) then
      match Next(s, Receive(0, ReadyChan(s).value))
      case Ok(t) => Complete(t)
      case Panicked(why) => Panicked(why)
    else if CanAct(s, p) then
      match ActStep(s, 0)
      case Ok(t) => Complete(t)
      case Panicked(why) => Panicked(why)
    else
      Ok(s)
  }

  /** One receive and then one, two or three further steps of the only process. */
  lemma CompleteInTwo(s: Sys, from: Chan)
    requires |s.procs| == 1 && Selecting(s.procs[0]) && ReadyChan(s) == Some(from) && Enabled(s, Receive(0, from))
    requires Next(s, Receive(0, from)).Ok?
    requires var t := Next(s, Receive(0, from)).state; CanAct(t, t.procs[0]) && ActStep(t, 0).Ok?
    ensures
      var t := Next(s, Receive(0, from)).state;
      Complete(s) == Complete(ActStep(t, 0).state)
  {
  }

  lemma CompleteActs(s: Sys)
    requires |s.procs| == 1 && CanAct(s, s.procs[0]) && ActStep(s, 0).Ok?
    ensures Complete(s) == Complete(ActStep(s, 0).state)
  {
  }

  lemma CompleteIsDone(s: Sys)
    requires |s.procs| == 1 && (s.procs[0].Finished? || (s.procs[0].WaitTimedOut? && !s.timedOut))
    ensures Complete(s) == Ok(s)
  {
  }

  /** The whole of `Accept` when the count is in `active`. */
  lemma AcceptCounts(s: Sys, ok: bool)
    requires s.procs == [AcceptSelect(ok)] && s.active.Some? && !s.activeClosed
    ensures Complete(s) == Ok(s.(
              active := Some(if ok then s.active.value + 1 else s.active.value), place := InActive, procs := [Finished],
              conns := if ok then s.conns + [ConnOpen(true)] else s.conns))
  {
    CompleteInTwo(s, FromActive);
    var t := ActStep(Next(s, Receive(0, FromActive)).state, 0).state;
    assert t.procs == [Finished];
    CompleteIsDone(t);
  }

  /** `Accept` and `Close` when the idle timer is there and is stopped in time, or not. */
  lemma StopOutcome(s: Sys, proc: Proc)
    requires s.procs == [proc] && (proc == AcceptSelect(true) || proc == CloseSelect)
    requires s.active.None? && !s.activeClosed && !s.timedOut && s.idleTimer.Some? && s.idleTimer.value < |s.timers|
    ensures
      var t := s.idleTimer.value;
      Complete(s) ==
        if !s.timers[t].Armed? then Ok(s.(procs := [WaitTimedOut], place := InIdleTimer))
        else if proc.CloseSelect? then
          Ok(s.(idleTimer := None, activeClosed := true, timers := s.timers[t := Stopped], procs := [Finished],
                place := InClosedActive, explicitCloses := s.explicitCloses + 1))
        else
          Ok(s.(idleTimer := None, active := Some(1), timers := s.timers[t := Stopped], procs := [Finished],
                place := InActive, conns := s.conns + [ConnOpen(true)]))
  {
    CompleteInTwo(s, FromIdleTimer);
    var u := ActStep(Next(s, Receive(0, FromIdleTimer)).state, 0).state;
    CompleteActs(u);
    var v := ActStep(u, 0).state;
    if v.procs[0].CloseWrapped? {
      CompleteActs(v);
      assert ActStep(v, 0).state.procs == [Finished];
      CompleteIsDone(ActStep(v, 0).state);
    } else {
      assert v.procs == [if s.timers[s.idleTimer.value].Armed? then Finished else WaitTimedOut];
      CompleteIsDone(v);
    }
  }

  lemma AcceptReturnsTimer(s: Sys)
    requires s.procs == [AcceptSelect(false)]
    requires s.active.None? && !s.activeClosed && !s.timedOut && s.idleTimer.Some?
    ensures Complete(s) == Ok(s.(procs := [Finished], place := InIdleTimer))
  {
    CompleteInTwo(s, FromIdleTimer);
    var u := ActStep(Next(s, Receive(0, FromIdleTimer)).state, 0).state;
    assert u.procs == [Finished];
    CompleteIsDone(u);
  }

  lemma CloseCounts(s: Sys)
    requires s.procs == [CloseSelect] && s.active.Some? && !s.activeClosed
    ensures Complete(s) == Ok(s.(active := None, activeClosed := true, place := InClosedActive, procs := [Finished],
                                 explicitCloses := s.explicitCloses + 1))
  {
    CompleteInTwo(s, FromActive);
    var u := ActStep(Next(s, Receive(0, FromActive)).state, 0).state;
    CompleteActs(u);
    assert ActStep(u, 0).state.procs == [Finished];
    CompleteIsDone(ActStep(u, 0).state);
  }

  /** `Close` once the listener was closed, by `Close` or by the timer. */
  lemma CloseAgain(s: Sys)
    requires s.procs == [CloseSelect] && s.active.None? && (s.activeClosed || s.timedOut)
    ensures Complete(s) ==
      if s.activeClosed then Ok(s.(procs := [Finished], explicitCloses := s.explicitCloses + 1))
      else Ok(s.(procs := [Finished]))
  {
    var from := if s.activeClosed then FromClosedActive else FromTimedOut;
    var t := Next(s, Receive(0, from)).state;
    if s.activeClosed {
      CompleteActs(t);
      assert ActStep(t, 0).state.procs == [Finished];
      CompleteIsDone(ActStep(t, 0).state);
    } else {
      assert t.procs == [Finished];
      CompleteIsDone(t);
    }
  }

  /** The last connection: the timer is started. */
  lemma LastConnCounts(s: Sys, c: nat)
    requires s.procs == [ConnSelect(c)] && c < |s.conns| && s.active == Some(1) && !s.activeClosed && s.idleTimer.None?
    ensures Complete(s) == Ok(s.(active := None, idleTimer := Some(|s.timers|), timers := s.timers + [Armed],
                                 procs := [Finished], place := InIdleTimer,
                                 conns := s.conns[c := ConnPhase.ConnClosed]))
  {
    CompleteInTwo(s, FromActive);
    var u := ActStep(Next(s, Receive(0, FromActive)).state, 0).state;
    assert u.procs == [SendTimer(|s.timers|, false)];
    CompleteActs(u);
    assert ActStep(u, 0).state.procs == [Finished];
    CompleteIsDone(ActStep(u, 0).state);
  }

  /** Another one: the count goes back into `active`. */
  lemma OtherConnCounts(s: Sys, c: nat)
    requires s.procs == [ConnSelect(c)] && c < |s.conns| && s.active.Some? && s.active.value != 1 && !s.activeClosed
    ensures Complete(s) == Ok(s.(active := Some(s.active.value - 1), procs := [Finished], place := InActive,
                                 conns := s.conns[c := ConnPhase.ConnClosed]))
  {
    CompleteInTwo(s, FromActive);
    var u := ActStep(Next(s, Receive(0, FromActive)).state, 0).state;
    assert u.procs == [Finished];
    CompleteIsDone(u);
  }

  /** What a caller of Accept sees. */
  datatype Accepted = Connection(tracked: bool) | WrappedError | IdleTimeout | Blocked

  /** `idleListener` with its timers and connections; `place` is the auxiliary variable. */
  class Listener {
    var active: Option<int>
    var activeClosed: bool
    var timedOut: bool
    var idleTimer: Option<nat>
    var timers: seq<TimerPhase>
    var conns: seq<ConnPhase>
    var timerCloses: nat
    var explicitCloses: nat
    ghost var place: Place

    ghost function View(proc: Proc): Sys
      reads this
    {
      Sys(active, activeClosed, timedOut, idleTimer, timers, [proc], conns, timerCloses, explicitCloses, place)
    }

    constructor ()
      ensures Complete(Initial) == Ok(View(Finished))
    {
      active, activeClosed, timedOut := None, false, false;
      timers := [Armed];
      idleTimer := Some(0);
      conns := [];
      timerCloses, explicitCloses := 0, 0;
      place := InIdleTimer;
    }

    /** `timer.Stop()`: true when it keeps the timer from firing. */
    method StopTimer(t: nat) returns (stopped: bool)
      requires t < |timers|
      modifies this`timers
      ensures stopped == old(timers[t].Armed?)
      ensures timers == if stopped then old(timers)[t := Stopped] else old(timers)
    {
      stopped := timers[t].Armed?;
      if stopped {
        timers := timers[t := Stopped];
      }
    }

    /** `Accept` after the wrapped Accept has returned. */
    method Accept(ok: bool) returns (result: Accepted)
      requires ReadyChan(View(AcceptSelect(ok))).Some?
      requires idleTimer.Some? ==> idleTimer.value < |timers|
      requires active.Some? ==> !activeClosed
      requires idleTimer.Some? ==> !activeClosed && !timedOut
      modifies this
      ensures Complete(old(View(AcceptSelect(ok)))) == Ok(View(if result.Blocked? then WaitTimedOut else Finished))
      ensures result.Connection? == (|conns| > |old(conns)|)
      ensures result.Connection? ==> ok && conns == old(conns) + [ConnOpen(result.tracked)]
      ensures result.Connection? ==> result.tracked == !old(activeClosed)
      ensures result.IdleTimeout? <==> old(active.None? && !activeClosed && timedOut)
      ensures result.WrappedError? <==> !ok && old(active.Some? || activeClosed || !timedOut)
      ensures result.Blocked? <==>
        ok && old(active.None? && !activeClosed && !timedOut && !timers[idleTimer.value].Armed?)
    {
      if active.Some? {
        AcceptCounts(View(AcceptSelect(ok)), ok);
        var n := active.value;
        active := None;
        if !ok {
          active := Some(n);
          place := InActive;
          return WrappedError;
        }
        active := Some(n + 1);
        place := InActive;
        conns := conns + [ConnOpen(true)];
        return Connection(true);
      } else if activeClosed {
        if !ok {
          return WrappedError;
        }
        conns := conns + [ConnOpen(false)];
        return Connection(false);
      } else if timedOut {
        return IdleTimeout;
      } else {
        var t := idleTimer.value;
        if ok {
          StopOutcome(View(AcceptSelect(ok)), AcceptSelect(ok));
        } else {
          AcceptReturnsTimer(View(AcceptSelect(ok)));
        }
        idleTimer := None;
        if !ok {
          idleTimer := Some(t);
          place := InIdleTimer;
          return WrappedError;
        }
        var stopped := StopTimer(t);
        if !stopped {
          idleTimer := Some(t);
          place := InIdleTimer;
          return Blocked;
        }
        active := Some(1);
        place := InActive;
        conns := conns + [ConnOpen(true)];
        return Connection(true);
      }
    }

    /** `Close`; `blocked` means that it waits for the timer to finish. */
    method Close() returns (blocked: bool)
      requires ReadyChan(View(CloseSelect)).Some?
      requires idleTimer.Some? ==> idleTimer.value < |timers|
      requires active.Some? ==> !activeClosed
      requires idleTimer.Some? ==> !activeClosed && !timedOut
      modifies this
      ensures Complete(old(View(CloseSelect))) == Ok(View(if blocked then WaitTimedOut else Finished))
      ensures blocked <==> old(active.None? && !activeClosed && !timedOut && !timers[idleTimer.value].Armed?)
      ensures activeClosed == (!blocked && old(active.Some? || activeClosed || !timedOut))
      ensures explicitCloses == old(explicitCloses) + (if activeClosed then 1 else 0)
    {
      blocked := false;
      if active.Some? {
        CloseCounts(View(CloseSelect));
        active := None;
        activeClosed := true;
        place := InClosedActive;
      } else if activeClosed {
        CloseAgain(View(CloseSelect));
      } else if timedOut {
        CloseAgain(View(CloseSelect));
        return;
      } else {
        var t := idleTimer.value;
        StopOutcome(View(CloseSelect), CloseSelect);
        idleTimer := None;
        var stopped := StopTimer(t);
        if !stopped {
          idleTimer := Some(t);
          place := InIdleTimer;
          return true;
        }
        activeClosed := true;
        place := InClosedActive;
      }
      explicitCloses := explicitCloses + 1;
    }

    /** `connClosed` for connection `c`: the two panics are the negation of its precondition. */
    method ConnClosed(c: nat)
      requires c < |conns|
      requires active.Some? || activeClosed
      requires active.Some? ==> !activeClosed && idleTimer.None?
      modifies this
      ensures Complete(old(View(ConnSelect(c)))) == Ok(View(Finished))
      ensures conns == old(conns)[c := ConnPhase.ConnClosed]
      ensures active == if old(active.Some? && active.value != 1) then Some(old(active).value - 1) else None
      ensures timers == if old(active) == Some(1) then old(timers) + [Armed] else old(timers)
      ensures idleTimer == if old(active) == Some(1) then Some(old(|timers|)) else old(idleTimer)
    {
      if active.Some? {
        var n := active.value;
        if n == 1 {
          LastConnCounts(View(ConnSelect(c)), c);
        } else {
          OtherConnCounts(View(ConnSelect(c)), c);
        }
        active := None;
        n := n - 1;
        conns := conns[c := ConnPhase.ConnClosed];
        if n == 0 {
          idleTimer := Some(|timers|);
          timers := timers + [Armed];
          place := InIdleTimer;
        } else {
          active := Some(n);
          place := InActive;
        }
      } else {
        conns := conns[c := ConnPhase.ConnClosed];
      }
    }

    /** `timerExpired` for timer `t`: the three panics are the negation of its precondition. */
    method TimerExpired(t: nat)
      requires t < |timers| && timers[t].Firing?
      requires active.None? && !activeClosed && !timedOut && idleTimer == Some(t)
      modifies this
      ensures
        var s := old(View(Finished));
        var received := TimerReceivesStep(s, t, FromIdleTimer);
        && received.Ok?
        && TimerActsStep(received.state, t).Ok?
        && TimerActsStep(TimerActsStep(received.state, t).state, t) == Ok(View(Finished))
      ensures timedOut && timerCloses == old(timerCloses) + 1 && explicitCloses == old(explicitCloses)
      ensures idleTimer == None && timers == old(timers)[t := Fired]
      ensures active == None && !activeClosed && conns == old(conns)
    {
      idleTimer := None;
      timers := timers[t := Closing(false)];
      timerCloses := timerCloses + 1;
      timers := timers[t := Closing(true)];
      timedOut := true;
      timers := timers[t := Fired];
      place := InTimedOut;
    }
  }
}
