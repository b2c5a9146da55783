/**
 * The stop-the-world barrier of the runtime as a transition system over a fixed set of threads: the lock taken with a
 * compare-and-swap, the arrival pipe, one control pipe per thread, hand-over of control, and suspension by the debugger.
 */
module Barrier {
  /** What a thread last entered the signal handler for. */
  datatype Signal = NoSignal | Suspend | Event

  /** Where a thread is. */
  datatype Place =
    | User
    | Entered
    | Signalling(todo: set<int>, sent: set<int>)
    | Waiting(sent: set<int>, got: multiset<int>)
    | Arriving
    | Arrived
    | Parked
    | Handling(death: bool)
    | Stepping
    | ParkedOut
    | Aborted

  /**
   * `running` is the state set by the debugger, `ignore` is `suspend_pending`, `control` is `control_thread`, `dying` is
   * `stack_event_pending`, `tokens` counts the control pipe, `raised` is a suspend signal the system has yet to deliver.
   */
  datatype Thread = Thread(place: Place, running: bool, sig: Signal, ignore: bool, control: bool, dying: bool,
                           tokens: nat, raised: bool)

  /** `arrived` is the arrival pipe, each token named after its writer; `stepping` says that a continue breakpoint is set. */
  datatype State = State(th: map<int, Thread>, lock: bool, arrived: multiset<int>, stepping: bool)

  datatype Step =
    | Fault(t: int)
    | Deliver(t: int)
    | Die(t: int)
    | Compete(t: int)
    | Signal1(t: int, u: int)
    | StartWait(t: int)
    | Arrive(t: int)
    | Park(t: int)
    | ReadArrival(t: int, u: int)
    | Begin(t: int)
    | Wake(t: int)
    | SetRunning(t: int, u: int, running: bool)
    | SetContinueBp(t: int, on: bool)
    | Leave(t: int)
    | Trap(t: int)
    | Transfer(t: int, u: int)
    | Release(t: int)
    | WakeOut(t: int)

  /** An event of the thread has been captured and not handled. */
  predicate Pending(x: Thread) {
    x.sig == Event || x.dying
  }

  /** In the handler or the barrier, waiting on the control pipe or about to. */
  predicate Still(x: Thread) {
    x.place == Arrived || x.place == Parked || x.place == ParkedOut
  }

  predicate CanContinue(s: State) {
    exists v :: v in s.th && s.th[v].running
  }

  predicate Enabled(s: State, step: Step) {
    step.t in s.th &&
    var x := s.th[step.t];
    match step
    case Fault(t) => x.place == User
    case Deliver(t) => (x.place == User || x.place == Stepping) && x.raised
    case Die(t) => x.place == User
    case Compete(t) => x.place == Entered
    case Signal1(t, u) => x.place.Signalling? && u in x.place.todo && u in s.th
    case StartWait(t) => x.place.Signalling? && x.place.todo == {}
    case Arrive(t) => x.place == Arriving
    case Park(t) => x.place == Arrived
    case ReadArrival(t, u) => x.place.Waiting? && |x.place.got| < |x.place.sent| && u in s.arrived
    case Begin(t) => x.place.Waiting? && |x.place.got| >= |x.place.sent|
    case Wake(t) => x.place == Parked && x.tokens > 0
    case SetRunning(t, u, r) => x.place.Handling? && u in s.th
    case SetContinueBp(t, on) => x.place == Handling(false)
    case Leave(t) => x.place == Handling(false) && s.stepping && CanContinue(s)
    case Trap(t) => x.place == Stepping
    case Transfer(t, u) =>
      x.place.Handling? && (x.place.death || !s.stepping) && CanContinue(s) && u in s.th && u != t && Pending(s.th[u])
    case Release(t) =>
      && x.place.Handling? && (x.place.death || !s.stepping) && CanContinue(s)
      && forall v :: v in s.th && v != t ==> !Pending(s.th[v])
    case WakeOut(t) => x.place == ParkedOut && x.tokens > 0
  }

  /** The thread becomes the one that handles: its event is taken. */
  function Taking(x: Thread): (x': Thread) {
    if x.dying then x.(place := Handling(true), dying := false) else x.(place := Handling(false), sig := NoSignal)
  }

  /** Entering the handler: into the barrier, or straight to handling while a continue breakpoint is set. */
  function Entering(x: Thread, sig: Signal, stepping: bool): (x': Thread) {
    if stepping then x.(place := Handling(false), sig := NoSignal) else x.(place := Entered, sig := sig)
  }

  function Set(s: State, t: int, x: Thread): (s': State) {
    s.(th := s.th[t := x])
  }

  /** A token for every running thread but the releaser. */
  function Woken(th: map<int, Thread>, t: int): (th': map<int, Thread>) {
    map v | v in th :: if v != t && th[v].running then th[v].(tokens := th[v].tokens + 1) else th[v]
  }

  function Next(s: State, step: Step): (s': State)
    requires Enabled(s, step)
  {
    var x := s.th[step.t];
    match step
    case Fault(t) => Set(s, t, Entering(x, Event, s.stepping))
    case Deliver(t) =>
      if x.ignore then Set(s, t, x.(raised := false, ignore := false))
      else Set(s, t, Entering(x.(raised := false), Suspend, s.stepping))
    case Die(t) => Set(s, t, x.(place := Entered, dying := true))
    case Compete(t) =>
      if s.lock then Set(s, t, x.(place := Arriving))
      else Set(s, t, x.(place := Signalling(s.th.Keys - {t}, {}), control := true)).(lock := true)
    case Signal1(t, u) =>
      var y := s.th[u];
      var sent := if y.running then x.place.sent + {u} else x.place.sent;
      Set(Set(s, u, y.(control := false, raised := y.raised || y.running)), t,
          x.(place := Signalling(x.place.todo - {u}, sent)))
    case StartWait(t) => Set(s, t, x.(place := Waiting(x.place.sent, multiset{})))
    case Arrive(t) => Set(s, t, x.(place := Arrived)).(arrived := s.arrived + multiset{t})
    case Park(t) => Set(s, t, x.(place := Parked, ignore := x.sig != Suspend))
    case ReadArrival(t, u) =>
      Set(s, t, x.(place := Waiting(x.place.sent, x.place.got + multiset{u}))).(arrived := s.arrived - multiset{u})
    case Begin(t) => Set(s, t, Taking(x))
    case Wake(t) =>
      var y := x.(tokens := x.tokens - 1);
      Set(s, t, if y.control then Taking(y) else if y.dying then y.(place := Aborted) else y.(place := User))
    case SetRunning(t, u, r) => Set(s, u, s.th[u].(running := r))
    case SetContinueBp(t, on) => s.(stepping := on)
    case Leave(t) => Set(s, t, x.(place := Stepping))
    case Trap(t) => Set(s, t, x.(place := Handling(false), sig := NoSignal))
    case Transfer(t, u) =>
      var y := s.th[u];
      Set(Set(s, u, y.(control := true, tokens := y.tokens + 1)), t, x.(place := ParkedOut, control := false))
    case Release(t) =>
      Set(s.(lock := false, th := Woken(s.th, t)), t, x.(place := if x.running then User else ParkedOut))
    case WakeOut(t) => Set(s, t, x.(place := User, tokens := x.tokens - 1))
  }

  ghost predicate Init(s: State) {
    && !s.lock && s.arrived == multiset{} && !s.stepping
    && forall v :: v in s.th ==> s.th[v] == Thread(User, true, NoSignal, false, false, false, 0, false)
  }

  /** The states of a run. */
  ghost predicate RunOf(run: seq<State>, steps: seq<Step>) {
    && |run| == |steps| + 1 && Init(run[0])
    && forall i :: 0 <= i < |steps| ==> Enabled(run[i], steps[i]) && run[i + 1] == Next(run[i], steps[i])
  }
}
