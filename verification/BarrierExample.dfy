/** Runs of two threads: a suspend signal that was left over is taken for a new stop, and a new one for one left over. */
module BarrierExample {
  import opened Barrier
  import opened BarrierProgress

  /** A running thread with nothing waiting. */
  function At(place: Place, sig: Signal): (x: Thread) {
    Thread(place, true, sig, false, false, false, 0, false)
  }

  function Two(x: Thread, y: Thread, lock: bool, arrived: multiset<int>): (s: State) {
    State(map[0 := x, 1 := y], lock, arrived, false)
  }

  predicate Takes(s: State, step: Step, s': State) {
    Enabled(s, step) && Next(s, step) == s'
  }

  // ----- the steps of two running threads

  lemma FirstFaults(x: Thread, y: Thread, lock: bool, arrived: multiset<int>)
    requires x.place == User
    ensures Takes(Two(x, y, lock, arrived), Fault(0), Two(x.(place := Entered, sig := Event), y, lock, arrived))
  {
  }

  lemma SecondFaults(x: Thread, y: Thread, lock: bool, arrived: multiset<int>)
    requires y.place == User
    ensures Takes(Two(x, y, lock, arrived), Fault(1), Two(x, y.(place := Entered, sig := Event), lock, arrived))
  {
  }

  lemma SecondDies(x: Thread, y: Thread, lock: bool, arrived: multiset<int>)
    requires y.place == User
    ensures Takes(Two(x, y, lock, arrived), Die(1), Two(x, y.(place := Entered, dying := true), lock, arrived))
  {
  }

  lemma SecondStops(x: Thread, y: Thread, lock: bool, arrived: multiset<int>)
    requires y.place == User && y.raised && !y.ignore
    ensures Takes(Two(x, y, lock, arrived), Deliver(1),
                  Two(x, y.(place := Entered, sig := Suspend, raised := false), lock, arrived))
  {
  }

  lemma FirstLocks(x: Thread, y: Thread, arrived: multiset<int>)
    requires x.place == Entered
    ensures Takes(Two(x, y, false, arrived), Compete(0),
                  Two(x.(place := Signalling({1}, {}), control := true), y, true, arrived))
  {
    assert Two(x, y, false, arrived).th.Keys - {0} == {1};
  }

  lemma SecondFollows(x: Thread, y: Thread, arrived: multiset<int>)
    requires y.place == Entered
    ensures Takes(Two(x, y, true, arrived), Compete(1), Two(x, y.(place := Arriving), true, arrived))
  {
  }

  lemma FirstSignals(x: Thread, y: Thread, lock: bool, arrived: multiset<int>)
    requires x.place == Signalling({1}, {}) && y.running
    ensures Takes(Two(x, y, lock, arrived), Signal1(0, 1),
                  Two(x.(place := Signalling({}, {1})), y.(control := false, raised := true), lock, arrived))
  {
    var todo, sent: set<int> := {1}, {};
    assert todo - {1} == {} && sent + {1} == {1};
  }

  lemma FirstWaits(x: Thread, y: Thread, lock: bool, arrived: multiset<int>)
    requires x.place == Signalling({}, {1})
    ensures Takes(Two(x, y, lock, arrived), StartWait(0), Two(x.(place := Waiting({1}, multiset{})), y, lock, arrived))
  {
  }

  lemma SecondArrives(x: Thread, y: Thread, lock: bool)
    requires y.place == Arriving
    ensures Takes(Two(x, y, lock, multiset{}), Arrive(1), Two(x, y.(place := Arrived), lock, multiset{1}))
  {
    assert multiset{} + multiset{1} == multiset{1};
  }

  lemma SecondParks(x: Thread, y: Thread, lock: bool, arrived: multiset<int>)
    requires y.place == Arrived
    ensures Takes(Two(x, y, lock, arrived), Park(1),
                  Two(x, y.(place := Parked, ignore := y.sig != Suspend), lock, arrived))
  {
  }

  lemma FirstReads(x: Thread, y: Thread, lock: bool)
    requires x.place == Waiting({1}, multiset{})
    ensures Takes(Two(x, y, lock, multiset{1}), ReadArrival(0, 1),
                  Two(x.(place := Waiting({1}, multiset{1})), y, lock, multiset{}))
  {
    var none: multiset<int> := multiset{};
    assert none + multiset{1} == multiset{1} && multiset{1} - multiset{1} == none;
  }

  lemma FirstBegins(x: Thread, y: Thread, lock: bool, arrived: multiset<int>)
    requires x.place == Waiting({1}, multiset{1}) && !x.dying
    ensures Takes(Two(x, y, lock, arrived), Begin(0),
                  Two(x.(place := Handling(false), sig := NoSignal), y, lock, arrived))
  {
  }

  lemma FirstHandsOver(x: Thread, y: Thread, lock: bool, arrived: multiset<int>)
    requires x.place == Handling(false) && x.running && Pending(y)
    ensures Takes(Two(x, y, lock, arrived), Transfer(0, 1),
                  Two(x.(place := ParkedOut, control := false), y.(control := true, tokens := y.tokens + 1), lock, arrived))
  {
    assert Two(x, y, lock, arrived).th[0].running;
  }

  lemma SecondTakes(x: Thread, y: Thread, lock: bool, arrived: multiset<int>)
    requires y.place == Parked && y.tokens == 1 && y.control
    ensures Takes(Two(x, y, lock, arrived), Wake(1), Two(x, Taking(y.(tokens := 0)), lock, arrived))
  {
  }

  lemma SecondLeaves(x: Thread, y: Thread, lock: bool, arrived: multiset<int>)
    requires y.place == Parked && y.tokens == 1 && !y.control && !y.dying
    ensures Takes(Two(x, y, lock, arrived), Wake(1), Two(x, y.(place := User, tokens := 0), lock, arrived))
  {
  }

  lemma FirstLeaves(x: Thread, y: Thread, lock: bool, arrived: multiset<int>)
    requires x.place == ParkedOut && x.tokens == 1
    ensures Takes(Two(x, y, lock, arrived), WakeOut(0), Two(x.(place := User, tokens := 0), y, lock, arrived))
  {
  }

  lemma FirstReleases(x: Thread, y: Thread, lock: bool, arrived: multiset<int>)
    requires x.place == Handling(false) && x.running && y.running && !Pending(y)
    ensures Takes(Two(x, y, lock, arrived), Release(0),
                  Two(x.(place := User), y.(tokens := y.tokens + 1), false, arrived))
  {
    var s := Two(x, y, lock, arrived);
    assert s.th[0].running;
    assert Woken(s.th, 0)[0 := x.(place := User)] == map[0 := x.(place := User), 1 := y.(tokens := y.tokens + 1)];
  }

  lemma SecondReleases(x: Thread, y: Thread, lock: bool, arrived: multiset<int>)
    requires y.place.Handling? && x.running && y.running && !Pending(x)
    ensures Takes(Two(x, y, lock, arrived), Release(1),
                  Two(x.(tokens := x.tokens + 1), y.(place := User), false, arrived))
  {
    var s := Two(x, y, lock, arrived);
    assert s.th[1].running;
    assert Woken(s.th, 1)[1 := y.(place := User)] == map[0 := x.(tokens := x.tokens + 1), 1 := y.(place := User)];
  }

  /** One step further. */
  lemma Go(s: State, steps: seq<Step>, m: State, step: Step, m': State) returns (more: seq<Step>, s': State)
    requires Path(s, steps, m) && Takes(m, step, m')
    ensures Path(s, more, s') && more == steps + [step] && s' == m'
  {
    hide Enabled, Next, Path;
    PathThen(s, steps, m, step);
    more, s' := steps + [step], m';
  }

  // ----- a signal that was left over

  const START: State := Two(At(User, NoSignal), At(User, NoSignal), false, multiset{})
  const SIGNALLED: State :=
    Two(At(Signalling({}, {1}), Event).(control := true),
        At(User, NoSignal).(raised := true), true, multiset{})
  const GATHERED: State :=
    Two(At(Waiting({1}, multiset{1}), Event).(control := true),
        At(Parked, Suspend), true, multiset{})
  const RELEASED: State := Two(At(User, NoSignal).(control := true), At(User, Suspend), false, multiset{})
  const DYING: State :=
    Two(At(Waiting({1}, multiset{}), Event).(control := true),
        At(Arriving, Suspend).(dying := true, raised := true), true, multiset{})
  const DEAD_GATHERED: State :=
    Two(At(Waiting({1}, multiset{1}), Event).(control := true),
        At(Parked, Suspend).(dying := true, raised := true), true, multiset{})
  const OVER: State :=
    Two(At(ParkedOut, NoSignal).(tokens := 1),
        At(User, Suspend).(raised := true, control := true), false, multiset{})

  /** Thread 0 faults, takes the lock and signals thread 1. */
  lemma Signalled() returns (steps: seq<Step>)
    ensures Path(START, steps, SIGNALLED)
  {
    hide Path, Takes, Two;
    PathNone(START);
    var m, x := START, At(User, NoSignal);
    var y := At(User, NoSignal);
    steps := [];
    FirstFaults(x, y, false, multiset{});
    x := x.(place := Entered, sig := Event);
    steps, m := Go(START, steps, m, Fault(0), Two(x, y, false, multiset{}));
    FirstLocks(x, y, multiset{});
    x := x.(place := Signalling({1}, {}), control := true);
    steps, m := Go(START, steps, m, Compete(0), Two(x, y, true, multiset{}));
    FirstSignals(x, y, true, multiset{});
    x, y := x.(place := Signalling({}, {1})), y.(control := false, raised := true);
    steps, m := Go(START, steps, m, Signal1(0, 1), Two(x, y, true, multiset{}));
  }

  /** The signal takes thread 1 into the barrier. It parks, and thread 0 reads its arrival. */
  lemma Gathered() returns (steps: seq<Step>)
    ensures Path(SIGNALLED, steps, GATHERED)
  {
    hide Path, Takes, Two;
    PathNone(SIGNALLED);
    var m, x := SIGNALLED, At(Signalling({}, {1}), Event).(control := true);
    var y := At(User, NoSignal).(raised := true);
    steps := [];
    FirstWaits(x, y, true, multiset{});
    x := x.(place := Waiting({1}, multiset{}));
    steps, m := Go(SIGNALLED, steps, m, StartWait(0), Two(x, y, true, multiset{}));
    SecondStops(x, y, true, multiset{});
    y := y.(place := Entered, sig := Suspend, raised := false);
    steps, m := Go(SIGNALLED, steps, m, Deliver(1), Two(x, y, true, multiset{}));
    SecondFollows(x, y, multiset{});
    y := y.(place := Arriving);
    steps, m := Go(SIGNALLED, steps, m, Compete(1), Two(x, y, true, multiset{}));
    SecondArrives(x, y, true);
    y := y.(place := Arrived);
    steps, m := Go(SIGNALLED, steps, m, Arrive(1), Two(x, y, true, multiset{1}));
    SecondParks(x, y, true, multiset{1});
    y := y.(place := Parked, ignore := y.sig != Suspend);
    steps, m := Go(SIGNALLED, steps, m, Park(1), Two(x, y, true, multiset{1}));
    FirstReads(x, y, true);
    x := x.(place := Waiting({1}, multiset{1}));
    steps, m := Go(SIGNALLED, steps, m, ReadArrival(0, 1), Two(x, y, true, multiset{}));
  }

  /** Thread 0 handles its event and releases thread 1, for which the suspend signal stays noted. */
  lemma Released() returns (steps: seq<Step>)
    ensures Path(GATHERED, steps, RELEASED) && Begin(0) in steps && Release(0) in steps
  {
    hide Path, Takes, Two;
    PathNone(GATHERED);
    var m, x := GATHERED, At(Waiting({1}, multiset{1}), Event).(control := true);
    var y := At(Parked, Suspend);
    steps := [];
    FirstBegins(x, y, true, multiset{});
    x := x.(place := Handling(false), sig := NoSignal);
    steps, m := Go(GATHERED, steps, m, Begin(0), Two(x, y, true, multiset{}));
    FirstReleases(x, y, true, multiset{});
    x, y := x.(place := User), y.(tokens := y.tokens + 1);
    steps, m := Go(GATHERED, steps, m, Release(0), Two(x, y, false, multiset{}));
    SecondLeaves(x, y, false, multiset{});
    y := y.(place := User, tokens := 0);
    steps, m := Go(GATHERED, steps, m, Wake(1), Two(x, y, false, multiset{}));
  }

  /** Thread 0 faults again. Thread 1 dies, goes into the barrier and is signalled. */
  lemma Dying() returns (steps: seq<Step>)
    ensures Path(RELEASED, steps, DYING) && Die(1) in steps
  {
    hide Path, Takes, Two;
    PathNone(RELEASED);
    var m, x := RELEASED, At(User, NoSignal).(control := true);
    var y := At(User, Suspend);
    steps := [];
    FirstFaults(x, y, false, multiset{});
    x := x.(place := Entered, sig := Event);
    steps, m := Go(RELEASED, steps, m, Fault(0), Two(x, y, false, multiset{}));
    FirstLocks(x, y, multiset{});
    x := x.(place := Signalling({1}, {}), control := true);
    steps, m := Go(RELEASED, steps, m, Compete(0), Two(x, y, true, multiset{}));
    SecondDies(x, y, true, multiset{});
    y := y.(place := Entered, dying := true);
    steps, m := Go(RELEASED, steps, m, Die(1), Two(x, y, true, multiset{}));
    SecondFollows(x, y, multiset{});
    y := y.(place := Arriving);
    steps, m := Go(RELEASED, steps, m, Compete(1), Two(x, y, true, multiset{}));
    FirstSignals(x, y, true, multiset{});
    x, y := x.(place := Signalling({}, {1})), y.(control := false, raised := true);
    steps, m := Go(RELEASED, steps, m, Signal1(0, 1), Two(x, y, true, multiset{}));
    FirstWaits(x, y, true, multiset{});
    x := x.(place := Waiting({1}, multiset{}));
    steps, m := Go(RELEASED, steps, m, StartWait(0), Two(x, y, true, multiset{}));
  }

  /** Thread 1 parks. The suspend signal that waits is not noted as one to ignore. */
  lemma DeadGathered() returns (steps: seq<Step>)
    ensures Path(DYING, steps, DEAD_GATHERED)
  {
    hide Path, Takes, Two;
    PathNone(DYING);
    var m, x := DYING, At(Waiting({1}, multiset{}), Event).(control := true);
    var y := At(Arriving, Suspend).(dying := true, raised := true);
    steps := [];
    SecondArrives(x, y, true);
    y := y.(place := Arrived);
    steps, m := Go(DYING, steps, m, Arrive(1), Two(x, y, true, multiset{1}));
    SecondParks(x, y, true, multiset{1});
    y := y.(place := Parked, ignore := y.sig != Suspend);
    steps, m := Go(DYING, steps, m, Park(1), Two(x, y, true, multiset{1}));
    FirstReads(x, y, true);
    x := x.(place := Waiting({1}, multiset{1}));
    steps, m := Go(DYING, steps, m, ReadArrival(0, 1), Two(x, y, true, multiset{}));
  }

  /** Thread 0 handles its event and hands control to thread 1, which handles its death and releases. */
  lemma Over() returns (steps: seq<Step>)
    ensures Path(DEAD_GATHERED, steps, OVER) && Transfer(0, 1) in steps && Release(1) in steps
  {
    hide Path, Takes, Two;
    PathNone(DEAD_GATHERED);
    var m, x := DEAD_GATHERED, At(Waiting({1}, multiset{1}), Event).(control := true);
    var y := At(Parked, Suspend).(dying := true, raised := true);
    steps := [];
    FirstBegins(x, y, true, multiset{});
    x := x.(place := Handling(false), sig := NoSignal);
    steps, m := Go(DEAD_GATHERED, steps, m, Begin(0), Two(x, y, true, multiset{}));
    FirstHandsOver(x, y, true, multiset{});
    x, y := x.(place := ParkedOut, control := false), y.(control := true, tokens := y.tokens + 1);
    steps, m := Go(DEAD_GATHERED, steps, m, Transfer(0, 1), Two(x, y, true, multiset{}));
    SecondTakes(x, y, true, multiset{});
    y := Taking(y.(tokens := 0));
    steps, m := Go(DEAD_GATHERED, steps, m, Wake(1), Two(x, y, true, multiset{}));
    SecondReleases(x, y, true, multiset{});
    x, y := x.(tokens := x.tokens + 1), y.(place := User);
    steps, m := Go(DEAD_GATHERED, steps, m, Release(1), Two(x, y, false, multiset{}));
  }

  /**
   * The run. Thread 1 is stopped by a signal in the first round. In the second it dies with that signal still noted, is
   * handed control and releases. The suspend signal of the second round then takes it into the handler once more.
   */
  lemma StaleSignal() returns (steps: seq<Step>)
    ensures Init(START) && Path(START, steps, OVER)
    ensures Begin(0) in steps && Die(1) in steps && Transfer(0, 1) in steps && Release(1) in steps
    ensures !OVER.lock && OVER.th[1].place == User
    ensures Enabled(OVER, Deliver(1)) && Next(OVER, Deliver(1)).th[1].place == Entered
  {
    hide Path;
    steps := Signalled();
    var p1 := Gathered();
    PathAppend(START, steps, SIGNALLED, p1, GATHERED);
    steps := steps + p1;
    var p2 := Released();
    PathAppend(START, steps, GATHERED, p2, RELEASED);
    steps := steps + p2;
    var p3 := Dying();
    PathAppend(START, steps, RELEASED, p3, DYING);
    steps := steps + p3;
    var p4 := DeadGathered();
    PathAppend(START, steps, DYING, p4, DEAD_GATHERED);
    steps := steps + p4;
    var p5 := Over();
    PathAppend(START, steps, DEAD_GATHERED, p5, OVER);
    steps := steps + p5;
  }

  // ----- a signal that is lost

  const NOTED: State :=
    Two(At(Waiting({1}, multiset{1}), Event).(control := true),
        At(Parked, Event).(raised := true, ignore := true), true, multiset{})
  const LET_GO: State :=
    Two(At(ParkedOut, NoSignal).(tokens := 1),
        At(User, NoSignal).(raised := true, ignore := true, control := true), false, multiset{})
  const STUCK: State :=
    Two(At(Waiting({1}, multiset{}), Event).(control := true),
        At(User, NoSignal).(raised := true, ignore := true), true, multiset{})

  /** Thread 1 faults before its signal is delivered, parks, and notes that the signal is to be ignored. */
  lemma NotedDown() returns (steps: seq<Step>)
    ensures Path(SIGNALLED, steps, NOTED)
  {
    hide Path, Takes, Two;
    PathNone(SIGNALLED);
    var m, x := SIGNALLED, At(Signalling({}, {1}), Event).(control := true);
    var y := At(User, NoSignal).(raised := true);
    steps := [];
    SecondFaults(x, y, true, multiset{});
    y := y.(place := Entered, sig := Event);
    steps, m := Go(SIGNALLED, steps, m, Fault(1), Two(x, y, true, multiset{}));
    FirstWaits(x, y, true, multiset{});
    x := x.(place := Waiting({1}, multiset{}));
    steps, m := Go(SIGNALLED, steps, m, StartWait(0), Two(x, y, true, multiset{}));
    SecondFollows(x, y, multiset{});
    y := y.(place := Arriving);
    steps, m := Go(SIGNALLED, steps, m, Compete(1), Two(x, y, true, multiset{}));
    SecondArrives(x, y, true);
    y := y.(place := Arrived);
    steps, m := Go(SIGNALLED, steps, m, Arrive(1), Two(x, y, true, multiset{1}));
    SecondParks(x, y, true, multiset{1});
    y := y.(place := Parked, ignore := y.sig != Suspend);
    steps, m := Go(SIGNALLED, steps, m, Park(1), Two(x, y, true, multiset{1}));
    FirstReads(x, y, true);
    x := x.(place := Waiting({1}, multiset{1}));
    steps, m := Go(SIGNALLED, steps, m, ReadArrival(0, 1), Two(x, y, true, multiset{}));
  }

  /** Both handle their events, and thread 1 releases. Its signal is still to be delivered. */
  lemma LetGo() returns (steps: seq<Step>)
    ensures Path(NOTED, steps, LET_GO)
  {
    hide Path, Takes, Two;
    PathNone(NOTED);
    var m, x := NOTED, At(Waiting({1}, multiset{1}), Event).(control := true);
    var y := At(Parked, Event).(raised := true, ignore := true);
    steps := [];
    FirstBegins(x, y, true, multiset{});
    x := x.(place := Handling(false), sig := NoSignal);
    steps, m := Go(NOTED, steps, m, Begin(0), Two(x, y, true, multiset{}));
    FirstHandsOver(x, y, true, multiset{});
    x, y := x.(place := ParkedOut, control := false), y.(control := true, tokens := y.tokens + 1);
    steps, m := Go(NOTED, steps, m, Transfer(0, 1), Two(x, y, true, multiset{}));
    SecondTakes(x, y, true, multiset{});
    y := Taking(y.(tokens := 0));
    steps, m := Go(NOTED, steps, m, Wake(1), Two(x, y, true, multiset{}));
    SecondReleases(x, y, true, multiset{});
    x, y := x.(tokens := x.tokens + 1), y.(place := User);
    steps, m := Go(NOTED, steps, m, Release(1), Two(x, y, false, multiset{}));
  }

  /** Thread 0 faults again, and its new signal is one with the old one. */
  lemma Stuck() returns (steps: seq<Step>)
    ensures Path(LET_GO, steps, STUCK)
  {
    hide Path, Takes, Two;
    PathNone(LET_GO);
    var m, x := LET_GO, At(ParkedOut, NoSignal).(tokens := 1);
    var y := At(User, NoSignal).(raised := true, ignore := true, control := true);
    steps := [];
    FirstLeaves(x, y, false, multiset{});
    x := x.(place := User, tokens := 0);
    steps, m := Go(LET_GO, steps, m, WakeOut(0), Two(x, y, false, multiset{}));
    FirstFaults(x, y, false, multiset{});
    x := x.(place := Entered, sig := Event);
    steps, m := Go(LET_GO, steps, m, Fault(0), Two(x, y, false, multiset{}));
    FirstLocks(x, y, multiset{});
    x := x.(place := Signalling({1}, {}), control := true);
    steps, m := Go(LET_GO, steps, m, Compete(0), Two(x, y, true, multiset{}));
    FirstSignals(x, y, true, multiset{});
    x, y := x.(place := Signalling({}, {1})), y.(control := false, raised := true);
    steps, m := Go(LET_GO, steps, m, Signal1(0, 1), Two(x, y, true, multiset{}));
    FirstWaits(x, y, true, multiset{});
    x := x.(place := Waiting({1}, multiset{}));
    steps, m := Go(LET_GO, steps, m, StartWait(0), Two(x, y, true, multiset{}));
  }

  /**
   * The run. Thread 1 faults with a suspend signal waiting, which it notes as one to ignore, and is let go before it gets
   * that. Thread 0 gathers again, and its signal to thread 1 is one with the old one: unless a thread has a new event, it
   * waits for ever.
   */
  lemma LostSignal() returns (steps: seq<Step>)
    ensures Init(START) && Path(START, steps, STUCK) && Reachable(STUCK)
    ensures STUCK.th[0].place.Waiting? && STUCK.th[1].running && STUCK.th[1].place == User && !CanBegin(STUCK, 0)
  {
    hide Path, Reachable, CanBegin;
    steps := Signalled();
    var p1 := NotedDown();
    PathAppend(START, steps, SIGNALLED, p1, NOTED);
    steps := steps + p1;
    var p2 := LetGo();
    PathAppend(START, steps, NOTED, p2, LET_GO);
    steps := steps + p2;
    var p3 := Stuck();
    PathAppend(START, steps, LET_GO, p3, STUCK);
    steps := steps + p3;
    StartReachable();
    PathReachable(START, steps, STUCK);
    GatheringExact(STUCK, 0);
    assert Lost(STUCK.th[1]);
  }

  lemma StartReachable()
    ensures Reachable(START)
  {
    var run, steps: seq<Step> := [START], [];
    assert RunOf(run, steps) && run[|steps|] == START;
  }
}
