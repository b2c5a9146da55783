/** How far the barrier can go on from every state that a run reaches. */
module BarrierProgress {
  import opened Barrier
  import opened BarrierSafety
  import opened BarrierRuns

  /** The steps lead from one state to another. */
  ghost predicate Path(s: State, steps: seq<Step>, s': State)
    decreases |steps|
  {
    if steps == [] then s' == s else Enabled(s, steps[0]) && Path(Next(s, steps[0]), steps[1..], s')
  }

  ghost predicate Reachable(s: State) {
    exists run, steps :: RunOf(run, steps) && run[|steps|] == s
  }

  lemma ReachableInv(s: State) returns (ph: Phase)
    requires Reachable(s)
    ensures Inv(s, ph)
  {
    var run, steps :| RunOf(run, steps) && run[|steps|] == s;
    RunInv(run, steps, |steps|);
    ph := PhaseAt(run, steps, |steps|);
  }

  /** A path from a reachable state is the rest of a run. */
  lemma {:induction false} PathReachable(s: State, steps: seq<Step>, s': State)
    requires Reachable(s) && Path(s, steps, s')
    ensures Reachable(s')
    decreases |steps|
  {
    hide Enabled, Next, Init;
    if steps != [] {
      var run, before :| RunOf(run, before) && run[|before|] == s;
      var s1 := Next(s, steps[0]);
      assert RunOf(run + [s1], before + [steps[0]]);
      assert (run + [s1])[|before + [steps[0]]|] == s1;
      PathReachable(s1, steps[1..], s');
    }
  }

  lemma PathOne(s: State, step: Step)
    requires Enabled(s, step)
    ensures Path(s, [step], Next(s, step))
  {
    hide Enabled, Next;
    assert [step][1..] == [];
  }

  lemma {:induction false} PathAppend(s: State, xs: seq<Step>, m: State, ys: seq<Step>, s': State)
    requires Path(s, xs, m) && Path(m, ys, s')
    ensures Path(s, xs + ys, s')
    decreases |xs|
  {
    hide Enabled, Next;
    if xs == [] {
      assert xs + ys == ys;
    } else {
      assert (xs + ys)[1..] == xs[1..] + ys;
      PathAppend(Next(s, xs[0]), xs[1..], m, ys, s');
    }
  }

  lemma PathThen(s: State, xs: seq<Step>, m: State, step: Step)
    requires Path(s, xs, m) && Enabled(m, step)
    ensures Path(s, xs + [step], Next(m, step))
  {
    hide Enabled, Next, Path;
    PathOne(m, step);
    PathAppend(s, xs, m, [step], Next(m, step));
  }

  // ----- the owner reads the arrivals

  /** The thread has arrived and was not released. */
  predicate Here(x: Thread) {
    Still(x) && x.tokens == 0
  }

  ghost predicate AllHere(s: State, o: int) {
    forall v :: v in s.th && v != o && s.th[v].running ==> Here(s.th[v])
  }

  lemma AllHereCount(s: State, o: int)
    requires o in s.th && OwnerOK(s, o) && s.th[o].place.Waiting? && AllHere(s, o)
    ensures |s.arrived| + |s.th[o].place.got| == |s.th[o].place.sent|
  {
    var a, r := ArrivedSet(s, o), RunningOthers(s, o);
    assert a == r;
    assert |multiset(a)| == |a|;
    assert |s.arrived + s.th[o].place.got| == |s.arrived| + |s.th[o].place.got|;
  }

  lemma WaitingOwner(s: State, ph: Phase, o: int)
    requires Inv(s, ph) && o in s.th && (s.th[o].place.Waiting? || s.th[o].place.Signalling?)
    ensures ph == Gather(o) && OwnerOK(s, o) && s.lock
  {
  }

  predicate OwnersOwn(steps: seq<Step>, o: int) {
    forall i :: 0 <= i < |steps| ==> steps[i].t == o && (steps[i].ReadArrival? || steps[i].Begin?)
  }

  /** Reading one arrival leaves the others where they are. */
  lemma ReadOne(s: State, o: int, u: int)
    requires Inv(s, Gather(o)) && AllHere(s, o) && o in s.th && s.th[o].place.Waiting? && u in s.arrived
    requires |s.th[o].place.got| < |s.th[o].place.sent|
    ensures Enabled(s, ReadArrival(o, u))
    ensures var s1 := Next(s, ReadArrival(o, u));
            Inv(s1, Gather(o)) && AllHere(s1, o) && s1.th[o].place.Waiting? && |s1.arrived| == |s.arrived| - 1
  {
    WaitingOwner(s, Gather(o), o);
    hide Inv;
    ReadInv(s, Gather(o), o, u);
    assert s.arrived == (s.arrived - multiset{u}) + multiset{u};
  }

  lemma {:induction false} ArrivalsRead(s: State, o: int) returns (steps: seq<Step>, s': State)
    requires Inv(s, Gather(o)) && AllHere(s, o) && o in s.th && s.th[o].place.Waiting?
    ensures Path(s, steps, s') && OwnersOwn(steps, o) && |steps| == |s.arrived| + 1
    ensures Inv(s', Held(o)) && s'.th[o].place.Handling?
    decreases |s.arrived|
  {
    hide Enabled, Next, Path, Inv, AllHere;
    WaitingOwner(s, Gather(o), o);
    AllHereCount(s, o);
    if |s.arrived| == 0 {
      BeginNow(s, o);
      steps, s' := [Begin(o)], Next(s, Begin(o));
      PathOne(s, Begin(o));
    } else {
      var u := SomeArrival(s.arrived);
      ReadOne(s, o, u);
      var s1 := Next(s, ReadArrival(o, u));
      StaysIn(s, ReadArrival(o, u), o);
      var more;
      more, s' := ArrivalsRead(s1, o);
      steps := [ReadArrival(o, u)] + more;
      PathOne(s, ReadArrival(o, u));
      PathAppend(s, [ReadArrival(o, u)], s1, more, s');
    }
  }

  lemma SomeArrival<T>(m: multiset<T>) returns (u: T)
    requires |m| > 0
    ensures u in m
  {
    u :| u in m;
  }

  lemma StaysIn(s: State, step: Step, o: int)
    requires Enabled(s, step) && o in s.th
    ensures o in Next(s, step).th
  {
  }

  lemma BeginNow(s: State, o: int)
    requires Inv(s, Gather(o)) && s.th[o].place.Waiting? && |s.th[o].place.got| >= |s.th[o].place.sent|
    ensures Enabled(s, Begin(o))
    ensures Inv(Next(s, Begin(o)), Held(o)) && o in Next(s, Begin(o)).th && Next(s, Begin(o)).th[o].place.Handling?
  {
    BeginInv(s, Gather(o), o);
  }

  /**
   * In every reachable state in which the owner waits and every other running thread has arrived, the owner comes to
   * handle its event by steps of its own: it reads the arrivals that are in the pipe, and begins.
   */
  lemma GatherCompletes(s: State, o: int) returns (steps: seq<Step>, s': State)
    requires Reachable(s) && o in s.th && s.th[o].place.Waiting? && AllHere(s, o)
    ensures Path(s, steps, s') && OwnersOwn(steps, o) && |steps| == |s.arrived| + 1
    ensures o in s'.th && s'.th[o].place.Handling?
  {
    hide Enabled, Next, Path, AllHere, Reachable;
    var ph := ReachableInv(s);
    WaitingOwner(s, ph, o);
    steps, s' := ArrivalsRead(s, o);
  }

  // ----- the other threads come

  /** The suspend signal will take the thread into the handler once it is in user code. */
  predicate Effective(x: Thread) {
    x.raised && (if x.place == Arrived then x.sig == Suspend else !x.ignore)
  }

  /** The thread is in user code or on its way there, and no signal will bring it back: it was ignored or is about to be. */
  predicate Lost(x: Thread) {
    (x.place == User || (Still(x) && x.tokens > 0)) && !Effective(x)
  }

  /** How many steps the thread is away from having arrived. */
  function Distance(x: Thread): (n: nat) {
    match x.place
    case User => 3
    case Entered => 2
    case Arriving => 1
    case Arrived => if x.tokens > 0 then 5 else 0
    case Parked => if x.tokens > 0 then 4 else 0
    case ParkedOut => if x.tokens > 0 then 4 else 0
    case _ => 0
  }

  /** The step that brings a thread nearer. */
  function NextOf(v: int, x: Thread): (step: Step) {
    match x.place
    case User => Deliver(v)
    case Entered => Compete(v)
    case Arriving => Arrive(v)
    case Arrived => Park(v)
    case Parked => Wake(v)
    case _ => WakeOut(v)
  }

  predicate NoEvents(steps: seq<Step>) {
    forall i :: 0 <= i < |steps| ==> !steps[i].Fault? && !steps[i].Die?
  }

  /** The owner waits for the others. */
  ghost predicate Waits(s: State, o: int) {
    Inv(s, Gather(o)) && o in s.th && s.th[o].place.Waiting?
  }

  ghost predicate OthersSame(s: State, s': State, v: int) {
    s'.th.Keys == s.th.Keys && forall u :: u in s.th && u != v ==> s'.th[u] == s.th[u]
  }

  lemma FreeOf(s: State, o: int, v: int)
    requires Waits(s, o) && v in s.th && v != o
    ensures FreeOK(s.th[v]) && s.lock && !s.stepping
  {
  }

  /** A running thread that is not lost comes one step nearer by itself. */
  lemma Nearer(s: State, o: int, v: int)
    requires Waits(s, o) && v in s.th && v != o && s.th[v].running && !Lost(s.th[v]) && !Here(s.th[v])
    ensures var step := NextOf(v, s.th[v]);
            && Enabled(s, step) && NoEvents([step])
            && var s1 := Next(s, step);
            && Waits(s1, o) && OthersSame(s, s1, v) && s1.th[v].running && !Lost(s1.th[v])
            && Distance(s1.th[v]) < Distance(s.th[v])
  {
    FreeOf(s, o, v);
    var step := NextOf(v, s.th[v]);
    assert Enabled(s, step);
    hide Inv;
    StepInv(s, Gather(o), step);
  }

  lemma {:induction false} ThreadComes(s: State, o: int, v: int) returns (steps: seq<Step>, s': State)
    requires Waits(s, o) && v in s.th && v != o && s.th[v].running && !Lost(s.th[v])
    ensures Path(s, steps, s') && NoEvents(steps)
    ensures Waits(s', o) && OthersSame(s, s', v) && s'.th[v].running && Here(s'.th[v])
    decreases Distance(s.th[v])
  {
    hide Enabled, Next, Path, Waits, Lost, Here, Distance, NextOf;
    if Here(s.th[v]) {
      steps, s' := [], s;
      PathNone(s);
    } else {
      Nearer(s, o, v);
      var step := NextOf(v, s.th[v]);
      var s1 := Next(s, step);
      var more;
      more, s' := ThreadComes(s1, o, v);
      steps := [step] + more;
      PathOne(s, step);
      PathAppend(s, [step], s1, more, s');
    }
  }

  lemma PathNone(s: State)
    ensures Path(s, [], s)
  {
  }

  /** No other running thread is lost. */
  ghost predicate NoneLost(s: State, o: int) {
    forall v :: v in s.th && v != o && s.th[v].running ==> !Lost(s.th[v])
  }

  /** The threads outside `todo` have arrived. */
  ghost predicate HereBut(s: State, o: int, todo: set<int>) {
    forall v :: v in s.th && v != o && v !in todo && s.th[v].running ==> Here(s.th[v])
  }

  lemma {:induction false} AllCome(s: State, o: int, todo: set<int>) returns (steps: seq<Step>, s': State)
    requires Waits(s, o) && NoneLost(s, o) && HereBut(s, o, todo)
    ensures Path(s, steps, s') && NoEvents(steps) && Waits(s', o) && AllHere(s', o)
    decreases |todo|
  {
    hide Enabled, Next, Path, Waits, Lost, Here;
    if todo == {} {
      steps, s' := [], s;
      PathNone(s);
    } else {
      var v := SomeOf(todo);
      if v in s.th && v != o && s.th[v].running {
        var some, s1 := ThreadComes(s, o, v);
        ArrivedNotLost(s1.th[v]);
        var more;
        more, s' := AllCome(s1, o, todo - {v});
        steps := some + more;
        PathAppend(s, some, s1, more, s');
      } else {
        steps, s' := AllCome(s, o, todo - {v});
      }
    }
  }

  lemma SomeOf<T>(todo: set<T>) returns (v: T)
    requires todo != {}
    ensures v in todo
  {
    v :| v in todo;
  }

  lemma ArrivedNotLost(x: Thread)
    requires Here(x)
    ensures !Lost(x)
  {
  }

  // ----- a lost thread

  /** As long as arrivals are missing, every step leaves the owner waiting. */
  lemma StillWaits(s: State, o: int, step: Step)
    requires Waits(s, o) && Enabled(s, step) && |s.th[o].place.got| < |s.th[o].place.sent|
    ensures NextPhase(s, Gather(o), step) == Gather(o) && o in Next(s, step).th && Next(s, step).th[o].place.Waiting?
  {
    if step.t != o {
      FreeOf(s, o, step.t);
    }
    hide Inv;
  }

  lemma LostOwn(s: State, o: int, v: int, step: Step)
    requires Waits(s, o) && v in s.th && v != o && s.th[v].running && Lost(s.th[v])
    requires Enabled(s, step) && !step.Fault? && !step.Die? && step.t == v
    ensures var s1 := Next(s, step); v in s1.th && s1.th[v].running && Lost(s1.th[v])
  {
    FreeOf(s, o, v);
    hide Inv;
  }

  lemma LostOther(s: State, o: int, v: int, step: Step)
    requires Waits(s, o) && v in s.th && v != o && Enabled(s, step) && step.t != v
    ensures v in Next(s, step).th && Next(s, step).th[v] == s.th[v]
  {
    if step.t != o {
      FreeOf(s, o, step.t);
    }
    hide Inv;
  }

  /** While no thread has an event of its own, a lost thread stays lost and the owner waits. */
  lemma LostStep(s: State, o: int, v: int, step: Step)
    requires Waits(s, o) && v in s.th && v != o && s.th[v].running && Lost(s.th[v])
    requires Enabled(s, step) && !step.Fault? && !step.Die?
    ensures var s1 := Next(s, step); Waits(s1, o) && v in s1.th && s1.th[v].running && Lost(s1.th[v])
  {
    hide Inv, Enabled, Next, NextPhase, Lost;
    NotYet(s, o, v);
    StillWaits(s, o, step);
    StepInv(s, Gather(o), step);
    if step.t == v {
      LostOwn(s, o, v, step);
    } else {
      LostOther(s, o, v, step);
    }
  }

  lemma NotYet(s: State, o: int, v: int)
    requires Waits(s, o) && v in s.th && v != o && s.th[v].running && Lost(s.th[v])
    ensures |s.th[o].place.got| < |s.th[o].place.sent|
  {
    assert v in RunningOthers(s, o) && v !in ArrivedSet(s, o);
    if |s.th[o].place.got| >= |s.th[o].place.sent| {
      AllArrived(s, o);
      assert false;
    }
  }

  lemma {:induction false} LostStays(s: State, steps: seq<Step>, s': State, o: int, v: int)
    requires Waits(s, o) && v in s.th && v != o && s.th[v].running && Lost(s.th[v])
    requires Path(s, steps, s') && NoEvents(steps)
    ensures Waits(s', o) && v in s'.th && Lost(s'.th[v])
    decreases |steps|
  {
    hide Enabled, Next, Waits, Lost;
    if steps != [] {
      assert !steps[0].Fault? && !steps[0].Die?;
      LostStep(s, o, v, steps[0]);
      assert NoEvents(steps[1..]);
      LostStays(Next(s, steps[0]), steps[1..], s', o, v);
    }
  }

  /** The owner can come to handle its event without a new event of any thread. */
  ghost predicate CanBegin(s: State, o: int) {
    exists steps, s' :: Path(s, steps, s') && NoEvents(steps) && o in s'.th && s'.th[o].place.Handling?
  }

  /**
   * Progress of the gathering, exactly: from a reachable state in which the owner waits, it can come to handle its event
   * without a new event of any thread if and only if no running thread has lost its suspend signal. A signal is lost when
   * it is taken for the one that an earlier round left over.
   */
  lemma GatheringExact(s: State, o: int)
    requires Reachable(s) && o in s.th && s.th[o].place.Waiting?
    ensures CanBegin(s, o) <==> NoneLost(s, o)
  {
    hide Enabled, Next, Path, Reachable, Lost, Here;
    var ph := ReachableInv(s);
    WaitingOwner(s, ph, o);
    if NoneLost(s, o) {
      var some, s1 := AllCome(s, o, s.th.Keys);
      var more, s' := ArrivalsRead(s1, o);
      PathAppend(s, some, s1, more, s');
      assert NoEvents(some + more);
    }
    if CanBegin(s, o) && !NoneLost(s, o) {
      var v :| v in s.th && v != o && s.th[v].running && Lost(s.th[v]);
      var steps, s' :| Path(s, steps, s') && NoEvents(steps) && o in s'.th && s'.th[o].place.Handling?;
      LostStays(s, steps, s', o, v);
      assert false;
    }
  }

  // ----- the holder lets everybody go

  lemma HeldShape(s: State, h: int)
    requires Inv(s, Held(h))
    ensures h in s.th && HolderOK(s.th[h], s.stepping)
  {
  }

  /** The thread that control was handed to comes to handle its event, and so does one that traps while it steps. */
  lemma HolderHandles(s: State, h: int) returns (steps: seq<Step>, s': State)
    requires Inv(s, Held(h))
    ensures Path(s, steps, s') && Inv(s', Held(h)) && h in s'.th && s'.th[h].place.Handling? && Waiters(s', h) == Waiters(s, h)
  {
    hide Path, Waiters;
    HeldShape(s, h);
    PathNone(s);
    steps, s' := [], s;
    if s.th[h].place == Stepping {
      HeldOn(s, h, Trap(h));
      PathThen(s, steps, s', Trap(h));
      steps, s' := steps + [Trap(h)], Next(s', Trap(h));
    } else {
      if s.th[h].place == Arrived {
        HeldOn(s, h, Park(h));
        PathThen(s, steps, s', Park(h));
        steps, s' := steps + [Park(h)], Next(s', Park(h));
        HeldShape(s', h);
      }
      if s'.th[h].place == Parked {
        HeldOn(s', h, Wake(h));
        PathThen(s, steps, s', Wake(h));
        steps, s' := steps + [Wake(h)], Next(s', Wake(h));
      }
    }
  }

  /** A step of the holder that gives nothing away. */
  lemma HeldOn(s: State, h: int, step: Step)
    requires Inv(s, Held(h)) && Enabled(s, step) && step.t == h && !step.Transfer? && !step.Release? && !step.Begin? && !step.Compete?
    ensures Inv(Next(s, step), Held(h)) && Waiters(Next(s, step), h) == Waiters(s, h)
  {
    hide Inv, Enabled, Next;
    StepInv(s, Held(h), step);
    NextKeys(s, step);
    forall v | v in s.th && v != h
      ensures v in Next(s, step).th && Pending(Next(s, step).th[v]) == Pending(s.th[v])
    {
      HeldStep(s, h, step, v);
    }
  }

  /** The debugger can let the process go on: it takes the continue breakpoint away and has a thread that runs. */
  lemma MadeReady(s: State, h: int) returns (steps: seq<Step>, s': State)
    requires Inv(s, Held(h)) && s.th[h].place.Handling?
    ensures Path(s, steps, s') && Inv(s', Held(h)) && h in s'.th && s'.th[h].place.Handling? && Waiters(s', h) == Waiters(s, h)
    ensures CanContinue(s') && (s'.th[h].place.death || !s'.stepping)
  {
    hide Path, Waiters;
    HeldShape(s, h);
    PathNone(s);
    steps, s' := [], s;
    if s.stepping {
      HeldOn(s, h, SetContinueBp(h, false));
      PathThen(s, steps, s', SetContinueBp(h, false));
      steps, s' := steps + [SetContinueBp(h, false)], Next(s', SetContinueBp(h, false));
    }
    if !CanContinue(s') {
      HeldOn(s', h, SetRunning(h, h, true));
      PathThen(s, steps, s', SetRunning(h, h, true));
      steps, s' := steps + [SetRunning(h, h, true)], Next(s', SetRunning(h, h, true));
      assert s'.th[h].running;
    }
  }

  lemma {:induction false} HolderOpens(s: State, h: int) returns (steps: seq<Step>, s': State)
    requires Inv(s, Held(h))
    ensures Path(s, steps, s') && !s'.lock
    decreases |Waiters(s, h)|
  {
    hide Path, Waiters, Inv, Enabled, Next, CanContinue;
    HeldShape(s, h);
    var xs, s1 := HolderHandles(s, h);
    var ys, s2 := MadeReady(s1, h);
    PathAppend(s, xs, s1, ys, s2);
    if Waiters(s2, h) == {} {
      ReleaseReady(s2, h);
      PathThen(s, xs + ys, s2, Release(h));
      steps, s' := xs + ys + [Release(h)], Next(s2, Release(h));
    } else {
      var u := SomeOf(Waiters(s2, h));
      TransferReady(s2, h, u);
      TransferWaiters(s2, Held(h), h, u);
      TransferInv(s2, Held(h), h, u);
      var s3 := Next(s2, Transfer(h, u));
      PathThen(s, xs + ys, s2, Transfer(h, u));
      var zs;
      zs, s' := HolderOpens(s3, u);
      PathAppend(s, xs + ys + [Transfer(h, u)], s3, zs, s');
      steps := xs + ys + [Transfer(h, u)] + zs;
    }
  }

  lemma ReleaseReady(s: State, h: int)
    requires h in s.th && s.th[h].place.Handling? && CanContinue(s) && (s.th[h].place.death || !s.stepping)
    requires Waiters(s, h) == {}
    ensures Enabled(s, Release(h)) && !Next(s, Release(h)).lock
  {
    forall v | v in s.th && v != h
      ensures !Pending(s.th[v])
    {
      assert v !in Waiters(s, h);
    }
  }

  lemma TransferReady(s: State, h: int, u: int)
    requires h in s.th && s.th[h].place.Handling? && CanContinue(s) && (s.th[h].place.death || !s.stepping)
    requires u in Waiters(s, h)
    ensures Enabled(s, Transfer(h, u))
  {
  }

  /**
   * From every reachable state in which a thread handles or steps over a breakpoint, the barrier can open: the debugger
   * lets the process go on, control goes through the threads whose event waits, and the last one releases all.
   */
  lemma HeldOpens(s: State, h: int) returns (steps: seq<Step>, s': State)
    requires Reachable(s) && h in s.th && Active(s.th[h])
    ensures Path(s, steps, s') && !s'.lock
  {
    hide Path, Reachable;
    var ph := ReachableInv(s);
    HolderOf(s, ph, h);
    steps, s' := HolderOpens(s, h);
  }

  /**
   * Stepping over a breakpoint: the handler leaves for user code, with all other threads held, and the trap brings it back
   * as it was, with no signal noted.
   */
  lemma StepsAlone(s: State, h: int)
    requires h in s.th && s.th[h].place == Handling(false) && CanContinue(s)
    ensures Enabled(s, SetContinueBp(h, true))
    ensures var s1 := Next(s, SetContinueBp(h, true));
      && Enabled(s1, Leave(h))
      && var s2 := Next(s1, Leave(h));
      && s2.th[h].place == Stepping && Enabled(s2, Trap(h)) && OthersSame(s, s2, h)
      && var s3 := Next(s2, Trap(h));
      && s3.th[h] == s.th[h].(sig := NoSignal) && OthersSame(s, s3, h) && s3.stepping
  {
  }

  /** A suspend signal that comes meanwhile is ignored if that was noted, and otherwise brings the thread back as well. */
  lemma SignalledAlone(s: State, h: int)
    requires h in s.th && s.th[h].place == Stepping && s.stepping && s.th[h].raised
    ensures Enabled(s, Deliver(h))
    ensures var s' := Next(s, Deliver(h));
            h in s'.th && s'.th[h].place == if s.th[h].ignore then Stepping else Handling(false)
  {
  }

  /**
   * What the debugger sets is what a release does: a thread can be suspended or resumed while another one handles, and the
   * release then wakes exactly the running threads, each with one token.
   */
  lemma ReleasedExactly(s: State, h: int, u: int, running: bool, v: int)
    requires Reachable(s) && h in s.th && s.th[h].place.Handling? && u in s.th && v in s.th && v != h
    ensures Enabled(s, SetRunning(h, u, running))
    ensures var s1 := Next(s, SetRunning(h, u, running));
      && s1.th[v].running == (if v == u then running else s.th[v].running)
      && (Enabled(s1, Release(h)) ==>
            && Still(Next(s1, Release(h)).th[v])
            && Next(s1, Release(h)).th[v].tokens == if s1.th[v].running then 1 else 0)
  {
    var ph := ReachableInv(s);
    HolderOf(s, ph, h);
    assert HeldOK(s.th[v]);
    hide Inv, Reachable;
  }
}
