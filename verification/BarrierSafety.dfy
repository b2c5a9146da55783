/** What every reachable state of the barrier satisfies. */
module BarrierSafety {
  import opened Barrier

  /** Nobody holds the barrier; a thread gathers the others; a thread holds it or has been handed it. */
  datatype Phase = Open | Gather(owner: int) | Held(holder: int)

  predicate Quiet(x: Thread) {
    !Pending(x)
  }

  /** A dying thread has no other event: signals are blocked. */
  predicate DyingOK(x: Thread) {
    x.dying ==> x.sig != Event
  }

  /** A thread outside the barrier, on its way in, or waiting; one that was released has one token and nothing pending. */
  predicate FreeOK(x: Thread) {
    && (x.place == User || x.place == Entered || x.place == Arriving || Still(x))
    && (!x.running ==> Still(x) && x.tokens == 0 && Quiet(x))
    && (!Still(x) ==> x.tokens == 0)
    && x.tokens <= 1
    && (x.tokens == 1 ==> Quiet(x) && (x.place == ParkedOut || !x.control))
    && (x.place == User || x.place == ParkedOut ==> Quiet(x))
    && DyingOK(x)
  }

  predicate OpenOK(x: Thread) {
    FreeOK(x) && x.place != Arriving && (Still(x) && x.running ==> x.tokens == 1) && (Still(x) ==> Quiet(x))
  }

  /** A thread that is held: it waits, has no token and is not the control thread. */
  predicate HeldOK(x: Thread) {
    Still(x) && x.tokens == 0 && !x.control && (x.place == ParkedOut ==> Quiet(x)) && DyingOK(x)
  }

  /** The thread that holds the barrier: it handles or steps, or control is on its way to it. */
  predicate HolderOK(x: Thread, stepping: bool) {
    || ((x.place.Handling? || x.place == Stepping) && x.tokens == 0 && Quiet(x)
        && (x.place == Stepping ==> stepping) && (x.place == Handling(true) ==> !stepping))
    || ((x.place == Arrived || x.place == Parked) && x.tokens == 1 && x.control && !stepping && DyingOK(x))
  }

  /** The threads that have arrived and not been released. */
  ghost function ArrivedSet(s: State, o: int): (r: set<int>) {
    set v | v in s.th && v != o && Still(s.th[v]) && s.th[v].running && s.th[v].tokens == 0
  }

  ghost function RunningOthers(s: State, o: int): (r: set<int>) {
    set v | v in s.th && v != o && s.th[v].running
  }

  /** The gathering thread: whom it has signalled, and how many tokens it has read. */
  ghost predicate OwnerOK(s: State, o: int)
    requires o in s.th
  {
    var x := s.th[o];
    && x.running && x.tokens == 0 && x.control && DyingOK(x)
    && match x.place
       case Signalling(todo, sent) =>
         && todo <= s.th.Keys - {o} && sent == RunningOthers(s, o) - todo
         && s.arrived == multiset(ArrivedSet(s, o))
         && (forall v :: v in s.th && v != o && v !in todo ==> !s.th[v].control)
       case Waiting(sent, got) =>
         && sent == RunningOthers(s, o)
         && s.arrived + got == multiset(ArrivedSet(s, o))
         && (forall v :: v in s.th && v != o ==> !s.th[v].control)
       case _ => false
  }

  ghost predicate Inv(s: State, ph: Phase) {
    match ph
    case Open => !s.lock && !s.stepping && s.arrived == multiset{} && forall v :: v in s.th ==> OpenOK(s.th[v])
    case Gather(o) =>
      && s.lock && !s.stepping && o in s.th && OwnerOK(s, o)
      && forall v :: v in s.th && v != o ==> FreeOK(s.th[v])
    case Held(h) =>
      && s.lock && s.arrived == multiset{} && h in s.th && HolderOK(s.th[h], s.stepping)
      && forall v :: v in s.th && v != h ==> HeldOK(s.th[v])
  }

  /** The phase after a step. */
  function NextPhase(s: State, ph: Phase, step: Step): (ph': Phase) {
    match step
    case Compete(t) => if s.lock then ph else Gather(t)
    case Begin(t) => Held(t)
    case Transfer(t, u) => Held(u)
    case Release(t) => Open
    case _ => ph
  }

  lemma InitInv(s: State)
    requires Init(s)
    ensures Inv(s, Open)
  {
  }

  /** Changing one thread that is neither owner nor arrived leaves the owner's bookkeeping alone. */
  lemma OwnerFrame(s: State, s': State, o: int, t: int)
    requires o in s.th && t in s.th && t != o && OwnerOK(s, o)
    requires t in s'.th && s'.th == s.th[t := s'.th[t]] && s'.arrived == s.arrived
    requires s'.th[t].running == s.th[t].running && (s'.th[t].control ==> s.th[t].control)
    requires (Still(s'.th[t]) && s'.th[t].tokens == 0) == (Still(s.th[t]) && s.th[t].tokens == 0)
    ensures OwnerOK(s', o)
  {
    assert ArrivedSet(s', o) == ArrivedSet(s, o);
    assert RunningOthers(s', o) == RunningOthers(s, o);
    assert s'.th.Keys == s.th.Keys;
  }

  // ----- steps of threads outside the barrier

  lemma FaultInv(s: State, ph: Phase, t: int)
    requires Inv(s, ph) && Enabled(s, Fault(t))
    ensures Inv(Next(s, Fault(t)), ph)
  {
    hide OwnerOK;
    if ph.Gather? {
      OwnerPlace(s, ph.owner);
      OwnerFrame(s, Next(s, Fault(t)), ph.owner, t);
    }
  }

  lemma OwnerPlace(s: State, o: int)
    requires o in s.th && OwnerOK(s, o)
    ensures s.th[o].place.Signalling? || s.th[o].place.Waiting?
    ensures s.th[o].running && s.th[o].tokens == 0 && s.th[o].control
  {
  }

  lemma DeliverInv(s: State, ph: Phase, t: int)
    requires Inv(s, ph) && Enabled(s, Deliver(t))
    ensures Inv(Next(s, Deliver(t)), ph)
  {
    hide OwnerOK;
    if ph.Gather? {
      OwnerPlace(s, ph.owner);
      OwnerFrame(s, Next(s, Deliver(t)), ph.owner, t);
    }
  }

  lemma DieInv(s: State, ph: Phase, t: int)
    requires Inv(s, ph) && Enabled(s, Die(t))
    ensures Inv(Next(s, Die(t)), ph)
  {
    hide OwnerOK;
    if ph.Gather? {
      OwnerPlace(s, ph.owner);
      OwnerFrame(s, Next(s, Die(t)), ph.owner, t);
    }
  }

  lemma CompeteInv(s: State, ph: Phase, t: int)
    requires Inv(s, ph) && Enabled(s, Compete(t))
    ensures Inv(Next(s, Compete(t)), NextPhase(s, ph, Compete(t)))
  {
    if ph.Gather? {
      hide OwnerOK;
      OwnerPlace(s, ph.owner);
      OwnerFrame(s, Next(s, Compete(t)), ph.owner, t);
    } else if ph.Open? {
      CompeteOpen(s, t);
    }
  }

  /** The thread that finds the lock open starts to gather. */
  lemma CompeteOpen(s: State, t: int)
    requires Inv(s, Open) && Enabled(s, Compete(t))
    ensures Inv(Next(s, Compete(t)), Gather(t))
  {
    var s' := Next(s, Compete(t));
    assert OpenOK(s.th[t]);
    assert ArrivedSet(s', t) == {};
    assert RunningOthers(s', t) - (s.th.Keys - {t}) == {};
    assert OwnerOK(s', t);
    hide OwnerOK, ArrivedSet, RunningOthers;
    assert forall v :: v in s.th && v != t ==> FreeOK(s'.th[v]);
  }

  lemma ParkInv(s: State, ph: Phase, t: int)
    requires Inv(s, ph) && Enabled(s, Park(t))
    ensures Inv(Next(s, Park(t)), ph)
  {
    hide OwnerOK;
    if ph.Gather? {
      OwnerPlace(s, ph.owner);
      OwnerFrame(s, Next(s, Park(t)), ph.owner, t);
    }
  }

  lemma WakeInv(s: State, ph: Phase, t: int)
    requires Inv(s, ph) && Enabled(s, Wake(t))
    ensures Inv(Next(s, Wake(t)), ph)
  {
    hide OwnerOK;
    if ph.Gather? {
      OwnerPlace(s, ph.owner);
      OwnerFrame(s, Next(s, Wake(t)), ph.owner, t);
    }
  }

  lemma WakeOutInv(s: State, ph: Phase, t: int)
    requires Inv(s, ph) && Enabled(s, WakeOut(t))
    ensures Inv(Next(s, WakeOut(t)), ph)
  {
    hide OwnerOK;
    if ph.Gather? {
      OwnerPlace(s, ph.owner);
      OwnerFrame(s, Next(s, WakeOut(t)), ph.owner, t);
    }
  }

  // ----- gathering

  lemma ArriveInv(s: State, ph: Phase, t: int)
    requires Inv(s, ph) && Enabled(s, Arrive(t))
    ensures Inv(Next(s, Arrive(t)), ph)
  {
    var s' := Next(s, Arrive(t));
    if ph.Gather? {
      var o := ph.owner;
      assert ArrivedSet(s', o) == ArrivedSet(s, o) + {t};
      assert RunningOthers(s', o) == RunningOthers(s, o);
      assert multiset(ArrivedSet(s', o)) == multiset(ArrivedSet(s, o)) + multiset{t};
      assert s'.th.Keys == s.th.Keys;
    }
  }

  lemma SignalOwner(s: State, t: int, u: int)
    requires t in s.th && OwnerOK(s, t) && Enabled(s, Signal1(t, u))
    ensures u != t && t in Next(s, Signal1(t, u)).th && OwnerOK(Next(s, Signal1(t, u)), t)
  {
    var s' := Next(s, Signal1(t, u));
    var x, y := s.th[t], s.th[u];
    assert s'.th[u] == y.(control := false, raised := y.raised || y.running);
    assert forall v :: v in s.th && v != t && v != u ==> s'.th[v] == s.th[v];
    SameSets(s, s', t);
    var r := RunningOthers(s, t);
    hide RunningOthers, ArrivedSet;
    assert (y.running <==> u in r) by {
      InRunning(s, t, u);
    }
    assert s'.th[t].place == Signalling(x.place.todo - {u}, if y.running then x.place.sent + {u} else x.place.sent);
    assert s'.th[t].place.sent == r - (x.place.todo - {u});
    assert s'.th.Keys == s.th.Keys;
  }

  lemma InRunning(s: State, o: int, u: int)
    requires u in s.th && u != o
    ensures u in RunningOthers(s, o) <==> s.th[u].running
  {
  }

  lemma SameSets(s: State, s': State, o: int)
    requires s'.th.Keys == s.th.Keys
    requires forall v :: v in s.th && v != o ==>
               && s'.th[v].place == s.th[v].place && s'.th[v].running == s.th[v].running
               && s'.th[v].tokens == s.th[v].tokens
    ensures ArrivedSet(s', o) == ArrivedSet(s, o) && RunningOthers(s', o) == RunningOthers(s, o)
  {
  }

  lemma SignalInv(s: State, ph: Phase, t: int, u: int)
    requires Inv(s, ph) && Enabled(s, Signal1(t, u))
    ensures Inv(Next(s, Signal1(t, u)), ph)
  {
    hide OwnerOK;
    assert ph == Gather(t) by {
      if ph.Gather? {
        OwnerPlace(s, ph.owner);
      }
    }
    SignalOwner(s, t, u);
  }

  lemma StartWaitInv(s: State, ph: Phase, t: int)
    requires Inv(s, ph) && Enabled(s, StartWait(t))
    ensures Inv(Next(s, StartWait(t)), ph)
  {
    var s' := Next(s, StartWait(t));
    assert ph == Gather(t);
    assert ArrivedSet(s', t) == ArrivedSet(s, t);
    assert RunningOthers(s', t) == RunningOthers(s, t);
  }

  lemma ReadInv(s: State, ph: Phase, t: int, u: int)
    requires Inv(s, ph) && Enabled(s, ReadArrival(t, u))
    ensures Inv(Next(s, ReadArrival(t, u)), ph)
  {
    var s' := Next(s, ReadArrival(t, u));
    assert ph == Gather(t);
    assert ArrivedSet(s', t) == ArrivedSet(s, t);
    assert RunningOthers(s', t) == RunningOthers(s, t);
    assert s'.arrived + s'.th[t].place.got == s.arrived + s.th[t].place.got;
  }

  lemma SubsetCount(a: set<int>, b: set<int>)
    requires a <= b && |a| >= |b|
    ensures a == b
  {
    var d := b - a;
    assert b == a + d;
    assert |b| == |a| + |d|;
  }

  /** When as many tokens were read as signals sent, everybody has arrived and the arrival pipe is empty. */
  lemma AllArrived(s: State, o: int)
    requires o in s.th && OwnerOK(s, o) && s.th[o].place.Waiting? && |s.th[o].place.got| >= |s.th[o].place.sent|
    ensures ArrivedSet(s, o) == RunningOthers(s, o) && s.arrived == multiset{}
  {
    var a, r, got := ArrivedSet(s, o), RunningOthers(s, o), s.th[o].place.got;
    assert |multiset(a)| == |a|;
    assert |s.arrived + got| == |s.arrived| + |got|;
    assert a <= r;
    SubsetCount(a, r);
    assert |s.arrived| == 0;
  }

  lemma BeginInv(s: State, ph: Phase, t: int)
    requires Inv(s, ph) && Enabled(s, Begin(t))
    ensures Inv(Next(s, Begin(t)), Held(t))
  {
    assert ph == Gather(t);
    AllArrived(s, t);
    var s' := Next(s, Begin(t));
    forall v | v in s'.th && v != t
      ensures HeldOK(s'.th[v])
    {
      assert s'.th[v] == s.th[v];
      if s.th[v].running {
        assert v in RunningOthers(s, t);
      }
    }
  }

  // ----- holding

  lemma HolderOf(s: State, ph: Phase, t: int)
    requires Inv(s, ph) && t in s.th && (s.th[t].place.Handling? || s.th[t].place == Stepping)
    ensures ph == Held(t)
  {
  }

  lemma HandleInv(s: State, ph: Phase, step: Step)
    requires Inv(s, ph) && Enabled(s, step)
    requires step.SetRunning? || step.SetContinueBp? || step.Leave? || step.Trap?
    ensures Inv(Next(s, step), ph)
  {
    HolderOf(s, ph, step.t);
  }

  lemma TransferInv(s: State, ph: Phase, t: int, u: int)
    requires Inv(s, ph) && Enabled(s, Transfer(t, u))
    ensures Inv(Next(s, Transfer(t, u)), Held(u))
  {
    HolderOf(s, ph, t);
  }

  lemma ReleaseInv(s: State, ph: Phase, t: int)
    requires Inv(s, ph) && Enabled(s, Release(t))
    ensures Inv(Next(s, Release(t)), Open)
  {
    HolderOf(s, ph, t);
  }

  /** Every step keeps the invariant. */
  lemma StepInv(s: State, ph: Phase, step: Step)
    requires Inv(s, ph) && Enabled(s, step)
    ensures Inv(Next(s, step), NextPhase(s, ph, step))
  {
    hide Inv, Next;
    match step
    case Fault(t) => FaultInv(s, ph, t);
    case Deliver(t) => DeliverInv(s, ph, t);
    case Die(t) => DieInv(s, ph, t);
    case Compete(t) => CompeteInv(s, ph, t);
    case Signal1(t, u) => SignalInv(s, ph, t, u);
    case StartWait(t) => StartWaitInv(s, ph, t);
    case Arrive(t) => ArriveInv(s, ph, t);
    case Park(t) => ParkInv(s, ph, t);
    case ReadArrival(t, u) => ReadInv(s, ph, t, u);
    case Begin(t) => BeginInv(s, ph, t);
    case Wake(t) => WakeInv(s, ph, t);
    case SetRunning(t, u, r) => HandleInv(s, ph, step);
    case SetContinueBp(t, on) => HandleInv(s, ph, step);
    case Leave(t) => HandleInv(s, ph, step);
    case Trap(t) => HandleInv(s, ph, step);
    case Transfer(t, u) => TransferInv(s, ph, t, u);
    case Release(t) => ReleaseInv(s, ph, t);
    case WakeOut(t) => WakeOutInv(s, ph, t);
  }
}
