/** Suspend signals that a round leaves over: which of them are ignored when they are delivered. */
module BarrierSignals {
  import opened Barrier
  import opened BarrierSafety
  import opened BarrierRuns

  /** If a suspend signal waits, it will be ignored; a thread that is about to park decides that by what it entered for. */
  predicate Covered(x: Thread) {
    x.raised ==> if x.place == Arrived then x.sig != Suspend else x.ignore
  }

  /** On the way into the barrier. */
  predicate Coming(x: Thread) {
    x.place == Entered || x.place == Arriving || (x.place == Arrived && x.tokens == 0)
  }

  /** What holds of a thread while another one gathers; `todo` says that it has yet to be signalled. */
  predicate GatherSig(x: Thread, todo: bool) {
    if Coming(x) then x.sig == Suspend ==> !x.raised && (x.running ==> !todo)
    else if Still(x) && x.tokens == 0 then Covered(x) && (x.running && todo ==> x.ignore)
    else todo ==> Covered(x)
  }

  /** The gathering thread has yet to signal the thread. */
  predicate ToSignal(s: State, o: int, v: int)
    requires o in s.th
  {
    s.th[o].place.Signalling? && v in s.th[o].place.todo
  }

  /** What every thread satisfies in a phase, as long as no thread died with an old suspend signal. */
  predicate SigOK(s: State, ph: Phase, v: int)
    requires v in s.th
  {
    var x := s.th[v];
    && (x.dying ==> x.sig != Suspend)
    && match ph
       case Open => Covered(x) && (x.place == Entered ==> x.sig != Suspend)
       case Gather(o) => if v == o || o !in s.th then Covered(x) else GatherSig(x, ToSignal(s, o, v))
       case Held(_) => Covered(x)
  }

  ghost predicate Signals(s: State, ph: Phase) {
    forall v :: v in s.th ==> SigOK(s, ph, v)
  }

  /** The thread dies although it entered the handler last for a suspend signal. */
  predicate StaleDeath(s: State, step: Step) {
    step.Die? && step.t in s.th && s.th[step.t].sig == Suspend
  }

  lemma SigInit(s: State)
    requires Init(s)
    ensures Signals(s, Open)
  {
  }

  /** What the invariant says of one thread. */
  lemma InvAt(s: State, ph: Phase, v: int)
    requires Inv(s, ph) && v in s.th
    ensures ph == Open ==> OpenOK(s.th[v]) && !s.lock && !s.stepping
    ensures ph.Gather? ==> s.lock && !s.stepping && ph.owner in s.th
    ensures ph.Gather? && v == ph.owner ==> s.th[v].place.Signalling? || s.th[v].place.Waiting?
    ensures ph.Gather? && v != ph.owner ==> FreeOK(s.th[v])
    ensures ph.Held? ==> s.lock && if v == ph.holder then HolderOK(s.th[v], s.stepping) else HeldOK(s.th[v])
  {
  }

  /** A step of the thread itself that moves nobody else and no phase. */
  predicate OwnStep(s: State, step: Step) {
    || step.Fault? || step.Deliver? || step.Die? || (step.Compete? && s.lock) || step.Arrive? || step.Park?
    || step.Wake? || step.WakeOut? || step.Trap? || step.Leave?
  }

  lemma OwnKeeps(s: State, step: Step, v: int)
    requires Enabled(s, step) && OwnStep(s, step) && v in s.th && v != step.t
    ensures v in Next(s, step).th && Next(s, step).th[v] == s.th[v]
  {
  }

  /** The gathering thread itself has none of these steps. */
  lemma OwnPhase(s: State, ph: Phase, step: Step)
    requires Inv(s, ph) && Enabled(s, step) && OwnStep(s, step)
    ensures NextPhase(s, ph, step) == ph && (ph.Gather? ==> ph.owner in s.th && step.t != ph.owner)
  {
    InvAt(s, ph, step.t);
    hide Inv;
  }

  lemma OwnOthers(s: State, ph: Phase, step: Step, v: int)
    requires Inv(s, ph) && v in s.th && SigOK(s, ph, v) && Enabled(s, step) && OwnStep(s, step) && v != step.t
    ensures NextPhase(s, ph, step) == ph && v in Next(s, step).th && SigOK(Next(s, step), ph, v)
  {
    hide Inv, Enabled, Next, OwnStep, NextPhase, GatherSig, Covered;
    OwnPhase(s, ph, step);
    OwnKeeps(s, step, v);
    if ph.Gather? {
      OwnKeeps(s, step, ph.owner);
    }
  }

  lemma OwnEntry(s: State, ph: Phase, step: Step)
    requires Inv(s, ph) && step.t in s.th && SigOK(s, ph, step.t) && Enabled(s, step) && !StaleDeath(s, step)
    requires step.Fault? || step.Deliver? || step.Die?
    ensures step.t in Next(s, step).th && SigOK(Next(s, step), ph, step.t)
  {
    InvAt(s, ph, step.t);
    hide Inv;
  }

  lemma OwnPark(s: State, ph: Phase, step: Step)
    requires Inv(s, ph) && step.t in s.th && SigOK(s, ph, step.t) && Enabled(s, step)
    requires (step.Compete? && s.lock) || step.Arrive? || step.Park?
    ensures step.t in Next(s, step).th && SigOK(Next(s, step), ph, step.t)
  {
    InvAt(s, ph, step.t);
    hide Inv;
  }

  lemma OwnWake(s: State, ph: Phase, step: Step)
    requires Inv(s, ph) && step.t in s.th && SigOK(s, ph, step.t) && Enabled(s, step)
    requires step.Wake? || step.WakeOut? || step.Trap? || step.Leave?
    ensures step.t in Next(s, step).th && SigOK(Next(s, step), ph, step.t)
  {
    InvAt(s, ph, step.t);
    hide Inv;
  }

  lemma CompeteSig(s: State, t: int, v: int)
    requires Inv(s, Open) && Enabled(s, Compete(t)) && v in s.th && SigOK(s, Open, v) && SigOK(s, Open, t)
    ensures v in Next(s, Compete(t)).th && SigOK(Next(s, Compete(t)), Gather(t), v)
  {
    InvAt(s, Open, v);
    InvAt(s, Open, t);
    hide Inv;
    if v != t {
      assert Next(s, Compete(t)).th[v] == s.th[v];
    }
  }

  lemma SignalSig(s: State, ph: Phase, t: int, u: int, v: int)
    requires Inv(s, ph) && Enabled(s, Signal1(t, u)) && v in s.th && SigOK(s, ph, v)
    ensures v in Next(s, Signal1(t, u)).th && SigOK(Next(s, Signal1(t, u)), ph, v)
  {
    InvAt(s, ph, t);
    InvAt(s, ph, v);
    assert ph == Gather(t) && u != t;
    hide Inv;
    var s' := Next(s, Signal1(t, u));
    if v != t && v != u {
      assert s'.th[v] == s.th[v];
      assert ToSignal(s', t, v) == ToSignal(s, t, v);
    } else if v == u {
      assert ToSignal(s, t, u) && !ToSignal(s', t, u);
    }
  }

  lemma WaitSig(s: State, ph: Phase, step: Step, v: int)
    requires Inv(s, ph) && Enabled(s, step) && (step.StartWait? || step.ReadArrival?) && v in s.th && SigOK(s, ph, v)
    ensures v in Next(s, step).th && SigOK(Next(s, step), ph, v)
  {
    InvAt(s, ph, step.t);
    assert ph == Gather(step.t);
    hide Inv;
    if v != step.t {
      assert Next(s, step).th[v] == s.th[v];
    }
  }

  lemma BeginSig(s: State, ph: Phase, t: int, v: int)
    requires Inv(s, ph) && Enabled(s, Begin(t)) && v in s.th && SigOK(s, ph, v)
    ensures v in Next(s, Begin(t)).th && SigOK(Next(s, Begin(t)), Held(t), v)
  {
    InvAt(s, ph, t);
    assert ph == Gather(t);
    BeginInv(s, ph, t);
    InvAt(Next(s, Begin(t)), Held(t), v);
    hide Inv;
    if v != t {
      assert Next(s, Begin(t)).th[v] == s.th[v];
    }
  }

  lemma HoldSig(s: State, ph: Phase, step: Step, v: int)
    requires Inv(s, ph) && Enabled(s, step) && (step.SetRunning? || step.SetContinueBp? || step.Transfer? || step.Release?)
    requires v in s.th && SigOK(s, ph, v)
    ensures v in Next(s, step).th && SigOK(Next(s, step), NextPhase(s, ph, step), v)
  {
    HolderOf(s, ph, step.t);
    InvAt(s, ph, v);
    hide Inv;
  }

  lemma SigStep(s: State, ph: Phase, step: Step, v: int)
    requires Inv(s, ph) && Signals(s, ph) && Enabled(s, step) && !StaleDeath(s, step) && v in s.th
    ensures v in Next(s, step).th && SigOK(Next(s, step), NextPhase(s, ph, step), v)
  {
    assert SigOK(s, ph, v) && SigOK(s, ph, step.t);
    OpenLock(s, ph);
    hide Inv, SigOK, Next;
    if OwnStep(s, step) {
      if v != step.t {
        OwnOthers(s, ph, step, v);
      } else if step.Fault? || step.Deliver? || step.Die? {
        OwnEntry(s, ph, step);
      } else if step.Compete? || step.Arrive? || step.Park? {
        OwnPark(s, ph, step);
      } else {
        OwnWake(s, ph, step);
      }
    } else {
      match step
      case Compete(t) => CompeteSig(s, t, v);
      case Signal1(t, u) => SignalSig(s, ph, t, u, v);
      case StartWait(t) => WaitSig(s, ph, step, v);
      case ReadArrival(t, u) => WaitSig(s, ph, step, v);
      case Begin(t) => BeginSig(s, ph, t, v);
      case _ => HoldSig(s, ph, step, v);
    }
  }

  lemma OpenLock(s: State, ph: Phase)
    requires Inv(s, ph)
    ensures !s.lock <==> ph == Open
  {
  }

  // ----- over runs

  /** No thread dies with an old suspend signal up to the state `k`. */
  ghost predicate NoStale(run: seq<State>, steps: seq<Step>, k: nat)
    requires k <= |steps| <= |run|
  {
    forall i :: 0 <= i < k ==> !StaleDeath(run[i], steps[i])
  }

  lemma {:induction false} RunSignals(run: seq<State>, steps: seq<Step>, k: nat)
    requires RunOf(run, steps) && k <= |steps| && NoStale(run, steps, k)
    ensures Signals(run[k], PhaseAt(run, steps, k))
  {
    if k == 0 {
      SigInit(run[0]);
    } else {
      var i := k - 1;
      RunSignals(run, steps, i);
      RunStep(run, steps, i);
      hide RunOf, Inv, Enabled, Next, NextPhase, SigOK, PhaseAt, StaleDeath;
      var ph := PhaseAt(run, steps, i);
      NextKeys(run[i], steps[i]);
      assert !StaleDeath(run[i], steps[i]);
      forall v | v in run[k].th
        ensures SigOK(run[k], PhaseAt(run, steps, k), v)
      {
        SigStep(run[i], ph, steps[i], v);
      }
    }
  }

  /**
   * A suspend signal that is left over when the lock is open is ignored when it is delivered: the thread stays where it is
   * and only the signal and the note of it go. This holds over all runs in which no thread dies with an old suspend signal.
   */
  lemma LeftOverIgnored(run: seq<State>, steps: seq<Step>, k: nat, v: int)
    requires RunOf(run, steps) && k <= |steps| && NoStale(run, steps, k)
    requires v in run[k].th && !run[k].lock && Enabled(run[k], Deliver(v))
    ensures Next(run[k], Deliver(v)) == Set(run[k], v, run[k].th[v].(raised := false, ignore := false))
  {
    RunSignals(run, steps, k);
    RunInv(run, steps, k);
    hide RunOf, PhaseAt;
    OpenLock(run[k], PhaseAt(run, steps, k));
    hide Inv;
    assert SigOK(run[k], Open, v);
  }

  // ----- what decides

  /** The step takes the thread into the handler or the barrier. */
  predicate Enters(step: Step, t: int) {
    step.t == t && (step.Fault? || step.Deliver? || step.Die?)
  }

  predicate BeforePark(x: Thread) {
    x.place == Entered || x.place == Arriving || x.place == Arrived
  }

  /** Steps of other threads do not move the thread, and leave its notes. */
  lemma OthersKeep(s: State, step: Step, t: int)
    requires Enabled(s, step) && t in s.th && step.t != t
    ensures t in Next(s, step).th
    ensures var x, x' := s.th[t], Next(s, step).th[t]; x'.place == x.place && x'.sig == x.sig && x'.ignore == x.ignore
  {
  }

  lemma UntilPark(s: State, step: Step, t: int, sig: Signal)
    requires Enabled(s, step) && t in s.th && !Enters(step, t) && (BeforePark(s.th[t]) ==> s.th[t].sig == sig)
    ensures t in Next(s, step).th && (BeforePark(Next(s, step).th[t]) ==> Next(s, step).th[t].sig == sig)
  {
    if step.t != t {
      hide Enabled, Next;
      OthersKeep(s, step, t);
    } else if step.Compete? || step.Arrive? {
      assert t in Next(s, step).th;
    } else {
      LeavesPark(s, step);
    }
  }

  /** All other steps of a thread take it out of the way in, or find it elsewhere. */
  lemma LeavesPark(s: State, step: Step)
    requires Enabled(s, step) && !Enters(step, step.t) && !step.Compete? && !step.Arrive?
    ensures step.t in Next(s, step).th && !BeforePark(Next(s, step).th[step.t])
    ensures !step.Park? ==> Next(s, step).th[step.t].ignore == s.th[step.t].ignore
  {
    if s.th[step.t].place.Handling? {
      HolderLeaves(s, step);
    }
  }

  lemma HolderLeaves(s: State, step: Step)
    requires Enabled(s, step) && s.th[step.t].place.Handling?
    ensures step.t in Next(s, step).th && !BeforePark(Next(s, step).th[step.t])
    ensures Next(s, step).th[step.t].ignore == s.th[step.t].ignore
  {
  }

  lemma AfterPark(s: State, step: Step, t: int)
    requires Enabled(s, step) && t in s.th && !Enters(step, t) && !BeforePark(s.th[t])
    ensures t in Next(s, step).th && !BeforePark(Next(s, step).th[t]) && Next(s, step).th[t].ignore == s.th[t].ignore
  {
    if step.t != t {
      hide Enabled, Next;
      OthersKeep(s, step, t);
    } else {
      assert !step.Compete? && !step.Arrive? && !step.Park?;
      hide Next;
      LeavesPark(s, step);
    }
  }

  lemma {:induction false} SigKept(run: seq<State>, steps: seq<Step>, i: nat, k: nat, t: int)
    requires RunOf(run, steps) && i < k <= |steps| && t in run[i + 1].th
    requires forall n :: i < n < k ==> !Enters(steps[n], t)
    ensures t in run[k].th && (BeforePark(run[k].th[t]) ==> run[k].th[t].sig == run[i + 1].th[t].sig)
    decreases k
  {
    hide Enabled, Next, BeforePark;
    if k > i + 1 {
      SigKept(run, steps, i, k - 1, t);
      assert Enabled(run[k - 1], steps[k - 1]) && run[k] == Next(run[k - 1], steps[k - 1]);
      UntilPark(run[k - 1], steps[k - 1], t, run[i + 1].th[t].sig);
    }
  }

  lemma {:induction false} NoteKept(run: seq<State>, steps: seq<Step>, p: nat, k: nat, t: int)
    requires RunOf(run, steps) && p <= k <= |steps| && t in run[p].th && !BeforePark(run[p].th[t])
    requires forall n :: p <= n < k ==> !Enters(steps[n], t)
    ensures t in run[k].th && !BeforePark(run[k].th[t]) && run[k].th[t].ignore == run[p].th[t].ignore
    decreases k
  {
    hide Enabled, Next, BeforePark;
    if k > p {
      NoteKept(run, steps, p, k - 1, t);
      assert Enabled(run[k - 1], steps[k - 1]) && run[k] == Next(run[k - 1], steps[k - 1]);
      AfterPark(run[k - 1], steps[k - 1], t);
    }
  }

  /** What the thread entered for, as it is noted: an event, a suspend signal, or for a dying thread what was noted before. */
  function Noted(s: State, step: Step): (sig: Signal)
    requires step.t in s.th
  {
    if step.Fault? then Event else if step.Deliver? then Suspend else s.th[step.t].sig
  }

  /** The delivery of a suspend signal leaves the thread where it is. */
  predicate Ignores(s: State, t: int)
    requires Enabled(s, Deliver(t))
  {
    var s' := Next(s, Deliver(t));
    t in s'.th && s'.th[t].place == s.th[t].place
  }

  /**
   * Exactly which signals are ignored. A thread enters at step `i`, parks at step `p`, and has not entered again by the
   * state `k`. A suspend signal delivered to it then is ignored if and only if it had entered for an event, or died when
   * no suspend signal was noted.
   */
  lemma EntryDecides(run: seq<State>, steps: seq<Step>, i: nat, p: nat, k: nat, t: int)
    requires RunOf(run, steps) && i < p < k <= |steps| && Enters(steps[i], t) && steps[p] == Park(t)
    requires forall n :: i < n < k ==> !Enters(steps[n], t)
    requires t in run[i].th && t in run[i + 1].th && run[i + 1].th[t].place == Entered
    ensures t in run[k].th && (run[k].th[t].ignore <==> Noted(run[i], steps[i]) != Suspend)
    ensures Enabled(run[k], Deliver(t)) ==> (Ignores(run[k], t) <==> Noted(run[i], steps[i]) != Suspend)
  {
    hide Enabled, Next, Noted, BeforePark, Ignores;
    assert Enabled(run[i], steps[i]) && run[i + 1] == Next(run[i], steps[i]);
    EntryNotes(run[i], steps[i]);
    SigKept(run, steps, i, p, t);
    assert Enabled(run[p], steps[p]) && run[p + 1] == Next(run[p], steps[p]);
    ParkNotes(run[p], t);
    NoteKept(run, steps, p + 1, k, t);
    if Enabled(run[k], Deliver(t)) {
      DeliverDecides(run[k], t);
    }
  }

  lemma EntryNotes(s: State, step: Step)
    requires Enabled(s, step) && Enters(step, step.t)
    ensures step.t in Next(s, step).th
    ensures Next(s, step).th[step.t].place == Entered ==> Next(s, step).th[step.t].sig == Noted(s, step)
  {
  }

  lemma ParkNotes(s: State, t: int)
    requires Enabled(s, Park(t))
    ensures BeforePark(s.th[t]) && t in Next(s, Park(t)).th && !BeforePark(Next(s, Park(t)).th[t])
    ensures Next(s, Park(t)).th[t].ignore <==> s.th[t].sig != Suspend
  {
  }

  lemma DeliverDecides(s: State, t: int)
    requires Enabled(s, Deliver(t))
    ensures Ignores(s, t) <==> s.th[t].ignore
  {
  }
}
