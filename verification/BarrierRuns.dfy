/** What holds in every state of every run of the barrier. */
module BarrierRuns {
  import opened Barrier
  import opened BarrierSafety

  /** The phase of each state of a run. */
  function PhaseAt(run: seq<State>, steps: seq<Step>, k: nat): (ph: Phase)
    requires k <= |steps| <= |run|
  {
    if k == 0 then Open else NextPhase(run[k - 1], PhaseAt(run, steps, k - 1), steps[k - 1])
  }

  lemma {:induction false} RunInv(run: seq<State>, steps: seq<Step>, k: nat)
    requires RunOf(run, steps) && k <= |steps|
    ensures Inv(run[k], PhaseAt(run, steps, k))
  {
    if k == 0 {
      InitInv(run[0]);
    } else {
      hide Inv, Enabled, Next, NextPhase, Init;
      var i := k - 1;
      RunInv(run, steps, i);
      assert Enabled(run[i], steps[i]) && run[i + 1] == Next(run[i], steps[i]);
      StepInv(run[i], PhaseAt(run, steps, i), steps[i]);
    }
  }

  /** The thread handles events or runs the instruction at a breakpoint. */
  predicate Active(x: Thread) {
    x.place.Handling? || x.place == Stepping
  }

  /**
   * Exclusion. When a thread handles events or steps over a breakpoint, every other thread waits inside the barrier with
   * nothing in its control pipe, and the arrival pipe is empty.
   */
  lemma Exclusion(run: seq<State>, steps: seq<Step>, k: nat, t: int, u: int)
    requires RunOf(run, steps) && k <= |steps| && t in run[k].th && u in run[k].th && t != u && Active(run[k].th[t])
    ensures run[k].lock && !Active(run[k].th[u]) && Still(run[k].th[u]) && run[k].th[u].tokens == 0
    ensures run[k].th[t].tokens == 0 && run[k].arrived == multiset{}
  {
    hide RunOf;
    RunShape(run, steps);
    RunInv(run, steps, k);
    HolderOf(run[k], PhaseAt(run, steps, k), t);
  }

  lemma RunShape(run: seq<State>, steps: seq<Step>)
    requires RunOf(run, steps)
    ensures |run| == |steps| + 1
  {
  }

  /** A thread that the debugger suspended runs no user code, except the instruction it steps over as the only thread. */
  lemma SuspendedStays(run: seq<State>, steps: seq<Step>, k: nat, t: int)
    requires RunOf(run, steps) && k <= |steps| && t in run[k].th && !run[k].th[t].running
    ensures run[k].th[t].place != User
    ensures Still(run[k].th[t]) || Active(run[k].th[t])
  {
    hide RunOf;
    RunShape(run, steps);
    RunInv(run, steps, k);
  }

  /** A control pipe holds at most one token, and only that of a thread that waits or is about to. */
  lemma ControlTokens(run: seq<State>, steps: seq<Step>, k: nat, t: int)
    requires RunOf(run, steps) && k <= |steps| && t in run[k].th
    ensures run[k].th[t].tokens <= 1
    ensures run[k].th[t].tokens == 1 ==> Still(run[k].th[t])
  {
    hide RunOf;
    RunShape(run, steps);
    RunInv(run, steps, k);
  }

  /** A token in the arrival pipe is the only one of its thread this round, and the thread it names waits. */
  lemma ArrivalTokens(run: seq<State>, steps: seq<Step>, k: nat, t: int)
    requires RunOf(run, steps) && k <= |steps|
    ensures run[k].arrived[t] <= 1
    ensures t in run[k].arrived ==> t in run[k].th && Still(run[k].th[t]) && run[k].th[t].running && run[k].th[t].tokens == 0
  {
    hide RunOf;
    RunShape(run, steps);
    RunInv(run, steps, k);
    var s, ph := run[k], PhaseAt(run, steps, k);
    if ph.Gather? {
      ArrivalBound(s, ph.owner, t);
    }
  }

  lemma ArrivalBound(s: State, o: int, t: int)
    requires o in s.th && OwnerOK(s, o)
    ensures s.arrived[t] <= multiset(ArrivedSet(s, o))[t] <= 1
    ensures t in s.arrived ==> t in ArrivedSet(s, o)
  {
  }

  /** When the gathering thread starts to handle, each thread it signalled has arrived exactly once. */
  lemma EachArrivesOnce(run: seq<State>, steps: seq<Step>, k: nat, t: int)
    requires RunOf(run, steps) && k < |steps| && steps[k] == Begin(t)
    ensures t in run[k].th && run[k].th[t].place.Waiting?
    ensures run[k].th[t].place.got == multiset(run[k].th[t].place.sent)
    ensures run[k].th[t].place.sent == RunningOthers(run[k], t)
  {
    RunInv(run, steps, k);
    assert Enabled(run[k], steps[k]);
    hide RunOf;
    AllArrived(run[k], t);
  }

  /** A dying thread never comes out of the barrier without control, so the abort is never reached. */
  lemma NeverAborted(run: seq<State>, steps: seq<Step>, k: nat, t: int)
    requires RunOf(run, steps) && k <= |steps| && t in run[k].th
    ensures run[k].th[t].place != Aborted
  {
    hide RunOf;
    RunShape(run, steps);
    RunInv(run, steps, k);
  }

  /** Who comes out of the barrier without control has no event left. */
  lemma ReleasedHaveNothing(run: seq<State>, steps: seq<Step>, k: nat, t: int)
    requires RunOf(run, steps) && k <= |steps| && t in run[k].th && run[k].th[t].place == User
    ensures !Pending(run[k].th[t])
  {
    hide RunOf;
    RunShape(run, steps);
    RunInv(run, steps, k);
  }

  // ----- the debugger lets the process go on

  /** Steps that reach beyond the thread that takes them. */
  predicate Reaching(step: Step) {
    step.Signal1? || step.Transfer? || step.Release?
  }

  lemma ReachingKeeps(s: State, step: Step, v: int)
    requires Enabled(s, step) && Reaching(step) && v in s.th
    ensures v in Next(s, step).th && Next(s, step).th[v].running == s.th[v].running
  {
  }

  lemma OthersKept(s: State, step: Step, v: int)
    requires Enabled(s, step) && !Reaching(step) && !step.SetRunning? && v in s.th && v != step.t
    ensures v in Next(s, step).th && Next(s, step).th[v] == s.th[v]
  {
  }

  lemma OwnKept(s: State, step: Step)
    requires Enabled(s, step) && !Reaching(step) && !step.SetRunning?
    ensures step.t in Next(s, step).th && Next(s, step).th[step.t].running == s.th[step.t].running
  {
  }

  lemma RunningKept(s: State, step: Step, v: int)
    requires Enabled(s, step) && !step.SetRunning? && v in s.th
    ensures v in Next(s, step).th && Next(s, step).th[v].running == s.th[v].running
  {
    hide Enabled, Next;
    if Reaching(step) {
      ReachingKeeps(s, step, v);
    } else if v == step.t {
      OwnKept(s, step);
    } else {
      OthersKept(s, step, v);
    }
  }

  lemma RunningStep(s: State, ph: Phase, step: Step)
    requires Inv(s, ph) && Enabled(s, step) && (!ph.Held? ==> CanContinue(s)) && !NextPhase(s, ph, step).Held?
    ensures CanContinue(Next(s, step))
  {
    if step.SetRunning? || step.Release? {
      HolderOf(s, ph, step.t);
    }
    assert CanContinue(s);
    var v :| v in s.th && s.th[v].running;
    hide Inv, Enabled, Next, NextPhase;
    RunningKept(s, step, v);
    assert Next(s, step).th[v].running;
  }

  /** Unless a thread holds the barrier, some thread is running: the process is never let go with all threads suspended. */
  lemma {:induction false} SomeThreadRuns(run: seq<State>, steps: seq<Step>, k: nat, t: int)
    requires RunOf(run, steps) && k <= |steps| && t in run[0].th
    ensures |run| == |steps| + 1 && (!PhaseAt(run, steps, k).Held? ==> CanContinue(run[k]))
  {
    if k == 0 {
      assert run[0].th[t].running;
    } else {
      SomeThreadRuns(run, steps, k - 1, t);
      RunStep(run, steps, k - 1);
      hide RunOf, Inv, Enabled, Next, NextPhase, PhaseAt, CanContinue;
      if !PhaseAt(run, steps, k).Held? {
        RunningStep(run[k - 1], PhaseAt(run, steps, k - 1), steps[k - 1]);
      }
    }
  }

  /** While a thread handles and all threads are suspended, nothing happens but what the debugger sets and threads that park. */
  lemma NobodyRuns(run: seq<State>, steps: seq<Step>, k: nat, t: int)
    requires RunOf(run, steps) && k < |steps| && t in run[k].th && run[k].th[t].place.Handling? && !CanContinue(run[k])
    ensures steps[k].SetRunning? || steps[k].SetContinueBp? || steps[k].Park?
  {
    RunStep(run, steps, k);
    hide RunOf;
    var s := run[k];
    HolderOf(s, PhaseAt(run, steps, k), t);
    if steps[k].t != t {
      assert HeldOK(s.th[steps[k].t]);
    }
  }

  // ----- hand-over

  /** The threads other than the holder whose event waits. */
  ghost function Waiters(s: State, h: int): (r: set<int>) {
    set v | v in s.th && v != h && Pending(s.th[v])
  }

  /** Handing over control takes exactly one thread off the waiting events. */
  lemma TransferLowers(run: seq<State>, steps: seq<Step>, k: nat, t: int, u: int)
    requires RunOf(run, steps) && k < |steps| && steps[k] == Transfer(t, u)
    ensures |Waiters(run[k + 1], u)| == |Waiters(run[k], t)| - 1
  {
    hide Inv;
    RunInv(run, steps, k);
    assert Enabled(run[k], steps[k]) && run[k + 1] == Next(run[k], steps[k]);
    TransferWaiters(run[k], PhaseAt(run, steps, k), t, u);
  }

  lemma TransferWaiters(s: State, ph: Phase, t: int, u: int)
    requires Inv(s, ph) && Enabled(s, Transfer(t, u))
    ensures |Waiters(Next(s, Transfer(t, u)), u)| == |Waiters(s, t)| - 1
  {
    HolderOf(s, ph, t);
    hide Inv;
    assert Waiters(Next(s, Transfer(t, u)), u) == Waiters(s, t) - {u};
  }

  lemma NextKeys(s: State, step: Step)
    requires Enabled(s, step)
    ensures Next(s, step).th.Keys == s.th.Keys
  {
  }

  /** A held thread can only finish parking. */
  lemma HeldStep(s: State, h: int, step: Step, v: int)
    requires Inv(s, Held(h)) && Enabled(s, step) && !step.Transfer? && !step.Release? && v in s.th && v != h
    ensures v in Next(s, step).th && Pending(Next(s, step).th[v]) == Pending(s.th[v])
  {
    assert HeldOK(s.th[v]);
    if step.t != h {
      assert HeldOK(s.th[step.t]);
      assert step.Park?;
    }
  }

  lemma HeldPhase(s: State, h: int, step: Step)
    requires Inv(s, Held(h)) && Enabled(s, step) && !step.Transfer? && !step.Release?
    ensures NextPhase(s, Held(h), step) == Held(h)
  {
    if step.t != h {
      assert HeldOK(s.th[step.t]);
    }
  }

  /** While the barrier is held, no step but a hand-over changes who waits. */
  lemma HeldWaiters(run: seq<State>, steps: seq<Step>, k: nat, h: int)
    requires RunOf(run, steps) && k < |steps| && PhaseAt(run, steps, k) == Held(h)
    requires !steps[k].Transfer? && !steps[k].Release?
    ensures PhaseAt(run, steps, k + 1) == Held(h) && Waiters(run[k + 1], h) == Waiters(run[k], h)
  {
    RunInv(run, steps, k);
    var s, s' := run[k], run[k + 1];
    assert Enabled(s, steps[k]) && s' == Next(s, steps[k]);
    hide RunOf, Inv, Enabled, Next, NextPhase;
    HeldPhase(s, h, steps[k]);
    NextKeys(s, steps[k]);
    forall v | v in s.th && v != h
      ensures v in s'.th && Pending(s'.th[v]) == Pending(s.th[v])
    {
      HeldStep(s, h, steps[k], v);
    }
  }

  /** The lock opens only when no event waits. */
  lemma OpensAtZero(run: seq<State>, steps: seq<Step>, k: nat)
    requires RunOf(run, steps) && k < |steps| && run[k].lock && !run[k + 1].lock
    ensures steps[k].Release? && Waiters(run[k], steps[k].t) == {}
  {
    var s, s' := run[k], run[k + 1];
    assert Enabled(s, steps[k]) && s' == Next(s, steps[k]);
  }

  // ----- a whole round

  /** The threads that control was handed to. */
  ghost function Receivers(steps: seq<Step>): (r: set<int>) {
    set k | 0 <= k < |steps| && steps[k].Transfer? :: steps[k].u
  }

  lemma ReceiversSnoc(steps: seq<Step>, step: Step)
    ensures Receivers(steps + [step]) == Receivers(steps) + (if step.Transfer? then {step.u} else {})
  {
    var all := steps + [step];
    forall u | u in Receivers(all)
      ensures u in Receivers(steps) || (step.Transfer? && u == step.u)
    {
      var k :| 0 <= k < |all| && all[k].Transfer? && all[k].u == u;
      if k < |steps| {
        assert steps[k].Transfer? && steps[k].u == u;
      }
    }
    forall u | u in Receivers(steps)
      ensures u in Receivers(all)
    {
      var k :| 0 <= k < |steps| && steps[k].Transfer? && steps[k].u == u;
      assert all[k].Transfer? && all[k].u == u;
    }
    if step.Transfer? {
      assert all[|steps|].Transfer? && all[|steps|].u == step.u;
    }
  }

  lemma NoReceivers(steps: seq<Step>)
    ensures steps == [] ==> Receivers(steps) == {}
  {
  }

  lemma TransferTakes(s: State, ph: Phase, t: int, u: int)
    requires Inv(s, ph) && Enabled(s, Transfer(t, u))
    ensures ph == Held(t) && u in Waiters(s, t) && Waiters(Next(s, Transfer(t, u)), u) == Waiters(s, t) - {u}
  {
    HolderOf(s, ph, t);
  }

  /** A step that is no release keeps the barrier held and takes only the receiver of control off the waiting events. */
  lemma RoundStep(run: seq<State>, steps: seq<Step>, k: nat)
    requires RunOf(run, steps) && k < |steps| && PhaseAt(run, steps, k).Held? && !steps[k].Release?
    ensures |run| == |steps| + 1 && PhaseAt(run, steps, k + 1).Held?
    ensures var w := Waiters(run[k], PhaseAt(run, steps, k).holder);
            var w' := Waiters(run[k + 1], PhaseAt(run, steps, k + 1).holder);
            if steps[k].Transfer? then steps[k].u in w && w' == w - {steps[k].u} else w' == w
  {
    RunInv(run, steps, k);
    assert Enabled(run[k], steps[k]) && run[k + 1] == Next(run[k], steps[k]);
    RunShape(run, steps);
    hide RunOf, Waiters, Enabled, Inv, Next;
    if steps[k].Transfer? {
      TransferTakes(run[k], PhaseAt(run, steps, k), steps[k].t, steps[k].u);
    } else {
      HeldWaiters(run, steps, k, PhaseAt(run, steps, k).holder);
    }
  }

  /** From one held state on, as long as nobody releases. */
  lemma {:induction false} RoundSoFar(run: seq<State>, steps: seq<Step>, i: nat, j: nat)
    requires RunOf(run, steps) && i <= j <= |steps| && PhaseAt(run, steps, i).Held?
    requires forall k :: i <= k < j ==> !steps[k].Release?
    ensures |run| == |steps| + 1 && PhaseAt(run, steps, j).Held?
    ensures var w := Waiters(run[i], PhaseAt(run, steps, i).holder);
            var w' := Waiters(run[j], PhaseAt(run, steps, j).holder);
            w == w' + Receivers(steps[i..j]) && |w| == |w'| + HandOvers(steps[i..j])
    decreases j
  {
    hide *;
    RunShape(run, steps);
    if i < j {
      var k := j - 1;
      RoundSoFar(run, steps, i, k);
      assert steps[i..j] == steps[i..k] + [steps[k]];
      HandOversSnoc(steps[i..k], steps[k]);
      ReceiversSnoc(steps[i..k], steps[k]);
      assert k + 1 == j;
      RoundStep(run, steps, k);
      var w1 := Waiters(run[k], PhaseAt(run, steps, k).holder);
      if steps[k].Transfer? {
        assert w1 == (w1 - {steps[k].u}) + {steps[k].u};
      }
    } else {
      NoHandOvers(steps[i..j]);
      NoReceivers(steps[i..j]);
    }
  }

  /**
   * Over any stretch in which the barrier stays held, every hand-over lowers the number of waiting events by one and
   * nothing raises it.
   */
  lemma HandOverChain(run: seq<State>, steps: seq<Step>, i: nat, j: nat)
    requires RunOf(run, steps) && i <= j <= |steps|
    requires forall k :: i <= k <= j ==> PhaseAt(run, steps, k).Held?
    ensures |run| == |steps| + 1
    ensures |Waiters(run[j], PhaseAt(run, steps, j).holder)| + HandOvers(steps[i..j])
            == |Waiters(run[i], PhaseAt(run, steps, i).holder)|
  {
    hide RunOf, Waiters;
    RunShape(run, steps);
    forall k | i <= k < j
      ensures !steps[k].Release?
    {
      assert PhaseAt(run, steps, k + 1).Held?;
    }
    RoundSoFar(run, steps, i, j);
  }

  /** While the barrier is held no thread is in user code. */
  lemma HeldNoUser(run: seq<State>, steps: seq<Step>, k: nat, v: int)
    requires RunOf(run, steps) && k <= |steps| && PhaseAt(run, steps, k).Held? && v in run[k].th
    ensures run[k].th[v].place != User
  {
    RunInv(run, steps, k);
    hide RunOf;
    if v != PhaseAt(run, steps, k).holder {
      assert HeldOK(run[k].th[v]);
    }
  }

  lemma RunStep(run: seq<State>, steps: seq<Step>, k: nat)
    requires RunOf(run, steps) && k < |steps|
    ensures |run| == |steps| + 1 && Inv(run[k], PhaseAt(run, steps, k)) && Enabled(run[k], steps[k])
    ensures run[k + 1] == Next(run[k], steps[k])
    ensures PhaseAt(run, steps, k + 1) == NextPhase(run[k], PhaseAt(run, steps, k), steps[k])
  {
    hide Inv, Enabled, Next, NextPhase;
    RunInv(run, steps, k);
  }

  lemma BeginWaiters(s: State, ph: Phase, t: int)
    requires Inv(s, ph) && Enabled(s, Begin(t))
    ensures Waiters(Next(s, Begin(t)), t) == Waiters(s, t)
  {
  }

  lemma ReleaseGuard(s: State, ph: Phase, t: int)
    requires Inv(s, ph) && Enabled(s, Release(t))
    ensures ph == Held(t) && Waiters(s, t) == {} && !Next(s, Release(t)).lock
  {
    HolderOf(s, ph, t);
  }

  /**
   * One round, from the state in which everybody has arrived to the release: control is handed to exactly the other
   * threads whose event had been captured, to each once, and meanwhile no thread is in user code.
   */
  lemma Round(run: seq<State>, steps: seq<Step>, i: nat, j: nat, t: int)
    requires RunOf(run, steps) && i < j < |steps| && steps[i] == Begin(t) && steps[j].Release?
    requires forall k :: i < k < j ==> !steps[k].Release?
    ensures |run| == |steps| + 1
    ensures Receivers(steps[i + 1..j]) == Waiters(run[i], t)
    ensures HandOvers(steps[i + 1..j]) == |Waiters(run[i], t)|
    ensures forall k, v :: i < k <= j && v in run[k].th ==> run[k].th[v].place != User
    ensures !run[j + 1].lock
  {
    hide RunOf, Inv, Waiters, Enabled, Next, PhaseAt;
    RunShape(run, steps);
    RunStep(run, steps, i);
    RunStep(run, steps, j);
    BeginWaiters(run[i], PhaseAt(run, steps, i), t);
    ReleaseGuard(run[j], PhaseAt(run, steps, j), steps[j].t);
    RoundSoFar(run, steps, i + 1, j);
    forall k, v | i < k <= j && v in run[k].th
      ensures run[k].th[v].place != User
    {
      RoundSoFar(run, steps, i + 1, k);
      HeldNoUser(run, steps, k, v);
    }
  }

  lemma NoHandOvers(steps: seq<Step>)
    ensures steps == [] ==> HandOvers(steps) == 0
  {
  }

  function HandOvers(steps: seq<Step>): (n: nat) {
    if steps == [] then 0 else HandOvers(steps[..|steps| - 1]) + (if steps[|steps| - 1].Transfer? then 1 else 0)
  }

  lemma HandOversSnoc(steps: seq<Step>, step: Step)
    ensures HandOvers(steps + [step]) == HandOvers(steps) + (if step.Transfer? then 1 else 0)
  {
    assert (steps + [step])[..|steps|] == steps;
  }
}
