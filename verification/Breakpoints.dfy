/** The table of breakpoints as a finite map, and the breakpoint machine over it and debuggee memory. */
module Breakpoints {
  import opened Bytes

  /** The one-byte trap instruction. */
  const TRAP := 0xcc
  const NONE := -1

  datatype Bp = Bp(saved: int, inMemory: bool)

  /** Breakpoints by address, memory bytes, the address of the continue breakpoint, and the address last hit. */
  datatype Machine = Machine(table: map<int, Bp>, mem: map<int, int>, cont: int, last: int)

  // ----- operations; the flags say whether the memory accesses succeed

  function Create(m: Machine, a: int): (m': Machine) {
    if a in m.table then m else m.(table := m.table[a := Bp(0, false)])
  }

  function Install(m: Machine, a: int, canRead: bool, canWrite: bool): (m': Machine)
    requires a in m.table
  {
    if m.table[a].inMemory || !canRead then m
    else if !canWrite then m.(table := m.table[a := Bp(ByteAt(m.mem, a), false)])
    else m.(table := m.table[a := Bp(ByteAt(m.mem, a), true)], mem := m.mem[a := TRAP])
  }

  function Remove(m: Machine, a: int, canWrite: bool): (m': Machine)
    requires a in m.table
  {
    if !m.table[a].inMemory || !canWrite then m
    else m.(table := m.table[a := Bp(m.table[a].saved, false)], mem := m.mem[a := m.table[a].saved])
  }

  /** `remove_breakpoint_for_continue`: the byte goes back, the flag stays. */
  function Lift(m: Machine, a: int, canWrite: bool): (m': Machine)
    requires a in m.table
  {
    if !m.table[a].inMemory || !canWrite then m else m.(mem := m.mem[a := m.table[a].saved])
  }

  /** Deletion of a breakpoint that does not head a longer chain. */
  function Delete(m: Machine, a: int, canWrite: bool): (m': Machine)
    requires a in m.table
  {
    if m.table[a].inMemory && !canWrite then m
    else
      var m1 := Remove(m, a, canWrite);
      m1.(table := m1.table - {a})
  }

  /** `continue_handler`: puts the continue breakpoint in place. */
  function Continue(m: Machine, canRead: bool, canWrite: bool): (m': Machine)
    requires m.cont == NONE || m.cont in m.table
  {
    if m.cont == NONE then m else Install(m, m.cont, canRead, canWrite)
  }

  /** Puts the trap back at the breakpoint hit last, if it is still wanted. */
  function Reinstall(m: Machine, canRead: bool, canWrite: bool): (m': Machine) {
    if m.last !in m.table then m
    else
      var m1 := m.(last := 0);
      if !m.table[m.last].inMemory then m1
      else
        Install(m1.(table := m1.table[m.last := Bp(m1.table[m.last].saved, false)]), m.last, canRead, canWrite)
  }

  /** What the hit of a breakpoint reports to the debugger. */
  datatype Report = Silent | BreakpointHit(address: int) | SingleStep | Failed

  /** Which of the memory accesses of a hit succeed, and whether memory for a new record is there. */
  datatype Access = Access(lift: bool, remove: bool, read: bool, write: bool, alloc: bool)

  /** `decode_breakpoint` for a breakpoint that is no single-step breakpoint. */
  function HitWith(m: Machine, a: int, successor: int, acc: Access): (m': Machine)
    requires a in m.table
  {
    if m.table[a].inMemory && !acc.lift then m
    else
      var m1 := Lift(m, a, acc.lift);
      if m1.cont == a then Reinstall(Delete(m1.(cont := NONE), a, acc.remove), acc.read, acc.write)
      else if successor == 0 then m1
      else if !acc.alloc then m1.(cont := NONE)
      else Create(m1, successor).(cont := successor, last := a)
  }

  /** A hit when memory can be accessed. */
  function Hit(m: Machine, a: int, successor: int): (m': Machine)
    requires a in m.table
  {
    HitWith(m, a, successor, Access(true, true, true, true, true))
  }

  /** The trap of the breakpoint hit last is back, or not wanted any more. */
  predicate Reinstalls(m: Machine, canRead: bool, canWrite: bool) {
    m.last in m.table && m.table[m.last].inMemory ==> canRead && canWrite
  }

  function HitReportWith(m: Machine, a: int, successor: int, singleStep: bool, acc: Access): (r: Report)
    requires a in m.table
  {
    if m.table[a].inMemory && !acc.lift then Failed
    else if m.cont == a then
      if m.table[a].inMemory && !acc.remove then Failed
      else if !Reinstalls(Delete(Lift(m, a, acc.lift).(cont := NONE), a, acc.remove), acc.read, acc.write) then Failed
      else if singleStep then SingleStep
      else Silent
    else if successor == 0 || !acc.alloc then Failed
    else BreakpointHit(a)
  }

  /** The report when memory can be accessed. */
  function HitReport(m: Machine, a: int, successor: int, singleStep: bool): (r: Report)
    requires a in m.table
  {
    HitReportWith(m, a, successor, singleStep, Access(true, true, true, true, true))
  }

  // ----- logical memory

  /** Memory without the traps. */
  function Logical(m: Machine, a: int): (b: int) {
    if a in m.table && m.table[a].inMemory then m.table[a].saved else ByteAt(m.mem, a)
  }

  ghost predicate SameLogical(m: Machine, m': Machine) {
    forall a :: Logical(m', a) == Logical(m, a)
  }

  /** Raw memory differs from logical memory only by traps at breakpoints in memory; a lifted one shows its byte. */
  ghost predicate Sound(m: Machine) {
    && (forall a :: ByteAt(m.mem, a) == Logical(m, a) ||
          (a in m.table && m.table[a].inMemory && ByteAt(m.mem, a) == TRAP))
    && (m.cont != NONE ==> m.cont in m.table)
    && (forall a :: a in m.table ==> a >= 0)
  }

  /** The breakpoint hit last carries a trap although its hit lifted it: the debugger took it out and put it in again. */
  predicate PutBack(m: Machine) {
    m.last in m.table && m.table[m.last].inMemory && ByteAt(m.mem, m.last) != m.table[m.last].saved
  }

  lemma CreateKeepsLogical(m: Machine, a: int)
    ensures SameLogical(m, Create(m, a))
    ensures Sound(m) && a >= 0 ==> Sound(Create(m, a))
  {
  }

  lemma InstallKeepsLogical(m: Machine, a: int, canRead: bool, canWrite: bool)
    requires a in m.table
    ensures SameLogical(m, Install(m, a, canRead, canWrite))
    ensures Sound(m) ==> Sound(Install(m, a, canRead, canWrite))
  {
  }

  lemma RemoveKeepsLogical(m: Machine, a: int, canWrite: bool)
    requires a in m.table
    ensures SameLogical(m, Remove(m, a, canWrite))
    ensures Sound(m) ==> Sound(Remove(m, a, canWrite))
  {
  }

  /** Deleting any breakpoint but the continue breakpoint. */
  lemma DeleteKeepsLogical(m: Machine, a: int, canWrite: bool)
    requires a in m.table
    ensures SameLogical(m, Delete(m, a, canWrite))
    ensures Sound(m) && a != m.cont ==> Sound(Delete(m, a, canWrite))
  {
  }

  lemma ContinueKeepsLogical(m: Machine, canRead: bool, canWrite: bool)
    requires Sound(m)
    ensures SameLogical(m, Continue(m, canRead, canWrite)) && Sound(Continue(m, canRead, canWrite))
  {
    if m.cont != NONE {
      InstallKeepsLogical(m, m.cont, canRead, canWrite);
    }
  }

  /** The trap goes back without a change of logical memory exactly when it is not there already. */
  lemma ReinstallLogical(m: Machine, canRead: bool, canWrite: bool)
    ensures SameLogical(m, Reinstall(m, canRead, canWrite)) <==> !PutBack(m)
    ensures Sound(m) && !PutBack(m) ==> Sound(Reinstall(m, canRead, canWrite))
  {
    var m' := Reinstall(m, canRead, canWrite);
    if PutBack(m) {
      assert Logical(m', m.last) == ByteAt(m.mem, m.last) != Logical(m, m.last);
    }
  }

  /**
   * A hit of the continue breakpoint takes the trap of the breakpoint hit before, which was put back, for its original
   * byte. It does not get that far when it cannot lift the continue breakpoint.
   */
  predicate LosesByte(m: Machine, acc: Access)
    requires m.cont in m.table
  {
    m.last != m.cont && PutBack(m) && (m.table[m.cont].inMemory ==> acc.lift)
  }

  /** Lifting and deleting the continue breakpoint. */
  lemma DroppedLogical(m: Machine, acc: Access)
    requires Sound(m) && m.cont in m.table && (m.table[m.cont].inMemory ==> acc.lift)
    ensures var m2 := Delete(Lift(m, m.cont, acc.lift).(cont := NONE), m.cont, acc.remove);
            SameLogical(m, m2) && Sound(m2) && (PutBack(m2) <==> PutBack(m) && m.last != m.cont)
  {
    var m1 := Lift(m, m.cont, acc.lift);
    assert SameLogical(m, m1) && Sound(m1);
    DeleteKeepsLogical(m1.(cont := NONE), m.cont, acc.remove);
  }

  /** A hit of the continue breakpoint keeps logical memory exactly when it loses no byte. */
  lemma ContinueHitLogical(m: Machine, successor: int, acc: Access)
    requires Sound(m) && m.cont != NONE
    ensures SameLogical(m, HitWith(m, m.cont, successor, acc)) <==> !LosesByte(m, acc)
    ensures !LosesByte(m, acc) ==> Sound(HitWith(m, m.cont, successor, acc))
  {
    if m.table[m.cont].inMemory ==> acc.lift {
      var m2 := Delete(Lift(m, m.cont, acc.lift).(cont := NONE), m.cont, acc.remove);
      DroppedLogical(m, acc);
      ReinstallLogical(m2, acc.read, acc.write);
      hide Install, Remove, Delete, Lift, Reinstall, Sound, PutBack;
      assert HitWith(m, m.cont, successor, acc) == Reinstall(m2, acc.read, acc.write);
      SameLogicalThrough(m, m2, Reinstall(m2, acc.read, acc.write));
    }
  }

  lemma SameLogicalThrough(m: Machine, m1: Machine, m2: Machine)
    requires SameLogical(m, m1)
    ensures SameLogical(m, m2) <==> SameLogical(m1, m2)
  {
    hide Logical;
    assert forall a :: Logical(m1, a) == Logical(m, a);
  }

  /** A hit of any other breakpoint keeps logical memory. */
  lemma OtherHitLogical(m: Machine, a: int, successor: int, acc: Access)
    requires a in m.table && a != m.cont
    ensures SameLogical(m, HitWith(m, a, successor, acc))
    ensures Sound(m) && successor >= 0 ==> Sound(HitWith(m, a, successor, acc))
  {
  }

  // ----- stepping over a breakpoint

  /** While the continue breakpoint is pending, the instruction at the breakpoint hit is whole. */
  lemma WholeWhileStepped(m: Machine, b: int, s: int)
    requires b in m.table && m.table[b].inMemory && m.cont != b && s != b && s > 0
    ensures ByteAt(Hit(m, b, s).mem, b) == m.table[b].saved
    ensures ByteAt(Continue(Hit(m, b, s), true, true).mem, b) == m.table[b].saved
    ensures s !in m.table ==> ByteAt(Continue(Hit(m, b, s), true, true).mem, s) == TRAP
  {
  }

  /**
   * The hit of an installed breakpoint, the continue, and the hit of the continue breakpoint put the trap back in place
   * and take the successor out of the table. Only the last hit is silent, unless the thread is single stepping.
   */
  lemma StepOverAny(m: Machine, b: int, s: int, s': int)
    requires Sound(m) && b in m.table && m.table[b].inMemory && ByteAt(m.mem, b) == TRAP && m.cont == NONE && s > 0 && s != b
    ensures var m1 := Hit(m, b, s);
      && HitReport(m, b, s, false) == BreakpointHit(b) && m1.cont == s && s in m1.table
      && var m2 := Continue(m1, true, true);
      && m2.cont == s && s in m2.table
      && HitReport(m2, s, s', false) == Silent && HitReport(m2, s, s', true) == SingleStep
      && var m3 := Hit(m2, s, s');
      && m3.table == m.table - {s} && m3.cont == NONE && m3.last == 0
      && forall a :: ByteAt(m3.mem, a) == if a == s then Logical(m, s) else ByteAt(m.mem, a)
  {
    var m1 := Hit(m, b, s);
    var m2 := Continue(m1, true, true);
    var d := Delete(Lift(m2, s, true).(cont := NONE), s, true);
    assert m1.table - {s} == m.table - {s};
    assert d.table == m.table - {s};
    assert forall a :: ByteAt(d.mem, a) == if a == s then Logical(m, s) else if a == b then m.table[b].saved else ByteAt(m.mem, a);
    var m3 := Hit(m2, s, s');
    assert m3 == Reinstall(d, true, true);
    assert m3.table == d.table[b := Bp(ByteAt(d.mem, b), true)];
    assert m3.table == m.table - {s};
  }

  /**
   * Stepping over a breakpoint restores table and memory exactly when no breakpoint is at the successor. Otherwise that
   * breakpoint serves as the continue breakpoint and is deleted with it.
   */
  lemma StepOver(m: Machine, b: int, s: int, s': int)
    requires Sound(m) && b in m.table && m.table[b].inMemory && ByteAt(m.mem, b) == TRAP && m.cont == NONE && s > 0 && s != b
    ensures var m2 := Continue(Hit(m, b, s), true, true);
      && s in m2.table
      && var m3 := Hit(m2, s, s');
      && (m3.table == m.table <==> s !in m.table)
      && ((forall a :: ByteAt(m3.mem, a) == ByteAt(m.mem, a)) <==> ByteAt(m.mem, s) == Logical(m, s))
      && (s !in m.table && m.mem.Keys >= {b, s} ==> m3 == m.(last := 0))
  {
    StepOverAny(m, b, s, s');
    var m3 := Hit(Continue(Hit(m, b, s), true, true), s, s');
    assert ByteAt(m3.mem, s) == Logical(m, s);
    if s !in m.table && m.mem.Keys >= {b, s} {
      StepOverKeys(m, b, s, s');
      forall a | a in m.mem
        ensures m3.mem[a] == m.mem[a]
      {
        assert ByteAt(m3.mem, a) == ByteAt(m.mem, a);
      }
      assert m3.mem == m.mem;
    }
  }

  lemma StepOverKeys(m: Machine, b: int, s: int, s': int)
    requires b in m.table && m.table[b].inMemory && b >= 0 && m.cont == NONE && s > 0 && s != b && m.mem.Keys >= {b, s}
    ensures var m2 := Continue(Hit(m, b, s), true, true);
            s in m2.table && Hit(m2, s, s').mem.Keys == m.mem.Keys
  {
    var m2 := Continue(Hit(m, b, s), true, true);
    assert m2.mem.Keys == m.mem.Keys;
    var d := Delete(Lift(m2, s, true).(cont := NONE), s, true);
    assert d.mem.Keys == m.mem.Keys;
    assert Reinstall(d, true, true).mem.Keys == m.mem.Keys;
  }

  /** An instruction that jumps to itself is its own successor: the continue leaves its byte in place, without a trap. */
  lemma SelfSuccessor(m: Machine, b: int)
    requires b in m.table && m.table[b].inMemory && m.cont == NONE && b > 0
    ensures var m2 := Continue(Hit(m, b, b), true, true);
            m2.cont == b && b in m2.table && m2.table[b].inMemory && ByteAt(m2.mem, b) == m.table[b].saved
  {
  }

  /** The breakpoint is there, and flagged as in memory. */
  predicate Wanted(m: Machine, b: int) {
    b in m.table && m.table[b].inMemory
  }

  /** A run in which the debugger takes a lifted breakpoint out and puts it back before continuing loses the byte. */
  lemma PutBackExample()
    ensures var m := Machine(map[8 := Bp(0x90, true)], map[8 := TRAP, 9 := 0x55], NONE, 0);
      var m1 := Install(Remove(Hit(m, 8, 9), 8, true), 8, true, true);
      var m2 := Hit(Continue(m1, true, true), 9, 10);
      Sound(m) && Logical(m, 8) == 0x90 && Logical(m2, 8) == TRAP
  {
    var m := Machine(map[8 := Bp(0x90, true)], map[8 := TRAP, 9 := 0x55], NONE, 0);
    var h := Hit(m, 8, 9);
    assert h.table == map[8 := Bp(0x90, true), 9 := Bp(0, false)];
    assert h.mem == map[8 := 0x90, 9 := 0x55];
    var m1 := Install(Remove(h, 8, true), 8, true, true);
    assert m1.mem == map[8 := TRAP, 9 := 0x55];
    assert m1.table == map[8 := Bp(0x90, true), 9 := Bp(0, false)];
    var c := Continue(m1, true, true);
    assert c.table == map[8 := Bp(0x90, true), 9 := Bp(0x55, true)] && c.mem == map[8 := TRAP, 9 := TRAP];
  }
}
