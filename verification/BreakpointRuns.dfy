/** Runs of the debuggee: requests, continues and hits over the chained table, with the pointer to the continue breakpoint. */
module BreakpointRuns {
  import opened Bytes
  import opened Breakpoints
  import opened BreakpointTable

  /**
   * What the pointer to the continue breakpoint is when its record is not in the table: nothing, a record that was lost
   * with its bucket and still exists, or memory that was freed.
   */
  datatype Stray = NoStray | Loose(address: int, bp: Bp) | Freed

  /** The machine, the addresses of each bucket in the order of its chain, and the stray pointer. */
  datatype World = World(m: Machine, chains: seq<seq<int>>, stray: Stray)

  /** Memory for a new record: none, some, or just the memory of the freed continue breakpoint. */
  datatype Supply = NoMemory | NewMemory | FreedMemory

  datatype Op =
    | DoCreate(a: nat, supply: Supply)
    | DoInstall(a: nat, canRead: bool, canWrite: bool)
    | DoRemove(a: nat, canWrite: bool)
    | DoDelete(a: nat, canWrite: bool)
    | DoContinue(canRead: bool, canWrite: bool)
    | DoHit(a: nat, successor: nat, acc: Access)

  datatype Outcome = Running(w: World) | Crashed

  const ALL := Access(true, true, true, true, true)

  // ----- steps

  function CreateIn(w: World, a: nat, supply: Supply): (w': World) {
    if a in w.m.table || supply == NoMemory then w
    else
      var w1 := w.(m := Create(w.m, a), chains := AppendedTo(w.chains, a));
      if supply == FreedMemory && w.stray.Freed? then w1.(m := w1.m.(cont := a), stray := NoStray) else w1
  }

  /** The deletion gets as far as the table. */
  predicate Deletes(m: Machine, a: int, canWrite: bool) {
    a in m.table && (m.table[a].inMemory ==> canWrite)
  }

  /** The deletion takes the whole bucket, of more than the one breakpoint, out of the table. */
  predicate LosesBucket(w: World, a: int, canWrite: bool) {
    Deletes(w.m, a, canWrite) && Heads(w.chains, a)
  }

  /** `delete_breakpoint`: the head of a chain takes its bucket with it, and nothing is done about the continue breakpoint. */
  function DeleteIn(w: World, a: nat, canWrite: bool): (w': World)
    requires a in w.m.table
  {
    if !Deletes(w.m, a, canWrite) then w
    else
      var lost := Heads(w.chains, a);
      var m1 := Delete(w.m, a, canWrite);
      var m2 := if lost then m1.(table := Elsewhere(w.m.table, Hash(a))) else m1;
      var w1 := w.(m := m2, chains := Dropped(w.chains, a));
      if w.m.cont == a then w1.(m := m2.(cont := NONE), stray := Freed)
      else if lost && HasCont(w.m) && w.m.cont % HASH_SIZE == Hash(a) then
        w1.(m := m2.(cont := NONE), stray := Loose(w.m.cont, w.m.table[w.m.cont]))
      else w1
  }

  /** `install_breakpoint` on the record that the stray pointer leads to. */
  function InstallLoose(w: World, canRead: bool, canWrite: bool): (w': World)
    requires w.stray.Loose?
  {
    var a := w.stray.address;
    if w.stray.bp.inMemory || !canRead then w
    else if !canWrite then w.(stray := Loose(a, Bp(ByteAt(w.m.mem, a), false)))
    else w.(m := w.m.(mem := w.m.mem[a := TRAP]), stray := Loose(a, Bp(ByteAt(w.m.mem, a), true)))
  }

  predicate HasCont(m: Machine) {
    m.cont != NONE && m.cont in m.table
  }

  /** `continue_handler`: installs the continue breakpoint, wherever the pointer leads. */
  function ContinueIn(w: World, canRead: bool, canWrite: bool): (o: Outcome) {
    if HasCont(w.m) then Running(w.(m := Continue(w.m, canRead, canWrite)))
    else
      match w.stray
      case NoStray => Running(w)
      case Loose(_, _) => Running(InstallLoose(w, canRead, canWrite))
      case Freed => Crashed
  }

  /** The world after the lifted continue breakpoint was deleted; the pointer was cleared before. */
  function Gone(w: World, a: nat, acc: Access): (w': World)
    requires a in w.m.table
  {
    DeleteIn(w.(m := Lift(w.m, a, acc.lift).(cont := NONE)), a, acc.remove)
  }

  /** `decode_breakpoint` for a breakpoint that is no single-step breakpoint. */
  function HitIn(w: World, a: nat, successor: nat, acc: Access): (w': World)
    requires a in w.m.table
  {
    if w.m.table[a].inMemory && !acc.lift then w
    else if w.m.cont == a then
      var w1 := Gone(w, a, acc);
      w1.(m := Reinstall(w1.m, acc.read, acc.write))
    else
      var w1 := w.(m := Lift(w.m, a, acc.lift));
      if successor == 0 then w1
      else if !acc.alloc then w1.(m := w1.m.(cont := NONE), stray := NoStray)
      else
        var w2 := CreateIn(w1, successor, NewMemory);
        w2.(m := w2.m.(cont := successor, last := a), stray := NoStray)
  }

  function ReportIn(w: World, a: nat, successor: nat, singleStep: bool, acc: Access): (r: Report)
    requires a in w.m.table
  {
    if w.m.table[a].inMemory && !acc.lift then Failed
    else if w.m.cont == a then
      if !Deletes(w.m, a, acc.remove) || !Reinstalls(Gone(w, a, acc).m, acc.read, acc.write) then Failed
      else if singleStep then SingleStep
      else Silent
    else if successor == 0 || !acc.alloc then Failed
    else BreakpointHit(a)
  }

  /**
   * One step of the debuggee. The requests to install, remove and delete test the wrong pointer after their search for
   * the breakpoint, and go on with a null pointer when there is none. A trap without a breakpoint aborts. A continue uses
   * the pointer to the continue breakpoint also when that was freed.
   */
  function Serve(w: World, op: Op): (o: Outcome) {
    match op
    case DoCreate(a, supply) => Running(CreateIn(w, a, supply))
    case DoInstall(a, r, cw) => if a in w.m.table then Running(w.(m := Install(w.m, a, r, cw))) else Crashed
    case DoRemove(a, cw) => if a in w.m.table then Running(w.(m := Remove(w.m, a, cw))) else Crashed
    case DoDelete(a, cw) => if a in w.m.table then Running(DeleteIn(w, a, cw)) else Crashed
    case DoContinue(r, cw) => ContinueIn(w, r, cw)
    case DoHit(a, s, acc) => if a in w.m.table then Running(HitIn(w, a, s, acc)) else Crashed
  }

  function ServeAll(w: World, ops: seq<Op>): (o: Outcome)
    decreases |ops|
  {
    if ops == [] then Running(w)
    else match Serve(w, ops[0])
      case Running(w1) => ServeAll(w1, ops[1..])
      case Crashed => Crashed
  }

  // ----- which runs are served

  /** The step finds what it uses: the breakpoint it names, or for a continue a record that was not freed. */
  predicate Known(w: World, op: Op) {
    match op
    case DoCreate(_, _) => true
    case DoContinue(_, _) => HasCont(w.m) || w.stray != Freed
    case _ => op.a in w.m.table
  }

  /** The debuggee survives the first `i` steps and the next one finds what it uses. */
  predicate Finds(w: World, ops: seq<Op>, i: nat)
    requires i < |ops|
  {
    var o := ServeAll(w, ops[..i]);
    o.Running? && Known(o.w, ops[i])
  }

  /** Steps are served to the end exactly when each finds what it uses. */
  lemma {:induction false} ServedExactly(w: World, ops: seq<Op>)
    ensures ServeAll(w, ops).Running? <==> forall i :: 0 <= i < |ops| ==> Finds(w, ops, i)
    decreases |ops|
  {
    hide Known, Serve;
    if ops != [] {
      KnownServed(w, ops[0]);
      assert ops[..0] == [];
      assert Finds(w, ops, 0) <==> Serve(w, ops[0]).Running?;
      if Serve(w, ops[0]).Running? {
        var w1 := Serve(w, ops[0]).w;
        ServedExactly(w1, ops[1..]);
        forall i | 0 <= i < |ops| - 1
          ensures Finds(w, ops, i + 1) <==> Finds(w1, ops[1..], i)
        {
          assert ops[..i + 1][1..] == ops[1..][..i];
        }
        forall i | 0 < i < |ops| && forall j :: 0 <= j < |ops| - 1 ==> Finds(w1, ops[1..], j)
          ensures Finds(w, ops, i)
        {
          assert Finds(w1, ops[1..], i - 1);
        }
      }
    }
  }

  lemma KnownServed(w: World, op: Op)
    ensures Serve(w, op).Running? <==> Known(w, op)
  {
  }

  lemma ServeOne(w: World, a: Op)
    ensures ServeAll(w, [a]) == Serve(w, a)
  {
    hide Serve;
    assert [a][1..] == [];
    if Serve(w, a).Running? {
      assert ServeAll(Serve(w, a).w, []) == Running(Serve(w, a).w);
    }
  }

  lemma ServeTwo(w: World, a: Op, b: Op)
    ensures ServeAll(w, [a, b]) == match Serve(w, a) case Running(w1) => Serve(w1, b) case Crashed => Crashed
  {
    hide Serve;
    assert [a, b][1..] == [b];
    if Serve(w, a).Running? {
      ServeOne(Serve(w, a).w, b);
    }
  }

  lemma {:induction false} ServeAppend(w: World, xs: seq<Op>, ys: seq<Op>)
    ensures ServeAll(w, xs + ys) == match ServeAll(w, xs) case Running(w1) => ServeAll(w1, ys) case Crashed => Crashed
    decreases |xs|
  {
    hide Serve;
    if xs == [] {
      assert xs + ys == ys;
    } else {
      assert (xs + ys)[1..] == xs[1..] + ys;
      if Serve(w, xs[0]).Running? {
        ServeAppend(Serve(w, xs[0]).w, xs[1..], ys);
      }
    }
  }

  // ----- inputs that crash the debuggee

  /** Removing a breakpoint that was deleted before. */
  lemma DeletedThenRemoved(w: World, b: nat)
    requires b in w.m.table
    ensures ServeAll(w, [DoDelete(b, true), DoRemove(b, true)]) == Crashed
  {
    ServeTwo(w, DoDelete(b, true), DoRemove(b, true));
  }

  /** Continuing after the debugger deleted the continue breakpoint, also when it created one at the same address again. */
  lemma FreedContinue(w: World, b: nat, s: nat, r: bool, cw: bool)
    requires b in w.m.table && w.m.cont != b && 0 < s
    ensures ServeAll(w, [DoHit(b, s, ALL), DoDelete(s, true)] + [DoContinue(r, cw)]) == Crashed
    ensures ServeAll(w, [DoHit(b, s, ALL), DoDelete(s, true)] + [DoCreate(s, NewMemory), DoContinue(r, cw)]) == Crashed
  {
    var ops := [DoHit(b, s, ALL), DoDelete(s, true)];
    ServeTwo(w, ops[0], ops[1]);
    var w1 := HitIn(w, b, s, ALL);
    var w2 := DeleteIn(w1, s, true);
    assert w2.stray == Freed && w2.m.cont == NONE && s !in w2.m.table;
    ServeAppend(w, ops, [DoContinue(r, cw)]);
    ServeOne(w2, DoContinue(r, cw));
    ServeAppend(w, ops, [DoCreate(s, NewMemory), DoContinue(r, cw)]);
    ServeTwo(w2, DoCreate(s, NewMemory), DoContinue(r, cw));
  }

  /** Installing a breakpoint whose bucket was lost with its head. */
  lemma LostThenInstalled(w: World, x: nat, y: nat, r: bool, cw: bool)
    requires ChainsOK(w.chains, w.m.table) && x !in w.m.table && y !in w.m.table && x != y && Hash(x) == Hash(y)
    requires Bucket(w.chains, x) == []
    ensures ServeAll(w, [DoCreate(x, NewMemory), DoCreate(y, NewMemory)] + [DoDelete(x, true), DoInstall(y, r, cw)]) == Crashed
  {
    var xs := [DoCreate(x, NewMemory), DoCreate(y, NewMemory)];
    ServeTwo(w, xs[0], xs[1]);
    var w2 := CreateIn(CreateIn(w, x, NewMemory), y, NewMemory);
    assert Bucket(w2.chains, x) == [x, y];
    ServeAppend(w, xs, [DoDelete(x, true), DoInstall(y, r, cw)]);
    ServeTwo(w2, DoDelete(x, true), DoInstall(y, r, cw));
  }

  /** The continue breakpoint was lost with the bucket of another one: its trap is placed, and its hit finds no breakpoint. */
  lemma LooseContinue(w: World, x: nat, s: nat, acc: Access)
    requires WorldOK(w) && HasCont(w.m) && w.m.cont == s && x != s && Hash(x) == Hash(s)
    requires LosesBucket(w, x, true) && !w.m.table[s].inMemory
    ensures ServeAll(w, [DoDelete(x, true), DoContinue(true, true)]).Running?
    ensures ByteAt(ServeAll(w, [DoDelete(x, true), DoContinue(true, true)]).w.m.mem, s) == TRAP
    ensures ServeAll(w, [DoDelete(x, true), DoContinue(true, true)] + [DoHit(s, 0, acc)]) == Crashed
  {
    hide WorldOK, Heads, Dropped;
    var ops := [DoDelete(x, true), DoContinue(true, true)];
    ServeTwo(w, ops[0], ops[1]);
    var w1 := DeleteIn(w, x, true);
    assert w1.stray == Loose(s, w.m.table[s]) && s !in w1.m.table && w1.m.cont == NONE;
    hide DeleteIn;
    var w2 := InstallLoose(w1, true, true);
    assert ContinueIn(w1, true, true) == Running(w2);
    ServeAppend(w, ops, [DoHit(s, 0, acc)]);
    ServeOne(w2, DoHit(s, 0, acc));
  }

  /** Memory of the freed continue breakpoint makes the next breakpoint the continue breakpoint. */
  lemma ReusedContinue(w: World, b: nat, s: nat, x: nat)
    requires b in w.m.table && w.m.cont != b && 0 < s && x != s && x !in w.m.table
    ensures var o := ServeAll(w, [DoHit(b, s, ALL), DoDelete(s, true)] + [DoCreate(x, FreedMemory)]);
            o.Running? && o.w.m.cont == x && o.w.stray == NoStray
  {
    var ops := [DoHit(b, s, ALL), DoDelete(s, true)];
    ServeTwo(w, ops[0], ops[1]);
    var w2 := DeleteIn(HitIn(w, b, s, ALL), s, true);
    ServeAppend(w, ops, [DoCreate(x, FreedMemory)]);
    ServeOne(w2, DoCreate(x, FreedMemory));
  }

  // ----- every served step keeps the world in order

  ghost predicate WorldOK(w: World) {
    Sound(w.m) && ChainsOK(w.chains, w.m.table) && (w.stray != NoStray ==> w.m.cont == NONE)
  }

  lemma CreateOK(w: World, a: nat, supply: Supply)
    requires WorldOK(w)
    ensures WorldOK(CreateIn(w, a, supply)) && SameLogical(w.m, CreateIn(w, a, supply).m)
  {
    hide ChainsOK, AppendedTo;
    if a !in w.m.table && supply != NoMemory {
      CreateKeepsLogical(w.m, a);
      AppendedChains(w.chains, w.m.table, a, Bp(0, false));
    }
  }

  /** The other breakpoints of a bucket have no trap in memory. */
  ghost predicate BucketClean(m: Machine, a: nat) {
    forall x :: x in m.table && x != a && x % HASH_SIZE == Hash(a) && m.table[x].inMemory ==> ByteAt(m.mem, x) == m.table[x].saved
  }

  lemma DeleteOK(w: World, a: nat, canWrite: bool)
    requires WorldOK(w) && a in w.m.table
    ensures WorldOK(DeleteIn(w, a, canWrite))
  {
    hide ChainsOK, Dropped, Heads;
    DroppedChains(w.chains, w.m.table, a);
    var m1 := Delete(w.m.(cont := NONE), a, canWrite);
    DeleteKeepsLogical(w.m.(cont := NONE), a, canWrite);
    if Deletes(w.m, a, canWrite) {
      assert m1.table == w.m.table - {a} == Delete(w.m, a, canWrite).table;
      LostSound(w.m, m1, a);
      var w' := DeleteIn(w, a, canWrite);
      assert Sound(w'.m.(cont := NONE));
      assert w'.m.cont != NONE ==> w'.m.cont in w'.m.table;
    }
  }

  /** Losing a bucket leaves raw memory sound: what was a trap of a breakpoint is just a byte. */
  lemma LostSound(m: Machine, m1: Machine, a: nat)
    requires Sound(m1) && m1.cont == NONE && m1.table == m.table - {a}
    ensures Sound(m1.(table := Elsewhere(m.table, Hash(a))))
  {
    var m2 := m1.(table := Elsewhere(m.table, Hash(a)));
    forall x
      ensures ByteAt(m2.mem, x) == Logical(m2, x) || (x in m2.table && m2.table[x].inMemory && ByteAt(m2.mem, x) == TRAP)
    {
      assert ByteAt(m1.mem, x) == Logical(m1, x) || (x in m1.table && m1.table[x].inMemory && ByteAt(m1.mem, x) == TRAP);
    }
  }

  /** A deletion keeps logical memory exactly when it does not lose a trap with the bucket. */
  lemma DeleteLogical(w: World, a: nat, canWrite: bool)
    requires WorldOK(w) && a in w.m.table
    ensures SameLogical(w.m, DeleteIn(w, a, canWrite).m) <==> (LosesBucket(w, a, canWrite) ==> BucketClean(w.m, a))
    ensures forall x :: Logical(DeleteIn(w, a, canWrite).m, x) != Logical(w.m, x) ==> x !in DeleteIn(w, a, canWrite).m.table
  {
    hide ChainsOK, Dropped, Heads;
    var m' := DeleteIn(w, a, canWrite).m;
    DeleteKeepsLogical(w.m, a, canWrite);
    if LosesBucket(w, a, canWrite) {
      forall x | SameLogical(w.m, m') && x in w.m.table && x != a && x % HASH_SIZE == Hash(a) && w.m.table[x].inMemory
        ensures ByteAt(w.m.mem, x) == w.m.table[x].saved
      {
        assert Logical(m', x) == Logical(w.m, x);
      }
    }
  }

  lemma GoneOK(w: World, a: nat, acc: Access)
    requires WorldOK(w) && a in w.m.table && w.m.cont == a && (w.m.table[a].inMemory ==> acc.lift)
    ensures WorldOK(Gone(w, a, acc)) && Gone(w, a, acc).stray == NoStray && Gone(w, a, acc).m.cont == NONE
    ensures SameLogical(w.m, Gone(w, a, acc).m) <==> (LosesBucket(w, a, acc.remove) ==> BucketClean(w.m, a))
    ensures forall x :: Logical(Gone(w, a, acc).m, x) != Logical(w.m, x) ==> x !in Gone(w, a, acc).m.table
  {
    hide ChainsOK;
    var w1 := w.(m := Lift(w.m, a, acc.lift).(cont := NONE));
    assert SameLogical(w.m, w1.m) && Sound(w1.m);
    DeleteOK(w1, a, acc.remove);
    DeleteLogical(w1, a, acc.remove);
    hide DeleteIn;
    SameLogicalThrough(w.m, w1.m, Gone(w, a, acc).m);
    assert BucketClean(w1.m, a) <==> BucketClean(w.m, a) by {
      assert forall x :: x != a ==> ByteAt(w1.m.mem, x) == ByteAt(w.m.mem, x);
    }
    assert forall x :: Logical(w1.m, x) == Logical(w.m, x);
  }

  /** When the trap that goes back at the hit of the continue breakpoint is taken for the original byte. */
  predicate TakesTrap(w: World, a: nat, acc: Access) {
    && PutBack(w.m) && w.m.last != a
    && !(LosesBucket(w, a, acc.remove) && w.m.last % HASH_SIZE == Hash(a))
  }

  lemma GonePutBack(w: World, a: nat, acc: Access)
    requires WorldOK(w) && a in w.m.table && w.m.cont == a && (w.m.table[a].inMemory ==> acc.lift)
    ensures PutBack(Gone(w, a, acc).m) <==> TakesTrap(w, a, acc)
  {
    hide ChainsOK, Dropped, Heads;
  }

  lemma ReinstallOK(m: Machine, canRead: bool, canWrite: bool)
    requires Sound(m)
    ensures Sound(Reinstall(m, canRead, canWrite)) && Reinstall(m, canRead, canWrite).table.Keys == m.table.Keys
    ensures Reinstall(m, canRead, canWrite).cont == m.cont
    ensures forall x :: x !in m.table ==> Logical(Reinstall(m, canRead, canWrite), x) == Logical(m, x)
  {
  }

  lemma ChainsKeys(chains: seq<seq<int>>, t: map<int, Bp>, t': map<int, Bp>)
    requires ChainsOK(chains, t) && t'.Keys == t.Keys
    ensures ChainsOK(chains, t')
  {
    forall a | a in t'
      ensures a >= 0 && a in chains[a % HASH_SIZE]
    {
      assert a in t.Keys;
    }
    forall i, a | 0 <= i < HASH_SIZE && a in chains[i]
      ensures a in t' && a % HASH_SIZE == i
    {
      assert a in t.Keys;
    }
  }

  lemma ContinueHitOK(w: World, a: nat, successor: nat, acc: Access)
    requires WorldOK(w) && a in w.m.table && w.m.cont == a && (w.m.table[a].inMemory ==> acc.lift)
    ensures WorldOK(HitIn(w, a, successor, acc))
    ensures SameLogical(w.m, HitIn(w, a, successor, acc).m) <==>
            (LosesBucket(w, a, acc.remove) ==> BucketClean(w.m, a)) && !TakesTrap(w, a, acc)
  {
    GoneOK(w, a, acc);
    GonePutBack(w, a, acc);
    var w1 := Gone(w, a, acc);
    var m2 := Reinstall(w1.m, acc.read, acc.write);
    assert HitIn(w, a, successor, acc) == w1.(m := m2);
    ReinstallLogical(w1.m, acc.read, acc.write);
    ReinstallOK(w1.m, acc.read, acc.write);
    ChainsKeys(w1.chains, w1.m.table, m2.table);
    hide *;
    if SameLogical(w.m, w1.m) {
      SameLogicalThrough(w.m, w1.m, m2);
    } else {
      LogicalDiffers(w.m, w1.m, m2);
    }
    WorldIntro(w1.(m := m2));
  }

  lemma WorldIntro(w: World)
    requires Sound(w.m) && ChainsOK(w.chains, w.m.table) && (w.stray != NoStray ==> w.m.cont == NONE)
    ensures WorldOK(w)
  {
  }

  lemma LogicalDiffers(m: Machine, m1: Machine, m2: Machine)
    requires !SameLogical(m, m1)
    requires forall x :: Logical(m1, x) != Logical(m, x) ==> x !in m1.table
    requires forall x :: x !in m1.table ==> Logical(m2, x) == Logical(m1, x)
    ensures !SameLogical(m, m2)
  {
    hide Logical;
    var x :| Logical(m1, x) != Logical(m, x);
    assert Logical(m2, x) == Logical(m1, x);
  }

  lemma OtherHitOK(w: World, a: nat, successor: nat, acc: Access)
    requires WorldOK(w) && a in w.m.table && w.m.cont != a
    ensures WorldOK(HitIn(w, a, successor, acc)) && SameLogical(w.m, HitIn(w, a, successor, acc).m)
  {
    hide ChainsOK, AppendedTo;
    var w1 := w.(m := Lift(w.m, a, acc.lift));
    assert SameLogical(w.m, w1.m) && Sound(w1.m);
    if successor != 0 && acc.alloc {
      CreateOK(w1, successor, NewMemory);
      SameLogicalThrough(w.m, w1.m, CreateIn(w1, successor, NewMemory).m);
    }
  }

  /** The step, if it is served, changes no byte of logical memory. */
  ghost predicate Harmless(w: World, op: Op) {
    match op
    case DoDelete(a, cw) => LosesBucket(w, a, cw) ==> BucketClean(w.m, a)
    case DoContinue(r, cw) =>
      !HasCont(w.m) && w.stray.Loose? && !w.stray.bp.inMemory && r && cw ==>
        Wanted(w.m, w.stray.address) || ByteAt(w.m.mem, w.stray.address) == TRAP
    case DoHit(a, _, acc) =>
      a in w.m.table && a == w.m.cont && (w.m.table[a].inMemory ==> acc.lift) ==>
        (LosesBucket(w, a, acc.remove) ==> BucketClean(w.m, a)) && !TakesTrap(w, a, acc)
    case _ => true
  }

  lemma ContinueOK(w: World, r: bool, cw: bool)
    requires WorldOK(w) && Known(w, DoContinue(r, cw))
    ensures var o := Serve(w, DoContinue(r, cw));
            o.Running? && WorldOK(o.w) && (SameLogical(w.m, o.w.m) <==> Harmless(w, DoContinue(r, cw)))
  {
    hide ChainsOK;
    if HasCont(w.m) {
      ContinueKeepsLogical(w.m, r, cw);
      ChainsKeys(w.chains, w.m.table, Continue(w.m, r, cw).table);
    } else if w.stray.Loose? {
      LooseOK(w, r, cw);
    }
  }

  lemma LooseOK(w: World, r: bool, cw: bool)
    requires WorldOK(w) && !HasCont(w.m) && w.stray.Loose?
    ensures WorldOK(InstallLoose(w, r, cw))
    ensures SameLogical(w.m, InstallLoose(w, r, cw).m) <==> Harmless(w, DoContinue(r, cw))
  {
    hide ChainsOK;
    var a, m' := w.stray.address, InstallLoose(w, r, cw).m;
    assert forall x :: x != a ==> Logical(m', x) == Logical(w.m, x);
    assert Logical(m', a) == Logical(w.m, a) <==> Harmless(w, DoContinue(r, cw));
  }

  /** Every served step keeps the world in order, and keeps logical memory exactly when it is harmless. */
  lemma StepLogical(w: World, op: Op)
    requires WorldOK(w) && Known(w, op)
    ensures Serve(w, op).Running? && WorldOK(Serve(w, op).w)
    ensures SameLogical(w.m, Serve(w, op).w.m) <==> Harmless(w, op)
  {
    match op
    case DoCreate(a, supply) =>
      CreateOK(w, a, supply);
    case DoInstall(a, r, cw) =>
      InstallKeepsLogical(w.m, a, r, cw);
      ChainsKeys(w.chains, w.m.table, Install(w.m, a, r, cw).table);
    case DoRemove(a, cw) =>
      RemoveKeepsLogical(w.m, a, cw);
      ChainsKeys(w.chains, w.m.table, Remove(w.m, a, cw).table);
    case DoDelete(a, cw) =>
      DeleteOK(w, a, cw);
      DeleteLogical(w, a, cw);
    case DoContinue(r, cw) =>
      ContinueOK(w, r, cw);
    case DoHit(a, s, acc) =>
      if a != w.m.cont {
        OtherHitOK(w, a, s, acc);
      } else if w.m.table[a].inMemory ==> acc.lift {
        ContinueHitOK(w, a, s, acc);
      }
  }

  /** The states of a run in which every step finds what it uses and is harmless. */
  ghost predicate RunOf(ws: seq<World>, ops: seq<Op>) {
    && |ws| == |ops| + 1
    && forall i :: 0 <= i < |ops| ==> StepOf(ws[i], ops[i], ws[i + 1])
  }

  ghost predicate StepOf(w: World, op: Op, w': World) {
    Known(w, op) && Harmless(w, op) && Serve(w, op) == Running(w')
  }

  /** Logical memory is the same in every state of every such run. */
  lemma {:induction false} RunKeepsLogical(ws: seq<World>, ops: seq<Op>, k: nat)
    requires RunOf(ws, ops) && WorldOK(ws[0]) && k <= |ops|
    ensures WorldOK(ws[k]) && SameLogical(ws[0].m, ws[k].m)
  {
    hide WorldOK, Known, Harmless, Serve, Logical;
    if k > 0 {
      var i := k - 1;
      RunKeepsLogical(ws, ops, i);
      assert StepOf(ws[i], ops[i], ws[i + 1]);
      StepLogical(ws[i], ops[i]);
    }
  }

  // ----- requests between a hit and its continue

  predicate IsRequest(op: Op) {
    op.DoCreate? || op.DoInstall? || op.DoRemove? || op.DoDelete?
  }

  /** The step takes `b` out of the table, by itself or with its bucket. */
  predicate Unlinks(w: World, op: Op, b: nat) {
    && op.DoDelete?
    && (if op.a == b then Deletes(w.m, b, op.canWrite) else LosesBucket(w, op.a, op.canWrite) && Hash(op.a) == Hash(b))
  }

  /** The step takes the trap of `b` out, or `b` out of the table. */
  predicate TakesOut(w: World, op: Op, b: nat) {
    (op.DoRemove? && op.a == b && op.canWrite) || Unlinks(w, op, b)
  }

  /** The request puts the trap of `b` in. */
  predicate PutsIn(op: Op, b: nat) {
    op.DoInstall? && op.a == b && op.canRead && op.canWrite
  }

  /** The breakpoint hit is lifted as its hit left it, out of memory, or back in with a trap. */
  datatype Phase = Lifted | Out | BackIn

  function NextPhase(w: World, op: Op, b: nat, ph: Phase): (ph': Phase) {
    if TakesOut(w, op, b) then Out else if ph == Out && PutsIn(op, b) then BackIn else ph
  }

  function PhaseAt(ws: seq<World>, ops: seq<Op>, b: nat, k: nat): (ph: Phase)
    requires k <= |ops| <= |ws|
  {
    if k == 0 then Lifted else NextPhase(ws[k - 1], ops[k - 1], b, PhaseAt(ws, ops, b, k - 1))
  }

  /** Request `j` puts `b` back in after another one took it out, and none before `k` takes it out again. */
  ghost predicate PutsBackAt(ws: seq<World>, ops: seq<Op>, b: nat, j: nat, k: nat)
    requires j < k <= |ops| <= |ws|
  {
    && PutsIn(ops[j], b)
    && (exists i :: 0 <= i < j && TakesOut(ws[i], ops[i], b))
    && (forall i :: j < i < k ==> !TakesOut(ws[i], ops[i], b))
  }

  /** The phase in terms of the requests. */
  lemma {:induction false} PhaseMeaning(ws: seq<World>, ops: seq<Op>, b: nat, k: nat)
    requires k <= |ops| <= |ws|
    ensures PhaseAt(ws, ops, b, k) == Lifted <==> forall i :: 0 <= i < k ==> !TakesOut(ws[i], ops[i], b)
    ensures PhaseAt(ws, ops, b, k) == BackIn <==> exists j: nat :: j < k && PutsBackAt(ws, ops, b, j, k)
  {
    hide TakesOut, PutsIn;
    if k > 0 {
      var n := k - 1;
      PhaseMeaning(ws, ops, b, n);
      var ph := PhaseAt(ws, ops, b, n);
      if TakesOut(ws[n], ops[n], b) {
        forall j: nat | j < k
          ensures !PutsBackAt(ws, ops, b, j, k)
        {
          TakesNotPuts(ws[n], ops[n], b);
        }
      } else {
        forall j: nat | j < n
          ensures PutsBackAt(ws, ops, b, j, k) <==> PutsBackAt(ws, ops, b, j, n)
        {
        }
        if ph == Out && PutsIn(ops[n], b) {
          assert PutsBackAt(ws, ops, b, n, k);
        }
        if ph == BackIn {
          var j: nat :| j < n && PutsBackAt(ws, ops, b, j, n);
          assert PutsBackAt(ws, ops, b, j, k);
        }
      }
    }
  }

  lemma TakesNotPuts(w: World, op: Op, b: nat)
    ensures !(TakesOut(w, op, b) && PutsIn(op, b))
  {
  }

  /** What the machine holds at `b` in each phase. */
  predicate PhaseOK(m: Machine, b: nat, saved: int, ph: Phase) {
    match ph
    case Lifted => Wanted(m, b) && m.table[b].saved == saved && ByteAt(m.mem, b) == saved
    case Out => !Wanted(m, b) && ByteAt(m.mem, b) == saved
    case BackIn => Wanted(m, b) && m.table[b].saved == saved && ByteAt(m.mem, b) == TRAP
  }

  lemma PhaseStep(w: World, op: Op, w': World, b: nat, saved: int, ph: Phase)
    requires StepOf(w, op, w') && IsRequest(op) && PhaseOK(w.m, b, saved, ph)
    ensures PhaseOK(w'.m, b, saved, NextPhase(w, op, b, ph)) && w'.m.last == w.m.last
  {
    if op.DoDelete? {
      PhaseDelete(w, op, b, saved, ph);
    } else {
      hide Dropped, Heads, AppendedTo, Elsewhere;
    }
  }

  lemma PhaseDelete(w: World, op: Op, b: nat, saved: int, ph: Phase)
    requires op.DoDelete? && op.a in w.m.table && Harmless(w, op) && PhaseOK(w.m, b, saved, ph)
    ensures var m' := DeleteIn(w, op.a, op.canWrite).m;
            PhaseOK(m', b, saved, NextPhase(w, op, b, ph)) && m'.last == w.m.last
  {
    hide Dropped, Heads;
    var m' := DeleteIn(w, op.a, op.canWrite).m;
    if op.a != b && Wanted(w.m, b) && Unlinks(w, op, b) {
      assert ByteAt(w.m.mem, b) == w.m.table[b].saved;
    }
    assert Wanted(m', b) <==> Wanted(w.m, b) && !Unlinks(w, op, b);
    assert Wanted(m', b) ==> m'.table[b] == w.m.table[b];
  }

  lemma LinkStep(w: World, op: Op, w': World, s: nat)
    requires WorldOK(w) && StepOf(w, op, w') && IsRequest(op) && w.m.cont == s && s in w.m.table
    ensures !Unlinks(w, op, s) ==> w'.m.cont == s && s in w'.m.table
    ensures Unlinks(w, op, s) ==> w'.m.cont == NONE && w'.stray == if op.a == s then Freed else Loose(s, w.m.table[s])
  {
    hide Dropped, Heads, AppendedTo;
  }

  /** The step over `b` with the continue breakpoint at `s` is pending. */
  ghost predicate Pending(w: World, b: nat, s: nat, saved: int, ph: Phase) {
    WorldOK(w) && w.m.cont == s && s in w.m.table && w.m.last == b && s != b && PhaseOK(w.m, b, saved, ph)
  }

  lemma {:induction false} PendingRun(ws: seq<World>, ops: seq<Op>, b: nat, s: nat, saved: int, k: nat)
    requires RunOf(ws, ops) && k <= |ops| && Pending(ws[0], b, s, saved, Lifted)
    requires forall i :: 0 <= i < |ops| ==> IsRequest(ops[i])
    requires forall i :: 0 <= i < k ==> !Unlinks(ws[i], ops[i], s)
    ensures Pending(ws[k], b, s, saved, PhaseAt(ws, ops, b, k))
  {
    if k > 0 {
      var i := k - 1;
      PendingRun(ws, ops, b, s, saved, i);
      hide WorldOK, PhaseOK, StepOf, Unlinks, IsRequest, NextPhase;
      assert StepOf(ws[i], ops[i], ws[i + 1]);
      StepOK(ws[i], ops[i], ws[i + 1]);
      PhaseStep(ws[i], ops[i], ws[i + 1], b, saved, PhaseAt(ws, ops, b, i));
      LinkStep(ws[i], ops[i], ws[i + 1], s);
    }
  }

  lemma StepOK(w: World, op: Op, w': World)
    requires WorldOK(w) && StepOf(w, op, w')
    ensures WorldOK(w')
  {
    hide WorldOK, Known, Harmless, Serve;
    StepLogical(w, op);
  }

  lemma HitPending(w: World, b: nat, s: nat)
    requires WorldOK(w) && Wanted(w.m, b) && w.m.cont != b && 0 < s != b
    ensures Pending(HitIn(w, b, s, ALL), b, s, w.m.table[b].saved, Lifted)
  {
    OtherHitOK(w, b, s, ALL);
    hide WorldOK, AppendedTo;
  }

  /** The address leaves the table with the continue breakpoint at `s`. */
  predicate GoesWith(w: World, a: int, s: nat) {
    a == s || (Heads(w.chains, s) && a % HASH_SIZE == Hash(s))
  }

  /** The world after the continue of a pending step. */
  function Continued(w: World): (w': World)
    requires HasCont(w.m)
  {
    w.(m := Continue(w.m, true, true))
  }

  /** The hit of the continue breakpoint, before the trap goes back. */
  lemma PendingGone(w: World, b: nat, s: nat, saved: int, ph: Phase)
    requires Pending(w, b, s, saved, ph)
    ensures HasCont(w.m) && s in Continued(w).m.table
    ensures var d := Gone(Continued(w), s, ALL);
      && d.m.cont == NONE && d.stray == NoStray && d.m.last == b
      && (forall a :: a in d.m.table <==> a in w.m.table && !GoesWith(w, a, s))
      && (forall a :: a in d.m.table ==> d.m.table[a] == w.m.table[a])
      && (forall a :: ByteAt(d.m.mem, a) == if a == s then Logical(w.m, s) else ByteAt(w.m.mem, a))
  {
    hide ChainsOK, Dropped, Heads;
    var w3 := Continued(w);
    assert w3.m.table[s].saved == Logical(w.m, s) && w3.m.table[s].inMemory;
    assert w3.m.table.Keys == w.m.table.Keys;
  }

  lemma PendingDone(w: World, b: nat, s: nat, s': nat, saved: int, ph: Phase)
    requires Pending(w, b, s, saved, ph)
    ensures HasCont(w.m) && s in Continued(w).m.table && Serve(w, DoContinue(true, true)) == Running(Continued(w))
    ensures var w4 := HitIn(Continued(w), s, s', ALL);
      && w4.m.cont == NONE && w4.stray == NoStray
      && (forall a :: a in w4.m.table <==> a in w.m.table && !GoesWith(w, a, s))
      && (Wanted(w4.m, b) <==> ph != Out && !GoesWith(w, b, s))
      && (Wanted(w4.m, b) ==> ByteAt(w4.m.mem, b) == TRAP && w4.m.table[b].saved == if ph == BackIn then TRAP else saved)
      && (forall a :: a != b && a in w4.m.table ==> w4.m.table[a] == w.m.table[a])
      && (forall a :: a != b ==> ByteAt(w4.m.mem, a) == if a == s then Logical(w.m, s) else ByteAt(w.m.mem, a))
  {
    PendingGone(w, b, s, saved, ph);
    var d := Gone(Continued(w), s, ALL);
    var w4 := HitIn(Continued(w), s, s', ALL);
    assert w4 == d.(m := Reinstall(d.m, true, true)) by {
      hide Gone, Reinstall;
    }
    hide Gone, HitIn, GoesWith, WorldOK, Continue;
  }

  /**
   * What makes a hit of the continue breakpoint at `s` fail: its own trap cannot be lifted or removed, or the trap of the
   * breakpoint hit before is still wanted, outlives the deletion and cannot be put back.
   */
  predicate HitFails(w: World, s: nat, acc: Access) {
    || (Wanted(w.m, s) && !(acc.lift && acc.remove))
    || (Wanted(w.m, w.m.last) && !GoesWith(w, w.m.last, s) && !(acc.read && acc.write))
  }

  /** The flags of the breakpoints that the deletion of the continue breakpoint leaves. */
  lemma GoneWanted(w: World, s: nat, acc: Access, b: int)
    requires s in w.m.table && Deletes(w.m, s, acc.remove) && (w.m.table[s].inMemory ==> acc.lift)
    ensures Wanted(Gone(w, s, acc).m, b) <==> Wanted(w.m, b) && !GoesWith(w, b, s)
    ensures Gone(w, s, acc).m.last == w.m.last
  {
    hide Dropped, Heads;
  }

  /**
   * What the hit of the continue breakpoint reports, for all accesses: it fails exactly when `HitFails`, and otherwise
   * is silent or a single step, also when the breakpoint hit before was deleted or removed meanwhile.
   */
  lemma ContinueHitReport(w: World, s: nat, s': nat, singleStep: bool, acc: Access)
    requires s in w.m.table && w.m.cont == s
    ensures ReportIn(w, s, s', singleStep, acc) == if HitFails(w, s, acc) then Failed else if singleStep then SingleStep else Silent
  {
    hide Gone, GoesWith;
    if Deletes(w.m, s, acc.remove) && (w.m.table[s].inMemory ==> acc.lift) {
      GoneWanted(w, s, acc, w.m.last);
    }
  }

  /** A debugger that can access memory is never told of a failure. */
  lemma StepOverReport(w: World, s: nat, s': nat, singleStep: bool)
    requires s in w.m.table && w.m.cont == s
    ensures ReportIn(w, s, s', singleStep, ALL) == if singleStep then SingleStep else Silent
  {
    hide ReportIn, GoesWith;
    ContinueHitReport(w, s, s', singleStep, ALL);
  }

  lemma StepOverReports(w: World, w2: World, b: nat, s: nat, s': nat)
    requires b in w.m.table && w.m.cont != b && s > 0
    ensures forall step :: ReportIn(w, b, s, step, ALL) == BreakpointHit(b)
    ensures HasCont(w2.m) && w2.m.cont == s ==>
              && s in Continued(w2).m.table
              && forall step :: ReportIn(Continued(w2), s, s', step, ALL) == if step then SingleStep else Silent
  {
    if HasCont(w2.m) && w2.m.cont == s {
      assert Continued(w2).m.cont == s && s in Continued(w2).m.table;
      hide ReportIn;
      forall step: bool
        ensures ReportIn(Continued(w2), s, s', step, ALL) == if step then SingleStep else Silent
      {
        StepOverReport(Continued(w2), s, s', step);
      }
    }
  }

  /**
   * Stepping over `b` with any harmless requests in between that leave the continue breakpoint in the table. The trap goes
   * back exactly when the requests left `b` in memory and it does not go with the bucket of the continue breakpoint. The
   * original byte is lost exactly when they took `b` out and put it back in. Whatever the requests did, the first hit is
   * reported and the second one is not, unless the thread is single stepping.
   */
  lemma StepOverWithRequests(w: World, ws: seq<World>, ops: seq<Op>, b: nat, s: nat, s': nat)
    requires WorldOK(w) && Wanted(w.m, b) && w.m.cont != b && 0 < s != b
    requires RunOf(ws, ops) && ws[0] == HitIn(w, b, s, ALL)
    requires forall i :: 0 <= i < |ops| ==> IsRequest(ops[i]) && !Unlinks(ws[i], ops[i], s)
    ensures var w2, ph, saved := ws[|ops|], PhaseAt(ws, ops, b, |ops|), w.m.table[b].saved;
      && HasCont(w2.m) && w2.m.cont == s && s in Continued(w2).m.table
      && Serve(w2, DoContinue(true, true)) == Running(Continued(w2))
      && var w4 := HitIn(Continued(w2), s, s', ALL);
      && w4.m.cont == NONE && w4.stray == NoStray
      && (forall a :: a in w4.m.table <==> a in w2.m.table && !GoesWith(w2, a, s))
      && (Wanted(w4.m, b) <==> ph != Out && !GoesWith(w2, b, s))
      && (Wanted(w4.m, b) ==> ByteAt(w4.m.mem, b) == TRAP && w4.m.table[b].saved == if ph == BackIn then TRAP else saved)
      && (forall a :: a != b && a in w4.m.table ==> w4.m.table[a] == w2.m.table[a])
      && (forall a :: a != b ==> ByteAt(w4.m.mem, a) == if a == s then Logical(w2.m, s) else ByteAt(w2.m.mem, a))
      && (forall step :: ReportIn(w, b, s, step, ALL) == BreakpointHit(b))
      && (forall step :: ReportIn(Continued(w2), s, s', step, ALL) == if step then SingleStep else Silent)
  {
    StepOverReports(w, ws[|ops|], b, s, s');
    hide WorldOK, HitIn, GoesWith, Continue, Unlinks, IsRequest, StepOf, PhaseOK, ReportIn;
    HitPending(w, b, s);
    PendingRun(ws, ops, b, s, w.m.table[b].saved, |ops|);
    PendingDone(ws[|ops|], b, s, s', w.m.table[b].saved, PhaseAt(ws, ops, b, |ops|));
  }

  /**
   * A hit that fails after its trap was lifted leaves the original byte in place and all else as it was. When the successor
   * is not known, the next continue uses the continue breakpoint there was before; without memory for a new one there is
   * none, and the next continue places no trap.
   */
  lemma FailedHits(w: World, b: nat, s: nat, acc: Access, r: bool, cw: bool)
    requires Wanted(w.m, b) && w.m.cont != b && acc.lift && (s == 0 || !acc.alloc)
    ensures forall step :: ReportIn(w, b, s, step, acc) == Failed
    ensures var w' := HitIn(w, b, s, acc);
      && w'.m.table == w.m.table && w'.chains == w.chains && w'.m.last == w.m.last
      && w'.m.mem == w.m.mem[b := w.m.table[b].saved]
      && (s == 0 ==> w'.m.cont == w.m.cont && w'.stray == w.stray)
      && (s > 0 ==> Serve(w', DoContinue(r, cw)) == Running(w'))
  {
  }

  // ----- a continue breakpoint that the requests unlinked

  lemma StrayStep(w: World, op: Op, w': World)
    requires StepOf(w, op, w') && IsRequest(op) && w.m.cont == NONE && w.stray != NoStray
    requires !(op.DoCreate? && op.supply == FreedMemory)
    ensures w'.m.cont == NONE && w'.stray == w.stray
  {
    hide Dropped, Heads, AppendedTo;
  }

  /** The continue breakpoint is in the table at the continue exactly when no request unlinked it, unless its memory is reused. */
  lemma {:induction false} LinkedExactly(ws: seq<World>, ops: seq<Op>, s: nat, k: nat)
    requires RunOf(ws, ops) && k <= |ops| && WorldOK(ws[0]) && ws[0].m.cont == s && s in ws[0].m.table
    requires forall i :: 0 <= i < |ops| ==> IsRequest(ops[i]) && !(ops[i].DoCreate? && ops[i].supply == FreedMemory)
    ensures if forall i :: 0 <= i < k ==> !Unlinks(ws[i], ops[i], s) then ws[k].m.cont == s && s in ws[k].m.table
            else ws[k].m.cont == NONE && ws[k].stray != NoStray
  {
    if k > 0 {
      var i := k - 1;
      LinkedExactly(ws, ops, s, i);
      hide WorldOK, StepOf, Unlinks, IsRequest;
      RunKeepsLogical(ws, ops, i);
      assert StepOf(ws[i], ops[i], ws[i + 1]);
      if forall j :: 0 <= j < i ==> !Unlinks(ws[j], ops[j], s) {
        LinkStep(ws[i], ops[i], ws[i + 1], s);
      } else {
        StrayStep(ws[i], ops[i], ws[i + 1]);
      }
    }
  }

  // ----- creations between a hit and its continue

  lemma CreateBucket(w: World, a: nat, s: nat)
    requires WorldOK(w)
    ensures Bucket(w.chains, s) <= Bucket(CreateIn(w, a, NewMemory).chains, s)
  {
  }

  lemma {:induction false} CreatesBucket(ws: seq<World>, ops: seq<Op>, s: nat, k: nat)
    requires RunOf(ws, ops) && k <= |ops| && WorldOK(ws[0])
    requires forall i :: 0 <= i < |ops| ==> ops[i].DoCreate? && ops[i].supply == NewMemory
    ensures WorldOK(ws[k]) && Bucket(ws[0].chains, s) <= Bucket(ws[k].chains, s)
  {
    if k > 0 {
      var i := k - 1;
      CreatesBucket(ws, ops, s, i);
      hide WorldOK, CreateIn, Bucket;
      assert StepOf(ws[i], ops[i], ws[i + 1]);
      StepOK(ws[i], ops[i], ws[i + 1]);
      CreateBucket(ws[i], ops[i].a, s);
    }
  }

  /** The continue breakpoint is last in its bucket after the hit. */
  lemma HitBucket(w: World, b: nat, s: nat)
    requires WorldOK(w) && b in w.m.table && w.m.cont != b && 0 < s && s !in w.m.table
    ensures Bucket(HitIn(w, b, s, ALL).chains, s) == Bucket(w.chains, s) + [s]
    ensures s !in Bucket(w.chains, s)
  {
  }

  lemma HeadsAfter(w: World, before: seq<int>, s: nat, x: nat)
    requires WorldOK(w) && before + [s] <= Bucket(w.chains, s) && s !in before && x in w.m.table && x != s
    ensures GoesWith(w, x, s) <==> Hash(x) == Hash(s) && before == []
  {
    var c := Bucket(w.chains, s);
    assert c[|before|] == s;
    if before != [] {
      assert c[0] == before[0];
      assert before[0] in before;
    } else if Hash(x) == Hash(s) {
      assert x in c;
    }
  }

  /**
   * Breakpoints created between a hit and its continue, any number of them: one that is there at the continue survives the
   * step-over exactly when it is not in the bucket of the successor, or that bucket was not empty before the hit.
   */
  lemma StepOverCreating(w: World, ws: seq<World>, ops: seq<Op>, b: nat, s: nat, s': nat, x: nat)
    requires WorldOK(w) && Wanted(w.m, b) && w.m.cont != b && 0 < s != b && s !in w.m.table
    requires RunOf(ws, ops) && ws[0] == HitIn(w, b, s, ALL) && x in ws[|ops|].m.table && x != s
    requires forall i :: 0 <= i < |ops| ==> ops[i].DoCreate? && ops[i].supply == NewMemory
    ensures HasCont(ws[|ops|].m) && s in Continued(ws[|ops|]).m.table
    ensures x in HitIn(Continued(ws[|ops|]), s, s', ALL).m.table <==>
            !(Hash(x) == Hash(s) && Bucket(w.chains, s) == [])
  {
    StepOverWithRequests(w, ws, ops, b, s, s');
    hide HitIn, Bucket, GoesWith, WorldOK;
    OtherHitOK(w, b, s, ALL);
    HitBucket(w, b, s);
    CreatesBucket(ws, ops, s, |ops|);
    HeadsAfter(ws[|ops|], Bucket(w.chains, s), s, x);
  }
}
