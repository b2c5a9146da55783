/** The breakpoint functions of the runtime, over its hash table and the memory of the debuggee. */
module Debuggee {
  import opened Bytes
  import opened Breakpoints
  import opened BreakpointTable
  import opened BreakpointRuns

  /** What a request handler does: it answers, or the debuggee crashes. */
  datatype Response = Done | Refused | Crash

  // ----- what a store stands for

  /** The record `p` is in the table. */
  ghost predicate LinkedIn(s: Store, p: int) {
    p != 0 && p in s.record && s.record[p].address >= 0 && |s.chains| == HASH_SIZE && Lookup(s, s.record[p].address) == p
  }

  /** What the pointer `q` to the continue breakpoint leads to when that is not in the table. */
  ghost function StrayOf(s: Store, q: int): (r: Stray) {
    if q == 0 || LinkedIn(s, q) then NoStray
    else if q in s.record then Loose(s.record[q].address, Bp(s.record[q].saved, s.record[q].inMemory))
    else Freed
  }

  ghost function ContOf(s: Store, q: int): (a: int) {
    if LinkedIn(s, q) then s.record[q].address else NONE
  }

  ghost function WorldOf(s: Store, mem: map<int, int>, q: int, last: int): (w: World)
    requires |s.chains| == HASH_SIZE
  {
    World(Machine(TableOf(s), mem, ContOf(s, q), last), AddressChains(s), StrayOf(s, q))
  }

  /** A linked record changes its saved byte and flag. */
  lemma SetWorld(s: Store, heads: seq<int>, p: int, r: Record, mem: map<int, int>, q: int, last: int)
    requires StoreOK(s, heads) && LinkedIn(s, p) && r.address == s.record[p].address && r.next == s.record[p].next
    ensures var s', w := s.(record := s.record[p := r]), WorldOf(s, mem, q, last);
      && StoreOK(s', heads) && LinkedIn(s', p)
      && WorldOf(s', mem, q, last) == w.(m := w.m.(table := w.m.table[r.address := Bp(r.saved, r.inMemory)]))
      && forall x :: LinkedIn(s', x) <==> LinkedIn(s, x)
  {
    hide StoreOK, TableOf, Lookup, AddressChains;
    Shape(s, heads);
    var s' := s.(record := s.record[p := r]);
    SetRecord(s, heads, p, r);
    ChainsSame(s, heads, s');
    LinksSame(s, heads, s');
  }

  lemma LinksSame(s: Store, heads: seq<int>, s': Store)
    requires StoreOK(s, heads) && s'.chains == s.chains && s'.record.Keys == s.record.Keys
    requires forall p :: p in s.record ==> s'.record[p].address == s.record[p].address
    ensures forall x :: LinkedIn(s', x) <==> LinkedIn(s, x)
  {
    hide StoreOK, Lookup;
    Shape(s, heads);
    forall x | x in s.record && s.record[x].address >= 0
      ensures LinkedIn(s', x) <==> LinkedIn(s, x)
    {
      LookupSame(s, heads, s', s.record[x].address);
    }
  }

  /** A record that is not linked changes its saved byte and flag. */
  lemma LooseWorld(s: Store, heads: seq<int>, r: Record, mem: map<int, int>, q: int, last: int)
    requires StoreOK(s, heads) && q != 0 && q in s.record && !LinkedIn(s, q) && r.address == s.record[q].address
    requires r.next == s.record[q].next
    ensures var s', w := s.(record := s.record[q := r]), WorldOf(s, mem, q, last);
      StoreOK(s', heads) && !LinkedIn(s', q) && WorldOf(s', mem, q, last) == w.(stray := Loose(r.address, Bp(r.saved, r.inMemory)))
  {
    hide StoreOK, Lookup, AddressChains, TableOf;
    Shape(s, heads);
    var s' := s.(record := s.record[q := r]);
    SetRecordStore(s, heads, q, r);
    ChainsSame(s, heads, s');
    LinksSame(s, heads, s');
    forall x: nat
      ensures Lookup(s', x) == Lookup(s, x) && Lookup(s, x) != q
    {
      LookupSame(s, heads, s', x);
      LookupOK(s, heads, x);
    }
    TableFacts(s, heads);
    TableFacts(s', heads);
    SameTable(s', heads, TableOf(s));
  }

  lemma AppendWorld(s: Store, heads: seq<int>, p: int, a: nat, mem: map<int, int>, q: int, last: int)
    requires StoreOK(s, heads) && p != 0 && p !in s.record && Lookup(s, a) == 0
    ensures var s' := Appended(s, p, a);
      && |s'.chains| == HASH_SIZE && LinkedIn(s', p) && s'.record[p].address == a && a !in TableOf(s)
      && WorldOf(s', mem, q, last) == CreateIn(WorldOf(s, mem, q, last), a, if p == q then FreedMemory else NewMemory)
  {
    hide StoreOK, Lookup, AddressChains, TableOf;
    Shape(s, heads);
    var s' := Appended(s, p, a);
    AppendTable(s, heads, p, a);
    AppendNew(s, heads, p, a);
    ChainsAppend(s, heads, p, a);
    if q != 0 && q != p && q in s.record {
      AppendPointer(s, heads, p, a, q);
    }
  }

  lemma AppendPointer(s: Store, heads: seq<int>, p: int, a: nat, q: int)
    requires StoreOK(s, heads) && p != 0 && p !in s.record && Lookup(s, a) == 0 && q != 0 && q in s.record
    ensures var s' := Appended(s, p, a);
      && q in s'.record && s'.record[q].(next := 0) == s.record[q].(next := 0)
      && (LinkedIn(s', q) <==> LinkedIn(s, q))
  {
    hide StoreOK, Lookup;
    Shape(s, heads);
    if s.record[q].address >= 0 {
      AppendLookup(s, heads, p, a, s.record[q].address);
    }
  }

  /** Unlinking a record that is not in memory. */
  lemma UnlinkWorld(s: Store, heads: seq<int>, h: nat, k: nat, mem: map<int, int>, q: int, last: int, canWrite: bool)
    requires StoreOK(s, heads) && h < HASH_SIZE && k < |s.chains[h]| && s.chains[h][k] in s.record
    requires !s.record[s.chains[h][k]].inMemory && s.record[s.chains[h][k]].address >= 0
    ensures var s', a := Unlinked(s, h, k), s.record[s.chains[h][k]].address;
      && StoreOK(s', heads[h := if k == 0 then 0 else heads[h]]) && |s'.chains| == HASH_SIZE && a in TableOf(s)
      && WorldOf(s', mem, q, last) == DeleteIn(WorldOf(s, mem, q, last), a, canWrite)
  {
    hide StoreOK, Lookup, AddressChains, TableOf, Dropped;
    Shape(s, heads);
    var s', p := Unlinked(s, h, k), s.chains[h][k];
    var a, w := s.record[p].address, WorldOf(s, mem, q, last);
    UnlinkTable(s, heads, h, k);
    ChainsUnlink(s, heads, h, k);
    LinkedLookup(s, heads, h, k);
    ChainAt(s, heads, h);
    NextOf(h, s.chains[h], heads[h], s.record, k);
    InTable(s, heads, a);
    HeadPosition(s, heads, h, k);
    if k == 0 && |s.chains[h]| == 1 {
      OnlyBucket(s, heads, h);
    }
    assert TableOf(s') == DeleteIn(w, a, canWrite).m.table;
    UnlinkPointer(s, heads, h, k, q);
    if LinkedIn(s, q) && q != p {
      var x := s.record[q].address;
      InTable(s, heads, x);
      assert x != a && HasCont(w.m) && x in TableOf(s) - {a};
      assert LinkedIn(s', q) <==> !(k == 0 && |s.chains[h]| > 1 && x % HASH_SIZE == h) by {
        assert k == 0 && |s.chains[h]| == 1 ==> x in Elsewhere(TableOf(s), h);
      }
    }
  }

  /** The head of a longer chain, by records and by addresses. */
  lemma HeadPosition(s: Store, heads: seq<int>, h: nat, k: nat)
    requires StoreOK(s, heads) && h < HASH_SIZE && k < |s.chains[h]| && s.chains[h][k] in s.record
    ensures s.record[s.chains[h][k]].address >= 0
    ensures Heads(AddressChains(s), s.record[s.chains[h][k]].address) <==> k == 0 && |s.chains[h]| > 1
  {
    hide StoreOK;
    Shape(s, heads);
    LinkedLookup(s, heads, h, k);
    ChainMembers(s, heads, h);
    var r := Addresses(s.chains[h], s.record);
    assert Bucket(AddressChains(s), s.record[s.chains[h][k]].address) == r;
    if k > 0 {
      assert r[0] != r[k];
    }
  }

  lemma OnlyBucket(s: Store, heads: seq<int>, h: nat)
    requires StoreOK(s, heads) && h < HASH_SIZE && |s.chains[h]| == 1 && s.chains[h][0] in s.record
    ensures Elsewhere(TableOf(s), h) == TableOf(s) - {s.record[s.chains[h][0]].address}
  {
    hide StoreOK, TableOf, Lookup;
    Shape(s, heads);
    LinkedLookup(s, heads, h, 0);
    forall x | x in TableOf(s) && x % HASH_SIZE == h
      ensures x == s.record[s.chains[h][0]].address
    {
      InTable(s, heads, x);
      LookupOK(s, heads, x);
    }
    TableFacts(s, heads);
  }

  lemma UnlinkPointer(s: Store, heads: seq<int>, h: nat, k: nat, q: int)
    requires StoreOK(s, heads) && h < HASH_SIZE && k < |s.chains[h]| && s.chains[h][k] in s.record
    ensures var s', p := Unlinked(s, h, k), s.chains[h][k];
      && (q == p ==> q !in s'.record)
      && (q != p ==> (q in s'.record <==> q in s.record))
      && (q != p && q in s.record ==> s'.record[q].(next := 0) == s.record[q].(next := 0))
      && (q != p && q in s.record ==>
            (LinkedIn(s', q) <==> LinkedIn(s, q) && !(k == 0 && s.record[q].address % HASH_SIZE == h)))
  {
    hide Lookup;
    assert ChainOK(h, s.chains[h], heads[h], s.record);
    hide StoreOK;
    Shape(s, heads);
    var s', p := Unlinked(s, h, k), s.chains[h][k];
    if k > 0 {
      assert s.chains[h][k - 1] in s.record;
    }
    if q in s.record && q != p && s.record[q].address >= 0 {
      UnlinkLookup(s, heads, h, k, s.record[q].address);
      LinkedLookup(s, heads, h, k);
    }
  }

  class Runtime {
    const buckets: array<int>
    var record: map<int, Record>
    var mem: map<int, int>
    var continueBp: int
    var last: int
    ghost var chains: seq<seq<int>>

    ghost function Now(): (s: Store)
      reads this
    {
      Store(chains, record)
    }

    ghost predicate Valid()
      reads this, buckets
    {
      buckets.Length == HASH_SIZE && StoreOK(Now(), buckets[..])
    }

    /** The record `p` is in the table. */
    ghost predicate Linked(p: int)
      reads this
    {
      LinkedIn(Now(), p)
    }

    ghost predicate Ready()
      reads this, buckets
    {
      Valid() && last >= 0
    }

    /** The world of runs that the fields stand for. */
    ghost function View(): (w: World)
      requires |chains| == HASH_SIZE
      reads this
    {
      WorldOf(Now(), mem, continueBp, last)
    }

    constructor (memory: map<int, int>)
      ensures Ready() && fresh(buckets) && |chains| == HASH_SIZE
      ensures View().m == Machine(map[], memory, NONE, 0) && View().stray == NoStray && WorldOK(View())
    {
      buckets := new int[HASH_SIZE](_ => 0);
      record, mem, continueBp, last := map[], memory, 0, 0;
      chains := seq(HASH_SIZE, i => []);
      new;
      assert buckets[..] == seq(HASH_SIZE, i => 0);
      ChainsOfStore(Now(), buckets[..]);
    }

    /** `find_breakpoint`. */
    method Find(address: nat) returns (bp: int)
      requires Valid()
      ensures bp == Lookup(Now(), address)
      ensures bp != 0 <==> address in TableOf(Now())
      ensures bp != 0 ==> Linked(bp) && record[bp].address == address
    {
      hide StoreOK, TableOf;
      var h := Hash(address);
      ChainAt(Now(), buckets[..], h);
      ghost var c := chains[h];
      ghost var k: nat := 0;
      bp := buckets[h];
      assert c[0..] == c;
      while bp != 0
        invariant k <= |c| && (k < |c| ==> bp == c[k]) && (k == |c| ==> bp == 0)
        invariant Search(c, record, address) == Search(c[k..], record, address)
        decreases |c| - k
      {
        assert c[k..][1..] == c[k + 1..];
        if record[bp].address == address {
          break;
        }
        NextOf(h, c, buckets[..][h], record, k);
        bp := record[bp].next;
        k := k + 1;
      }
      InTable(Now(), buckets[..], address);
      LookupOK(Now(), buckets[..], address);
    }

    /** Walks a chain to the record of an address, or to its last record. */
    method Scan(h: nat, address: nat) returns (tmp: int, found: bool, ghost k: nat)
      requires Valid() && h < HASH_SIZE && buckets[h] != 0
      ensures |chains| == HASH_SIZE && k < |chains[h]| && tmp == chains[h][k] && tmp in record
      ensures found <==> record[tmp].address == address
      ensures !found ==>
                k == |chains[h]| - 1 && forall p :: p in chains[h] ==> p in record && record[p].address != address
    {
      hide StoreOK;
      ChainAt(Now(), buckets[..], h);
      ghost var c := chains[h];
      tmp, found, k := buckets[h], false, 0;
      while true
        invariant k < |c| && tmp == c[k] && !found
        invariant forall j :: 0 <= j < k ==> record[c[j]].address != address
        decreases |c| - k
      {
        if record[tmp].address == address {
          found := true;
          break;
        }
        NextOf(h, c, buckets[..][h], record, k);
        if record[tmp].next == 0 {
          break;
        }
        tmp := record[tmp].next;
        k := k + 1;
      }
    }

    /** `create_breakpoint`, given the record that `udi_malloc` supplies, or 0. */
    method CreateBp(address: nat, supply: int) returns (bp: int)
      requires Ready() && (supply != 0 ==> supply !in record)
      modifies this`record, this`chains, buckets
      ensures Ready() && |old(chains)| == HASH_SIZE && |chains| == HASH_SIZE
      ensures supply == 0 ==> bp == 0
      ensures supply != 0 ==> Linked(bp) && record[bp].address == address
      ensures View() == CreateIn(old(View()), address, SupplyOf(supply, continueBp))
      ensures record.Keys <= old(record.Keys) + {supply}
    {
      hide StoreOK, TableOf, Lookup, StrayOf, ContOf, AddressChains, CreateIn;
      Shape(Now(), buckets[..]);
      bp := supply;
      ghost var w := View();
      CreateNone(w, address);
      if supply == 0 {
        return;
      }
      ghost var s, heads := Now(), buckets[..];
      var h := Hash(address);
      ghost var c := chains[h];
      ChainAt(s, heads, h);
      InTable(s, heads, address);
      if buckets[h] == 0 {
        EmptyChain(s, heads, address);
        AppendTable(s, heads, supply, address);
        AppendWorld(s, heads, supply, address, mem, continueBp, last);
        record := record[supply := Record(address, 0, false, 0)];
        buckets[h] := supply;
        chains := chains[h := c + [supply]];
        assert Now() == Appended(s, supply, address);
        assert buckets[..] == heads[h := supply];
      } else {
        ghost var k;
        var tmp, found;
        tmp, found, k := Scan(h, address);
        if found {
          LinkedLookup(s, heads, h, k);
          InTable(s, heads, record[tmp].address);
          CreateThere(w, address, SupplyOf(supply, continueBp));
          bp := tmp;
          return;
        }
        NotInChain(s, heads, address);
        AppendTable(s, heads, supply, address);
        AppendWorld(s, heads, supply, address, mem, continueBp, last);
        record := record[supply := Record(address, 0, false, 0)][tmp := record[tmp].(next := supply)];
        chains := chains[h := c + [supply]];
        assert Now() == Appended(s, supply, address);
        assert heads[h := heads[h]] == heads;
      }
    }

    /** Sets the saved byte and the flag of a record, which is in the table or that of the continue breakpoint. */
    method SetState(bp: int, saved: int, inMemory: bool)
      requires Ready() && bp != 0 && bp in record && (Linked(bp) || bp == continueBp)
      modifies this`record
      ensures Ready() && |chains| == HASH_SIZE && record.Keys == old(record.Keys)
      ensures record[bp] == old(record[bp]).(saved := saved, inMemory := inMemory) && (Linked(bp) <==> old(Linked(bp)))
      ensures Linked(bp) ==> View() == WithBp(old(View()), record[bp].address, Bp(saved, inMemory))
      ensures !Linked(bp) ==> View() == old(View()).(stray := Loose(record[bp].address, Bp(saved, inMemory)))
    {
      hide StoreOK, TableOf, Lookup, WorldOf;
      ghost var s, heads := Now(), buckets[..];
      Shape(s, heads);
      var r := record[bp].(saved := saved, inMemory := inMemory);
      if Linked(bp) {
        SetWorld(s, heads, bp, r, mem, continueBp, last);
        WithBpIs(s, mem, continueBp, last, r.address, Bp(saved, inMemory));
      } else {
        LooseWorld(s, heads, r, mem, continueBp, last);
      }
      record := record[bp := r];
      assert Now() == s.(record := s.record[bp := r]);
    }

    /**
     * `install_breakpoint`: saves the byte and writes the trap, unless it is flagged as in memory. The record is in the
     * table or that of the continue breakpoint.
     */
    method InstallBp(bp: int, canRead: bool, canWrite: bool) returns (ok: bool)
      requires Ready() && bp != 0 && bp in record && (Linked(bp) || bp == continueBp)
      modifies this`record, this`mem
      ensures Ready() && |chains| == HASH_SIZE && (Linked(bp) <==> old(Linked(bp))) && record.Keys == old(record.Keys)
      ensures record[bp].address == old(record[bp].address)
      ensures Linked(bp) ==>
                && old(record[bp].address in View().m.table)
                && View() == old(View()).(m := Install(old(View().m), old(record[bp].address), canRead, canWrite))
      ensures !Linked(bp) ==> old(View().stray.Loose?) && View() == InstallLoose(old(View()), canRead, canWrite)
      ensures ok <==> record[bp].inMemory
      ensures ok <==> old(record[bp].inMemory) || (canRead && canWrite)
    {
      hide StoreOK, TableOf, Lookup, AddressChains, ContOf, LinkedIn;
      Shape(Now(), buckets[..]);
      LinkedFacts(Now(), buckets[..], bp);
      ok := true;
      if !record[bp].inMemory {
        ok := false;
        if canRead {
          var a := record[bp].address;
          SetState(bp, ByteAt(mem, a), false);
          if canWrite {
            mem := mem[a := TRAP];
            SetState(bp, record[bp].saved, true);
            ok := true;
          }
        }
      }
    }

    /** `remove_breakpoint`: puts the byte back and clears the flag. */
    method RemoveBp(bp: int, canWrite: bool) returns (ok: bool)
      requires Ready() && Linked(bp)
      modifies this`record, this`mem
      ensures Ready() && Linked(bp) && record[bp].address == old(record[bp].address)
      ensures old(record[bp].address in View().m.table)
      ensures View() == old(View()).(m := Remove(old(View().m), old(record[bp].address), canWrite))
      ensures ok <==> !record[bp].inMemory
      ensures ok <==> !old(record[bp].inMemory) || canWrite
      ensures !ok ==> record == old(record) && mem == old(mem)
      ensures record.Keys == old(record.Keys)
    {
      hide StoreOK, TableOf, Lookup, StrayOf, AddressChains, ContOf;
      Shape(Now(), buckets[..]);
      InTable(Now(), buckets[..], record[bp].address);
      ok := true;
      if record[bp].inMemory {
        ok := canWrite;
        if canWrite {
          mem := mem[record[bp].address := record[bp].saved];
          SetState(bp, record[bp].saved, false);
        }
      }
    }

    /** `remove_breakpoint_for_continue`: puts the byte back and leaves the flag. */
    method LiftBp(bp: int, canWrite: bool) returns (ok: bool)
      requires Ready() && Linked(bp)
      modifies this`mem
      ensures Ready() && Linked(bp)
      ensures old(record[bp].address in View().m.table)
      ensures View() == old(View()).(m := Lift(old(View().m), record[bp].address, canWrite))
      ensures ok <==> !record[bp].inMemory || canWrite
    {
      hide StoreOK, TableOf, Lookup, StrayOf, AddressChains, ContOf;
      Shape(Now(), buckets[..]);
      InTable(Now(), buckets[..], record[bp].address);
      ok := true;
      if record[bp].inMemory {
        ok := canWrite;
        if canWrite {
          mem := mem[record[bp].address := record[bp].saved];
        }
      }
    }

    /** The search of `delete_breakpoint`: the record and the one before it, the same record if it is the head. */
    method FindPrev(h: nat, bp: int) returns (prev: int, tmp: int, ghost k: nat)
      requires Valid() && Linked(bp) && h == Hash(record[bp].address)
      ensures |chains| == HASH_SIZE && k < |chains[h]| && chains[h][k] == bp == tmp
      ensures prev == if k == 0 then tmp else chains[h][k - 1]
      ensures prev in record && (k > 0 ==> prev != tmp && chains[h][0] != bp)
      ensures k == IndexIn(chains[h], bp)
    {
      hide StoreOK, TableOf, Lookup;
      Shape(Now(), buckets[..]);
      ChainAt(Now(), buckets[..], h);
      LookupOK(Now(), buckets[..], record[bp].address);
      ghost var c := chains[h];
      ghost var n := IndexIn(c, bp);
      tmp, prev, k := buckets[h], buckets[h], 0;
      while tmp != 0
        invariant k <= n && tmp == c[k] && prev == if k == 0 then tmp else c[k - 1]
        decreases n - k
      {
        if record[tmp].address == record[bp].address {
          break;
        }
        NextOf(h, c, buckets[..][h], record, k);
        prev := tmp;
        tmp := record[prev].next;
        k := k + 1;
      }
    }

    /**
     * `delete_breakpoint`. Deleting the head of a longer chain empties the bucket; otherwise exactly the breakpoint goes.
     * The pointer to the continue breakpoint stays as it is.
     */
    method DeleteBp(bp: int, canWrite: bool) returns (ok: bool)
      requires Ready() && Linked(bp)
      modifies this`record, this`mem, this`chains, buckets
      ensures Ready() && |old(chains)| == HASH_SIZE && |chains| == HASH_SIZE
      ensures old(record[bp].address in View().m.table)
      ensures View() == DeleteIn(old(View()), old(record[bp].address), canWrite)
      ensures ok <==> Deletes(old(View().m), old(record[bp].address), canWrite)
    {
      hide StoreOK, TableOf, Lookup, StrayOf, AddressChains, ContOf, DeleteIn;
      ghost var heads := buckets[..];
      Shape(Now(), heads);
      InTable(Now(), heads, record[bp].address);
      ghost var w, a := View(), record[bp].address;
      ok := RemoveBp(bp, canWrite);
      if !ok {
        DeleteFails(w, a, canWrite);
        return;
      }
      ghost var s := Now();
      var h := Hash(record[bp].address);
      ghost var k;
      var prev, tmp;
      prev, tmp, k := FindPrev(h, bp);
      UnlinkWorld(s, heads, h, k, mem, continueBp, last, canWrite);
      RemovedFirst(w, a, canWrite);
      if prev == tmp {
        buckets[h] := 0;
        chains := chains[h := []];
        assert buckets[..] == heads[h := 0];
      } else {
        record := record[prev := record[prev].(next := record[tmp].next)];
        chains := chains[h := Without(chains[h], k)];
        assert heads[h := heads[h]] == heads;
      }
      record := record - {tmp};
      assert Now() == Unlinked(s, h, k);
    }

    /** The part of `continue_handler` that concerns breakpoints. A record that was freed is used all the same. */
    method ContinueRequest(canRead: bool, canWrite: bool) returns (r: Response)
      requires Ready()
      modifies this`record, this`mem
      ensures Ready() && |chains| == HASH_SIZE
      ensures r == Crash <==> Serve(old(View()), DoContinue(canRead, canWrite)) == Crashed
      ensures r != Crash ==> Running(View()) == Serve(old(View()), DoContinue(canRead, canWrite))
    {
      hide StoreOK, TableOf, Lookup, AddressChains;
      Shape(Now(), buckets[..]);
      if continueBp == 0 {
        return Done;
      }
      if continueBp !in record {
        return Crash;
      }
      LinkedFacts(Now(), buckets[..], continueBp);
      var ok := InstallBp(continueBp, canRead, canWrite);
      return Done;
    }

    /** Puts the trap of the breakpoint hit last back, if its record is still flagged. */
    method ReinstallLast(canRead: bool, canWrite: bool) returns (ok: bool)
      requires Ready()
      modifies this`record, this`mem, this`last
      ensures Ready() && |chains| == HASH_SIZE
      ensures View() == old(View()).(m := Reinstall(old(View().m), canRead, canWrite))
      ensures ok <==> Reinstalls(old(View().m), canRead, canWrite)
    {
      hide StoreOK, TableOf, Lookup, StrayOf, AddressChains, ContOf;
      Shape(Now(), buckets[..]);
      InTable(Now(), buckets[..], last);
      var original := Find(last);
      ok := true;
      if original != 0 {
        last := 0;
        if record[original].inMemory {
          SetState(original, record[original].saved, false);
          ok := InstallBp(original, canRead, canWrite);
        }
      }
    }

    /** The hit of the continue breakpoint, after it was lifted. */
    method ContinueHit(singleStep: bool, acc: Access, ghost w: World) returns (report: Report)
      requires Ready() && Linked(continueBp)
      requires var a := record[continueBp].address;
        && w.m.cont == a && a in w.m.table && (w.m.table[a].inMemory ==> acc.lift)
        && |chains| == HASH_SIZE && View() == w.(m := Lift(w.m, a, acc.lift))
      modifies this`record, this`mem, this`chains, this`continueBp, this`last, buckets
      ensures Ready() && |chains| == HASH_SIZE
      ensures View() == HitIn(w, old(record[continueBp].address), 0, acc)
      ensures report == ReportIn(w, old(record[continueBp].address), 0, singleStep, acc)
    {
      hide StoreOK, TableOf, Lookup, StrayOf, AddressChains, ContOf, DeleteIn, Reinstall, Reinstalls;
      ghost var a := record[continueBp].address;
      Shape(Now(), buckets[..]);
      PointerCleared(Now(), mem, continueBp, last);
      var bp := continueBp;
      continueBp := 0;
      var deleted := DeleteBp(bp, acc.remove);
      assert View() == Gone(w, a, acc);
      var installed := ReinstallLast(acc.read, acc.write);
      report := if !deleted || !installed then Failed else if singleStep then SingleStep else Silent;
    }

    /** `decode_breakpoint` for the hit of `bp`, which is no single-step breakpoint. */
    method Decode(bp: int, successor: nat, supply: int, singleStep: bool, acc: Access) returns (report: Report)
      requires Ready() && Linked(bp) && (supply != 0 ==> supply !in record) && (acc.alloc <==> supply != 0)
      modifies this`record, this`mem, this`chains, this`continueBp, this`last, buckets
      ensures Ready() && |old(chains)| == HASH_SIZE && |chains| == HASH_SIZE && old(record[bp].address in View().m.table)
      ensures View() == HitIn(old(View()), old(record[bp].address), successor, acc)
      ensures report == ReportIn(old(View()), old(record[bp].address), successor, singleStep, acc)
    {
      hide StoreOK, TableOf, Lookup, AddressChains, Gone, Reinstall, Reinstalls, CreateIn;
      ghost var w, a := View(), record[bp].address;
      Shape(Now(), buckets[..]);
      InTable(Now(), buckets[..], a);
      ContinueAddress(Now(), continueBp, bp);
      var lifted := LiftBp(bp, acc.lift);
      if !lifted {
        return Failed;
      }
      if continueBp == bp {
        report := ContinueHit(singleStep, acc, w);
        return;
      }
      if successor == 0 {
        return Failed;
      }
      report := NewContinue(bp, successor, supply, w, acc);
    }

    /** The hit of another breakpoint, after it was lifted: the successor becomes the continue breakpoint. */
    method NewContinue(bp: int, successor: nat, supply: int, ghost w: World, ghost acc: Access) returns (report: Report)
      requires Ready() && Linked(bp) && (supply != 0 ==> supply !in record) && (acc.alloc <==> supply != 0) && successor != 0
      requires var a := record[bp].address;
        && w.m.cont != a && a in w.m.table && (w.m.table[a].inMemory ==> acc.lift)
        && |chains| == HASH_SIZE && View() == w.(m := Lift(w.m, a, acc.lift))
      modifies this`record, this`chains, this`continueBp, this`last, buckets
      ensures Ready() && |chains| == HASH_SIZE
      ensures View() == HitIn(w, old(record[bp].address), successor, acc)
      ensures report == if supply == 0 then Failed else BreakpointHit(old(record[bp].address))
    {
      hide StoreOK, TableOf, Lookup, AddressChains;
      ghost var w1 := View();
      var address := record[bp].address;
      var created := CreateBp(successor, supply);
      continueBp := created;
      if continueBp == 0 {
        return Failed;
      }
      last := address;
      return BreakpointHit(address);
    }

    // ----- requests of the debugger

    /** `breakpoint_create_handler`. */
    method CreateRequest(address: nat, supply: int) returns (r: Response)
      requires Ready() && (supply != 0 ==> supply !in record)
      modifies this`record, this`chains, buckets
      ensures Ready() && |old(chains)| == HASH_SIZE && |chains| == HASH_SIZE && r != Crash
      ensures Running(View()) == Serve(old(View()), DoCreate(address, SupplyOf(supply, continueBp)))
      ensures r == Done <==> address !in old(View().m.table) && supply != 0
    {
      hide StoreOK, TableOf, Lookup, AddressChains, StrayOf, ContOf;
      Shape(Now(), buckets[..]);
      var bp := Find(address);
      if bp != 0 {
        return Refused;
      }
      bp := CreateBp(address, supply);
      return if bp == 0 then Refused else Done;
    }

    /** `breakpoint_install_handler`, which goes on without a breakpoint when the search found none. */
    method InstallRequest(address: nat, canRead: bool, canWrite: bool) returns (r: Response)
      requires Ready()
      modifies this`record, this`mem
      ensures Ready() && |chains| == HASH_SIZE
      ensures r == Crash <==> Serve(old(View()), DoInstall(address, canRead, canWrite)) == Crashed
      ensures r != Crash ==> Running(View()) == Serve(old(View()), DoInstall(address, canRead, canWrite))
      ensures r == Done <==> address in old(View().m.table) && (old(Wanted(View().m, address)) || (canRead && canWrite))
      ensures r == Done ==> Wanted(View().m, address)
    {
      hide StoreOK, TableOf, Lookup, AddressChains, StrayOf, ContOf;
      Shape(Now(), buckets[..]);
      var bp := Find(address);
      if bp == 0 {
        return Crash;
      }
      var ok := InstallBp(bp, canRead, canWrite);
      InTable(Now(), buckets[..], address);
      return if ok then Done else Refused;
    }

    /** `breakpoint_remove_handler`. */
    method RemoveRequest(address: nat, canWrite: bool) returns (r: Response)
      requires Ready()
      modifies this`record, this`mem
      ensures Ready() && |chains| == HASH_SIZE
      ensures r == Crash <==> Serve(old(View()), DoRemove(address, canWrite)) == Crashed
      ensures r != Crash ==> Running(View()) == Serve(old(View()), DoRemove(address, canWrite))
      ensures r == Done <==> address in old(View().m.table) && (old(Wanted(View().m, address)) ==> canWrite)
      ensures r == Done ==> !Wanted(View().m, address)
    {
      hide StoreOK, TableOf, Lookup, AddressChains, StrayOf, ContOf;
      Shape(Now(), buckets[..]);
      var bp := Find(address);
      if bp == 0 {
        return Crash;
      }
      var ok := RemoveBp(bp, canWrite);
      InTable(Now(), buckets[..], address);
      return if ok then Done else Refused;
    }

    /** `breakpoint_delete_handler`. */
    method DeleteRequest(address: nat, canWrite: bool) returns (r: Response)
      requires Ready()
      modifies this`record, this`mem, this`chains, buckets
      ensures Ready() && |old(chains)| == HASH_SIZE && |chains| == HASH_SIZE
      ensures r == Crash <==> Serve(old(View()), DoDelete(address, canWrite)) == Crashed
      ensures r != Crash ==> Running(View()) == Serve(old(View()), DoDelete(address, canWrite))
      ensures r == Done <==> Deletes(old(View().m), address, canWrite)
      ensures r == Done ==> address !in View().m.table
    {
      hide StoreOK, TableOf, Lookup, AddressChains, StrayOf, ContOf;
      Shape(Now(), buckets[..]);
      var bp := Find(address);
      if bp == 0 {
        return Crash;
      }
      var ok := DeleteBp(bp, canWrite);
      return if ok then Done else Refused;
    }

    // ----- a whole step-over

    /** Stepping over a breakpoint restores the table, its chains and memory, and puts the trap back. */
    method StepOverBp(bp: int, s: nat, s': nat, supply: int, singleStep: bool) returns (first: Report, second: Report)
      requires Ready() && |chains| == HASH_SIZE && Linked(bp) && record[bp].inMemory && continueBp == 0
      requires supply != 0 && supply !in record && 0 < s != record[bp].address && s !in TableOf(Now()) && WorldOK(View())
      requires record[bp].address in mem && mem[record[bp].address] == TRAP && s in mem
      modifies this`record, this`mem, this`chains, this`continueBp, this`last, buckets
      ensures Ready() && |chains| == HASH_SIZE && View() == old(View()).(m := old(View().m).(last := 0))
      ensures first == BreakpointHit(old(record[bp].address)) && second == if singleStep then SingleStep else Silent
    {
      hide StoreOK, TableOf, Lookup, AddressChains, WorldOK, HitIn, ReportIn, ContinueIn;
      ghost var w, a := View(), record[bp].address;
      Shape(Now(), buckets[..]);
      InTable(Now(), buckets[..], a);
      StepOverWorld(w, a, s, s', singleStep);
      first := Decode(bp, s, supply, false, ALL);
      var r := ContinueRequest(true, true);
      var p := Find(s);
      second := Decode(p, s', 0, singleStep, ALL.(alloc := false));
    }
  }

  function SupplyOf(supply: int, continueBp: int): (r: Supply) {
    if supply == 0 then NoMemory else if supply == continueBp then FreedMemory else NewMemory
  }

  function WithBp(w: World, a: int, b: Bp): (w': World) {
    w.(m := w.m.(table := w.m.table[a := b]))
  }

  lemma WithBpIs(s: Store, mem: map<int, int>, q: int, last: int, a: int, b: Bp)
    requires |s.chains| == HASH_SIZE
    ensures var w := WorldOf(s, mem, q, last); WithBp(w, a, b) == w.(m := w.m.(table := w.m.table[a := b]))
  {
  }

  lemma CreateNone(w: World, a: nat)
    ensures CreateIn(w, a, NoMemory) == w
  {
  }

  lemma CreateThere(w: World, a: nat, supply: Supply)
    requires a in w.m.table
    ensures CreateIn(w, a, supply) == w
  {
  }

  lemma DeleteFails(w: World, a: nat, canWrite: bool)
    requires a in w.m.table && !Deletes(w.m, a, canWrite)
    ensures DeleteIn(w, a, canWrite) == w
  {
  }

  /** Taking the trap out first makes no difference to a deletion. */
  lemma RemovedFirst(w: World, a: nat, canWrite: bool)
    requires a in w.m.table && Deletes(w.m, a, canWrite)
    ensures DeleteIn(w.(m := Remove(w.m, a, canWrite)), a, canWrite) == DeleteIn(w, a, canWrite)
  {
    hide Heads, Dropped;
    var m' := Remove(w.m, a, canWrite);
    assert m'.table - {a} == w.m.table - {a};
    assert Elsewhere(m'.table, Hash(a)) == Elsewhere(w.m.table, Hash(a));
  }

  lemma PointerCleared(s: Store, mem: map<int, int>, q: int, last: int)
    requires |s.chains| == HASH_SIZE && LinkedIn(s, q)
    ensures var w := WorldOf(s, mem, q, last);
            WorldOf(s, mem, 0, last) == w.(m := w.m.(cont := NONE)) && w.stray == NoStray
  {
  }

  /** Away from the head of a longer chain, the hit of the continue breakpoint does what the finite map does. */
  lemma MapHit(w: World, s: nat, s': nat, singleStep: bool)
    requires w.m.cont == s && s in w.m.table && !Heads(w.chains, s)
    ensures HitIn(w, s, s', ALL.(alloc := false)) == World(Hit(w.m, s, s'), Dropped(w.chains, s), w.stray)
    ensures ReportIn(w, s, s', singleStep, ALL.(alloc := false)) == HitReport(w.m, s, s', singleStep)
  {
    hide Dropped, Heads, Reinstall, Reinstalls;
  }

  lemma {:induction false} RemovedLast(c: seq<int>, a: int)
    requires a !in c
    ensures Removed(c + [a], a) == c
  {
    if c != [] {
      RemovedLast(c[1..], a);
      assert (c + [a])[1..] == c[1..] + [a];
    }
  }

  /** An address that was appended to its chain and is dropped again. */
  lemma DroppedLast(chains: seq<seq<int>>, s: nat)
    requires |chains| == HASH_SIZE && s !in Bucket(chains, s)
    ensures Dropped(AppendedTo(chains, s), s) == chains && !Heads(AppendedTo(chains, s), s)
  {
    var c := Bucket(chains, s);
    RemovedLast(c, s);
    assert Bucket(AppendedTo(chains, s), s) == c + [s];
    if c != [] {
      assert (c + [s])[0] == c[0] && c[0] in c;
    }
  }

  /** The continue breakpoint of a step-over is last in its chain, so that nothing else goes with it. */
  lemma StepOverWorld(w: World, b: nat, s: nat, s': nat, singleStep: bool)
    requires WorldOK(w) && Wanted(w.m, b) && w.m.cont == NONE && w.stray == NoStray && 0 < s != b && s !in w.m.table
    requires w.m.mem.Keys >= {b, s} && w.m.mem[b] == TRAP
    ensures var w1 := HitIn(w, b, s, ALL);
      && ReportIn(w, b, s, false, ALL) == BreakpointHit(b)
      && HasCont(w1.m) && w1.m.cont == s
      && var w2 := Continued(w1);
      && ContinueIn(w1, true, true) == Running(w2) && s in w2.m.table
      && HitIn(w2, s, s', ALL.(alloc := false)) == w.(m := w.m.(last := 0))
      && ReportIn(w2, s, s', singleStep, ALL.(alloc := false)) == if singleStep then SingleStep else Silent
  {
    var w1 := HitIn(w, b, s, ALL);
    HitPending(w, b, s);
    PendingDone(w1, b, s, s', w.m.table[b].saved, Lifted);
    HitBucket(w, b, s);
    var w2 := Continued(w1);
    assert w1.chains == AppendedTo(w.chains, s);
    StepOver(w.m, b, s, s');
    StepOverAny(w.m, b, s, s');
    DroppedLast(w.chains, s);
    MapHit(w2, s, s', singleStep);
  }

  lemma ChainAt(s: Store, heads: seq<int>, i: nat)
    requires StoreOK(s, heads) && i < HASH_SIZE
    ensures |s.chains| == |heads| == HASH_SIZE && ChainOK(i, s.chains[i], heads[i], s.record)
  {
    hide ChainOK;
  }

  /** A record that is in the table, and what the table says of it. */
  lemma LinkedFacts(s: Store, heads: seq<int>, p: int)
    requires StoreOK(s, heads) && p != 0 && p in s.record
    ensures LinkedIn(s, p) ==>
              && s.record[p].address >= 0 && s.record[p].address in TableOf(s)
              && TableOf(s)[s.record[p].address] == Bp(s.record[p].saved, s.record[p].inMemory)
  {
    hide StoreOK, TableOf, Lookup;
    Shape(s, heads);
    if LinkedIn(s, p) {
      InTable(s, heads, s.record[p].address);
    }
  }

  /** The continue breakpoint is at the address of a record in the table exactly when it is that record. */
  lemma ContinueAddress(s: Store, p: int, q: int)
    requires LinkedIn(s, q)
    ensures ContOf(s, p) == s.record[q].address <==> p == q
  {
  }

  ghost function IndexIn(c: seq<int>, p: int): (k: nat)
    requires p in c
    ensures k < |c| && c[k] == p
  {
    if c[0] == p then 0 else 1 + IndexIn(c[1..], p)
  }

  lemma NextOf(i: nat, c: seq<int>, head: int, record: map<int, Record>, k: nat)
    requires ChainOK(i, c, head, record) && k < |c|
    ensures c[k] in record && c[k] != 0
    ensures record[c[k]].next == if k + 1 < |c| then c[k + 1] else 0
    ensures k + 1 < |c| ==> c[k + 1] != 0
  {
    assert NextOK(c, record, k);
  }

  lemma EmptyChain(s: Store, heads: seq<int>, a: nat)
    requires StoreOK(s, heads) && heads[Hash(a)] == 0
    ensures s.chains[Hash(a)] == [] && Lookup(s, a) == 0
  {
    ChainAt(s, heads, Hash(a));
  }

  lemma NotInChain(s: Store, heads: seq<int>, a: nat)
    requires StoreOK(s, heads)
    requires forall p :: p in s.chains[Hash(a)] ==> p in s.record && s.record[p].address != a
    ensures Lookup(s, a) == 0
  {
    hide StoreOK;
    Shape(s, heads);
    LookupOK(s, heads, a);
  }
}
