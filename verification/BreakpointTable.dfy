/** The hash table of breakpoints as the runtime keeps it: buckets of chained records. */
module BreakpointTable {
  import opened Bytes
  import opened Breakpoints

  const HASH_SIZE := 256

  datatype Record = Record(address: int, saved: int, inMemory: bool, next: int)

  /** Records by pointer, and the chain of each bucket. */
  datatype Store = Store(chains: seq<seq<int>>, record: map<int, Record>)

  function Hash(address: nat): (h: nat)
    ensures h < HASH_SIZE
  {
    address % HASH_SIZE
  }

  ghost predicate NextOK(c: seq<int>, record: map<int, Record>, k: nat)
    requires k < |c|
  {
    c[k] in record && record[c[k]].next == if k + 1 < |c| then c[k + 1] else 0
  }

  /** The chain is linked from `head`, its records hash to `i`, and their addresses differ. */
  ghost predicate ChainOK(i: nat, c: seq<int>, head: int, record: map<int, Record>) {
    && head == (if c == [] then 0 else c[0])
    && (forall k :: 0 <= k < |c| ==> c[k] != 0 && c[k] in record && record[c[k]].address >= 0 && Hash(record[c[k]].address) == i)
    && (forall k :: 0 <= k < |c| ==> NextOK(c, record, k))
    && (forall j, k :: 0 <= j < k < |c| ==> record[c[j]].address != record[c[k]].address)
  }

  ghost predicate StoreOK(s: Store, heads: seq<int>) {
    && |s.chains| == HASH_SIZE && |heads| == HASH_SIZE
    && forall i :: 0 <= i < HASH_SIZE ==> ChainOK(i, s.chains[i], heads[i], s.record)
  }

  /** The record in chain `c` for an address, 0 if there is none. */
  ghost function Search(c: seq<int>, record: map<int, Record>, a: int): (p: int) {
    if c == [] then 0
    else if c[0] in record && record[c[0]].address == a then c[0]
    else Search(c[1..], record, a)
  }

  ghost function Lookup(s: Store, a: nat): (p: int)
    requires |s.chains| == HASH_SIZE
  {
    Search(s.chains[Hash(a)], s.record, a)
  }

  lemma {:induction false} SearchFinds(c: seq<int>, record: map<int, Record>, a: int)
    requires forall k :: 0 <= k < |c| ==> c[k] != 0 && c[k] in record
    ensures Search(c, record, a) != 0 <==> exists k :: 0 <= k < |c| && record[c[k]].address == a
    ensures Search(c, record, a) != 0 ==>
              Search(c, record, a) in c && Search(c, record, a) in record && record[Search(c, record, a)].address == a
  {
    if c != [] {
      var rest := c[1..];
      SearchFinds(rest, record, a);
      if record[c[0]].address != a {
        if exists k :: 0 <= k < |c| && record[c[k]].address == a {
          var k :| 0 <= k < |c| && record[c[k]].address == a;
          assert rest[k - 1] == c[k];
        }
      }
    }
  }

  /** The addresses that records carry, linked or not. */
  ghost function Known(s: Store): (r: set<int>) {
    set p | p in s.record :: s.record[p].address
  }

  /** The finite map that the table stands for. */
  ghost function TableOf(s: Store): (t: map<int, Bp>)
    requires |s.chains| == HASH_SIZE
  {
    map a | a in Known(s) && a >= 0 && Lookup(s, a) != 0 && Lookup(s, a) in s.record ::
      Bp(s.record[Lookup(s, a)].saved, s.record[Lookup(s, a)].inMemory)
  }

  lemma LookupOK(s: Store, heads: seq<int>, a: nat)
    requires StoreOK(s, heads)
    ensures Lookup(s, a) != 0 ==>
              && Lookup(s, a) in s.chains[Hash(a)] && Lookup(s, a) in s.record && s.record[Lookup(s, a)].address == a
    ensures Lookup(s, a) == 0 ==> forall p :: p in s.chains[Hash(a)] ==> p in s.record && s.record[p].address != a
  {
    var c := s.chains[Hash(a)];
    assert ChainOK(Hash(a), c, heads[Hash(a)], s.record);
    SearchFinds(c, s.record, a);
  }

  /** A linked record is the one that a search for its address finds. */
  lemma LinkedLookup(s: Store, heads: seq<int>, i: nat, k: nat)
    requires StoreOK(s, heads) && i < HASH_SIZE && k < |s.chains[i]|
    ensures var p := s.chains[i][k];
      && p in s.record && s.record[p].address >= 0 && Hash(s.record[p].address) == i
      && Lookup(s, s.record[p].address) == p
  {
    var c := s.chains[i];
    assert ChainOK(i, c, heads[i], s.record);
    SearchAt(c, s.record, k);
  }

  lemma {:induction false} SearchAt(c: seq<int>, record: map<int, Record>, k: nat)
    requires k < |c| && forall j :: 0 <= j < |c| ==> c[j] != 0 && c[j] in record
    requires forall j, k :: 0 <= j < k < |c| ==> record[c[j]].address != record[c[k]].address
    ensures Search(c, record, record[c[k]].address) == c[k]
  {
    if k > 0 {
      var rest := c[1..];
      assert rest[k - 1] == c[k];
      SearchAt(rest, record, k - 1);
    }
  }

  /** The table holds exactly the addresses that a search finds. */
  lemma InTable(s: Store, heads: seq<int>, a: int)
    requires StoreOK(s, heads)
    ensures a in TableOf(s) <==> a >= 0 && Lookup(s, a) != 0
    ensures a >= 0 && Lookup(s, a) != 0 ==>
              var r := s.record[Lookup(s, a)]; TableOf(s)[a] == Bp(r.saved, r.inMemory)
  {
    if a >= 0 {
      LookupOK(s, heads, a);
      var p := Lookup(s, a);
      if p in s.record {
        assert s.record[p].address in Known(s);
      }
    }
  }

  // ----- updates

  /** A record changes its saved byte and flag. */
  lemma {:induction false} SearchSame(c: seq<int>, record: map<int, Record>, record': map<int, Record>, a: int)
    requires forall k :: 0 <= k < |c| ==> c[k] in record && c[k] in record' && record'[c[k]].address == record[c[k]].address
    ensures Search(c, record', a) == Search(c, record, a)
  {
    if c != [] {
      SearchSame(c[1..], record, record', a);
    }
  }

  /** Chains and addresses are the same, so every search has the same answer. */
  lemma LookupSame(s: Store, heads: seq<int>, s': Store, a: nat)
    requires StoreOK(s, heads) && s'.chains == s.chains
    requires forall p :: p in s.record ==> p in s'.record && s'.record[p].address == s.record[p].address
    ensures Lookup(s', a) == Lookup(s, a)
  {
    assert ChainOK(Hash(a), s.chains[Hash(a)], heads[Hash(a)], s.record);
    SearchSame(s.chains[Hash(a)], s.record, s'.record, a);
  }

  lemma SetRecordStore(s: Store, heads: seq<int>, p: int, r: Record)
    requires StoreOK(s, heads) && p in s.record && r.address == s.record[p].address && r.next == s.record[p].next
    ensures StoreOK(s.(record := s.record[p := r]), heads)
  {
    var s' := s.(record := s.record[p := r]);
    forall i | 0 <= i < HASH_SIZE
      ensures ChainOK(i, s'.chains[i], heads[i], s'.record)
    {
      var c := s.chains[i];
      assert ChainOK(i, c, heads[i], s.record);
      forall k | 0 <= k < |c|
        ensures NextOK(c, s'.record, k)
      {
        assert NextOK(c, s.record, k);
      }
    }
  }

  lemma SetRecord(s: Store, heads: seq<int>, p: int, r: Record)
    requires StoreOK(s, heads) && p in s.record && r.address == s.record[p].address >= 0 && r.next == s.record[p].next
    requires Lookup(s, r.address) == p && p != 0
    ensures var s' := s.(record := s.record[p := r]);
      StoreOK(s', heads) && TableOf(s') == TableOf(s)[r.address := Bp(r.saved, r.inMemory)]
  {
    hide StoreOK, Lookup;
    var s' := s.(record := s.record[p := r]);
    SetRecordStore(s, heads, p, r);
    Shape(s, heads);
    var t := TableOf(s)[r.address := Bp(r.saved, r.inMemory)];
    forall a
      ensures (a in TableOf(s') <==> a in t) && (a in t ==> TableOf(s')[a] == t[a])
    {
      InTable(s, heads, a);
      InTable(s', heads, a);
      if a >= 0 {
        LookupSame(s, heads, s', a);
        LookupOK(s, heads, a);
      }
    }
  }

  /** A chain whose records did not change. */
  lemma ChainFrame(s: Store, heads: seq<int>, s': Store, i: nat)
    requires StoreOK(s, heads) && i < HASH_SIZE && i < |s'.chains| && s'.chains[i] == s.chains[i]
    requires forall k :: 0 <= k < |s.chains[i]| ==>
               s.chains[i][k] in s.record && s.chains[i][k] in s'.record && s'.record[s.chains[i][k]] == s.record[s.chains[i][k]]
    ensures ChainOK(i, s'.chains[i], heads[i], s'.record)
  {
    var c := s.chains[i];
    assert ChainOK(i, c, heads[i], s.record);
    hide StoreOK;
    forall k | 0 <= k < |c|
      ensures NextOK(c, s'.record, k)
    {
      assert NextOK(c, s.record, k);
    }
  }

  /** The chain of bucket `h` is replaced; other chains and their records stay. */
  lemma SetChain(s: Store, heads: seq<int>, s': Store, h: nat, head: int)
    requires StoreOK(s, heads) && h < HASH_SIZE && |s'.chains| == HASH_SIZE && s'.chains == s.chains[h := s'.chains[h]]
    requires ChainOK(h, s'.chains[h], head, s'.record)
    requires forall i, k :: 0 <= i < HASH_SIZE && i != h && 0 <= k < |s.chains[i]| ==>
               var p := s.chains[i][k]; p in s.record && p in s'.record && s'.record[p] == s.record[p]
    ensures StoreOK(s', heads[h := head])
    ensures forall a: nat :: Hash(a) != h ==> Lookup(s', a) == Lookup(s, a)
  {
    var heads' := heads[h := head];
    forall i | 0 <= i < HASH_SIZE
      ensures ChainOK(i, s'.chains[i], heads'[i], s'.record)
    {
      if i != h {
        ChainFrame(s, heads, s', i);
      }
    }
    forall a: nat | Hash(a) != h
      ensures Lookup(s', a) == Lookup(s, a)
    {
      assert s'.chains[Hash(a)] == s.chains[Hash(a)];
      SearchSame(s.chains[Hash(a)], s.record, s'.record, a);
    }
  }

  lemma Shape(s: Store, heads: seq<int>)
    requires StoreOK(s, heads)
    ensures |s.chains| == HASH_SIZE && |heads| == HASH_SIZE
  {
    hide ChainOK;
  }

  /** What the table says, address by address. */
  lemma TableFacts(s: Store, heads: seq<int>)
    requires StoreOK(s, heads)
    ensures forall x :: x in TableOf(s) ==> x >= 0
    ensures forall x: nat :: x in TableOf(s) <==> Lookup(s, x) != 0
    ensures forall x: nat :: Lookup(s, x) != 0 ==>
              Lookup(s, x) in s.record && TableOf(s)[x] == Bp(s.record[Lookup(s, x)].saved, s.record[Lookup(s, x)].inMemory)
  {
    Shape(s, heads);
    hide StoreOK, Lookup;
    forall x
      ensures x in TableOf(s) ==> x >= 0
    {
      InTable(s, heads, x);
    }
    forall x: nat
      ensures x in TableOf(s) <==> Lookup(s, x) != 0
      ensures Lookup(s, x) != 0 ==>
                Lookup(s, x) in s.record && TableOf(s)[x] == Bp(s.record[Lookup(s, x)].saved, s.record[Lookup(s, x)].inMemory)
    {
      InTable(s, heads, x);
      LookupOK(s, heads, x);
    }
  }

  /** Two tables agree when searches for every address find equal entries. */
  lemma SameTable(s: Store, heads: seq<int>, t: map<int, Bp>)
    requires StoreOK(s, heads)
    requires forall a :: a in t ==> a >= 0
    requires forall a: nat :: Lookup(s, a) != 0 <==> a in t
    requires forall a: nat :: a in t && Lookup(s, a) in s.record ==>
               t[a] == Bp(s.record[Lookup(s, a)].saved, s.record[Lookup(s, a)].inMemory)
    ensures TableOf(s) == t
  {
    hide StoreOK, Lookup, TableOf;
    Shape(s, heads);
    TableFacts(s, heads);
    forall a
      ensures (a in TableOf(s) <==> a in t) && (a in t ==> TableOf(s)[a] == t[a])
    {
      if a >= 0 {
        var x: nat := a;
        assert Lookup(s, x) != 0 <==> x in t;
      }
    }
  }

  lemma {:induction false} SearchAppend(c: seq<int>, record: map<int, Record>, p: int, a: int)
    requires forall k :: 0 <= k < |c| ==> c[k] != 0 && c[k] in record
    requires p in record && p != 0
    ensures Search(c + [p], record, a) ==
            if Search(c, record, a) != 0 then Search(c, record, a) else if record[p].address == a then p else 0
  {
    if c == [] {
      assert c + [p] == [p];
      assert [p][1..] == [];
    } else {
      assert (c + [p])[1..] == c[1..] + [p];
      SearchAppend(c[1..], record, p, a);
    }
  }

  /** The store with a new record at the end of its chain. */
  ghost function Appended(s: Store, p: int, a: nat): (s': Store)
    requires |s.chains| == HASH_SIZE
  {
    var c, r := s.chains[Hash(a)], s.record[p := Record(a, 0, false, 0)];
    Store(s.chains[Hash(a) := c + [p]],
          if c != [] && c[|c| - 1] in s.record then r[c[|c| - 1] := s.record[c[|c| - 1]].(next := p)] else r)
  }

  lemma AppendChain(s: Store, heads: seq<int>, p: int, a: nat)
    requires StoreOK(s, heads) && p != 0 && p !in s.record && Lookup(s, a) == 0
    ensures var h := Hash(a);
      ChainOK(h, Appended(s, p, a).chains[h], if heads[h] == 0 then p else heads[h], Appended(s, p, a).record)
  {
    var h := Hash(a);
    LookupOK(s, heads, a);
    var c, s' := s.chains[h], Appended(s, p, a);
    assert ChainOK(h, c, heads[h], s.record);
    forall k | 0 <= k <= |c|
      ensures NextOK(c + [p], s'.record, k)
    {
      if k < |c| {
        assert NextOK(c, s.record, k);
      }
    }
  }

  lemma AppendOthers(s: Store, heads: seq<int>, p: int, a: nat)
    requires StoreOK(s, heads) && p != 0 && p !in s.record
    ensures forall i, k :: 0 <= i < HASH_SIZE && i != Hash(a) && 0 <= k < |s.chains[i]| ==>
              var q := s.chains[i][k]; q in s.record && q in Appended(s, p, a).record && Appended(s, p, a).record[q] == s.record[q]
  {
    var h := Hash(a);
    assert ChainOK(h, s.chains[h], heads[h], s.record);
    forall i, k | 0 <= i < HASH_SIZE && i != h && 0 <= k < |s.chains[i]|
      ensures var q := s.chains[i][k]; q in s.record && q in Appended(s, p, a).record && Appended(s, p, a).record[q] == s.record[q]
    {
      assert ChainOK(i, s.chains[i], heads[i], s.record);
    }
  }

  /** Appending a record adds its address to the finite map. */
  lemma AppendTable(s: Store, heads: seq<int>, p: int, a: nat)
    requires StoreOK(s, heads) && p != 0 && p !in s.record && Lookup(s, a) == 0
    ensures var h := Hash(a);
      StoreOK(Appended(s, p, a), heads[h := if heads[h] == 0 then p else heads[h]])
    ensures TableOf(Appended(s, p, a)) == TableOf(s)[a := Bp(0, false)] && a !in TableOf(s)
    ensures Lookup(Appended(s, p, a), a) == p
  {
    hide StoreOK, Lookup, TableOf, ChainOK;
    Shape(s, heads);
    var h, s' := Hash(a), Appended(s, p, a);
    var heads' := heads[h := if heads[h] == 0 then p else heads[h]];
    AppendChain(s, heads, p, a);
    AppendOthers(s, heads, p, a);
    SetChain(s, heads, s', h, if heads[h] == 0 then p else heads[h]);
    TableFacts(s, heads);
    var t := TableOf(s)[a := Bp(0, false)];
    forall x: nat
      ensures Lookup(s', x) == if x == a then p else Lookup(s, x)
      ensures x != a && Lookup(s, x) != 0 ==>
                s'.record[Lookup(s, x)].saved == s.record[Lookup(s, x)].saved
                && s'.record[Lookup(s, x)].inMemory == s.record[Lookup(s, x)].inMemory
    {
      AppendLookup(s, heads, p, a, x);
      LookupOK(s, heads, x);
    }
    AppendNew(s, heads, p, a);
    SameTable(s', heads', t);
  }

  lemma AppendNew(s: Store, heads: seq<int>, p: int, a: nat)
    requires StoreOK(s, heads) && p != 0 && p !in s.record
    ensures p in Appended(s, p, a).record && Appended(s, p, a).record[p] == Record(a, 0, false, 0)
  {
    var h := Hash(a);
    assert ChainOK(h, s.chains[h], heads[h], s.record);
  }

  lemma AppendLookup(s: Store, heads: seq<int>, p: int, a: nat, x: nat)
    requires StoreOK(s, heads) && p != 0 && p !in s.record && Lookup(s, a) == 0
    ensures Lookup(Appended(s, p, a), x) == if x == a then p else Lookup(s, x)
  {
    var h, s' := Hash(a), Appended(s, p, a);
    AppendOthers(s, heads, p, a);
    AppendChain(s, heads, p, a);
    if Hash(x) != h {
      hide ChainOK;
      SetChain(s, heads, s', h, if heads[h] == 0 then p else heads[h]);
    } else {
      var c := s.chains[h];
      assert ChainOK(h, c, heads[h], s.record);
      SearchSame(c, s.record, s'.record, x);
      SearchAppend(c, s'.record, p, x);
      SearchFinds(c, s.record, x);
    }
  }

  // ----- deletion

  function Without(c: seq<int>, k: nat): (r: seq<int>)
    requires k < |c|
  {
    c[..k] + c[k + 1..]
  }

  /** The store after `delete_breakpoint` found the record at position `k` of bucket `h`: the head takes the bucket with it. */
  ghost function Unlinked(s: Store, h: nat, k: nat): (s': Store)
    requires h < |s.chains| && k < |s.chains[h]|
  {
    var c := s.chains[h];
    var p := c[k];
    if k == 0 then Store(s.chains[h := []], s.record - {p})
    else if c[k - 1] in s.record && p in s.record then
      Store(s.chains[h := Without(c, k)], s.record[c[k - 1] := s.record[c[k - 1]].(next := s.record[p].next)] - {p})
    else s
  }

  lemma UnlinkOthers(s: Store, heads: seq<int>, h: nat, k: nat)
    requires StoreOK(s, heads) && h < HASH_SIZE && k < |s.chains[h]|
    ensures forall i, j :: 0 <= i < HASH_SIZE && i != h && 0 <= j < |s.chains[i]| ==>
              var q := s.chains[i][j]; q in s.record && q in Unlinked(s, h, k).record && Unlinked(s, h, k).record[q] == s.record[q]
  {
    assert ChainOK(h, s.chains[h], heads[h], s.record);
    forall i, j | 0 <= i < HASH_SIZE && i != h && 0 <= j < |s.chains[i]|
      ensures var q := s.chains[i][j]; q in s.record && q in Unlinked(s, h, k).record && Unlinked(s, h, k).record[q] == s.record[q]
    {
      assert ChainOK(i, s.chains[i], heads[i], s.record);
    }
  }

  lemma UnlinkChain(s: Store, heads: seq<int>, h: nat, k: nat)
    requires StoreOK(s, heads) && h < HASH_SIZE && k < |s.chains[h]|
    ensures ChainOK(h, Unlinked(s, h, k).chains[h], if k == 0 then 0 else heads[h], Unlinked(s, h, k).record)
  {
    var c, s' := s.chains[h], Unlinked(s, h, k);
    assert ChainOK(h, c, heads[h], s.record);
    hide StoreOK;
    if k > 0 {
      var c' := Without(c, k);
      assert s'.chains[h] == c';
      forall j | 0 <= j < |c'|
        ensures c'[j] == (if j < k then c[j] else c[j + 1]) && c'[j] != c[k]
      {
      }
      forall j | 0 <= j < |c'|
        ensures NextOK(c', s'.record, j)
      {
        assert NextOK(c, s.record, if j < k then j else j + 1) && NextOK(c, s.record, k);
      }
    }
  }

  /** A search through the shortened chain. */
  lemma {:induction false} SearchWithout(c: seq<int>, record: map<int, Record>, k: nat, a: int)
    requires k < |c| && forall j :: 0 <= j < |c| ==> c[j] != 0 && c[j] in record
    requires record[c[k]].address != a
    ensures Search(Without(c, k), record, a) == Search(c, record, a)
  {
    if k == 0 {
      assert Without(c, 0) == c[1..];
    } else {
      assert Without(c, k)[1..] == Without(c[1..], k - 1);
      assert c[1..][k - 1] == c[k];
      SearchWithout(c[1..], record, k - 1, a);
    }
  }

  /** The breakpoints of all buckets but `h`. */
  function Elsewhere(t: map<int, Bp>, h: nat): (t': map<int, Bp>) {
    map a | a in t && a % HASH_SIZE != h :: t[a]
  }

  // ----- chains of addresses

  /** The addresses in the bucket of an address. */
  function Bucket(chains: seq<seq<int>>, a: int): (c: seq<int>) {
    if a >= 0 && |chains| == HASH_SIZE then chains[a % HASH_SIZE] else []
  }

  function WithBucket(chains: seq<seq<int>>, a: int, c: seq<int>): (r: seq<seq<int>>)
    ensures |r| == |chains|
  {
    if a >= 0 && |chains| == HASH_SIZE then chains[a % HASH_SIZE := c] else chains
  }

  function AppendedTo(chains: seq<seq<int>>, a: int): (r: seq<seq<int>>) {
    WithBucket(chains, a, Bucket(chains, a) + [a])
  }

  /** The address is first in a bucket that holds more. */
  predicate Heads(chains: seq<seq<int>>, a: int) {
    var c := Bucket(chains, a);
    |c| > 1 && c[0] == a
  }

  function Removed(c: seq<int>, a: int): (r: seq<int>) {
    if c == [] then [] else if c[0] == a then c[1..] else [c[0]] + Removed(c[1..], a)
  }

  /** The chains after a deletion: the head takes the bucket with it. */
  function Dropped(chains: seq<seq<int>>, a: int): (r: seq<seq<int>>) {
    var c := Bucket(chains, a);
    WithBucket(chains, a, if c != [] && c[0] == a then [] else Removed(c, a))
  }

  predicate NoRepeats(c: seq<int>) {
    forall j, k :: 0 <= j < k < |c| ==> c[j] != c[k]
  }

  /** The chains list the addresses of the table, each once, in its own bucket. */
  ghost predicate ChainsOK(chains: seq<seq<int>>, table: map<int, Bp>) {
    && |chains| == HASH_SIZE
    && (forall a :: a in table ==> a >= 0 && a in chains[a % HASH_SIZE])
    && (forall i, a :: 0 <= i < HASH_SIZE && a in chains[i] ==> a in table && a % HASH_SIZE == i)
    && (forall i :: 0 <= i < HASH_SIZE ==> NoRepeats(chains[i]))
  }

  lemma {:induction false} RemovedIn(c: seq<int>, a: int)
    requires NoRepeats(c)
    ensures NoRepeats(Removed(c, a)) && forall x :: x in Removed(c, a) <==> x in c && x != a
  {
    if c != [] {
      var rest := c[1..];
      assert forall x :: x in c <==> x == c[0] || x in rest;
      assert c[0] !in rest;
      RemovedIn(rest, a);
      if c[0] != a {
        NoRepeatsCons(c[0], Removed(rest, a));
      }
    }
  }

  lemma NoRepeatsCons(x: int, c: seq<int>)
    requires NoRepeats(c) && x !in c
    ensures NoRepeats([x] + c)
  {
  }

  lemma NoRepeatsSnoc(c: seq<int>, x: int)
    requires NoRepeats(c) && x !in c
    ensures NoRepeats(c + [x])
  {
  }

  /** The bucket of `a` is replaced, and the table changes only there. */
  lemma BucketReplaced(chains: seq<seq<int>>, table: map<int, Bp>, a: nat, c: seq<int>, table': map<int, Bp>)
    requires ChainsOK(chains, table) && NoRepeats(c)
    requires forall x :: x in c ==> x in table' && x % HASH_SIZE == Hash(a)
    requires forall x :: x in table' ==> x >= 0 && (x % HASH_SIZE == Hash(a) ==> x in c)
    requires forall x :: x % HASH_SIZE != Hash(a) ==> (x in table' <==> x in table)
    ensures ChainsOK(WithBucket(chains, a, c), table')
  {
    var r := WithBucket(chains, a, c);
    forall i | 0 <= i < HASH_SIZE
      ensures NoRepeats(r[i]) && forall x :: x in r[i] ==> x in table' && x % HASH_SIZE == i
    {
      if i != Hash(a) {
        assert r[i] == chains[i];
        forall x | x in chains[i]
          ensures x in table' && x % HASH_SIZE == i
        {
          assert x in table;
        }
      }
    }
  }

  lemma AppendedChains(chains: seq<seq<int>>, table: map<int, Bp>, a: nat, b: Bp)
    requires ChainsOK(chains, table) && a !in table
    ensures ChainsOK(AppendedTo(chains, a), table[a := b])
  {
    var c := Bucket(chains, a);
    assert a !in chains[Hash(a)];
    NoRepeatsSnoc(c, a);
    forall x | x in c + [a]
      ensures x in table[a := b] && x % HASH_SIZE == Hash(a)
    {
      assert x in chains[Hash(a)] || x == a;
    }
    BucketReplaced(chains, table, a, c + [a], table[a := b]);
  }

  lemma DroppedChains(chains: seq<seq<int>>, table: map<int, Bp>, a: nat)
    requires ChainsOK(chains, table) && a in table
    ensures ChainsOK(Dropped(chains, a), if Heads(chains, a) then Elsewhere(table, Hash(a)) else table - {a})
  {
    var c := Bucket(chains, a);
    assert a in c;
    RemovedIn(c, a);
    if Heads(chains, a) {
      BucketReplaced(chains, table, a, [], Elsewhere(table, Hash(a)));
    } else if c[0] == a {
      assert forall x :: x in c <==> x == a;
      BucketReplaced(chains, table, a, [], table - {a});
    } else {
      BucketReplaced(chains, table, a, Removed(c, a), table - {a});
    }
  }

  /** Losing a bucket keeps logical memory exactly when none of its breakpoints has a trap in memory. */
  lemma BucketLogical(m: Machine, h: nat)
    ensures SameLogical(m, m.(table := Elsewhere(m.table, h))) <==>
            forall a :: a in m.table && a % HASH_SIZE == h && m.table[a].inMemory ==> ByteAt(m.mem, a) == m.table[a].saved
  {
    var m' := m.(table := Elsewhere(m.table, h));
    forall a | SameLogical(m, m') && a in m.table && a % HASH_SIZE == h && m.table[a].inMemory
      ensures ByteAt(m.mem, a) == m.table[a].saved
    {
      assert Logical(m', a) == Logical(m, a);
    }
  }

  /** The exact effect of a deletion on the finite map. */
  ghost function DeletedTable(s: Store, h: nat, k: nat): (t: map<int, Bp>)
    requires |s.chains| == HASH_SIZE && h < HASH_SIZE && k < |s.chains[h]| && s.chains[h][k] in s.record
  {
    if k == 0 then Elsewhere(TableOf(s), h)
    else TableOf(s) - {s.record[s.chains[h][k]].address}
  }

  lemma UnlinkLookup(s: Store, heads: seq<int>, h: nat, k: nat, x: nat)
    requires StoreOK(s, heads) && h < HASH_SIZE && k < |s.chains[h]|
    ensures s.chains[h][k] in s.record
    ensures Lookup(Unlinked(s, h, k), x) ==
            if Hash(x) == h && (k == 0 || x == s.record[s.chains[h][k]].address) then 0 else Lookup(s, x)
  {
    var c, s' := s.chains[h], Unlinked(s, h, k);
    UnlinkOthers(s, heads, h, k);
    UnlinkChain(s, heads, h, k);
    assert ChainOK(h, c, heads[h], s.record);
    if Hash(x) != h {
      hide ChainOK;
      SetChain(s, heads, s', h, if k == 0 then 0 else heads[h]);
    } else if k > 0 {
      var c' := Without(c, k);
      assert s'.chains[h] == c';
      assert forall j :: 0 <= j < |c'| ==> c'[j] in s'.record && c'[j] in s.record && s'.record[c'[j]].address == s.record[c'[j]].address;
      SearchSame(c', s.record, s'.record, x);
      if x != s.record[c[k]].address {
        SearchWithout(c, s.record, k, x);
      } else {
        SearchFinds(c', s.record, x);
        assert forall j :: 0 <= j < |c'| ==> c'[j] == c[if j < k then j else j + 1];
      }
    }
  }

  /**
   * Deletion removes exactly the address when its record is not the head of its bucket; when it is, the whole bucket
   * goes.
   */
  lemma UnlinkTable(s: Store, heads: seq<int>, h: nat, k: nat)
    requires StoreOK(s, heads) && h < HASH_SIZE && k < |s.chains[h]|
    ensures s.chains[h][k] in s.record
    ensures StoreOK(Unlinked(s, h, k), heads[h := if k == 0 then 0 else heads[h]])
    ensures TableOf(Unlinked(s, h, k)) == DeletedTable(s, h, k)
  {
    hide StoreOK, Lookup, TableOf, ChainOK;
    Shape(s, heads);
    LinkedLookup(s, heads, h, k);
    var s', heads' := Unlinked(s, h, k), heads[h := if k == 0 then 0 else heads[h]];
    UnlinkChain(s, heads, h, k);
    UnlinkOthers(s, heads, h, k);
    SetChain(s, heads, s', h, if k == 0 then 0 else heads[h]);
    TableFacts(s, heads);
    forall x: nat
      ensures Lookup(s', x) == if Hash(x) == h && (k == 0 || x == s.record[s.chains[h][k]].address) then 0 else Lookup(s, x)
    {
      UnlinkLookup(s, heads, h, k, x);
    }
    forall x: nat | Lookup(s', x) != 0
      ensures Lookup(s, x) in s.record && Lookup(s', x) in s'.record
      ensures s'.record[Lookup(s', x)].saved == s.record[Lookup(s, x)].saved
      ensures s'.record[Lookup(s', x)].inMemory == s.record[Lookup(s, x)].inMemory
    {
      LookupOK(s, heads, x);
      LookupOK(s', heads', x);
    }
    SameTable(s', heads', DeletedTable(s, h, k));
  }

  // ----- the addresses that the chains of records list

  ghost function AddressOf(record: map<int, Record>, p: int): (a: int) {
    if p in record then record[p].address else -1
  }

  ghost function Addresses(c: seq<int>, record: map<int, Record>): (r: seq<int>)
    ensures |r| == |c| && forall k :: 0 <= k < |c| ==> r[k] == AddressOf(record, c[k])
  {
    if c == [] then [] else [AddressOf(record, c[0])] + Addresses(c[1..], record)
  }

  ghost function AddressChains(s: Store): (r: seq<seq<int>>)
    ensures |r| == |s.chains| && forall i :: 0 <= i < |r| ==> r[i] == Addresses(s.chains[i], s.record)
  {
    seq(|s.chains|, i requires 0 <= i < |s.chains| => Addresses(s.chains[i], s.record))
  }

  lemma AddressesSame(c: seq<int>, record: map<int, Record>, record': map<int, Record>)
    requires forall p :: p in c ==> AddressOf(record', p) == AddressOf(record, p)
    ensures Addresses(c, record') == Addresses(c, record)
  {
  }

  /** The chains of a well-formed store hold records with their own addresses. */
  lemma ChainMembers(s: Store, heads: seq<int>, i: nat)
    requires StoreOK(s, heads) && i < HASH_SIZE
    ensures |s.chains| == HASH_SIZE && forall p :: p in s.chains[i] ==> p in s.record
    ensures NoRepeats(Addresses(s.chains[i], s.record))
  {
    assert ChainOK(i, s.chains[i], heads[i], s.record);
  }

  /** The same chains, with the same addresses. */
  lemma ChainsSame(s: Store, heads: seq<int>, s': Store)
    requires StoreOK(s, heads) && s'.chains == s.chains
    requires forall p :: p in s.record ==> p in s'.record && s'.record[p].address == s.record[p].address
    ensures AddressChains(s') == AddressChains(s)
  {
    forall i | 0 <= i < HASH_SIZE
      ensures Addresses(s'.chains[i], s'.record) == Addresses(s.chains[i], s.record)
    {
      ChainMembers(s, heads, i);
      AddressesSame(s.chains[i], s.record, s'.record);
    }
  }

  lemma ChainsAppend(s: Store, heads: seq<int>, p: int, a: nat)
    requires StoreOK(s, heads) && p != 0 && p !in s.record
    ensures AddressChains(Appended(s, p, a)) == AppendedTo(AddressChains(s), a)
  {
    Shape(s, heads);
    var s', h := Appended(s, p, a), Hash(a);
    AppendNew(s, heads, p, a);
    forall i | 0 <= i < HASH_SIZE
      ensures Addresses(s'.chains[i], s'.record) == AppendedTo(AddressChains(s), a)[i]
    {
      ChainMembers(s, heads, i);
      hide StoreOK;
      AddressesSame(s.chains[i], s.record, s'.record);
      if i == h {
        assert Addresses(s.chains[h] + [p], s'.record) == Addresses(s.chains[h], s'.record) + [a];
      }
    }
  }

  lemma {:induction false} RemovedAt(r: seq<int>, k: nat)
    requires k < |r| && NoRepeats(r)
    ensures Removed(r, r[k]) == Without(r, k)
  {
    if k > 0 {
      assert NoRepeats(r[1..]) && r[1..][k - 1] == r[k];
      RemovedAt(r[1..], k - 1);
      assert Without(r, k) == [r[0]] + Without(r[1..], k - 1);
    }
  }

  lemma AddressesWithout(c: seq<int>, record: map<int, Record>, k: nat)
    requires k < |c| && NoRepeats(Addresses(c, record))
    ensures Removed(Addresses(c, record), AddressOf(record, c[k])) == Addresses(Without(c, k), record)
  {
    hide Addresses, Removed, NoRepeats;
    RemovedAt(Addresses(c, record), k);
    assert Without(Addresses(c, record), k) == Addresses(Without(c, k), record);
  }

  lemma ChainsUnlink(s: Store, heads: seq<int>, h: nat, k: nat)
    requires StoreOK(s, heads) && h < HASH_SIZE && k < |s.chains[h]|
    ensures s.chains[h][k] in s.record && s.record[s.chains[h][k]].address >= 0
    ensures AddressChains(Unlinked(s, h, k)) == Dropped(AddressChains(s), s.record[s.chains[h][k]].address)
  {
    LinkedLookup(s, heads, h, k);
    Shape(s, heads);
    var c, s' := s.chains[h], Unlinked(s, h, k);
    var a := s.record[c[k]].address;
    ChainMembers(s, heads, h);
    AddressesWithout(c, s.record, k);
    forall i | 0 <= i < HASH_SIZE
      ensures Addresses(s'.chains[i], s'.record) == Dropped(AddressChains(s), a)[i]
    {
      UnlinkedAddresses(s, heads, h, k, i);
      if i == h && k > 0 {
        assert Addresses(c, s.record)[0] != Addresses(c, s.record)[k];
      }
    }
  }

  lemma UnlinkedAddresses(s: Store, heads: seq<int>, h: nat, k: nat, i: nat)
    requires StoreOK(s, heads) && h < HASH_SIZE && k < |s.chains[h]| && i < HASH_SIZE
    ensures var s' := Unlinked(s, h, k);
      && |s'.chains| == HASH_SIZE
      && s'.chains[i] == (if i != h then s.chains[i] else if k == 0 then [] else Without(s.chains[h], k))
      && Addresses(s'.chains[i], s'.record) == Addresses(s'.chains[i], s.record)
  {
    var s', c := Unlinked(s, h, k), s.chains[h];
    assert ChainOK(h, c, heads[h], s.record);
    UnlinkOthers(s, heads, h, k);
    UnlinkChain(s, heads, h, k);
    forall p | p in s'.chains[i]
      ensures AddressOf(s'.record, p) == AddressOf(s.record, p)
    {
      if i != h {
        var j :| 0 <= j < |s.chains[i]| && s.chains[i][j] == p;
      }
    }
    AddressesSame(s'.chains[i], s.record, s'.record);
  }

  /** The addresses listed are those of the finite map. */
  lemma ChainsOfStore(s: Store, heads: seq<int>)
    requires StoreOK(s, heads)
    ensures |s.chains| == HASH_SIZE && ChainsOK(AddressChains(s), TableOf(s))
  {
    Shape(s, heads);
    var r := AddressChains(s);
    forall a | a in TableOf(s)
      ensures a >= 0 && a in r[a % HASH_SIZE]
    {
      InTable(s, heads, a);
      LookupOK(s, heads, a);
      var p, c := Lookup(s, a), s.chains[Hash(a)];
      var k :| 0 <= k < |c| && c[k] == p;
      assert r[a % HASH_SIZE][k] == a;
    }
    forall i, a | 0 <= i < HASH_SIZE && a in r[i]
      ensures a in TableOf(s) && a % HASH_SIZE == i
    {
      var k :| 0 <= k < |s.chains[i]| && r[i][k] == a;
      LinkedLookup(s, heads, i, k);
      assert s.chains[i][k] != 0 by {
        assert ChainOK(i, s.chains[i], heads[i], s.record);
      }
      InTable(s, heads, a);
    }
    forall i | 0 <= i < HASH_SIZE
      ensures NoRepeats(r[i])
    {
      ChainMembers(s, heads, i);
    }
  }
}
