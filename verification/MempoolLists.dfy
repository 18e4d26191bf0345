/** `kns_mempool_alloc`, `mempool_alloc_2`, `kns_mempool_free` and `mempool_free_2` on the words
    of memory: every step relinks the lists exactly as the state machine moves the slots. */
module MempoolLists {
  import opened Mempools
  import opened MempoolMemory

  /** Slot addresses: not zero, and no header word of one is the address of another. */
  ghost predicate Aligned(b: multiset<Slot>) { forall x, y :: x in b && y in b ==> x != NULL && x + 8 != y }

  lemma {:induction false} OnePool(ps: seq<Pool>, i: nat, x: Slot)
    requires i < |ps|
    ensures PoolBags(ps)[x] >= Bag(ps[i])[x]
  {
    if i > 0 {
      OnePool(ps[1..], i - 1, x);
    }
  }

  lemma {:induction false} TwoPools(ps: seq<Pool>, i: nat, j: nat, x: Slot)
    requires i < |ps| && j < |ps| && i != j
    ensures PoolBags(ps)[x] >= Bag(ps[i])[x] + Bag(ps[j])[x]
  {
    if i == 0 {
      OnePool(ps[1..], j - 1, x);
    } else if j == 0 {
      OnePool(ps[1..], i - 1, x);
    } else {
      TwoPools(ps[1..], i - 1, j - 1, x);
    }
  }

  /** The slot is on no list. */
  ghost predicate Unlisted(s: State, x: Slot) {
    && (forall j :: 0 <= j < |s.pools| ==> x !in s.pools[j].head && x !in s.pools[j].spare)
    && forall k :: 0 <= k < |s.chunks| ==> x !in s.chunks[k]
  }

  lemma OutIsUnlisted(s: State, i: nat, x: Slot)
    requires Once(Everything(s)) && i < |s.pools| && x in s.pools[i].out
    ensures Unlisted(s, x) && x in Everything(s)
  {
    PoolBagsUpdate(s.pools, i, s.pools[i]);
    assert Bag(s.pools[i])[x] >= 1;
    forall j | 0 <= j < |s.pools| ensures x !in s.pools[j].head && x !in s.pools[j].spare {
      if j != i { TwoPools(s.pools, i, j, x); }
      assert Everything(s)[x] >= PoolBags(s.pools)[x];
    }
    forall k | 0 <= k < |s.chunks| ensures x !in s.chunks[k] {
      if x in s.chunks[k] { InChunk(s.chunks, s.chunks[k], x); }
    }
  }

  lemma SpareIsUnchained(s: State, i: nat, x: Slot)
    requires Once(Everything(s)) && i < |s.pools| && x in s.pools[i].spare
    ensures x in Everything(s) && forall k :: 0 <= k < |s.chunks| ==> x !in s.chunks[k]
  {
    PoolBagsUpdate(s.pools, i, s.pools[i]);
    assert Bag(s.pools[i])[x] >= 1 && PoolBags(s.pools)[x] >= 1;
    assert Everything(s)[x] == PoolBags(s.pools)[x] + ChunkBags(s.chunks)[x] <= 1;
    forall k | 0 <= k < |s.chunks| ensures x !in s.chunks[k] {
      if x in s.chunks[k] { InChunk(s.chunks, s.chunks[k], x); }
    }
  }

  lemma ListedIsKnown(s: State, c: seq<Slot>, x: Slot)
    requires x in c && (c in s.chunks || exists j :: 0 <= j < |s.pools| && (c == s.pools[j].head || c == s.pools[j].spare))
    ensures x in Everything(s)
  {
    if c in s.chunks {
      InChunk(s.chunks, c, x);
    } else {
      var j :| 0 <= j < |s.pools| && (c == s.pools[j].head || c == s.pools[j].spare);
      PoolBagsUpdate(s.pools, j, s.pools[j]);
      assert Bag(s.pools[j])[x] >= 1;
    }
  }

  /** The pools and the datastore as they lie in memory. */
  datatype Image = Image(mem: Words, heads: seq<nat>, numFree: seq<int>, spares: seq<nat>, chunkHead: nat, freeChunks: int)

  ghost predicate PoolShown(m: Image, s: State, j: nat)
    requires |m.heads| == |m.numFree| == |m.spares| == |s.pools| && j < |s.pools|
  {
    && IsList(m.mem, m.heads[j], s.pools[j].head) && IsList(m.mem, m.spares[j], s.pools[j].spare)
    && m.numFree[j] == s.pools[j].numFree
  }

  ghost predicate Shows(m: Image, s: State) {
    && |m.heads| == |m.numFree| == |m.spares| == |s.pools|
    && (forall j :: 0 <= j < |s.pools| ==> PoolShown(m, s, j))
    && IsChunks(m.mem, m.chunkHead, s.chunks) && m.freeChunks == s.freeChunks
  }

  /** A word outside all lists may change. */
  lemma WriteUnlisted(m: Image, s: State, a: nat, v: nat)
    requires Shows(m, s) && Unlisted(s, a) && forall k :: 0 <= k < |s.chunks| ==> a != First(s.chunks[k]) + 8
    ensures Shows(m.(mem := m.mem[a := v]), s)
  {
    var r := m.(mem := m.mem[a := v]);
    forall j | 0 <= j < |s.pools| ensures PoolShown(r, s, j) {
      assert PoolShown(m, s, j);
      ListFrame(m.mem, m.heads[j], s.pools[j].head, a, v);
      ListFrame(m.mem, m.spares[j], s.pools[j].spare, a, v);
    }
    ChunksFrame(m.mem, m.chunkHead, s.chunks, a, v);
  }

  lemma WriteNext(m: Image, s: State, i: nat, x: Slot, v: nat)
    requires Shows(m, s) && NonEmpty(s) && Once(Everything(s)) && Aligned(Everything(s)) && i < |s.pools| && x in s.pools[i].out
    ensures Shows(m.(mem := m.mem[x := v]), s)
  {
    OutIsUnlisted(s, i, x);
    forall k | 0 <= k < |s.chunks| ensures x != First(s.chunks[k]) + 8 {
      ListedIsKnown(s, s.chunks[k], First(s.chunks[k]));
    }
    WriteUnlisted(m, s, x, v);
  }

  lemma WriteNextChunk(m: Image, s: State, i: nat, v: nat)
    requires Shows(m, s) && NonEmpty(s) && Once(Everything(s)) && Aligned(Everything(s)) && i < |s.pools| && s.pools[i].spare != []
    ensures Shows(m.(mem := m.mem[First(s.pools[i].spare) + 8 := v]), s)
  {
    var h := First(s.pools[i].spare);
    SpareIsUnchained(s, i, h);
    assert Unlisted(s, h + 8) by {
      forall j | 0 <= j < |s.pools| ensures h + 8 !in s.pools[j].head && h + 8 !in s.pools[j].spare {
        if h + 8 in s.pools[j].head { ListedIsKnown(s, s.pools[j].head, h + 8); }
        if h + 8 in s.pools[j].spare { ListedIsKnown(s, s.pools[j].spare, h + 8); }
      }
      forall k | 0 <= k < |s.chunks| ensures h + 8 !in s.chunks[k] {
        if h + 8 in s.chunks[k] { ListedIsKnown(s, s.chunks[k], h + 8); }
      }
    }
    WriteUnlisted(m, s, h + 8, v);
  }

  lemma ChunksTail(mem: Words, p: nat, cs: seq<seq<nat>>)
    requires IsChunks(mem, p, cs) && cs != []
    ensures p == First(cs[0]) && IsList(mem, p, cs[0]) && IsChunks(mem, Word(mem, p + 8), cs[1..])
  {}

  class Memory {
    const chunkSize: nat
    var mem: Words
    var heads: seq<nat>
    var numFree: seq<int>
    var spares: seq<nat>
    var chunkHead: nat
    var freeChunks: int

    ghost function Now(): Image
      reads this
    {
      Image(mem, heads, numFree, spares, chunkHead, freeChunks)
    }

    /** `kns_mempool_alloc` and `mempool_alloc_2`, for pool `i`; NULL when nothing is left. */
    method Alloc(i: nat, ghost s: State) returns (p: nat)
      requires Shows(Now(), s) && Enabled(s, Event.Alloc(i)) && Aligned(Everything(s))
      modifies this
      ensures Shows(Now(), AllocFrom(AS_WRITTEN, s, i))
      ensures var q := s.pools[i];
              p == if q.head != [] then q.head[0] else if q.spare != [] then q.spare[0]
                   else if s.chunks != [] then s.chunks[0][0] else NULL
    {
      assert PoolShown(Now(), s, i);
      p := heads[i];
      if p != NULL {
        ListTail(mem, p, s.pools[i].head);
        heads := heads[i := Word(mem, p)];
        numFree := numFree[i := numFree[i] - 1];
      } else if spares[i] != NULL {
        p := spares[i];
        ListTail(mem, p, s.pools[i].spare);
        heads := heads[i := Word(mem, p)];
        spares := spares[i := NULL];
      } else {
        p := chunkHead;
        if p != NULL {
          ChunksTail(mem, p, s.chunks);
          ListTail(mem, p, s.chunks[0]);
          chunkHead := Word(mem, p + 8);
          heads := heads[i := Word(mem, p)];
          freeChunks := freeChunks - 1;
        }
      }
      Others(old(Now()), s, Now(), AllocFrom(AS_WRITTEN, s, i), i);
    }

    /** `kns_mempool_free` and `mempool_free_2`, for pool `i`. */
    method Free(i: nat, x: nat, ghost s: State)
      requires Freeable(Now(), s, i, x) && s.chunkSize == chunkSize
      modifies this
      ensures Shows(Now(), FreeTo(s, i, x))
    {
      FreeShown(Now(), s, i, x);
      Relink(i, x);
    }

    /** The words that the two frees write. */
    method Relink(i: nat, x: nat)
      requires i < |heads| == |numFree| == |spares|
      modifies this
      ensures Now() == if old(numFree[i]) < chunkSize then Pushed(old(Now()), i, x) else Spilled(old(Now()), i, x)
    {
      if numFree[i] < chunkSize {
        numFree := numFree[i := numFree[i] + 1];
        mem := mem[x := heads[i]];
        heads := heads[i := x];
      } else {
        mem := mem[x := NULL];
        if spares[i] != NULL {
          mem := mem[spares[i] + 8 := chunkHead];
          chunkHead := spares[i];
          freeChunks := freeChunks + 1;
        }
        spares := spares[i := heads[i]];
        heads := heads[i := x];
        numFree := numFree[i := 1];
      }
    }
  }

  ghost predicate Freeable(m: Image, s: State, i: nat, x: nat) {
    Shows(m, s) && NonEmpty(s) && Enabled(s, Event.Free(i, x)) && Once(Everything(s)) && Aligned(Everything(s))
  }

  /** What the inline free makes of memory. */
  function Pushed(m: Image, i: nat, x: nat): Image
    requires i < |m.heads| == |m.numFree| == |m.spares|
  {
    m.(mem := m.mem[x := m.heads[i]], heads := m.heads[i := x], numFree := m.numFree[i := m.numFree[i] + 1])
  }

  lemma PushShown(m: Image, s: State, i: nat, x: nat)
    requires Freeable(m, s, i, x) && i < |m.heads| == |m.numFree| == |m.spares| && m.numFree[i] < s.chunkSize
    ensures Shows(Pushed(m, i, x), FreeTo(s, i, x))
  {
    assert PoolShown(m, s, i);
    WriteNext(m, s, i, x, m.heads[i]);
    OutIsUnlisted(s, i, x);
    assert x != NULL && x + 8 != x;
    PushPool(m.(mem := m.mem[x := m.heads[i]]), s, i, x);
  }

  lemma PushPool(w: Image, s: State, i: nat, x: nat)
    requires Shows(w, s) && i < |s.pools| && s.pools[i].numFree < s.chunkSize && x != NULL && x !in s.pools[i].head
    requires Word(w.mem, x) == w.heads[i]
    ensures Shows(w.(heads := w.heads[i := x], numFree := w.numFree[i := w.numFree[i] + 1]), FreeTo(s, i, x))
  {
    assert PoolShown(w, s, i);
    ListCons(w.mem, w.heads[i], s.pools[i].head, x);
    Others(w, s, w.(heads := w.heads[i := x], numFree := w.numFree[i := w.numFree[i] + 1]), FreeTo(s, i, x), i);
  }

  lemma ListCons(mem: Words, p: nat, c: seq<nat>, x: nat)
    requires IsList(mem, p, c) && x != NULL && Word(mem, x) == p
    ensures IsList(mem, x, [x] + c)
  {}

  /** What `mempool_free_2` makes of memory. */
  function Spilled(m: Image, i: nat, x: nat): Image
    requires i < |m.heads| == |m.numFree| == |m.spares|
  {
    var w := m.mem[x := NULL];
    var r := if m.spares[i] == NULL then m.(mem := w)
             else m.(mem := w[m.spares[i] + 8 := m.chunkHead], chunkHead := m.spares[i], freeChunks := m.freeChunks + 1);
    r.(spares := m.spares[i := m.heads[i]], heads := m.heads[i := x], numFree := m.numFree[i := 1])
  }

  lemma SpillShown(m: Image, s: State, i: nat, x: nat)
    requires Freeable(m, s, i, x) && i < |m.heads| == |m.numFree| == |m.spares| && m.numFree[i] >= s.chunkSize
    ensures Shows(Spilled(m, i, x), FreeTo(s, i, x))
  {
    assert PoolShown(m, s, i);
    OutIsUnlisted(s, i, x);
    assert x != NULL && x + 8 != x;
    var w := m.(mem := m.mem[x := NULL]);
    WriteNext(m, s, i, x, NULL);
    if m.spares[i] == NULL {
      assert PoolShown(w, s, i);
      SpillPool(w, s, i, x, Spilled(m, i, x));
    } else {
      SpillSpare(w, s, i, x, Spilled(m, i, x));
    }
  }

  lemma SpillSpare(w: Image, s: State, i: nat, x: nat, r: Image)
    requires Freeable(w, s, i, x) && |w.heads| == |w.numFree| == |w.spares| && s.pools[i].numFree >= s.chunkSize
    requires w.spares[i] != NULL && Word(w.mem, x) == NULL && x != NULL
    requires r == w.(mem := w.mem[w.spares[i] + 8 := w.chunkHead], chunkHead := w.spares[i], freeChunks := w.freeChunks + 1,
                     spares := w.spares[i := w.heads[i]], heads := w.heads[i := x], numFree := w.numFree[i := 1])
    ensures Shows(r, FreeTo(s, i, x))
  {
    assert PoolShown(w, s, i);
    WriteNextChunk(w, s, i, w.chunkHead);
    SpareAligned(s, i, x);
    var v := w.(mem := r.mem);
    assert PoolShown(v, s, i);
    ChunksCons(r.mem, w.chunkHead, s.chunks, s.pools[i].spare);
    SpillPool(v, s, i, x, r);
  }

  /** Freeing relinks memory exactly as the state machine moves the slot. */
  lemma FreeShown(m: Image, s: State, i: nat, x: nat)
    requires Freeable(m, s, i, x)
    ensures i < |m.heads| == |m.numFree| == |m.spares|
    ensures Shows(if m.numFree[i] < s.chunkSize then Pushed(m, i, x) else Spilled(m, i, x), FreeTo(s, i, x))
  {
    if m.numFree[i] < s.chunkSize {
      PushShown(m, s, i, x);
    } else {
      SpillShown(m, s, i, x);
    }
  }

  lemma SpareAligned(s: State, i: nat, x: nat)
    requires Enabled(s, Event.Free(i, x)) && Once(Everything(s)) && Aligned(Everything(s)) && s.pools[i].spare != []
    ensures x != First(s.pools[i].spare) + 8
  {
    OutIsUnlisted(s, i, x);
    ListedIsKnown(s, s.pools[i].spare, First(s.pools[i].spare));
  }

  lemma SpillPool(m: Image, s: State, i: nat, x: nat, r: Image)
    requires Shows(m, s) && i < |s.pools| && s.pools[i].numFree >= s.chunkSize && Word(m.mem, x) == NULL && x != NULL
    requires r == m.(chunkHead := r.chunkHead, freeChunks := r.freeChunks, spares := m.spares[i := m.heads[i]],
                     heads := m.heads[i := x], numFree := m.numFree[i := 1])
    requires IsChunks(r.mem, r.chunkHead, FreeTo(s, i, x).chunks) && r.freeChunks == FreeTo(s, i, x).freeChunks
    ensures Shows(r, FreeTo(s, i, x))
  {
    assert PoolShown(m, s, i);
    assert IsList(r.mem, x, [x]);
    Others(m, s, r, FreeTo(s, i, x), i);
  }

  /** Pool `i` alone changed, and memory did not. */
  lemma Others(m: Image, s: State, r: Image, t: State, i: nat)
    requires Shows(m, s) && i < |s.pools| && r.mem == m.mem && |t.pools| == |s.pools|
    requires |r.heads| == |r.numFree| == |r.spares| == |s.pools|
    requires t.pools == s.pools[i := t.pools[i]]
    requires r.heads == m.heads[i := r.heads[i]] && r.numFree == m.numFree[i := r.numFree[i]] && r.spares == m.spares[i := r.spares[i]]
    requires PoolShown(r, t, i) && IsChunks(r.mem, r.chunkHead, t.chunks) && r.freeChunks == t.freeChunks
    ensures Shows(r, t)
  {
    forall j | 0 <= j < |s.pools| ensures PoolShown(r, t, j) {
      assert PoolShown(m, s, j);
    }
  }

  /** Freshly created pools over a carved datastore: the runs of the state machine start here. */
  lemma FreshShown(mem: Words, slots: seq<nat>, size: nat, chunkHead: nat, n: nat, s: State, m: Image)
    requires Spaced(slots, HEADER) && NULL !in slots && size > 0 && Mul(|slots| / size, size) <= |slots|
    requires IsChunks(mem, chunkHead, Carved(slots, size, |slots| / size))
    requires s == Start(Carved(slots, size, |slots| / size), size, n)
    requires m == Image(mem, seq(n, i => NULL), seq(n, i => 0), seq(n, i => NULL), chunkHead, |slots| / size)
    ensures Shows(m, s) && NonEmpty(s) && Once(Everything(s)) && Aligned(Everything(s)) && Exact(s)
  {
    var t := |slots| / size;
    FreshSlots(slots, size, t, s);
    forall j | 0 <= j < n ensures PoolShown(m, s, j) {}
  }

  lemma FreshSlots(slots: seq<nat>, size: nat, t: nat, s: State)
    requires Spaced(slots, HEADER) && NULL !in slots && size > 0 && Mul(t, size) <= |slots| && t == |slots| / size
    requires s.chunks == Carved(slots, size, t) && s.freeChunks == t && s.chunkSize == size
    requires forall i :: 0 <= i < |s.pools| ==> s.pools[i] == Pool([], 0, [], {}, 0)
    ensures NonEmpty(s) && Once(Everything(s)) && Aligned(Everything(s)) && Exact(s)
  {
    CarvedExact(slots, size, HEADER);
    CarvedElements(slots, size, t);
    EmptyPools(s.pools);
    assert Everything(s) == multiset(slots[..Mul(t, size)]);
    forall x, y | x in Everything(s) && y in Everything(s) ensures x != NULL && x + 8 != y {
      assert x in slots && y in slots;
    }
  }
}
