/** The two-level free lists of core/mempool.c: many pools over one datastore. */
module Mempools {
  import opened Arithmetic

  type Slot = nat

  /** `out` are the slots handed out, `refills` how often `mempool_alloc_2` gave this pool a
      list since `mempool_free_2` last took one away; no step reads either. */
  datatype Pool = Pool(head: seq<Slot>, numFree: int, spare: seq<Slot>, out: set<Slot>, refills: nat)

  /** `spare` is `private_chunk`; `chunks` is the datastore's list and `freeChunks` its counter. */
  datatype State = State(pools: seq<Pool>, chunks: seq<seq<Slot>>, freeChunks: int, chunkSize: nat)

  /** `mempool_alloc_2` leaves `num_free` as it was; the intent is that it counts the list. */
  datatype Port = INTENDED | AS_WRITTEN

  datatype Event = Alloc(i: nat) | Free(i: nat, x: Slot)

  /** `mempool_alloc_2` has found the list `c`. */
  function Refill(port: Port, p: Pool, c: seq<Slot>): Pool
    requires c != []
  {
    Pool(c[1..], if port.INTENDED? then |c| - 1 else p.numFree, p.spare, p.out + {c[0]}, p.refills + 1)
  }

  ghost predicate NonEmpty(s: State) { forall k :: 0 <= k < |s.chunks| ==> s.chunks[k] != [] }

  /** `kns_mempool_alloc` with `mempool_alloc_2`; unchanged where it returns NULL. */
  ghost function AllocFrom(port: Port, s: State, i: nat): State
    requires i < |s.pools| && NonEmpty(s)
  {
    var p := s.pools[i];
    if p.head != [] then
      s.(pools := s.pools[i := p.(head := p.head[1..], numFree := p.numFree - 1, out := p.out + {p.head[0]})])
    else if p.spare != [] then
      s.(pools := s.pools[i := Refill(port, p, p.spare).(spare := [])])
    else if s.chunks != [] then
      s.(pools := s.pools[i := Refill(port, p, s.chunks[0])], chunks := s.chunks[1..], freeChunks := s.freeChunks - 1)
    else s
  }

  /** `kns_mempool_free` with `mempool_free_2`. */
  function FreeTo(s: State, i: nat, x: Slot): State
    requires i < |s.pools|
  {
    var p := s.pools[i];
    if p.numFree < s.chunkSize then
      s.(pools := s.pools[i := p.(head := [x] + p.head, numFree := p.numFree + 1, out := p.out - {x})])
    else
      var r := s.(pools := s.pools[i := Pool([x], 1, p.head, p.out - {x}, 0)]);
      if p.spare != [] then r.(chunks := [p.spare] + s.chunks, freeChunks := s.freeChunks + 1) else r
  }

  /** A slot goes back to the pool that it came from. */
  ghost predicate Enabled(s: State, e: Event) {
    match e
    case Alloc(i) => i < |s.pools| && NonEmpty(s)
    case Free(i, x) => i < |s.pools| && x in s.pools[i].out
  }

  ghost function Step(port: Port, s: State, e: Event): State
    requires Enabled(s, e)
  {
    match e
    case Alloc(i) => AllocFrom(port, s, i)
    case Free(i, x) => FreeTo(s, i, x)
  }

  ghost function Start(chunks: seq<seq<Slot>>, chunkSize: nat, n: nat): State {
    State(seq(n, i => Pool([], 0, [], {}, 0)), chunks, |chunks|, chunkSize)
  }

  ghost predicate Run(port: Port, s0: State, es: seq<Event>, s: State) {
    if es == [] then s == s0
    else exists r :: Run(port, s0, es[..|es| - 1], r) && NonEmpty(r) && Enabled(r, es[|es| - 1]) && s == Step(port, r, es[|es| - 1])
  }

  // ----- no slot is lost or in two places -----

  function Bag(p: Pool): multiset<Slot> { multiset(p.head) + multiset(p.spare) + multiset(p.out) }

  function PoolBags(ps: seq<Pool>): multiset<Slot> {
    if ps == [] then multiset{} else Bag(ps[0]) + PoolBags(ps[1..])
  }

  function ChunkBags(cs: seq<seq<Slot>>): multiset<Slot> {
    if cs == [] then multiset{} else multiset(cs[0]) + ChunkBags(cs[1..])
  }

  /** How often each slot occurs in all lists and among the slots handed out. */
  function Everything(s: State): multiset<Slot> { PoolBags(s.pools) + ChunkBags(s.chunks) }

  lemma {:induction false} PoolBagsUpdate(ps: seq<Pool>, i: nat, p: Pool)
    requires i < |ps|
    ensures Bag(ps[i]) <= PoolBags(ps)
    ensures PoolBags(ps[i := p]) == PoolBags(ps) - Bag(ps[i]) + Bag(p)
    decreases i
  {
    if i > 0 {
      PoolBagsUpdate(ps[1..], i - 1, p);
      assert ps[i := p][1..] == ps[1..][i - 1 := p];
    } else {
      assert ps[i := p][1..] == ps[1..];
    }
  }

  lemma HeadBag(q: seq<Slot>)
    requires q != []
    ensures multiset(q) == multiset{q[0]} + multiset(q[1..])
  {
    assert q == [q[0]] + q[1..];
  }

  lemma OutBag(out: set<Slot>, x: Slot)
    ensures x !in out ==> multiset(out + {x}) == multiset(out) + multiset{x}
    ensures x in out ==> multiset(out - {x}) + multiset{x} == multiset(out)
  {}

  /** Each slot is in one place. */
  ghost predicate Once(b: multiset<Slot>) { forall x :: b[x] <= 1 }

  lemma InHeadNotOut(s: State, i: nat, x: Slot, c: seq<Slot>)
    requires Once(Everything(s)) && i < |s.pools|
    requires (c == s.pools[i].head || c == s.pools[i].spare || c in s.chunks) && x in c
    ensures x !in s.pools[i].out
  {
    PoolBagsUpdate(s.pools, i, s.pools[i]);
    var p := s.pools[i];
    assert Everything(s)[x] >= Bag(p)[x] + ChunkBags(s.chunks)[x];
    if c in s.chunks {
      InChunk(s.chunks, c, x);
    }
  }

  lemma {:induction false} InChunk(cs: seq<seq<Slot>>, c: seq<Slot>, x: Slot)
    requires c in cs && x in c
    ensures ChunkBags(cs)[x] >= 1
  {
    if c != cs[0] {
      assert cs == [cs[0]] + cs[1..];
      InChunk(cs[1..], c, x);
    }
  }

  /** Pool `i` changes and the datastore changes by what the pool gained or lost. */
  lemma OneMove(s: State, r: State, i: nat)
    requires i < |s.pools| && |r.pools| == |s.pools| && r.pools == s.pools[i := r.pools[i]]
    requires Bag(r.pools[i]) + ChunkBags(r.chunks) == Bag(s.pools[i]) + ChunkBags(s.chunks)
    ensures Everything(r) == Everything(s)
  {
    PoolBagsUpdate(s.pools, i, r.pools[i]);
    Exchange(PoolBags(s.pools), Bag(s.pools[i]), Bag(r.pools[i]), ChunkBags(s.chunks), ChunkBags(r.chunks));
  }

  lemma Exchange(all: multiset<Slot>, a: multiset<Slot>, b: multiset<Slot>, x: multiset<Slot>, y: multiset<Slot>)
    requires a <= all && b + y == a + x
    ensures (all - a + b) + y == all + x
  {
    assert (all - a + b) + y == (all - a) + (b + y);
    assert all - a + a == all;
  }

  /** Handing out the first slot of a list keeps the pool's slots together. */
  lemma TakeFirst(c: seq<Slot>, out: set<Slot>)
    requires c != [] && c[0] !in out
    ensures multiset(c[1..]) + multiset(out + {c[0]}) == multiset(c) + multiset(out)
  {
    HeadBag(c);
    OutBag(out, c[0]);
  }

  /** Where pool `i` finds its next slot. */
  ghost function Source(s: State, i: nat): seq<Slot>
    requires i < |s.pools|
  {
    var p := s.pools[i];
    if p.head != [] then p.head else if p.spare != [] then p.spare else if s.chunks != [] then s.chunks[0] else []
  }

  lemma BagOf(p: Pool)
    ensures Bag(p) == (multiset(p.head) + multiset(p.out)) + multiset(p.spare)
  {}

  lemma AllocBag(port: Port, s: State, i: nat, c: seq<Slot>)
    requires Enabled(s, Alloc(i)) && c == Source(s, i) && c != [] && c[0] !in s.pools[i].out
    ensures var r := AllocFrom(port, s, i);
            Bag(r.pools[i]) + ChunkBags(r.chunks) == Bag(s.pools[i]) + ChunkBags(s.chunks)
  {
    var r, p := AllocFrom(port, s, i), s.pools[i];
    var q := r.pools[i];
    TakeFirst(c, p.out);
    BagOf(p);
    BagOf(q);
    assert q.head == c[1..] && q.out == p.out + {c[0]};
    if p.head == [] {
      assert multiset(p.head) == multiset(q.spare) == multiset{};
      if p.spare == [] {
        assert multiset(p.spare) == multiset{} && ChunkBags(s.chunks) == multiset(c) + ChunkBags(r.chunks);
      }
    }
  }

  lemma AllocConserves(port: Port, s: State, i: nat)
    requires Enabled(s, Alloc(i)) && Once(Everything(s))
    ensures Everything(AllocFrom(port, s, i)) == Everything(s)
  {
    var c := Source(s, i);
    if c != [] {
      InHeadNotOut(s, i, c[0], c);
      AllocBag(port, s, i, c);
      OneMove(s, AllocFrom(port, s, i), i);
    }
  }

  lemma FreeConserves(s: State, i: nat, x: Slot)
    requires Enabled(s, Free(i, x))
    ensures Everything(FreeTo(s, i, x)) == Everything(s)
  {
    var r, p := FreeTo(s, i, x), s.pools[i];
    OutBag(p.out, x);
    assert multiset([x] + p.head) == multiset{x} + multiset(p.head) && multiset([x]) == multiset{x};
    assert ([p.spare] + s.chunks)[1..] == s.chunks;
    OneMove(s, r, i);
  }

  lemma StepConserves(port: Port, s: State, e: Event)
    requires Enabled(s, e) && Once(Everything(s))
    ensures Everything(Step(port, s, e)) == Everything(s)
  {
    match e
    case Alloc(i) => AllocConserves(port, s, i);
    case Free(i, x) => FreeConserves(s, i, x);
  }

  /** In every run, with any number of pools, each slot stays in exactly one place: handed out,
      on one pool's list, in one pool's private chunk, or in one datastore chunk. */
  lemma {:induction false} RunConserves(port: Port, s0: State, es: seq<Event>, s: State)
    requires Run(port, s0, es, s) && Once(Everything(s0))
    ensures Everything(s) == Everything(s0)
    decreases |es|
  {
    if es != [] {
      var r :| Run(port, s0, es[..|es| - 1], r) && NonEmpty(r) && Enabled(r, es[|es| - 1]) && s == Step(port, r, es[|es| - 1]);
      RunConserves(port, s0, es[..|es| - 1], r);
      StepConserves(port, r, es[|es| - 1]);
    }
  }

  // ----- which slot is handed out -----

  /** The slots that a pool can hand out by itself, the next one first. */
  function Own(p: Pool): seq<Slot> { p.head + p.spare }

  /** An allocation hands out the pool's own next slot, or else the first of the datastore's first
      chunk, which becomes the pool's; it fails only when there is neither. */
  lemma AllocTakes(port: Port, s: State, i: nat, r: State)
    requires Enabled(s, Alloc(i)) && Once(Everything(s)) && r == AllocFrom(port, s, i)
    ensures |r.pools| == |s.pools| && forall k :: 0 <= k < |s.pools| && k != i ==> r.pools[k] == s.pools[k]
    ensures var p, q := s.pools[i], r.pools[i];
            if Own(p) != [] then Own(p)[0] !in p.out && q.out == p.out + {Own(p)[0]} && Own(q) == Own(p)[1..] && r.chunks == s.chunks
            else if s.chunks != [] then
              s.chunks[0][0] !in p.out && q.out == p.out + {s.chunks[0][0]} && Own(q) == s.chunks[0][1..] && r.chunks == s.chunks[1..]
            else r == s
  {
    var c := Source(s, i);
    if c != [] { InHeadNotOut(s, i, c[0], c); }
  }

  /** A slot that is given back is the next one to be handed out. */
  lemma FreeThenAlloc(port: Port, s: State, i: nat, x: Slot, r: State)
    requires Enabled(s, Free(i, x)) && NonEmpty(s) && r == FreeTo(s, i, x)
    ensures Own(r.pools[i]) != [] && Own(r.pools[i])[0] == x && x !in r.pools[i].out
    ensures NonEmpty(r) && AllocFrom(port, r, i).pools[i].out == s.pools[i].out && AllocFrom(port, r, i).chunks == r.chunks
  {}

  /** A pool keeps up to two chunks of slots: only when it holds two, one goes back. */
  lemma FreeGivesBack(s: State, i: nat, x: Slot, r: State)
    requires Enabled(s, Free(i, x)) && Exact(s) && r == FreeTo(s, i, x)
    ensures |r.pools| == |s.pools| && forall k :: 0 <= k < |s.pools| && k != i ==> r.pools[k] == s.pools[k]
    ensures var p, q := s.pools[i], r.pools[i];
            if |Own(p)| == 2 * s.chunkSize then Own(q) == [x] + Own(p)[..s.chunkSize] && r.chunks == [Own(p)[s.chunkSize..]] + s.chunks
            else |Own(p)| < 2 * s.chunkSize && Own(q) == [x] + Own(p) && r.chunks == s.chunks
  {
    assert ExactPool(s.pools[i], s.chunkSize);
  }

  // ----- chunks are exact -----

  ghost predicate ExactStore(s: State) {
    s.chunkSize > 0 && s.freeChunks == |s.chunks| && forall k :: 0 <= k < |s.chunks| ==> |s.chunks[k]| == s.chunkSize
  }

  ghost predicate ExactPool(p: Pool, size: nat) {
    p.numFree == |p.head| <= size && (p.spare == [] || |p.spare| == size)
  }

  /** Every private and every datastore chunk has `chunk_size` slots, and the counters count. */
  ghost predicate Exact(s: State) {
    ExactStore(s) && forall i :: 0 <= i < |s.pools| ==> ExactPool(s.pools[i], s.chunkSize)
  }

  lemma StepExact(s: State, e: Event)
    requires Enabled(s, e) && Exact(s)
    ensures Exact(Step(INTENDED, s, e))
    ensures s.chunkSize == 1 ==> Step(AS_WRITTEN, s, e).(pools := []) == Step(INTENDED, s, e).(pools := []) && Exact(Step(AS_WRITTEN, s, e))
  {
    assert ExactPool(s.pools[e.i], s.chunkSize);
  }

  /** The intent: in every run all chunks are exact. */
  lemma {:induction false} RunExact(s0: State, es: seq<Event>, s: State)
    requires Run(INTENDED, s0, es, s) && Exact(s0)
    ensures Exact(s)
    decreases |es|
  {
    if es != [] {
      var r :| Run(INTENDED, s0, es[..|es| - 1], r) && NonEmpty(r) && Enabled(r, es[|es| - 1]) && s == Step(INTENDED, r, es[|es| - 1]);
      RunExact(s0, es[..|es| - 1], r);
      StepExact(r, es[|es| - 1]);
    }
  }

  lemma {:induction false} RunExactOne(s0: State, es: seq<Event>, s: State)
    requires Run(AS_WRITTEN, s0, es, s) && Exact(s0) && s0.chunkSize == 1
    ensures Exact(s) && s.chunkSize == 1
    decreases |es|
  {
    if es != [] {
      var r :| Run(AS_WRITTEN, s0, es[..|es| - 1], r) && NonEmpty(r) && Enabled(r, es[|es| - 1]) && s == Step(AS_WRITTEN, r, es[|es| - 1]);
      RunExactOne(s0, es[..|es| - 1], r);
      StepExact(r, es[|es| - 1]);
    }
  }

  // ----- the code as written -----

  /** No list was ever given back; each pool's counter lags behind its list by `chunkSize - 1`
      for every refill. */
  ghost predicate QuietPool(p: Pool, size: nat) {
    && p.spare == [] && |p.head| + |p.out| == p.refills * size
    && p.numFree == |p.head| - p.refills * (size - 1)
  }

  ghost predicate Quiet(s: State) {
    ExactStore(s) && Once(Everything(s)) && forall i :: 0 <= i < |s.pools| ==> QuietPool(s.pools[i], s.chunkSize)
  }

  lemma BagSize(p: Pool)
    ensures |Bag(p)| == |p.head| + |p.spare| + |p.out|
  {}

  /** A pool has at most as many slots as there are. */
  lemma PoolBound(s: State, i: nat, n: nat)
    requires i < |s.pools| && QuietPool(s.pools[i], s.chunkSize) && s.chunkSize > 0 && |Everything(s)| == n * s.chunkSize
    ensures s.pools[i].refills <= n
  {
    PoolBagsUpdate(s.pools, i, s.pools[i]);
    BagSize(s.pools[i]);
    assert |Bag(s.pools[i])| <= |PoolBags(s.pools)| by { assert PoolBags(s.pools) == PoolBags(s.pools) - Bag(s.pools[i]) + Bag(s.pools[i]); }
    Factor(s.pools[i].refills, n, s.chunkSize);
  }

  lemma Factor(a: nat, b: nat, c: nat)
    requires c > 0 && a * c <= b * c
    ensures a <= b
  {
    if a > b {
      Distribute(b, a - b, c);
      Distribute(1, a - b - 1, c);
    }
  }

  /** With no more chunks than a chunk has slots, the counter never reaches `chunk_size`. */
  lemma NeverFull(p: Pool, size: nat, x: Slot)
    requires QuietPool(p, size) && p.refills <= size && x in p.out
    ensures p.numFree < size
  {
    assert |p.out| >= 1 by { assert p.out == (p.out - {x}) + {x}; }
    assert p.refills * size - p.refills * (size - 1) == p.refills;
  }

  lemma StepQuiet(s: State, e: Event, n: nat)
    requires Enabled(s, e) && Quiet(s) && |Everything(s)| == n * s.chunkSize && n <= s.chunkSize
    ensures Quiet(Step(AS_WRITTEN, s, e))
  {
    var r, p := Step(AS_WRITTEN, s, e), s.pools[e.i];
    StepConserves(AS_WRITTEN, s, e);
    match e
    case Alloc(i) => AllocQuiet(s, i);
    case Free(i, x) =>
      PoolBound(s, i, n);
      NeverFull(p, s.chunkSize, x);
      assert r.pools[i].out == p.out - {x} && |p.out - {x}| == |p.out| - 1;
  }

  lemma RefillQuiet(p: Pool, c: seq<Slot>, size: nat)
    requires QuietPool(p, size) && size > 0 && p.head == [] && |c| == size && c[0] !in p.out
    ensures QuietPool(Refill(AS_WRITTEN, p, c), size)
  {
    assert |p.out + {c[0]}| == |p.out| + 1;
    Distribute(p.refills, 1, size);
    Distribute(p.refills, 1, size - 1);
  }

  lemma AllocQuiet(s: State, i: nat)
    requires Enabled(s, Alloc(i)) && Quiet(s)
    ensures Quiet(AllocFrom(AS_WRITTEN, s, i))
  {
    var r, p := AllocFrom(AS_WRITTEN, s, i), s.pools[i];
    AllocConserves(AS_WRITTEN, s, i);
    assert QuietPool(p, s.chunkSize);
    if p.head != [] {
      InHeadNotOut(s, i, p.head[0], p.head);
      assert |p.out + {p.head[0]}| == |p.out| + 1;
    } else if s.chunks != [] {
      InHeadNotOut(s, i, s.chunks[0][0], s.chunks[0]);
      RefillQuiet(p, s.chunks[0], s.chunkSize);
    }
  }

  /** The code keeps all chunks exact as long as there are no more chunks than a chunk has
      slots: nothing is ever given back. */
  lemma {:induction false} RunQuiet(s0: State, es: seq<Event>, s: State, n: nat)
    requires Run(AS_WRITTEN, s0, es, s) && Quiet(s0) && |Everything(s0)| == n * s0.chunkSize && n <= s0.chunkSize
    ensures Quiet(s) && s.chunkSize == s0.chunkSize
    decreases |es|
  {
    if es != [] {
      var r :| Run(AS_WRITTEN, s0, es[..|es| - 1], r) && NonEmpty(r) && Enabled(r, es[|es| - 1]) && s == Step(AS_WRITTEN, r, es[|es| - 1]);
      RunQuiet(s0, es[..|es| - 1], r, n);
      RunConserves(AS_WRITTEN, s0, es[..|es| - 1], r);
      StepQuiet(r, es[|es| - 1], n);
    }
  }

  lemma Extend(port: Port, s0: State, es: seq<Event>, r: State, e: Event)
    requires Run(port, s0, es, r) && NonEmpty(r) && Enabled(r, e)
    ensures Run(port, s0, es + [e], Step(port, r, e))
  {
    assert (es + [e])[..|es|] == es && (es + [e])[|es|] == e;
  }

  /** Pool 0 has been refilled and nothing else happened. */
  ghost predicate OnlyFirst(s: State, n: nat) {
    && Quiet(s) && s.pools != [] && |s.pools[0].head| < s.chunkSize && s.pools[0].refills + |s.chunks| == n
  }

  /** Pool 0 takes `k` slots, one after the other. */
  lemma {:induction false} TakeMany(s0: State, n: nat, k: nat) returns (es: seq<Event>, s: State)
    requires OnlyFirst(s0, n) && s0.pools[0] == Pool([], 0, [], {}, 0) && k <= n * s0.chunkSize
    ensures Run(AS_WRITTEN, s0, es, s) && OnlyFirst(s, n) && |s.pools[0].out| == k && s.chunkSize == s0.chunkSize
    decreases k
  {
    if k == 0 {
      es, s := [], s0;
    } else {
      var es', r := TakeMany(s0, n, k - 1);
      es, s := es' + [Alloc(0)], AllocFrom(AS_WRITTEN, r, 0);
      TakeOne(r, n, s);
      Extend(AS_WRITTEN, s0, es', r, Alloc(0));
    }
  }

  lemma TakeOne(r: State, n: nat, s: State)
    requires OnlyFirst(r, n) && |r.pools[0].out| < n * r.chunkSize && s == AllocFrom(AS_WRITTEN, r, 0)
    ensures Enabled(r, Alloc(0)) && OnlyFirst(s, n) && |s.pools[0].out| == |r.pools[0].out| + 1 && s.chunkSize == r.chunkSize
  {
    var p := r.pools[0];
    if p.head == [] {
      assert r.chunks == [] ==> p.refills == n;
      AllocQuiet(r, 0);
      InHeadNotOut(r, 0, r.chunks[0][0], r.chunks[0]);
    } else {
      AllocQuiet(r, 0);
      InHeadNotOut(r, 0, p.head[0], p.head);
    }
  }

  /** `k` slots were freed to a pool whose list was empty and whose counter lagged by `lag`. */
  ghost predicate Lagging(s: State, lag: nat, k: nat, total: nat) {
    && NonEmpty(s) && s.pools != [] && s.pools[0].spare == [] && |s.pools[0].head| == k && s.pools[0].numFree == k - lag
    && |s.pools[0].out| == total - k
  }

  lemma {:induction false} GiveMany(s0: State, es0: seq<Event>, r0: State, lag: nat, k: nat, total: nat) returns (es: seq<Event>, s: State)
    requires Run(AS_WRITTEN, s0, es0, r0) && Lagging(r0, lag, 0, total) && k <= r0.chunkSize + lag && k <= total
    ensures Run(AS_WRITTEN, s0, es, s) && Lagging(s, lag, k, total) && s.chunkSize == r0.chunkSize
    decreases k
  {
    if k == 0 {
      es, s := es0, r0;
    } else {
      var es', r := GiveMany(s0, es0, r0, lag, k - 1, total);
      var x :| x in r.pools[0].out;
      es, s := es' + [Free(0, x)], FreeTo(r, 0, x);
      Extend(AS_WRITTEN, s0, es', r, Free(0, x));
      assert |r.pools[0].out - {x}| == |r.pools[0].out| - 1;
    }
  }

  lemma Squares(c: nat, n: nat) returns (total: nat, lag: nat)
    requires 0 < c < n
    ensures total == (c + 1) * c && lag == (c + 1) * (c - 1) && total == c + lag + 1 && total <= n * c
  {
    Mono(c + 1, n, c);
    total, lag := (c + 1) * c, (c + 1) * (c - 1);
  }

  /** When exactly the slots of `chunk_size + 1` chunks are out, the pool's list is empty. */
  lemma AllTaken(s: State, n: nat, lag: nat, total: nat)
    requires OnlyFirst(s, n) && |s.pools[0].out| == total
    requires total == (s.chunkSize + 1) * s.chunkSize && lag == (s.chunkSize + 1) * (s.chunkSize - 1)
    ensures Lagging(s, lag, 0, total)
  {
    var p := s.pools[0];
    Remainder(|p.head|, p.refills, s.chunkSize);
  }

  lemma FillUp(s0: State, es0: seq<Event>, r0: State, lag: nat, total: nat) returns (es: seq<Event>, s: State)
    requires Run(AS_WRITTEN, s0, es0, r0) && Lagging(r0, lag, 0, total) && total == r0.chunkSize + lag + 1
    ensures Run(AS_WRITTEN, s0, es, s) && s.chunkSize == r0.chunkSize && s.pools != []
    ensures |s.pools[0].spare| == r0.chunkSize + lag
  {
    var es1, r := GiveMany(s0, es0, r0, lag, r0.chunkSize + lag, total);
    var x :| x in r.pools[0].out;
    es, s := es1 + [Free(0, x)], FreeTo(r, 0, x);
    Extend(AS_WRITTEN, s0, es1, r, Free(0, x));
  }

  /** With more chunks than that, taking and then freeing `(chunk_size + 1) * chunk_size` slots
      leaves a private chunk that is longer than a chunk. */
  lemma OversizedChunk(s0: State, n: nat) returns (es: seq<Event>, s: State)
    requires OnlyFirst(s0, n) && s0.pools[0] == Pool([], 0, [], {}, 0) && s0.chunkSize > 1 && n > s0.chunkSize
    ensures Run(AS_WRITTEN, s0, es, s) && s.chunkSize == s0.chunkSize
    ensures s.pools != [] && |s.pools[0].spare| == s.chunkSize + (s.chunkSize + 1) * (s.chunkSize - 1)
  {
    var c := s0.chunkSize;
    var total, lag := Squares(c, n);
    var es1, r1 := TakeMany(s0, n, total);
    AllTaken(r1, n, lag, total);
    es, s := FillUp(s0, es1, r1, lag, total);
  }

  lemma Remainder(h: nat, k: nat, c: nat)
    requires h < c && h + (c + 1) * c == k * c
    ensures h == 0 && k == c + 1
  {
    Distribute(c + 1, k - c - 1, c);
    assert h == (k - c - 1) * c;
    if k > c + 1 {
      Distribute(1, k - c - 2, c);
    }
  }

  /** From a fresh datastore of `n` chunks, the code as written keeps all chunks exact in every
      run if and only if chunks have one slot or there are no more chunks than a chunk has slots. */
  lemma ExactIff(chunks: seq<seq<Slot>>, size: nat, pools: nat)
    requires size > 0 && pools > 0 && Once(ChunkBags(chunks)) && forall k :: 0 <= k < |chunks| ==> |chunks[k]| == size
    ensures (forall es, s :: Run(AS_WRITTEN, Start(chunks, size, pools), es, s) ==> ExactChunks(s)) <==>
            size == 1 || |chunks| <= size
  {
    var s0, n := Start(chunks, size, pools), |chunks|;
    StartFacts(chunks, size, pools);
    if size == 1 {
      forall es, s | Run(AS_WRITTEN, s0, es, s) ensures ExactChunks(s) { RunExactOne(s0, es, s); }
    } else if n <= size {
      forall es, s | Run(AS_WRITTEN, s0, es, s) ensures ExactChunks(s) { RunQuiet(s0, es, s, n); }
    } else {
      var es, s := OversizedChunk(s0, n);
      assert (size + 1) * (size - 1) > 0;
      assert Run(AS_WRITTEN, s0, es, s) && !ExactChunks(s);
    }
  }

  /** All chunks have `chunk_size` slots, and the datastore counts its chunks. */
  ghost predicate ExactChunks(s: State) {
    && s.freeChunks == |s.chunks| && (forall k :: 0 <= k < |s.chunks| ==> |s.chunks[k]| == s.chunkSize)
    && forall i :: 0 <= i < |s.pools| ==> s.pools[i].spare == [] || |s.pools[i].spare| == s.chunkSize
  }

  lemma StartFacts(chunks: seq<seq<Slot>>, size: nat, pools: nat)
    requires size > 0 && pools > 0 && Once(ChunkBags(chunks)) && forall k :: 0 <= k < |chunks| ==> |chunks[k]| == size
    ensures var s0 := Start(chunks, size, pools);
            Exact(s0) && OnlyFirst(s0, |chunks|) && |Everything(s0)| == |chunks| * size
  {
    var s0 := Start(chunks, size, pools);
    EmptyPools(s0.pools);
    ChunkCount(chunks, size);
    assert multiset{} + ChunkBags(chunks) == ChunkBags(chunks);
  }

  lemma {:induction false} EmptyPools(ps: seq<Pool>)
    requires forall i :: 0 <= i < |ps| ==> ps[i] == Pool([], 0, [], {}, 0)
    ensures PoolBags(ps) == multiset{}
  {
    if ps != [] {
      EmptyPools(ps[1..]);
      BagSize(ps[0]);
    }
  }

  lemma {:induction false} ChunkCount(cs: seq<seq<Slot>>, size: nat)
    requires forall k :: 0 <= k < |cs| ==> |cs[k]| == size
    ensures |ChunkBags(cs)| == |cs| * size
  {
    if cs != [] {
      ChunkCount(cs[1..], size);
      Distribute(1, |cs| - 1, size);
    }
  }
}
