/** Two chains that share a tail, and what joining one of them does to the other (lwip/pbuf.c). */
module PbufSharing {
  import opened PbufHeap
  import opened PbufOps
  import opened PbufChains
  import opened PbufRuns

  /** A pbuf of one byte, fresh from `pbuf_alloc`. */
  const SINGLE: Node := Node(NULL, 1, 1, 1, Blank(1), false)

  ghost predicate Reaches(ops: seq<Op>, s: State) { Run(ops, s) && Good(s.heap, s.held) }

  lemma Extends(ops: seq<Op>, s: State, op: Op, r: State)
    requires Reaches(ops, s) && Legal(s, op) && r == Step(s, op)
    ensures Reaches(ops + [op], r)
  {
    assert (ops + [op])[..|ops + [op]| - 1] == ops;
    StepKeeps(s, op, r);
  }

  lemma AllocOne(ops: seq<Op>, s: State, p: Ptr, r: State)
    requires Reaches(ops, s) && p !in s.heap && p != NULL && r == State(s.heap[p := SINGLE], s.held + multiset{p})
    ensures Reaches(ops + [OpAlloc([p], Single, 1)], r)
  {
    var op := OpAlloc([p], Single, 1);
    assert Plus([1]) == 1 by { assert [1][1..] == []; }
    assert [p][..1] == [p] && [p][1..] == [] && [1][1..] == [];
    assert Build(s.heap, [p], [1], 1) == s.heap[p := SINGLE];
    Extends(ops, s, op, r);
  }

  /** `p` is a chain of its own that nothing links to. */
  ghost predicate Alone(h: Heap, p: Ptr) { p in h && p != NULL && h[p].next == NULL && forall x :: x in h ==> h[x].next != p }

  /** What `pbuf_chain` makes of two single pbufs. */
  function Linked(h: Heap, p: Ptr, t: Ptr): Heap
    requires p in h && t in h && p != t
  {
    h[p := h[p].(next := t, tot := Add16(h[p].tot, h[t].tot))][t := h[t].(ref := Add16(h[t].ref, 1))]
  }

  lemma ChainsOfTwo(h: Heap, p: Ptr, t: Ptr)
    requires WellFormed(h) && Alone(h, p) && t in h && h[t].next == NULL && p != t
    ensures HasChain(h, p) && ChainOf(h, p) == [p] && HasChain(h, t) && ChainOf(h, t) == [t]
    ensures Joinable(h, p, [p], t, [t]) && Unshared(h, [p])
  {
    assert IsChain(h, p, [p]) && IsChain(h, t, [t]);
    ChainUnique(h, p, ChainOf(h, p), [p]);
    ChainUnique(h, t, ChainOf(h, t), [t]);
  }

  lemma ChainTwo(ops: seq<Op>, s: State, p: Ptr, t: Ptr, r: State)
    requires Reaches(ops, s) && Alone(s.heap, p) && t in s.heap && s.heap[t].next == NULL && p != t && t in s.held
    requires s.heap[t].ref < 9 && r == State(Linked(s.heap, p, t), s.held)
    ensures Reaches(ops + [OpChain(p, t)], r)
  {
    ChainsOfTwo(s.heap, p, t);
    assert Last([p]) == p;
    assert Chained(s.heap, [p], t) == Linked(s.heap, p, t);
    Extends(ops, s, OpChain(p, t), r);
  }

  /** Four pbufs. */
  lemma FourSingles(a: Ptr, b: Ptr, t: Ptr, u: Ptr) returns (ops: seq<Op>, s: State)
    requires NULL !in {a, b, t, u} && a != b && a != t && a != u && b != t && b != u && t != u
    ensures Reaches(ops, s) && s.heap == map[a := SINGLE, b := SINGLE, t := SINGLE, u := SINGLE] && t in s.held && u in s.held
  {
    var s0 := State(map[], multiset{});
    assert Reaches([], s0);
    var s1 := State(map[a := SINGLE], multiset{} + multiset{a});
    AllocOne([], s0, a, s1);
    var s2 := State(s1.heap[b := SINGLE], s1.held + multiset{b});
    AllocOne([] + [OpAlloc([a], Single, 1)], s1, b, s2);
    var s3 := State(s2.heap[t := SINGLE], s2.held + multiset{t});
    AllocOne([] + [OpAlloc([a], Single, 1)] + [OpAlloc([b], Single, 1)], s2, t, s3);
    s := State(s3.heap[u := SINGLE], s3.held + multiset{u});
    ops := [] + [OpAlloc([a], Single, 1)] + [OpAlloc([b], Single, 1)] + [OpAlloc([t], Single, 1)];
    AllocOne(ops, s3, u, s);
    ops := ops + [OpAlloc([u], Single, 1)];
  }

  ghost predicate FourApart(h: Heap, a: Ptr, b: Ptr, t: Ptr, u: Ptr) {
    && h.Keys == {a, b, t, u} && NULL !in h && a != b && a != t && a != u && b != t && b != u && t != u
    && h[t].next == NULL && h[u].next == NULL && h[b].len == 1 && h[u].tot == 1 && h[t].tot == 1 && h[t].ref < 4
  }

  lemma LinkedFields(h: Heap, p: Ptr, t: Ptr, r: Heap)
    requires p in h && t in h && p != t && r == Linked(h, p, t)
    ensures r.Keys == h.Keys && forall x :: x in h && x != p && x != t ==> r[x] == h[x]
    ensures r[p] == h[p].(next := t, tot := Add16(h[p].tot, h[t].tot)) && r[t] == h[t].(ref := Add16(h[t].ref, 1))
  {}

  lemma FirstAlone(h: Heap, a: Ptr, b: Ptr, t: Ptr, u: Ptr)
    requires FourApart(h, a, b, t, u) && h[a].next in {NULL, t} && h[b].next == NULL
    ensures Alone(h, b) && (h[a].next == NULL ==> Alone(h, a))
  {}

  lemma ChainFirst(ops: seq<Op>, s: State, a: Ptr, b: Ptr, t: Ptr, u: Ptr, r: State)
    requires Reaches(ops, s) && FourApart(s.heap, a, b, t, u) && t in s.held && r == State(Linked(s.heap, a, t), s.held)
    requires s.heap[a].next == NULL && s.heap[b] == SINGLE && s.heap[t].ref == 1
    ensures Reaches(ops + [OpChain(a, t)], r) && FourApart(r.heap, a, b, t, u)
    ensures r.heap[a].next == t && r.heap[b] == SINGLE && r.heap[t].ref == 2
  {
    FirstAlone(s.heap, a, b, t, u);
    ChainTwo(ops, s, a, t, r);
    LinkedFields(s.heap, a, t, r.heap);
  }

  lemma ChainSecond(ops: seq<Op>, s: State, a: Ptr, b: Ptr, t: Ptr, u: Ptr, r: State)
    requires Reaches(ops, s) && FourApart(s.heap, a, b, t, u) && t in s.held && r == State(Linked(s.heap, b, t), s.held)
    requires s.heap[a].next == t && s.heap[b] == SINGLE && s.heap[t].ref == 2
    ensures Reaches(ops + [OpChain(b, t)], r) && FourApart(r.heap, a, b, t, u)
    ensures r.heap[a].next == t && r.heap[b].next == t && r.heap[b].tot == 2
  {
    FirstAlone(s.heap, a, b, t, u);
    ChainTwo(ops, s, b, t, r);
    LinkedFields(s.heap, b, t, r.heap);
  }

  /** A legal run in which `a` and `b` are both chained to `t`.  Joining `a` and `u` then leaves
      `b` with a total that is wrong. */
  lemma SharedTail(a: Ptr, b: Ptr, t: Ptr, u: Ptr) returns (ops: seq<Op>, s: State)
    requires NULL !in {a, b, t, u} && a != b && a != t && a != u && b != t && b != u && t != u
    ensures Run(ops, s) && u in s.held && Joinable(s.heap, a, [a, t], u, [u]) && b in Cat(s.heap, [a, t], u)
    ensures !TotAt(Cat(s.heap, [a, t], u), b) && !Totals(Cat(s.heap, [a, t], u))
  {
    var ops4, s4 := FourSingles(a, b, t, u);
    var s5 := State(Linked(s4.heap, a, t), s4.held);
    ChainFirst(ops4, s4, a, b, t, u, s5);
    s := State(Linked(s5.heap, b, t), s5.held);
    ChainSecond(ops4 + [OpChain(a, t)], s5, a, b, t, u, s);
    ops := ops4 + [OpChain(a, t)] + [OpChain(b, t)];
    JoinBreaks(s.heap, a, b, t, u);
  }

  lemma JoinBreaks(h: Heap, a: Ptr, b: Ptr, t: Ptr, u: Ptr)
    requires WellFormed(h) && FourApart(h, a, b, t, u) && h[a].next == t && h[b].next == t && h[b].tot == 2
    ensures Joinable(h, a, [a, t], u, [u]) && b in Cat(h, [a, t], u) && !TotAt(Cat(h, [a, t], u), b)
  {
    assert Last([a, t]) == t && IsChain(h, a, [a, t]) && IsChain(h, u, [u]);
    var r := Cat(h, [a, t], u);
    assert t in [a, t] && r[t].tot == 2 && r[b] == h[b];
  }
}
