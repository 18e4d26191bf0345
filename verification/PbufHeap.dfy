/** The memory that lwip/pbuf.c works on: packet buffers linked into chains, shared and
    counted.  A pbuf is allocated exactly when its pointer is a key of the heap. */
module PbufHeap {

  const NULL: Ptr := 0
  const U16: nat := 65536

  type Ptr = nat
  type Byte = bv8

  /** `len`, `tot` (tot_len) and `ref` are 16 bits wide.  `payload` is the buffer that the
      payload pointer shows; its first `len` bytes are data. */
  datatype Node = Node(next: Ptr, len: nat, tot: nat, ref: nat, payload: seq<Byte>, fin: bool)

  type Heap = map<Ptr, Node>

  // ----- chains -----

  function Then(c: seq<Ptr>, i: int): Ptr { if 0 <= i < |c| then c[i] else NULL }

  ghost predicate Distinct(c: seq<Ptr>) { forall i, j :: 0 <= i < j < |c| ==> c[i] != c[j] }

  /** Following `next` from `p` visits exactly `c` and ends at NULL. */
  ghost predicate IsChain(h: Heap, p: Ptr, c: seq<Ptr>) {
    && p == Then(c, 0) && Distinct(c)
    && (forall i :: 0 <= i < |c| ==> c[i] in h && c[i] != NULL)
    && (forall i, j :: 0 <= i < j < |c| && j == i + 1 ==> h[c[i]].next == c[j])
    && (c != [] ==> h[c[|c| - 1]].next == NULL)
  }

  /** The link out of the pbuf at `i`. */
  lemma ChainNext(h: Heap, p: Ptr, c: seq<Ptr>, i: nat)
    requires IsChain(h, p, c) && i < |c|
    ensures h[c[i]].next == Then(c, i + 1)
  {}

  ghost predicate HasChain(h: Heap, p: Ptr) { exists c :: IsChain(h, p, c) }

  ghost function ChainOf(h: Heap, p: Ptr): (c: seq<Ptr>)
    requires HasChain(h, p)
    ensures IsChain(h, p, c)
  {
    var c :| IsChain(h, p, c); c
  }

  lemma {:induction false} ChainUnique(h: Heap, p: Ptr, c: seq<Ptr>, d: seq<Ptr>)
    requires IsChain(h, p, c) && IsChain(h, p, d)
    ensures c == d
    decreases |c|
  {
    if c != [] && d != [] {
      ChainTail(h, c, 1);
      ChainTail(h, d, 1);
      ChainUnique(h, h[p].next, c[1..], d[1..]);
      assert c == [p] + c[1..] && d == [p] + d[1..];
    }
  }

  lemma ChainTail(h: Heap, c: seq<Ptr>, i: nat)
    requires IsChain(h, Then(c, 0), c) && i <= |c|
    ensures IsChain(h, Then(c, i), c[i..])
  {}

  lemma LastStays(c: seq<Ptr>, i: nat)
    requires i < |c|
    ensures c[|c| - 1] in c[i..]
  {
    assert c[i..][|c| - 1 - i] == c[|c| - 1];
  }

  /** Chains that meet have the same end. */
  lemma ChainsMeet(h: Heap, c: seq<Ptr>, i: nat, t: Ptr, d: seq<Ptr>, j: nat)
    requires IsChain(h, Then(c, 0), c) && IsChain(h, t, d) && i < |c| && j < |d| && c[i] == d[j]
    ensures c[|c| - 1] in d
  {
    LastStays(c, i);
    ChainTail(h, c, i);
    ChainTail(h, d, j);
    ChainUnique(h, c[i], c[i..], d[j..]);
    assert forall x :: x in d[j..] ==> x in d;
  }

  /** Every pbuf starts a chain, and the 16-bit fields are in range. */
  ghost predicate WellFormed(h: Heap) {
    && NULL !in h
    && (forall p :: p in h ==> h[p].len < U16 && h[p].tot < U16 && h[p].ref < U16 && h[p].len <= |h[p].payload|)
    && forall p {:trigger HasChain(h, p)} :: p in h ==> HasChain(h, p)
  }

  lemma NextInHeap(h: Heap, p: Ptr)
    requires WellFormed(h) && p in h
    ensures h[p].next != NULL ==> h[p].next in h && h[p].next != p && HasChain(h, h[p].next)
    ensures HasChain(h, h[p].next)
  {
    var c := ChainOf(h, p);
    ChainTail(h, c, 1);
    assert IsChain(h, h[p].next, c[1..]);
  }

  // ----- references -----

  /** The pbufs whose `next` is `p`. */
  ghost function Linking(h: Heap, p: Ptr): set<Ptr> { set x | x in h && h[x].next == p }

  /** Each count is the number of links to the pbuf plus the references held elsewhere. */
  ghost predicate Counted(h: Heap, held: multiset<Ptr>) {
    && (forall p :: p in held ==> p in h)
    && forall p :: p in h ==> h[p].ref == |Linking(h, p)| + held[p] && h[p].ref > 0
  }

  // ----- total lengths -----

  /** Addition as the 16-bit fields do it. */
  function Add16(a: int, d: int): (r: nat)
    ensures r < U16 && (0 <= a + d < U16 ==> r == a + d)
  {
    (a + d) % U16
  }

  function TotOf(h: Heap, p: Ptr): nat { if p in h then h[p].tot else 0 }

  ghost predicate TotAt(h: Heap, p: Ptr)
    requires p in h
  {
    h[p].tot == Add16(h[p].len, TotOf(h, h[p].next))
  }

  /** `tot_len == len + next.tot_len`, in 16 bits. */
  ghost predicate Totals(h: Heap) { forall p {:trigger TotAt(h, p)} :: p in h ==> TotAt(h, p) }

  function Sum(h: Heap, c: seq<Ptr>): nat
    requires forall i :: 0 <= i < |c| ==> c[i] in h
  {
    if c == [] then 0 else h[c[0]].len + Sum(h, c[1..])
  }

  lemma SumModU16(a: int, b: int)
    ensures Add16(a, Add16(0, b)) == Add16(0, a + b)
  {}

  /** `tot_len` is the number of bytes in the chain, modulo 2^16. */
  lemma {:induction false} TotalIsSum(h: Heap, p: Ptr, c: seq<Ptr>)
    requires NULL !in h && Totals(h) && IsChain(h, p, c)
    ensures TotOf(h, p) == Add16(0, Sum(h, c))
    decreases |c|
  {
    if c != [] {
      ChainTail(h, c, 1);
      TotalIsSum(h, h[p].next, c[1..]);
      assert TotAt(h, p);
      SumModU16(h[p].len, Sum(h, c[1..]));
    }
  }

  // ----- small steps: what each does to counts and chains -----

  /** Only lengths and contents differ. */
  ghost predicate SameLinks(h: Heap, r: Heap) {
    r.Keys == h.Keys && forall p :: p in h ==> r[p].next == h[p].next && r[p].ref == h[p].ref
  }

  lemma SameLinksKeep(h: Heap, r: Heap, held: multiset<Ptr>)
    requires SameLinks(h, r) && Counted(h, held)
    ensures Counted(r, held)
  {
    forall p | p in r ensures r[p].ref == |Linking(r, p)| + held[p] && r[p].ref > 0 {
      assert Linking(r, p) == Linking(h, p);
    }
  }

  lemma SameLinksChains(h: Heap, r: Heap)
    requires SameLinks(h, r)
    ensures forall p :: HasChain(h, p) ==> HasChain(r, p)
  {
    forall p | HasChain(h, p) ensures HasChain(r, p) {
      assert IsChain(r, p, ChainOf(h, p));
    }
  }

  lemma LinkingAfter(h: Heap, p: Ptr, n: Node, x: Ptr)
    requires p in h
    ensures |Linking(h[p := n], x)| == |Linking(h, x)| - (if h[p].next == x then 1 else 0) + (if n.next == x then 1 else 0)
  {
    var s := Linking(h, x) - {p};
    assert Linking(h, x) == if h[p].next == x then s + {p} else s;
    assert Linking(h[p := n], x) == if n.next == x then s + {p} else s;
  }

  function SetNext(h: Heap, p: Ptr, x: Ptr): Heap
    requires p in h
  {
    h[p := h[p].(next := x)]
  }

  /** Storing a held reference in a link. */
  lemma LinkCounts(h: Heap, held: multiset<Ptr>, p: Ptr, t: Ptr)
    requires Counted(h, held) && NULL !in h && p in h && h[p].next == NULL && t in held
    ensures Counted(SetNext(h, p, t), held - multiset{t})
  {
    forall x | x in h
      ensures SetNext(h, p, t)[x].ref == |Linking(SetNext(h, p, t), x)| + (held - multiset{t})[x]
    {
      LinkingAfter(h, p, h[p].(next := t), x);
    }
  }

  /** Taking the reference out of a link. */
  lemma UnlinkCounts(h: Heap, held: multiset<Ptr>, p: Ptr)
    requires Counted(h, held) && NULL !in h && p in h && h[p].next in h
    ensures Counted(SetNext(h, p, NULL), held + multiset{h[p].next})
  {
    var q := h[p].next;
    forall x | x in h
      ensures SetNext(h, p, NULL)[x].ref == |Linking(SetNext(h, p, NULL), x)| + (held + multiset{q})[x]
    {
      LinkingAfter(h, p, h[p].(next := NULL), x);
    }
  }

  lemma LinkChains(h: Heap, p: Ptr, t: Ptr, d: seq<Ptr>)
    requires WellFormed(h) && p in h && h[p].next == NULL && IsChain(h, t, d) && p !in d
    ensures WellFormed(SetNext(h, p, t))
  {
    var r := SetNext(h, p, t);
    assert IsChain(r, t, d);
    forall x | x in r ensures HasChain(r, x) {
      var c := ChainOf(h, x);
      if p in c {
        LinkChain(h, p, t, d, x, c);
      } else {
        assert IsChain(r, x, c);
      }
    }
  }

  /** The chains that ended at `p` go on with the chain of `t`. */
  lemma LinkChain(h: Heap, p: Ptr, t: Ptr, d: seq<Ptr>, x: Ptr, c: seq<Ptr>)
    requires NULL !in h && p in h && h[p].next == NULL && IsChain(h, t, d) && p !in d && IsChain(h, x, c) && p in c
    ensures IsChain(SetNext(h, p, t), x, c + d) && c[|c| - 1] == p
  {
    var k :| 0 <= k < |c| && c[k] == p;
    ChainNext(h, x, c, k);
    forall i, j | 0 <= i < |c| && 0 <= j < |d| ensures c[i] != d[j] {
      if c[i] == d[j] { ChainsMeet(h, c, i, t, d, j); }
    }
  }

  lemma UnlinkChains(h: Heap, p: Ptr)
    requires WellFormed(h) && p in h
    ensures WellFormed(SetNext(h, p, NULL))
  {
    var r := SetNext(h, p, NULL);
    forall x | x in r ensures HasChain(r, x) {
      var c := ChainOf(h, x);
      if p in c {
        var k :| 0 <= k < |c| && c[k] == p;
        CutChain(h, x, c, k);
      } else {
        assert IsChain(r, x, c);
      }
    }
  }

  lemma CutChain(h: Heap, x: Ptr, c: seq<Ptr>, k: nat)
    requires IsChain(h, x, c) && k < |c|
    ensures IsChain(SetNext(h, c[k], NULL), x, c[..k + 1])
  {}

  /** A new pbuf, held by whoever asked for it. */
  lemma FreshCounts(h: Heap, held: multiset<Ptr>, p: Ptr, n: Node)
    requires WellFormed(h) && Counted(h, held) && p !in h && p != NULL && n.next == NULL && n.ref == 1
    ensures Counted(h[p := n], held + multiset{p})
  {
    forall x | x in h[p := n]
      ensures h[p := n][x].ref == |Linking(h[p := n], x)| + (held + multiset{p})[x] && h[p := n][x].ref > 0
    {
      forall y | y in h ensures h[y].next != p { NextInHeap(h, y); }
      assert Linking(h[p := n], x) == if x == p then {} else Linking(h, x);
    }
  }

  lemma FreshChains(h: Heap, p: Ptr, n: Node)
    requires WellFormed(h) && p !in h && p != NULL && n.next == NULL
    requires n.len < U16 && n.tot < U16 && n.ref < U16 && n.len <= |n.payload|
    ensures WellFormed(h[p := n])
  {
    var r := h[p := n];
    assert IsChain(r, p, [p]);
    forall x | x in h ensures HasChain(r, x) {
      assert IsChain(r, x, ChainOf(h, x));
    }
  }
}
