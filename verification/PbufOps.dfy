/** Giving up references (`pbuf_free` of lwip/pbuf.c), counting them, and changing the totals of a
    front part of a chain. */
module PbufOps {
  import opened PbufHeap

  // ----- pbuf_free -----

  /** `pbuf_free`: give up one reference to `p`. */
  function Release(h: Heap, p: Ptr): Heap
    decreases |h|
  {
    if p !in h then h
    else if h[p].ref != 1 then h[p := h[p].(ref := Add16(h[p].ref, -1))]
    else
      var r := h - {p};
      assert r.Keys == h.Keys - {p};
      Release(r, h[p].next)
  }

  /** How many pbufs at the head of the chain have no second reference. */
  function Sole(h: Heap, c: seq<Ptr>): (k: nat)
    ensures k <= |c|
  {
    if c == [] || c[0] !in h || h[c[0]].ref != 1 then 0 else 1 + Sole(h, c[1..])
  }

  function Elements(c: seq<Ptr>): set<Ptr> { set i | 0 <= i < |c| :: c[i] }

  lemma ChainWithoutHead(h: Heap, p: Ptr, c: seq<Ptr>)
    requires IsChain(h, p, c) && c != []
    ensures IsChain(h - {p}, h[p].next, c[1..])
  {
    ChainTail(h, c, 1);
  }

  lemma {:induction false} SoleFrame(h: Heap, c: seq<Ptr>, x: Ptr)
    requires x !in c
    ensures Sole(h - {x}, c) == Sole(h, c)
    decreases |c|
  {
    if c != [] {
      SoleFrame(h, c[1..], x);
    }
  }

  /** Exactly the longest head prefix whose counts reach zero is released; the pbuf after it
      loses one reference, and no other pbuf changes. */
  lemma {:induction false} ReleasesPrefix(h: Heap, p: Ptr, c: seq<Ptr>)
    requires IsChain(h, p, c) && NULL !in h
    ensures var r, k := Release(h, p), Sole(h, c);
            && r.Keys == h.Keys - Elements(c[..k])
            && forall x :: x in r ==>
                 r[x] == if k < |c| && x == c[k] then h[x].(ref := Add16(h[x].ref, -1)) else h[x]
    decreases |c|
  {
    if c != [] && h[p].ref == 1 {
      var k := Sole(h, c);
      ChainWithoutHead(h, p, c);
      SoleFrame(h, c[1..], p);
      ReleasesPrefix(h - {p}, h[p].next, c[1..]);
      PrefixElements(c, k);
    }
  }

  lemma PrefixElements(c: seq<Ptr>, k: nat)
    requires 0 < k <= |c|
    ensures Elements(c[..k]) == {c[0]} + Elements(c[1..][..k - 1])
  {
    forall x | x in Elements(c[..k]) ensures x in {c[0]} + Elements(c[1..][..k - 1]) {
      var i :| 0 <= i < k && c[i] == x;
      if i > 0 {
        assert c[1..][..k - 1][i - 1] == x;
      }
    }
    forall x | x in Elements(c[1..][..k - 1]) ensures x in Elements(c[..k]) {
      var i :| 0 <= i < k - 1 && c[1..][..k - 1][i] == x;
      assert c[..k][i + 1] == x;
    }
    assert c[..k][0] == c[0];
  }

  /** Removing the last reference to `p` together with `p` moves its link to the holder. */
  lemma RemoveCounts(h: Heap, held: multiset<Ptr>, p: Ptr)
    requires WellFormed(h) && Counted(h, held) && p in held && h[p].ref == 1
    ensures Counted(h - {p}, held - multiset{p} + (if h[p].next == NULL then multiset{} else multiset{h[p].next}))
    ensures Linking(h, p) == {}
  {
    var r, n := h - {p}, h[p].next;
    NextInHeap(h, p);
    var after := held - multiset{p} + (if n == NULL then multiset{} else multiset{n});
    forall x | x in r ensures r[x].ref == |Linking(r, x)| + after[x] {
      assert Linking(r, x) == Linking(h, x) - {p};
      assert p in Linking(h, x) <==> n == x;
    }
  }

  lemma RemoveChains(h: Heap, p: Ptr)
    requires WellFormed(h) && p in h && Linking(h, p) == {}
    ensures WellFormed(h - {p})
  {
    var r := h - {p};
    forall x | x in r ensures HasChain(r, x) {
      var c := ChainOf(h, x);
      forall i | 0 <= i < |c| ensures c[i] != p {
        if i > 0 {
          assert c[i - 1] in Linking(h, c[i]);
        }
      }
      assert IsChain(r, x, c);
    }
  }

  lemma RemoveTotals(h: Heap, p: Ptr)
    requires Totals(h) && Linking(h, p) == {}
    ensures Totals(h - {p})
  {
    forall x | x in h - {p} ensures TotAt(h - {p}, x) {
      assert TotAt(h, x) && x !in Linking(h, p);
    }
  }

  function SetRef(h: Heap, p: Ptr, ref: nat): Heap
    requires p in h
  {
    h[p := h[p].(ref := ref)]
  }

  lemma SetRefKeeps(h: Heap, p: Ptr, ref: nat)
    requires WellFormed(h) && p in h && ref < U16
    ensures WellFormed(SetRef(h, p, ref)) && (Totals(h) ==> Totals(SetRef(h, p, ref)))
  {
    var r := SetRef(h, p, ref);
    forall x | x in r ensures HasChain(r, x) && (TotAt(h, x) ==> TotAt(r, x)) {
      assert IsChain(r, x, ChainOf(h, x));
    }
  }

  lemma SetRefCounts(h: Heap, held: multiset<Ptr>, p: Ptr, ref: nat, after: multiset<Ptr>)
    requires Counted(h, held) && p in h && ref == h[p].ref - held[p] + after[p] && ref > 0
    requires after == held[p := after[p]]
    ensures Counted(SetRef(h, p, ref), after)
  {
    forall x | x in h ensures SetRef(h, p, ref)[x].ref == |Linking(SetRef(h, p, ref), x)| + after[x] {
      assert Linking(SetRef(h, p, ref), x) == Linking(h, x);
    }
  }

  lemma RemoveKeeps(h: Heap, held: multiset<Ptr>, p: Ptr, r: Heap, after: multiset<Ptr>)
    requires WellFormed(h) && Counted(h, held) && p in held && h[p].ref == 1 && r == h - {p}
    requires after == held - multiset{p} + (if h[p].next == NULL then multiset{} else multiset{h[p].next})
    ensures WellFormed(r) && Counted(r, after) && (Totals(h) ==> Totals(r)) && r.Keys == h.Keys - {p}
    ensures if h[p].next == NULL then after == held - multiset{p}
            else h[p].next in after && after - multiset{h[p].next} == held - multiset{p}
  {
    RemoveCounts(h, held, p);
    RemoveChains(h, p);
    if Totals(h) { RemoveTotals(h, p); }
  }

  /** `pbuf_free` of a held reference: no link or reference is left without its pbuf. */
  lemma {:induction false} ReleaseKeeps(h: Heap, held: multiset<Ptr>, p: Ptr)
    requires WellFormed(h) && Counted(h, held) && p in held
    ensures WellFormed(Release(h, p)) && Counted(Release(h, p), held - multiset{p})
    ensures Totals(h) ==> Totals(Release(h, p))
    decreases |h|
  {
    if h[p].ref != 1 {
      SetRefKeeps(h, p, h[p].ref - 1);
      SetRefCounts(h, held, p, h[p].ref - 1, held - multiset{p});
    } else {
      var r, n := h - {p}, h[p].next;
      var after := held - multiset{p} + (if n == NULL then multiset{} else multiset{n});
      RemoveKeeps(h, held, p, r, after);
      if n != NULL {
        ReleaseKeeps(r, after, n);
      }
    }
  }

  // ----- changing the totals of a front part, and where it leads -----

  function AddTotals(h: Heap, front: seq<Ptr>, d: int): (r: Heap)
    ensures r.Keys == h.Keys
  {
    map p | p in h :: if p in front then h[p].(tot := Add16(h[p].tot, d)) else h[p]
  }

  function Last(c: seq<Ptr>): Ptr
    requires c != []
  {
    c[|c| - 1]
  }

  /** `front` gains `d` bytes in all: its last pbuf gets `len` bytes and leads to `y`. */
  function Shift(h: Heap, front: seq<Ptr>, d: int, y: Ptr, len: nat): Heap
    requires front != [] && Last(front) in h
  {
    var r := AddTotals(h, front, d);
    r[Last(front) := r[Last(front)].(next := y, len := len)]
  }

  ghost predicate Front(h: Heap, front: seq<Ptr>) {
    && front != [] && Distinct(front)
    && (forall i :: 0 <= i < |front| ==> front[i] in h)
    && forall i, j :: 0 <= i < j < |front| && j == i + 1 ==> h[front[i]].next == front[j]
  }

  /** No pbuf outside `front` links to one in it. */
  ghost predicate Unshared(h: Heap, front: seq<Ptr>) {
    forall x :: x in h && h[x].next in front ==> x in front
  }

  lemma ShiftModU16(a: int, b: int, d: int)
    ensures Add16(a, Add16(b, d)) == Add16(a, b) <==> Add16(0, d) == 0
    ensures Add16(Add16(a, b), d) == Add16(a, Add16(b, d))
  {}

  lemma ShiftInside(h: Heap, front: seq<Ptr>, d: int, y: Ptr, len: nat, i: nat)
    requires Totals(h) && Front(h, front) && y !in front && i < |front|
    requires Add16(h[Last(front)].tot, d) == Add16(len, TotOf(h, y))
    ensures TotAt(Shift(h, front, d, y, len), front[i])
  {
    var p := front[i];
    assert TotAt(h, p);
    if i < |front| - 1 {
      assert p != Last(front) && front[i + 1] in front;
      ShiftModU16(h[p].len, h[front[i + 1]].tot, d);
    }
  }

  /** The totals stay right exactly when nothing outside looks into a part that changed. */
  lemma ShiftTotals(h: Heap, front: seq<Ptr>, d: int, y: Ptr, len: nat)
    requires Totals(h) && Front(h, front) && y !in front
    requires Add16(h[Last(front)].tot, d) == Add16(len, TotOf(h, y))
    ensures Totals(Shift(h, front, d, y, len)) <==> Add16(0, d) == 0 || Unshared(h, front)
  {
    var r := Shift(h, front, d, y, len);
    forall x | x in h ensures TotAt(r, x) <==> Add16(0, d) == 0 || x in front || h[x].next !in front {
      if x in front {
        var i :| 0 <= i < |front| && front[i] == x;
        ShiftInside(h, front, d, y, len, i);
      } else {
        assert TotAt(h, x);
        ShiftModU16(h[x].len, TotOf(h, h[x].next), d);
      }
    }
  }
}
