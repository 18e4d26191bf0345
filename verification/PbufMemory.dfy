/** The functions of lwip/pbuf.c as loops over nodes that are updated in place.  Each is proved
    to compute the function that the theorems of PbufOps, PbufChains and PbufRuns are about. */
module PbufMemory {
  import opened PbufHeap
  import opened PbufOps
  import opened PbufChains
  import opened PbufRuns

  lemma AddTotalsNext(h: Heap, c: seq<Ptr>, i: nat, d: int)
    requires i < |c| && Distinct(c) && c[i] in h
    ensures var a := AddTotals(h, c[..i], d);
            && a[c[i]] == h[c[i]]
            && AddTotals(h, c[..i + 1], d) == a[c[i] := h[c[i]].(tot := Add16(h[c[i]].tot, d))]
  {
    assert c[..i + 1] == c[..i] + [c[i]];
    assert c[i] !in c[..i];
  }

  lemma BuildTwo(h: Heap, g: seq<Ptr>, lens: seq<nat>, tot: nat)
    requires |g| > 1 && |lens| > 1 && g[0] != g[1] && Plus(lens[..2]) <= tot
    ensures Plus(lens[..1]) == lens[0] && Plus(lens[..2]) == lens[0] + lens[1]
    ensures var b := Build(h, g[..1], lens[..1], tot);
            var n := Node(NULL, lens[1], tot - lens[0], 1, Blank(lens[1]), false);
            && g[0] in b
            && Build(h, g[..2], lens[..2], tot) == b[g[1] := n][g[0] := b[g[0]].(next := g[1])]
  {
    assert lens[..1][1..] == [] && g[..1][1..] == [] && lens[..2][1..] == [lens[1]] && g[..2][1..] == [g[1]];
    assert [lens[1]][1..] == [] && [g[1]][1..] == [];
    assert Build(h, [g[1]], [lens[1]], tot - lens[0]) == h[g[1] := Node(NULL, lens[1], tot - lens[0], 1, Blank(lens[1]), false)];
  }

  /** One more pbuf at the end of a chain under construction. */
  lemma {:induction false} BuildNext(h: Heap, g: seq<Ptr>, lens: seq<nat>, tot: nat, i: nat)
    requires 0 < i < |g| && i < |lens| && Distinct(g) && Plus(lens[..i + 1]) <= tot
    ensures Plus(lens[..i]) + lens[i] == Plus(lens[..i + 1])
    ensures var b := Build(h, g[..i], lens[..i], tot);
            var n := Node(NULL, lens[i], tot - Plus(lens[..i]), 1, Blank(lens[i]), false);
            && g[i - 1] in b
            && Build(h, g[..i + 1], lens[..i + 1], tot) == b[g[i] := n][g[i - 1] := b[g[i - 1]].(next := g[i])]
    decreases i
  {
    var g', lens' := g[1..], lens[1..];
    assert lens[..i + 1][1..] == lens'[..i] && lens[..i][1..] == lens'[..i - 1];
    assert g[..i + 1][1..] == g'[..i] && g[..i][1..] == g'[..i - 1];
    if i == 1 {
      BuildTwo(h, g, lens, tot);
    } else {
      BuildNext(h, g', lens', tot - lens[0], i - 1);
      assert g'[i - 2] == g[i - 1] && g'[i - 1] == g[i] && g[0] != g[i] && g[0] != g[i - 1];
      assert g[..i + 1][1] == g[..i][1];
    }
  }

  lemma ChopNext(rem: nat, size: nat, k: nat)
    requires size > 0 && k < |Chop(rem, size)|
    ensures Plus(Chop(rem, size)[..k]) < rem && Chop(rem, size)[k] == Min(rem - Plus(Chop(rem, size)[..k]), size)
    decreases k
  {
    if k > 0 {
      ChopNext(rem - Min(rem, size), size, k - 1);
      assert Chop(rem, size)[..k][1..] == Chop(rem - Min(rem, size), size)[..k - 1];
    }
  }

  /** The length of the pbuf at `i` is what is left, cut to the buffer size. */
  lemma LensNext(first: nat, size: nat, length: nat, i: nat)
    requires 0 < first <= size && 0 < i <= |Lens(Pool(first, size), length)|
    ensures var lens := Lens(Pool(first, size), length);
            && Plus(lens[..i]) <= length && (i < |lens| <==> Plus(lens[..i]) < length)
            && (i < |lens| ==> lens[i] == Min(length - Plus(lens[..i]), size))
  {
    var lens, rest := Lens(Pool(first, size), length), length - Min(length, first);
    assert lens[..i][1..] == Chop(rest, size)[..i - 1];
    if i < |lens| {
      ChopNext(rest, size, i - 1);
    } else {
      assert Chop(rest, size)[..i - 1] == Chop(rest, size);
    }
  }

  lemma {:induction false} SumNext(h: Heap, c: seq<Ptr>, k: nat)
    requires k < |c| && forall i :: 0 <= i < |c| ==> c[i] in h
    ensures Sum(h, c[..k + 1]) == Sum(h, c[..k]) + h[c[k]].len
  {
    SumSplit(h, c[..k + 1], k);
    assert c[..k + 1][..k] == c[..k] && c[..k + 1][k..] == [c[k]] && [c[k]][1..] == [];
  }

  /** The walk of `pbuf_realloc` goes on exactly while more is left than the pbuf holds. */
  lemma {:induction false} KeepNext(h: Heap, c: seq<Ptr>, rem: nat, i: nat)
    requires (forall j :: 0 <= j < |c| ==> c[j] in h) && i <= KeepAt(h, c, rem) && i < |c|
    ensures Sum(h, c[..i]) <= rem
    ensures i < KeepAt(h, c, rem) <==> rem - Sum(h, c[..i]) > h[c[i]].len
    decreases i
  {
    if i > 0 {
      KeepNext(h, c[1..], rem - h[c[0]].len, i - 1);
      assert c[..i][1..] == c[1..][..i - 1];
    }
  }

  /** Releasing what follows `q` does not depend on `q`. */
  lemma ReleaseApart(h: Heap, q: Ptr, n: Node, p: Ptr, c: seq<Ptr>)
    requires IsChain(h, p, c) && NULL !in h && q in h && q !in c
    ensures q in Release(h, p) && Release(h, p)[q] == h[q]
    ensures Release(h, p)[q := n] == Release(h[q := n], p)
  {
    assert IsChain(h[q := n], p, c);
    SoleApart(h, c, q, n);
    ReleasesPrefix(h, p, c);
    ReleasesPrefix(h[q := n], p, c);
    var k := Sole(h, c);
    assert q !in Elements(c[..k]);
  }

  lemma {:induction false} SoleApart(h: Heap, c: seq<Ptr>, q: Ptr, n: Node)
    requires q !in c
    ensures Sole(h[q := n], c) == Sole(h, c)
    decreases |c|
  {
    if c != [] {
      SoleApart(h, c[1..], q, n);
    }
  }

  ghost predicate Releasable(h: Heap, p: Ptr, c: seq<Ptr>) {
    NULL !in h && IsChain(h, p, c) && forall x :: x in h ==> h[x].ref < U16
  }

  /** One round of the loop of `pbuf_free`. */
  lemma ReleaseRound(h: Heap, q: Ptr, rest: seq<Ptr>)
    requires Releasable(h, q, rest) && q != NULL
    ensures rest != [] && q in h && NULL !in h
    ensures if Add16(h[q].ref, -1) == 0
            then && Release(h, q) == Release(h - {q}, h[q].next) && Releasable(h - {q}, h[q].next, rest[1..])
                 && Sole(h, rest) == 1 + Sole(h - {q}, rest[1..]) && (h[q].next == NULL <==> rest[1..] == [])
            else Release(h, q) == h[q := h[q].(ref := Add16(h[q].ref, -1))] && Sole(h, rest) == 0
  {
    ChainWithoutHead(h, q, rest);
    SoleFrame(h, rest[1..], q);
    assert (h - {q}).Keys == h.Keys - {q};
  }

  class Memory {
    var heap: Heap

    constructor ()
      ensures heap == map[]
    {
      heap := map[];
    }

    /** `pbuf_free`, with its 8-bit count of released pbufs. */
    method Free(p: Ptr, ghost c: seq<Ptr>) returns (count: nat)
      requires Releasable(heap, p, c)
      modifies this
      ensures heap == Release(old(heap), p)
      ensures count == Sole(old(heap), c) % 256
    {
      count := 0;
      var q := p;
      ghost var rest, freed: nat := c, 0;
      while q != NULL
        invariant NULL !in heap && (q != NULL ==> Releasable(heap, q, rest))
        invariant Release(heap, q) == Release(old(heap), p)
        invariant freed + (if q == NULL then 0 else Sole(heap, rest)) == Sole(old(heap), c) && count == freed % 256
        decreases |rest|, q
      {
        ReleaseRound(heap, q, rest);
        var ref := Add16(heap[q].ref, -1);
        var n := heap[q].next;
        if ref == 0 {
          heap := heap - {q};
          count := (count + 1) % 256;
          q := n;
          rest, freed := rest[1..], freed + 1;
        } else {
          heap := heap[q := heap[q].(ref := ref)];
          assert Release(heap, NULL) == heap;
          q := NULL;
        }
      }
    }

    /** `pbuf_ref`. */
    method Ref(p: Ptr)
      requires p == NULL || p in heap
      modifies this
      ensures heap == if p == NULL then old(heap) else SetRef(old(heap), p, Add16(old(heap)[p].ref, 1))
    {
      if p != NULL {
        heap := heap[p := heap[p].(ref := Add16(heap[p].ref, 1))];
      }
    }

    /** `pbuf_cat`. */
    method CatInto(p: Ptr, t: Ptr, ghost c: seq<Ptr>, ghost d: seq<Ptr>)
      requires Joinable(heap, p, c, t, d)
      modifies this
      ensures heap == Cat(old(heap), c, t)
    {
      JoinableApart(heap, p, c, t, d);
      ghost var h := heap;
      var q := p;
      ghost var i := 0;
      while heap[q].next != NULL
        invariant 0 <= i < |c| && q == c[i]
        invariant heap == AddTotals(h, c[..i], h[t].tot) && heap[t] == h[t]
        decreases |c| - i
      {
        AddTotalsNext(h, c, i, h[t].tot);
        ChainNext(h, p, c, i);
        heap := heap[q := heap[q].(tot := Add16(heap[q].tot, heap[t].tot))];
        q := heap[q].next;
        i := i + 1;
      }
      ChainNext(h, p, c, i);
      AddTotalsNext(h, c, i, h[t].tot);
      assert c[..i + 1] == c;
      heap := heap[q := heap[q].(tot := Add16(heap[q].tot, heap[t].tot), next := t)];
    }

    /** `pbuf_chain`. */
    method ChainTo(p: Ptr, t: Ptr, ghost c: seq<Ptr>, ghost d: seq<Ptr>)
      requires Joinable(heap, p, c, t, d)
      modifies this
      ensures heap == Chained(old(heap), c, t)
    {
      JoinableApart(heap, p, c, t, d);
      CatInto(p, t, c, d);
      Ref(t);
    }

    /** `pbuf_dechain`; the result is NULL when `pbuf_free` reports that it released something. */
    method DechainHead(p: Ptr, ghost c: seq<Ptr>) returns (tail: Ptr)
      requires WellFormed(heap) && p in heap && IsChain(heap, p, c)
      modifies this
      ensures heap == Dechain(old(heap), p)
      ensures tail == if |c| == 1 || TailCount(old(heap), c) % 256 > 0 then NULL else c[1]
    {
      ghost var h := heap;
      var q := heap[p].next;
      ChainNext(heap, p, c, 0);
      if q == NULL {
        return NULL;
      }
      heap := heap[q := heap[q].(tot := Add16(heap[p].tot, 0 - heap[p].len))];
      heap := heap[p := heap[p].(next := NULL, tot := heap[p].len)];
      DechainTail(h, p, c, heap);
      var gone := Free(q, c[1..]);
      tail := if gone > 0 then NULL else q;
    }

    /** `pbuf_realloc`; `trim` of a RAM pbuf frees no pbuf and is left out. */
    method Shrink(p: Ptr, newLen: nat, ghost c: seq<Ptr>)
      requires WellFormed(heap) && Totals(heap) && p in heap && IsChain(heap, p, c)
      modifies this
      ensures heap == Realloc(old(heap), c, newLen)
    {
      if newLen >= heap[p].tot {
        return;
      }
      ghost var h := heap;
      KeepInside(h, p, c, newLen);
      ghost var k := KeepAt(h, c, newLen);
      var grow := newLen - heap[p].tot;
      var rem, q := newLen, p;
      ghost var i := 0;
      KeepNext(h, c, newLen, 0);
      while rem > heap[q].len
        invariant Shrinking(h, c, newLen, grow, i, q, rem, heap)
        decreases |c| - i
      {
        ShrinkRound(h, p, c, newLen, grow, i, q, rem, heap);
        rem := rem - heap[q].len;
        heap := heap[q := heap[q].(tot := Add16(heap[q].tot, grow))];
        q := heap[q].next;
        i := i + 1;
      }
      ShrinkEnd(h, p, c, newLen, grow, i, q, rem, heap);
      heap := heap[q := heap[q].(len := rem, tot := rem)];
      if heap[q].next != NULL {
        var gone := Free(heap[q].next, c[i + 1..]);
      }
      heap := heap[q := heap[q].(next := NULL)];
    }

    /** `pbuf_alloc` for PBUF_POOL: pbufs are taken one by one, and given back when the pool
        runs out. */
    method AllocPool(got: seq<Ptr>, length: nat, first: nat, size: nat) returns (p: Ptr)
      requires NULL !in heap && Fresh(heap, got) && 0 < first <= size && length < U16
      requires forall x :: x in heap ==> heap[x].ref < U16
      modifies this
      ensures (heap, p) == Alloc(old(heap), got, Lens(Pool(first, size), length))
    {
      if got == [] {
        return NULL;
      }
      ghost var h, lens := heap, Lens(Pool(first, size), length);
      p := got[0];
      var len := Min(length, first);
      heap := heap[p := Node(NULL, len, length, 1, Blank(len), false)];
      var r, rem, i := p, length - len, 1;
      BuildFirst(h, got, lens, length);
      while rem > 0
        invariant 0 < i <= |lens| && i <= |got| && r == got[i - 1] && rem == length - Plus(lens[..i]) >= 0
        invariant heap == Build(h, got[..i], lens[..i], length)
        decreases |lens| - i
      {
        LensNext(first, size, length, i);
        if i == |got| {
          BuildReleased(h, got[..i], lens[..i], length);
          BuildChain(h, got[..i], lens[..i], length);
          BuildRefs(h, got[..i], lens[..i], length);
          var gone := Free(p, got[..i]);
          return NULL;
        }
        LensPrefix(first, size, length, i);
        BuildNext(h, got, lens, length, i);
        var q := got[i];
        len := Min(rem, size);
        heap := heap[q := Node(NULL, len, rem, 1, Blank(len), false)];
        heap := heap[r := heap[r].(next := q)];
        rem := rem - len;
        r := q;
        i := i + 1;
      }
      LensNext(first, size, length, i);
      assert lens[..i] == lens;
    }

    /** `pbuf_split_64k`; the rest, or NULL when the whole chain is below 64K. */
    method Split64k(p: Ptr, ghost c: seq<Ptr>) returns (rest: Ptr)
      requires WellFormed(heap) && p in heap && IsChain(heap, p, c)
      modifies this
      ensures heap == Split(old(heap), c).0
      ensures rest == Then(c, Split(old(heap), c).1)
    {
      ghost var h := heap;
      ChainNext(h, p, c, 0);
      if heap[p].next == NULL {
        return NULL;
      }
      var front, i, r := heap[p].len, p, heap[p].next;
      ghost var k := 1;
      while r != NULL && Add16(front, heap[r].len) > front
        invariant 0 < k <= |c| && i == c[k - 1] && r == Then(c, k) && heap == h
        invariant SplitAt(h, c, 1, h[p].len) == SplitAt(h, c, k, front)
        decreases |c| - k
      {
        ChainNext(h, p, c, k);
        front := Add16(front, heap[r].len);
        i := r;
        r := heap[r].next;
        k := k + 1;
      }
      rest := r;
      ChainNext(h, p, c, k - 1);
      heap := heap[i := heap[i].(next := NULL)];
      if r == NULL {
        assert heap == h;
      } else {
        FrontTotals(p, r, c, k, h);
        SplitIs(h, p, c, k, heap);
        if heap[p].fin {
          heap := heap[r := heap[r].(fin := true)];
        }
      }
    }

    /** The second loop of `pbuf_split_64k`: the rest's bytes come off every total of the front. */
    method FrontTotals(p: Ptr, r: Ptr, ghost c: seq<Ptr>, ghost k: nat, ghost h: Heap)
      requires IsChain(h, p, c) && NULL !in h && 0 < k < |c| && r == c[k]
      requires heap == SetNext(h, c[k - 1], NULL)
      modifies this
      ensures heap == CutFront(h, c, k)
    {
      var i := p;
      ghost var j := 0;
      while i != NULL
        invariant 0 <= j <= k && i == (if j < k then c[j] else NULL)
        invariant heap == SetNext(AddTotals(h, c[..j], 0 - h[r].tot), c[k - 1], NULL)
        invariant heap[r].tot == h[r].tot
        decreases k - j
      {
        FrontAt(h, p, c, k, j, heap);
        FrontNext(h, p, c, k, j, heap);
        heap := heap[i := heap[i].(tot := Add16(heap[i].tot, 0 - heap[r].tot))];
        i := heap[i].next;
        j := j + 1;
      }
    }
  }

  /** One round of that loop. */
  lemma FrontAt(h: Heap, p: Ptr, c: seq<Ptr>, k: nat, j: nat, a: Heap)
    requires IsChain(h, p, c) && j < k < |c| && a == SetNext(AddTotals(h, c[..j], 0 - h[c[k]].tot), c[k - 1], NULL)
    ensures c[j] in a && a[c[j]].tot == h[c[j]].tot && a[c[j]].next == (if j + 1 < k then c[j + 1] else NULL)
  {
    AddTotalsNext(h, c, j, 0 - h[c[k]].tot);
    ChainNext(h, p, c, j);
  }

  lemma FrontNext(h: Heap, p: Ptr, c: seq<Ptr>, k: nat, j: nat, a: Heap)
    requires IsChain(h, p, c) && j < k < |c| && a == SetNext(AddTotals(h, c[..j], 0 - h[c[k]].tot), c[k - 1], NULL)
    requires c[j] in a && a[c[j]].tot == h[c[j]].tot
    ensures a[c[j] := a[c[j]].(tot := Add16(a[c[j]].tot, 0 - h[c[k]].tot))] ==
            SetNext(AddTotals(h, c[..j + 1], 0 - h[c[k]].tot), c[k - 1], NULL)
  {
    AddTotalsNext(h, c, j, 0 - h[c[k]].tot);
  }

  // ----- what the methods rely on -----

  /** How many pbufs behind the head go with it when the head lets go. */
  function TailCount(h: Heap, c: seq<Ptr>): nat
    requires c != []
  {
    Sole(h, c[1..])
  }

  lemma DechainTail(h: Heap, p: Ptr, c: seq<Ptr>, r: Heap)
    requires WellFormed(h) && IsChain(h, p, c) && |c| > 1 && SameRefs(h, r) && NULL !in r
    requires forall x :: x in h && x != p ==> r[x].next == h[x].next
    ensures IsChain(r, c[1], c[1..]) && Sole(r, c[1..]) == Sole(h, c[1..])
    ensures forall x :: x in r ==> r[x].ref < U16
  {
    ChainTail(h, c, 1);
    SoleSame(h, r, c[1..]);
  }

  ghost predicate SameRefs(h: Heap, r: Heap) { r.Keys == h.Keys && forall x :: x in h ==> r[x].ref == h[x].ref }

  lemma {:induction false} SoleSame(h: Heap, r: Heap, c: seq<Ptr>)
    requires SameRefs(h, r)
    ensures Sole(r, c) == Sole(h, c)
    decreases |c|
  {
    if c != [] {
      SoleSame(h, r, c[1..]);
    }
  }

  /** `pbuf_dechain` tells the truth about the tail except when a multiple of 256 pbufs went:
      then it returns a pointer to a released pbuf. */
  lemma DechainAnswer(h: Heap, p: Ptr, c: seq<Ptr>)
    requires WellFormed(h) && IsChain(h, p, c) && |c| > 1
    ensures (TailCount(h, c) % 256 > 0 <==> c[1] !in Dechain(h, p)) <==>
            TailCount(h, c) == 0 || TailCount(h, c) % 256 != 0
  {
    ChainNext(h, p, c, 0);
    var q := c[1];
    var h1 := h[q := h[q].(tot := Add16(h[p].tot, 0 - h[p].len))];
    var r := h1[p := h1[p].(next := NULL, tot := h1[p].len)];
    DechainTail(h, p, c, r);
    HeadGoes(r, q, c[1..]);
  }

  /** The head of a chain is released exactly when anything is. */
  lemma HeadGoes(r: Heap, q: Ptr, c: seq<Ptr>)
    requires NULL !in r && IsChain(r, q, c) && c != []
    ensures q !in Release(r, q) <==> Sole(r, c) > 0
  {
    ReleasesPrefix(r, q, c);
    var k := Sole(r, c);
    assert k > 0 ==> c[..k][0] == q;
  }

  /** The walk of `pbuf_realloc` stands at the pbuf `i`, with `rem` bytes to go. */
  ghost predicate Shrinking(h: Heap, c: seq<Ptr>, newLen: nat, grow: int, i: nat, q: Ptr, rem: int, r: Heap)
    requires forall j :: 0 <= j < |c| ==> c[j] in h
  {
    && i <= KeepAt(h, c, newLen) < |c| && q == c[i] && q in r && r[q] == h[q]
    && rem == newLen - Sum(h, c[..i]) >= 0 && r == AddTotals(h, c[..i], grow)
    && (rem > h[q].len <==> i < KeepAt(h, c, newLen))
  }

  lemma ShrinkRound(h: Heap, p: Ptr, c: seq<Ptr>, newLen: nat, grow: int, i: nat, q: Ptr, rem: int, r: Heap)
    requires IsChain(h, p, c) && Shrinking(h, c, newLen, grow, i, q, rem, r) && rem > h[q].len
    ensures Shrinking(h, c, newLen, grow, i + 1, h[q].next, rem - h[q].len, r[q := r[q].(tot := Add16(r[q].tot, grow))])
  {
    AddTotalsNext(h, c, i, grow);
    SumNext(h, c, i);
    ChainNext(h, p, c, i);
    KeepNext(h, c, newLen, i + 1);
    AddTotalsNext(h, c, i + 1, grow);
  }

  lemma ShrinkEnd(h: Heap, p: Ptr, c: seq<Ptr>, newLen: nat, grow: int, i: nat, q: Ptr, rem: int, a: Heap)
    requires WellFormed(h) && IsChain(h, p, c) && c != [] && newLen < h[p].tot && grow == newLen - h[p].tot
    requires Shrinking(h, c, newLen, grow, i, q, rem, a) && rem <= h[q].len
    ensures var r, n := a[q := a[q].(len := rem, tot := rem)], Then(c, i + 1);
            && r[q].next == n && Releasable(r, n, c[i + 1..]) && q in Release(r, n)
            && Realloc(h, c, newLen) == Release(r, n)[q := Release(r, n)[q].(next := NULL)]
            && (n == NULL ==> Release(r, n) == r)
  {
    var r, n := a[q := a[q].(len := rem, tot := rem)], Then(c, i + 1);
    ShrinkCut(h, p, c, i, q, a, r);
    ReleaseApart(r, q, r[q].(next := NULL), n, c[i + 1..]);
    assert a[q := a[q].(next := NULL, len := rem, tot := rem)] == r[q := r[q].(next := NULL)];
    TrimIs(h, p, c, newLen, i, rem, grow);
  }

  /** What follows the last pbuf kept is still a chain. */
  lemma ShrinkCut(h: Heap, p: Ptr, c: seq<Ptr>, i: nat, q: Ptr, a: Heap, r: Heap)
    requires WellFormed(h) && IsChain(h, p, c) && i < |c| && q == c[i] && q in a && a[q] == h[q] && a.Keys == h.Keys == r.Keys
    requires forall x :: x in h ==> a[x] == h[x].(tot := a[x].tot)
    requires r[q].next == a[q].next && r[q].ref == a[q].ref && forall x :: x in h && x != q ==> r[x] == a[x]
    ensures r[q].next == Then(c, i + 1) && Releasable(r, Then(c, i + 1), c[i + 1..]) && q !in c[i + 1..]
  {
    ChainTail(h, c, i + 1);
    ChainNext(h, p, c, i);
  }

  lemma BuildFirst(h: Heap, got: seq<Ptr>, lens: seq<nat>, length: nat)
    requires got != [] && lens != [] && Plus(lens[..1]) <= length
    ensures Build(h, got[..1], lens[..1], length) == h[got[0] := Node(NULL, lens[0], length, 1, Blank(lens[0]), false)]
    ensures Plus(lens[..1]) == lens[0]
  {
    assert lens[..1][1..] == [] && got[..1][1..] == [];
  }

  lemma LensPrefix(first: nat, size: nat, length: nat, i: nat)
    requires 0 < first <= size && 0 < i < |Lens(Pool(first, size), length)|
    ensures Plus(Lens(Pool(first, size), length)[..i + 1]) <= length
  {
    LensNext(first, size, length, i + 1);
  }

  lemma {:induction false} BuildRefs(h: Heap, g: seq<Ptr>, lens: seq<nat>, tot: nat)
    requires |g| == |lens| && Plus(lens) <= tot && NULL !in h && Fresh(h, g)
    requires forall x :: x in h ==> h[x].ref < U16
    ensures var b := Build(h, g, lens, tot); NULL !in b && forall x :: x in b ==> b[x].ref < U16
    decreases |g|
  {
    if g != [] {
      BuildRefs(h, g[1..], lens[1..], tot - lens[0]);
    }
  }
}
