/** Allocation and splitting of chains, and what every sequence of pbuf operations keeps. */
module PbufRuns {
  import opened PbufHeap
  import opened PbufOps
  import opened PbufChains

  ghost predicate Good(h: Heap, held: multiset<Ptr>) { WellFormed(h) && Counted(h, held) && Totals(h) }

  // ----- pbuf_alloc -----

  /** Pool buffers have `first` bytes of room after the header in the first pbuf and `size` in
      the others; the other types take one pbuf. */
  datatype Kind = Pool(first: nat, size: nat) | Single

  ghost predicate KindOk(k: Kind) { k.Pool? ==> 0 < k.first <= k.size }

  function Min(a: nat, b: nat): nat { if a <= b then a else b }

  function Chop(rem: nat, size: nat): (lens: seq<nat>)
    requires size > 0
    ensures Plus(lens) == rem
  {
    if rem == 0 then [] else [Min(rem, size)] + Chop(rem - Min(rem, size), size)
  }

  function Plus(lens: seq<nat>): nat { if lens == [] then 0 else lens[0] + Plus(lens[1..]) }

  /** The lengths of the pbufs that `pbuf_alloc` asks for. */
  function Lens(kind: Kind, length: nat): (lens: seq<nat>)
    requires KindOk(kind)
    ensures lens != [] && Plus(lens) == length
  {
    match kind
    case Pool(first, size) => [Min(length, first)] + Chop(length - Min(length, first), size)
    case Single => [length]
  }

  function Blank(n: nat): seq<Byte> { seq(n, i => 0) }

  /** The pbufs `g`, linked in order in front of `h`; the totals count down from `tot`. */
  function Build(h: Heap, g: seq<Ptr>, lens: seq<nat>, tot: nat): Heap
    requires |g| == |lens| && Plus(lens) <= tot
  {
    if g == [] then h
    else Build(h, g[1..], lens[1..], tot - lens[0])[g[0] := Node(Then(g, 1), lens[0], tot, 1, Blank(lens[0]), false)]
  }

  /** Pointers that the allocator may hand out. */
  ghost predicate Fresh(h: Heap, g: seq<Ptr>) {
    Distinct(g) && forall i :: 0 <= i < |g| ==> g[i] !in h && g[i] != NULL
  }

  /** `pbuf_alloc`, when the allocator has `got` to give and then nothing: the first pbuf of a
      new chain, or NULL. */
  function Alloc(h: Heap, got: seq<Ptr>, lens: seq<nat>): (Heap, Ptr)
    requires lens != []
  {
    if |got| < |lens| then (h, NULL) else (Build(h, got[..|lens|], lens, Plus(lens)), got[0])
  }

  lemma {:induction false} BuildKeys(h: Heap, g: seq<Ptr>, lens: seq<nat>, tot: nat)
    requires |g| == |lens| && Plus(lens) <= tot
    ensures forall x :: x in Build(h, g, lens, tot) <==> x in h || x in g
    ensures forall x :: x in h && x !in g ==> Build(h, g, lens, tot)[x] == h[x]
    decreases |g|
  {
    if g != [] {
      BuildKeys(h, g[1..], lens[1..], tot - lens[0]);
      assert g == [g[0]] + g[1..];
    }
  }

  /** A failed allocation gives back all it took: freeing any part of the new chain leaves the
      heap as it was. */
  lemma {:induction false} BuildReleased(h: Heap, g: seq<Ptr>, lens: seq<nat>, tot: nat)
    requires |g| == |lens| && Plus(lens) <= tot && Fresh(h, g) && NULL !in h
    ensures Release(Build(h, g, lens, tot), Then(g, 0)) == h
    decreases |g|
  {
    if g != [] {
      var rest := Build(h, g[1..], lens[1..], tot - lens[0]);
      BuildKeys(h, g[1..], lens[1..], tot - lens[0]);
      BuildReleased(h, g[1..], lens[1..], tot - lens[0]);
      assert g[0] !in g[1..];
      assert Build(h, g, lens, tot) - {g[0]} == rest;
      assert Then(g, 1) == Then(g[1..], 0);
    }
  }

  lemma HeadLink(s: Heap, held: multiset<Ptr>, p: Ptr, q: Ptr, c: seq<Ptr>, r: Heap)
    requires WellFormed(s) && Counted(s, held + multiset{q} + multiset{p}) && p in s && s[p].next == NULL
    requires IsChain(s, q, c) && p !in c && r == SetNext(s, p, q)
    ensures WellFormed(r) && Counted(r, held + multiset{p})
  {
    LinkCounts(s, held + multiset{q} + multiset{p}, p, q);
    LinkChains(s, p, q, c);
    assert held + multiset{q} + multiset{p} - multiset{q} == held + multiset{p};
  }

  lemma HeadAlone(h: Heap, held: multiset<Ptr>, p: Ptr, len: nat, tot: nat, s: Heap)
    requires WellFormed(h) && Counted(h, held) && p !in h && p != NULL && len <= tot < U16
    requires s == h[p := Node(NULL, len, tot, 1, Blank(len), false)]
    ensures WellFormed(s) && Counted(s, held + multiset{p})
  {
    FreshCounts(h, held, p, s[p]);
    FreshChains(h, p, s[p]);
  }

  lemma AddHead(h: Heap, held: multiset<Ptr>, p: Ptr, q: Ptr, len: nat, tot: nat, r: Heap)
    requires WellFormed(h) && Counted(h, if q == NULL then held else held + multiset{q}) && p !in h && p != NULL && p != q
    requires len <= tot < U16 && r == h[p := Node(q, len, tot, 1, Blank(len), false)]
    ensures WellFormed(r) && Counted(r, held + multiset{p})
  {
    var s := h[p := Node(NULL, len, tot, 1, Blank(len), false)];
    HeadAlone(h, if q == NULL then held else held + multiset{q}, p, len, tot, s);
    if q != NULL {
      assert q in h;
      var c := ChainOf(h, q);
      assert IsChain(s, q, c) && SetNext(s, p, q) == r;
      HeadLink(s, held, p, q, c, r);
    }
  }

  lemma HeadTotals(h: Heap, p: Ptr, q: Ptr, len: nat, tot: nat, r: Heap)
    requires WellFormed(h) && Totals(h) && p !in h && p != NULL && p != q && tot == len + TotOf(h, q) < U16
    requires r == h[p := Node(q, len, tot, 1, Blank(len), false)]
    ensures Totals(r)
  {
    forall x | x in r ensures TotAt(r, x) {
      if x != p {
        NextInHeap(h, x);
        assert TotAt(h, x);
      }
    }
  }

  lemma NewHead(h: Heap, g: seq<Ptr>, lens: seq<nat>, tot: nat, r: Heap)
    requires g != [] && |g| == |lens| && Plus(lens) <= tot && Fresh(h, g) && r == Build(h, g[1..], lens[1..], tot - lens[0])
    ensures g[0] !in r && g[0] != Then(g, 1)
  {
    BuildKeys(h, g[1..], lens[1..], tot - lens[0]);
    assert forall x :: x in g[1..] ==> x != g[0];
  }

  /** A new chain is held by its caller. */
  lemma {:induction false} BuildCounts(h: Heap, held: multiset<Ptr>, g: seq<Ptr>, lens: seq<nat>, tot: nat, b: Heap)
    requires WellFormed(h) && Counted(h, held) && |g| == |lens| && Plus(lens) <= tot < U16 && Fresh(h, g) && g != []
    requires b == Build(h, g, lens, tot)
    ensures WellFormed(b) && Counted(b, held + multiset{g[0]})
    decreases |g|
  {
    var r, q := Build(h, g[1..], lens[1..], tot - lens[0]), Then(g, 1);
    if |g| > 1 {
      assert g[1..][0] == q;
      BuildCounts(h, held, g[1..], lens[1..], tot - lens[0], r);
    } else {
      assert r == h;
    }
    NewHead(h, g, lens, tot, r);
    AddHead(r, held, g[0], q, lens[0], tot, b);
  }

  /** And its totals are right, if they add up to the length of the whole. */
  lemma {:induction false} BuildTotals(h: Heap, held: multiset<Ptr>, g: seq<Ptr>, lens: seq<nat>, tot: nat, b: Heap)
    requires Good(h, held) && |g| == |lens| && Plus(lens) == tot < U16 && Fresh(h, g) && g != []
    requires b == Build(h, g, lens, tot)
    ensures Totals(b) && TotOf(b, g[0]) == tot
    decreases |g|
  {
    var r, q := Build(h, g[1..], lens[1..], tot - lens[0]), Then(g, 1);
    if |g| > 1 {
      assert g[1..][0] == q;
      BuildTotals(h, held, g[1..], lens[1..], tot - lens[0], r);
      BuildCounts(h, held, g[1..], lens[1..], tot - lens[0], r);
    } else {
      assert r == h && TotOf(r, q) == 0;
    }
    NewHead(h, g, lens, tot, r);
    HeadTotals(r, g[0], q, lens[0], tot, b);
  }

  lemma {:induction false} BuildChain(h: Heap, g: seq<Ptr>, lens: seq<nat>, tot: nat)
    requires |g| == |lens| && Plus(lens) <= tot && Fresh(h, g)
    ensures IsChain(Build(h, g, lens, tot), Then(g, 0), g)
    decreases |g|
  {
    if g != [] {
      BuildChain(h, g[1..], lens[1..], tot - lens[0]);
      ChainCons(Build(h, g[1..], lens[1..], tot - lens[0]), g, Build(h, g, lens, tot));
    }
  }

  lemma ChainCons(r: Heap, g: seq<Ptr>, b: Heap)
    requires g != [] && IsChain(r, Then(g[1..], 0), g[1..]) && Distinct(g) && g[0] != NULL
    requires g[0] in b && b[g[0]].next == Then(g, 1) && b == r[g[0] := b[g[0]]]
    ensures IsChain(b, g[0], g)
  {
    assert forall i :: 0 < i < |g| ==> g[i] == g[1..][i - 1];
  }

  /** The new chain is held by its caller, and its total is the length asked for; a failure
      changes nothing. */
  lemma AllocKeeps(h: Heap, held: multiset<Ptr>, got: seq<Ptr>, kind: Kind, length: nat)
    requires Good(h, held) && KindOk(kind) && length < U16 && Fresh(h, got)
    ensures var (r, p) := Alloc(h, got, Lens(kind, length));
            if p == NULL then r == h else Good(r, held + multiset{p}) && TotOf(r, p) == length
  {
    var lens := Lens(kind, length);
    if |lens| <= |got| {
      BuildTotals(h, held, got[..|lens|], lens, length, Build(h, got[..|lens|], lens, length));
      BuildCounts(h, held, got[..|lens|], lens, length, Build(h, got[..|lens|], lens, length));
    }
  }

  lemma AllocCounts(h: Heap, held: multiset<Ptr>, got: seq<Ptr>, kind: Kind, length: nat)
    requires WellFormed(h) && Counted(h, held) && KindOk(kind) && length < U16 && Fresh(h, got)
    ensures var (r, p) := Alloc(h, got, Lens(kind, length));
            if p == NULL then r == h else WellFormed(r) && Counted(r, held + multiset{p})
  {
    var lens := Lens(kind, length);
    if |lens| <= |got| {
      BuildCounts(h, held, got[..|lens|], lens, length, Build(h, got[..|lens|], lens, length));
    }
  }

  /** How many bytes the buffer of the pbuf at `i` has room for. */
  function Room(kind: Kind, length: nat, i: nat): nat {
    match kind
    case Pool(first, size) => if i == 0 then first else size
    case Single => length
  }

  lemma {:induction false} ChopFits(rem: nat, size: nat, i: nat)
    requires size > 0 && i < |Chop(rem, size)|
    ensures 0 < Chop(rem, size)[i] <= size && (i + 1 < |Chop(rem, size)| ==> Chop(rem, size)[i] == size)
    decreases rem
  {
    if i > 0 {
      ChopFits(rem - Min(rem, size), size, i - 1);
    } else if |Chop(rem, size)| > 1 {
      assert Chop(rem - Min(rem, size), size) != [];
    }
  }

  lemma LensFit(kind: Kind, length: nat, i: nat)
    requires KindOk(kind) && i < |Lens(kind, length)|
    ensures Lens(kind, length)[i] <= Room(kind, length, i) && (i > 0 ==> Lens(kind, length)[i] > 0)
    ensures i + 1 < |Lens(kind, length)| ==> Lens(kind, length)[i] == Room(kind, length, i)
  {
    if kind.Pool? {
      var rest := length - Min(length, kind.first);
      if i > 0 {
        ChopFits(rest, kind.size, i - 1);
        assert Lens(kind, length)[i] == Chop(rest, kind.size)[i - 1];
      } else if |Lens(kind, length)| > 1 {
        assert Chop(rest, kind.size) != [];
      }
    }
  }

  lemma {:induction false} BuildAt(h: Heap, g: seq<Ptr>, lens: seq<nat>, tot: nat, i: nat)
    requires |g| == |lens| && Plus(lens) <= tot && Fresh(h, g) && i < |g|
    ensures g[i] in Build(h, g, lens, tot)
    ensures var n := Build(h, g, lens, tot)[g[i]]; n.len == |n.payload| == lens[i] && n.ref == 1 && !n.fin
    decreases |g|
  {
    if i > 0 { BuildAt(h, g[1..], lens[1..], tot - lens[0], i - 1); }
  }

  /** Each pbuf of a new chain fits its buffer, and only the last one may leave room; none but the
      first is empty. */
  lemma AllocFits(h: Heap, got: seq<Ptr>, kind: Kind, length: nat, r: Heap, p: Ptr, i: nat)
    requires KindOk(kind) && Fresh(h, got) && (r, p) == Alloc(h, got, Lens(kind, length)) && p != NULL
    requires i < |Lens(kind, length)|
    ensures |Lens(kind, length)| <= |got| && IsChain(r, p, got[..|Lens(kind, length)|])
    ensures var n := r[got[i]]; n.len == |n.payload| <= Room(kind, length, i) && (i > 0 ==> n.len > 0) && n.ref == 1 && !n.fin
    ensures i + 1 < |Lens(kind, length)| ==> r[got[i]].len == Room(kind, length, i)
  {
    var lens := Lens(kind, length);
    var g := got[..|lens|];
    BuildChain(h, g, lens, Plus(lens));
    BuildAt(h, g, lens, Plus(lens), i);
    LensFit(kind, length, i);
  }

  // ----- pbuf_split_64k -----

  /** Where `pbuf_split_64k` cuts: the 16-bit sum of lengths stops growing. */
  function SplitAt(h: Heap, c: seq<Ptr>, k: nat, acc: nat): (n: nat)
    requires k <= |c| && forall i :: 0 <= i < |c| ==> c[i] in h
    ensures k <= n <= |c|
    decreases |c| - k
  {
    if k < |c| && Add16(acc, h[c[k]].len) > acc then SplitAt(h, c, k + 1, Add16(acc, h[c[k]].len)) else k
  }

  /** The totals of the front lose what follows, and its last link is cut. */
  function CutFront(h: Heap, c: seq<Ptr>, k: nat): Heap
    requires 0 < k < |c| && forall i :: 0 <= i < |c| ==> c[i] in h
  {
    SetNext(AddTotals(h, c[..k], 0 - h[c[k]].tot), c[k - 1], NULL)
  }

  /** `pbuf_split_64k(p)`, where the chain of `p` is `c`: the heap, and where the rest begins. */
  function Split(h: Heap, c: seq<Ptr>): (Heap, nat)
    requires c != [] && forall i :: 0 <= i < |c| ==> c[i] in h
  {
    var k := SplitAt(h, c, 1, h[c[0]].len);
    if k == |c| then (h, k)
    else
      var cut := CutFront(h, c, k);
      (cut[c[k] := cut[c[k]].(fin := cut[c[k]].fin || h[c[0]].fin)], k)
  }

  lemma {:induction false} SplitSum(h: Heap, c: seq<Ptr>, k: nat, acc: nat)
    requires 0 < k <= |c| && forall i :: 0 <= i < |c| ==> c[i] in h && h[c[i]].len < U16
    requires acc == Sum(h, c[..k]) < U16
    ensures var n := SplitAt(h, c, k, acc);
            && Sum(h, c[..n]) < U16
            && (n < |c| ==> h[c[n]].len == 0 || Sum(h, c[..n + 1]) >= U16)
    decreases |c| - k
  {
    if k < |c| {
      SumSplit(h, c[..k + 1], k);
      assert c[..k + 1][..k] == c[..k] && c[..k + 1][k..] == [c[k]];
      assert Sum(h, [c[k]]) == h[c[k]].len by { assert [c[k]][1..] == []; }
      if Add16(acc, h[c[k]].len) > acc {
        Grows(acc, h[c[k]].len);
        SplitSum(h, c, k + 1, acc + h[c[k]].len);
      }
    }
  }

  lemma Grows(acc: nat, len: nat)
    requires acc < U16 && len < U16
    ensures Add16(acc, len) > acc <==> len > 0 && acc + len < U16
  {}

  /** Setting a flag. */
  lemma FinKeeps(h: Heap, held: multiset<Ptr>, p: Ptr, fin: bool, r: Heap)
    requires WellFormed(h) && Counted(h, held) && p in h && r == h[p := h[p].(fin := fin)]
    ensures WellFormed(r) && Counted(r, held) && (Totals(h) <==> Totals(r))
  {
    FieldsKeep(h, r, held);
    FinTotals(h, p, fin, r);
  }

  lemma FinTotals(h: Heap, p: Ptr, fin: bool, r: Heap)
    requires p in h && r == h[p := h[p].(fin := fin)]
    ensures Totals(h) <==> Totals(r)
  {
    forall x | x in h ensures TotAt(h, x) == TotAt(r, x) {}
  }

  lemma SplitCut(h: Heap, p: Ptr, c: seq<Ptr>, k: nat, s: Heap)
    requires WellFormed(h) && Totals(h) && IsChain(h, p, c) && 0 < k < |c|
    requires s == Shift(h, c[..k], 0 - h[c[k]].tot, NULL, h[c[k - 1]].len)
    ensures Front(h, c[..k]) && h[c[k - 1]].next == c[k]
    ensures Totals(s) <==> h[c[k]].tot == 0 || Unshared(h, c[..k])
  {
    ChainNext(h, p, c, k - 1);
    assert TotAt(h, c[k - 1]);
    SubModU16(h[c[k - 1]].tot, h[c[k - 1]].len, h[c[k]].tot);
    NegModU16(h[c[k]].tot);
    assert Last(c[..k]) == c[k - 1];
    CutTotals(h, c[..k], 0 - h[c[k]].tot, h[c[k - 1]].len);
  }

  lemma SplitRest(h: Heap, held: multiset<Ptr>, front: seq<Ptr>, q: Ptr, d: int, len: nat, s: Heap)
    requires WellFormed(h) && Counted(h, held) && front != [] && Last(front) in h && len == h[Last(front)].len
    requires s == Shift(h, front, d, NULL, len) && h[Last(front)].next == q != NULL
    ensures WellFormed(s) && Counted(s, held + multiset{q})
  {
    ShiftCuts(h, held, front, d, len, s);
  }

  lemma CutKeepsAll(h: Heap, held: multiset<Ptr>, p: Ptr, c: seq<Ptr>, k: nat, s: Heap)
    requires Good(h, held) && IsChain(h, p, c) && 0 < k < |c|
    requires s == Shift(h, c[..k], 0 - h[c[k]].tot, NULL, h[c[k - 1]].len)
    ensures WellFormed(s) && Counted(s, held + multiset{c[k]})
    ensures Totals(s) <==> h[c[k]].tot == 0 || Unshared(h, c[..k])
  {
    SplitCut(h, p, c, k, s);
    SplitLink(h, held, p, c, k, s);
  }

  lemma CutLink(h: Heap, held: multiset<Ptr>, front: seq<Ptr>, last: Ptr, q: Ptr, d: int, s: Heap)
    requires WellFormed(h) && Counted(h, held) && front != [] && Last(front) == last && last in h && h[last].next == q != NULL
    requires s == Shift(h, front, d, NULL, h[last].len)
    ensures WellFormed(s) && Counted(s, held + multiset{q})
  {
    SplitRest(h, held, front, q, d, h[last].len, s);
  }

  lemma SplitIsShift(h: Heap, p: Ptr, c: seq<Ptr>, r: Heap, k: nat, s: Heap)
    requires c != [] && IsChain(h, p, c) && (r, k) == Split(h, c) && 0 < k < |c|
    requires s == Shift(h, c[..k], 0 - h[c[k]].tot, NULL, h[c[k - 1]].len)
    ensures r == s[c[k] := s[c[k]].(fin := s[c[k]].fin || h[p].fin)]
  {
    assert Last(c[..k]) == c[k - 1];
  }

  lemma SplitIs(h: Heap, p: Ptr, c: seq<Ptr>, k: nat, cut: Heap)
    requires c != [] && IsChain(h, p, c) && 0 < k < |c| && k == SplitAt(h, c, 1, h[p].len)
    requires cut == CutFront(h, c, k)
    ensures c[k] in cut && Split(h, c) == (if h[p].fin then cut[c[k] := cut[c[k]].(fin := true)] else cut, k)
  {
    SameEntry(cut, c[k]);
  }

  lemma SameEntry(h: Heap, x: Ptr)
    requires x in h
    ensures h[x := h[x]] == h
  {}

  /** The front is shorter than 64K, and cannot be longer unless an empty pbuf stopped it. */
  lemma SplitLength(h: Heap, p: Ptr, c: seq<Ptr>)
    requires WellFormed(h) && p in h && IsChain(h, p, c)
    ensures var k := Split(h, c).1;
            && 0 < k <= |c| && Sum(h, c[..k]) < U16
            && (k < |c| ==> h[c[k]].len == 0 || Sum(h, c[..k + 1]) >= U16)
  {
    assert Sum(h, c[..1]) == h[p].len by { assert c[..1][1..] == []; }
    SplitSum(h, c, 1, h[p].len);
  }

  /** The rest is held in place of the link, and the totals stay right exactly when the rest is
      empty or nothing outside links into the front. */
  lemma SplitKeeps(h: Heap, held: multiset<Ptr>, p: Ptr, c: seq<Ptr>, r: Heap, k: nat)
    requires Good(h, held) && p in h && IsChain(h, p, c) && (r, k) == Split(h, c) && k < |c|
    ensures WellFormed(r) && Counted(r, held + multiset{c[k]})
    ensures Totals(r) <==> h[c[k]].tot == 0 || Unshared(h, c[..k])
  {
    SplitLength(h, p, c);
    assert Last(c[..k]) == c[k - 1];
    var s := Shift(h, c[..k], 0 - h[c[k]].tot, NULL, h[c[k - 1]].len);
    CutKeepsAll(h, held, p, c, k, s);
    SplitIsShift(h, p, c, r, k, s);
    FinKeeps(s, held + multiset{c[k]}, c[k], s[c[k]].fin || h[p].fin, r);
  }

  lemma SplitCounts(h: Heap, held: multiset<Ptr>, p: Ptr, c: seq<Ptr>, r: Heap, k: nat)
    requires WellFormed(h) && Counted(h, held) && p in h && IsChain(h, p, c) && (r, k) == Split(h, c) && k < |c|
    ensures WellFormed(r) && Counted(r, held + multiset{c[k]})
  {
    SplitLength(h, p, c);
    var s := Shift(h, c[..k], 0 - h[c[k]].tot, NULL, h[c[k - 1]].len);
    SplitLink(h, held, p, c, k, s);
    SplitIsShift(h, p, c, r, k, s);
    FinKeeps(s, held + multiset{c[k]}, c[k], s[c[k]].fin || h[p].fin, r);
  }

  lemma SplitLink(h: Heap, held: multiset<Ptr>, p: Ptr, c: seq<Ptr>, k: nat, s: Heap)
    requires WellFormed(h) && Counted(h, held) && IsChain(h, p, c) && 0 < k < |c|
    requires s == Shift(h, c[..k], 0 - h[c[k]].tot, NULL, h[c[k - 1]].len)
    ensures WellFormed(s) && Counted(s, held + multiset{c[k]})
  {
    ChainNext(h, p, c, k - 1);
    CutLink(h, held, c[..k], c[k - 1], c[k], 0 - h[c[k]].tot, s);
  }

  /** Only the front's totals, its last link and one flag differ. */
  lemma SplitFields(h: Heap, p: Ptr, c: seq<Ptr>, r: Heap, k: nat)
    requires c != [] && IsChain(h, p, c) && (r, k) == Split(h, c) && 0 < k < |c|
    ensures r.Keys == h.Keys
    ensures forall x :: x in h && x !in c[..k] && x != c[k] ==> r[x] == h[x]
    ensures forall x :: x in h ==> r[x].len == h[x].len && r[x].payload == h[x].payload
    ensures forall x :: x in h ==> r[x].next == if x == c[k - 1] then NULL else h[x].next
  {
    assert c[..k][k - 1] == c[k - 1];
  }

  lemma SplitChains(h: Heap, p: Ptr, c: seq<Ptr>, r: Heap, k: nat)
    requires c != [] && IsChain(h, p, c) && (r, k) == Split(h, c) && 0 < k < |c|
    ensures IsChain(r, p, c[..k]) && IsChain(r, c[k], c[k..])
  {
    SplitFields(h, p, c, r, k);
    CutInTwo(h, p, c, k, r);
  }

  lemma CutInTwo(h: Heap, p: Ptr, c: seq<Ptr>, k: nat, r: Heap)
    requires IsChain(h, p, c) && 0 < k < |c| && r.Keys == h.Keys
    requires forall x :: x in h ==> r[x].next == if x == c[k - 1] then NULL else h[x].next
    ensures IsChain(r, p, c[..k]) && IsChain(r, c[k], c[k..])
  {
    CutChain(h, p, c, k - 1);
    ChainTail(h, c, k);
    assert c[..k - 1 + 1] == c[..k];
    var s := SetNext(h, c[k - 1], NULL);
    assert forall x :: x in h ==> s[x].next == r[x].next;
    assert forall i :: 0 <= i < |c| - k ==> c[k..][i] != c[k - 1];
  }

  /** Every `tot_len` in the front is the exact length from there to the cut, whoever else links
      into the front. */
  lemma SplitFrontExact(h: Heap, p: Ptr, c: seq<Ptr>, r: Heap, k: nat, i: nat)
    requires WellFormed(h) && Totals(h) && p in h && IsChain(h, p, c) && (r, k) == Split(h, c) && i < k
    ensures k <= |c| && c[i] in r && r[c[i]].tot == Sum(h, c[i..k]) < U16
  {
    SplitLength(h, p, c);
    SumParts(h, c, i, k);
    if k < |c| {
      SplitTotal(h, p, c, r, k, i);
      FrontTotal(h, c, k, i);
    } else {
      TotalFrom(h, c, i);
      assert c[i..] == c[i..k];
    }
  }

  lemma FrontTotal(h: Heap, c: seq<Ptr>, k: nat, i: nat)
    requires WellFormed(h) && Totals(h) && i < k < |c| && IsChain(h, c[0], c) && Sum(h, c[i..k]) < U16
    ensures Add16(h[c[i]].tot, 0 - h[c[k]].tot) == Sum(h, c[i..k])
  {
    SumParts(h, c, i, k);
    TotalFrom(h, c, i);
    TotalFrom(h, c, k);
    TakeOff(Sum(h, c[i..k]), Sum(h, c[k..]));
  }

  lemma TotalFrom(h: Heap, c: seq<Ptr>, i: nat)
    requires WellFormed(h) && Totals(h) && i < |c| && IsChain(h, c[0], c)
    ensures h[c[i]].tot == Add16(0, Sum(h, c[i..]))
  {
    ChainTail(h, c, i);
    TotalIsSum(h, c[i], c[i..]);
  }

  lemma SumParts(h: Heap, c: seq<Ptr>, i: nat, k: nat)
    requires i <= k <= |c| && forall j :: 0 <= j < |c| ==> c[j] in h
    ensures Sum(h, c[i..]) == Sum(h, c[i..k]) + Sum(h, c[k..]) && Sum(h, c[i..k]) <= Sum(h, c[..k])
  {
    SumSplit(h, c[i..], k - i);
    assert c[i..][..k - i] == c[i..k] && c[i..][k - i..] == c[k..];
    SumSplit(h, c[..k], i);
    assert c[..k][i..] == c[i..k];
  }

  lemma TakeOff(a: nat, b: nat)
    requires a < U16
    ensures Add16(Add16(0, a + b), 0 - Add16(0, b)) == a
  {}

  lemma SplitTotal(h: Heap, p: Ptr, c: seq<Ptr>, r: Heap, k: nat, i: nat)
    requires c != [] && IsChain(h, p, c) && (r, k) == Split(h, c) && i < k < |c|
    ensures c[i] in r && r[c[i]].tot == Add16(h[c[i]].tot, 0 - h[c[k]].tot)
  {
    assert c[..k][i] == c[i] && c[i] in c[..k];
  }

  lemma {:induction false} SumSame(h: Heap, r: Heap, c: seq<Ptr>)
    requires forall i :: 0 <= i < |c| ==> c[i] in h && c[i] in r && r[c[i]].len == h[c[i]].len
    ensures Sum(r, c) == Sum(h, c)
    decreases |c|
  {
    if c != [] {
      SumSame(h, r, c[1..]);
    }
  }

  /** `pbuf_cat` of the two parts restores every field of the chain; only the FIN flag, which
      the split copied to the rest, stays there. */
  lemma SplitCatRoundTrip(h: Heap, p: Ptr, c: seq<Ptr>, r: Heap, k: nat)
    requires WellFormed(h) && IsChain(h, p, c) && c != [] && (r, k) == Split(h, c) && k < |c|
    ensures k > 0 && c[k - 1] in r && c[k] in r && Last(c[..k]) == c[k - 1]
    ensures Cat(r, c[..k], c[k]) == h[c[k] := h[c[k]].(fin := h[c[k]].fin || h[p].fin)]
  {
    SplitCatAll(h, p, c, r, k);
    HeapIs(Cat(r, c[..k], c[k]), h[c[k] := h[c[k]].(fin := h[c[k]].fin || h[p].fin)]);
  }

  lemma HeapIs(a: Heap, b: Heap)
    requires a.Keys == b.Keys && forall x :: x in b ==> a[x] == b[x]
    ensures a == b
  {}

  lemma SplitCatAll(h: Heap, p: Ptr, c: seq<Ptr>, r: Heap, k: nat)
    requires WellFormed(h) && IsChain(h, p, c) && c != [] && (r, k) == Split(h, c) && k < |c|
    ensures k > 0 && c[k - 1] in r && c[k] in r && Last(c[..k]) == c[k - 1] && Cat(r, c[..k], c[k]).Keys == h.Keys
    ensures forall x :: x in h ==> Cat(r, c[..k], c[k])[x] == if x == c[k] then h[x].(fin := h[x].fin || h[p].fin) else h[x]
  {
    SplitCatAt(h, p, c, r, k, p);
    forall x | x in h ensures Cat(r, c[..k], c[k])[x] == if x == c[k] then h[x].(fin := h[x].fin || h[p].fin) else h[x] {
      SplitCatAt(h, p, c, r, k, x);
    }
  }

  lemma SplitCatAt(h: Heap, p: Ptr, c: seq<Ptr>, r: Heap, k: nat, x: Ptr)
    requires WellFormed(h) && IsChain(h, p, c) && c != [] && (r, k) == Split(h, c) && k < |c| && x in h
    ensures k > 0 && c[k - 1] in r && c[k] in r && Last(c[..k]) == c[k - 1]
    ensures Cat(r, c[..k], c[k])[x] == if x == c[k] then h[x].(fin := h[x].fin || h[p].fin) else h[x]
  {
    assert c[k] !in c[..k] && c[..k][k - 1] == c[k - 1];
    ChainNext(h, p, c, k - 1);
    if x in c[..k] {
      ThereAndBack(h[x].tot, h[c[k]].tot);
    }
  }

  lemma ThereAndBack(tot: nat, d: nat)
    requires tot < U16 && d < U16
    ensures Add16(Add16(tot, 0 - d), d) == tot
  {}

  // ----- every sequence of operations -----

  datatype State = State(heap: Heap, held: multiset<Ptr>)

  datatype Op =
    | OpAlloc(got: seq<Ptr>, kind: Kind, length: nat)
    | OpRef(p: Ptr)
    | OpFree(p: Ptr)
    | OpCat(p: Ptr, t: Ptr)
    | OpChain(p: Ptr, t: Ptr)
    | OpDechain(p: Ptr)
    | OpRealloc(p: Ptr, newLen: nat)
    | OpSplit(p: Ptr)

  ghost predicate MayJoin(s: State, p: Ptr, t: Ptr)
    requires WellFormed(s.heap)
  {
    && p in s.heap && t in s.held && HasChain(s.heap, p) && HasChain(s.heap, t)
    && Joinable(s.heap, p, ChainOf(s.heap, p), t, ChainOf(s.heap, t))
  }

  /** What callers owe in any case: references they give up are theirs, counts have room, and a
      trim ends within its chain, as it does wherever the totals are right (`KeepInside`). */
  ghost predicate Owns(s: State, op: Op)
    requires WellFormed(s.heap)
  {
    match op
    case OpAlloc(got, kind, length) => KindOk(kind) && length < U16 && Fresh(s.heap, got)
    case OpRef(p) => p in s.heap && s.heap[p].ref + 1 < U16
    case OpFree(p) => p in s.held
    case OpCat(p, t) => MayJoin(s, p, t)
    case OpChain(p, t) => MayJoin(s, p, t) && s.heap[t].ref + 1 < U16
    case OpDechain(p) => p in s.heap
    case OpRealloc(p, newLen) =>
      && p in s.heap && HasChain(s.heap, p)
      && (newLen < s.heap[p].tot ==> KeepAt(s.heap, ChainOf(s.heap, p), newLen) < |ChainOf(s.heap, p)|)
    case OpSplit(p) => p in s.heap && HasChain(s.heap, p)
  }

  /** What keeps the totals right as well: a part whose totals change is not shared. */
  ghost predicate Legal(s: State, op: Op)
    requires WellFormed(s.heap)
  {
    Owns(s, op) &&
    match op
    case OpCat(p, t) => s.heap[t].tot == 0 || Unshared(s.heap, ChainOf(s.heap, p))
    case OpChain(p, t) => s.heap[t].tot == 0 || Unshared(s.heap, ChainOf(s.heap, p))
    case OpDechain(p) => TotOf(s.heap, s.heap[p].next) == 0 || Linking(s.heap, p) == {}
    case OpRealloc(p, newLen) => newLen < s.heap[p].tot ==> Unshared(s.heap, KeptPart(s.heap, ChainOf(s.heap, p), newLen))
    case OpSplit(p) =>
      var c := ChainOf(s.heap, p);
      var k := Split(s.heap, c).1;
      k < |c| ==> s.heap[c[k]].tot == 0 || Unshared(s.heap, c[..k])
    case _ => true
  }

  ghost function Step(s: State, op: Op): State
    requires WellFormed(s.heap) && Owns(s, op)
  {
    match op
    case OpAlloc(got, kind, length) =>
      var (r, p) := Alloc(s.heap, got, Lens(kind, length));
      State(r, if p == NULL then s.held else s.held + multiset{p})
    case OpRef(p) => State(SetRef(s.heap, p, Add16(s.heap[p].ref, 1)), s.held + multiset{p})
    case OpFree(p) => State(Release(s.heap, p), s.held - multiset{p})
    case OpCat(p, t) => State(Cat(s.heap, ChainOf(s.heap, p), t), s.held - multiset{t})
    case OpChain(p, t) => State(Chained(s.heap, ChainOf(s.heap, p), t), s.held)
    case OpDechain(p) => State(Dechain(s.heap, p), s.held)
    case OpRealloc(p, newLen) => State(Realloc(s.heap, ChainOf(s.heap, p), newLen), s.held)
    case OpSplit(p) =>
      var c := ChainOf(s.heap, p);
      var (r, k) := Split(s.heap, c);
      State(r, if k < |c| then s.held + multiset{c[k]} else s.held)
  }

  lemma StepKeeps(s: State, op: Op, r: State)
    requires Good(s.heap, s.held) && Legal(s, op) && r == Step(s, op)
    ensures Good(r.heap, r.held)
  {
    match op
    case OpAlloc(got, kind, length) => AllocKeeps(s.heap, s.held, got, kind, length);
    case OpRef(p) => RefKeeps(s.heap, s.held, p, r.heap);
    case OpFree(p) => ReleaseKeeps(s.heap, s.held, p);
    case OpCat(p, t) => CatKeeps(s.heap, s.held, p, ChainOf(s.heap, p), t, ChainOf(s.heap, t), r.heap);
    case OpChain(p, t) => ChainedKeeps(s.heap, s.held, p, ChainOf(s.heap, p), t, ChainOf(s.heap, t), r.heap);
    case OpDechain(p) => DechainKeeps(s.heap, s.held, p, r.heap);
    case OpRealloc(p, newLen) => ReallocKeeps(s.heap, s.held, p, ChainOf(s.heap, p), newLen, r.heap);
    case OpSplit(p) =>
      var c := ChainOf(s.heap, p);
      if Split(s.heap, c).1 < |c| {
        SplitKeeps(s.heap, s.held, p, c, Split(s.heap, c).0, Split(s.heap, c).1);
      }
  }

  /** `s` is reached from an empty heap by `ops`. */
  ghost predicate Run(ops: seq<Op>, s: State) {
    if ops == [] then s == State(map[], multiset{})
    else exists r :: Run(ops[..|ops| - 1], r) && WellFormed(r.heap)
                     && Legal(r, ops[|ops| - 1]) && s == Step(r, ops[|ops| - 1])
  }

  /** In every run: each count is the number of links and held references, nothing referenced
      is missing, and each total is its length plus the next total. */
  lemma {:induction false} RunKeeps(ops: seq<Op>, s: State)
    requires Run(ops, s)
    ensures Good(s.heap, s.held)
    decreases |ops|
  {
    if ops == [] {
      assert s.heap == map[];
    } else {
      var r :| Run(ops[..|ops| - 1], r) && WellFormed(r.heap)
               && Legal(r, ops[|ops| - 1]) && s == Step(r, ops[|ops| - 1]);
      RunKeeps(ops[..|ops| - 1], r);
      StepKeeps(r, ops[|ops| - 1], s);
    }
  }

  /** As `Run`, but with sharing of any kind. */
  ghost predicate SharingRun(ops: seq<Op>, s: State) {
    if ops == [] then s == State(map[], multiset{})
    else exists r :: SharingRun(ops[..|ops| - 1], r) && WellFormed(r.heap)
                     && Owns(r, ops[|ops| - 1]) && s == Step(r, ops[|ops| - 1])
  }

  lemma StepCounts(s: State, op: Op, r: State)
    requires WellFormed(s.heap) && Counted(s.heap, s.held) && Owns(s, op) && r == Step(s, op)
    ensures WellFormed(r.heap) && Counted(r.heap, r.held)
  {
    match op
    case OpAlloc(got, kind, length) => AllocCounts(s.heap, s.held, got, kind, length);
    case OpRef(p) => RefKeeps(s.heap, s.held, p, r.heap);
    case OpFree(p) => ReleaseKeeps(s.heap, s.held, p);
    case OpCat(p, t) => CatCounts(s.heap, s.held, p, ChainOf(s.heap, p), t, ChainOf(s.heap, t), r.heap);
    case OpChain(p, t) => ChainedCounts(s.heap, s.held, p, ChainOf(s.heap, p), t, ChainOf(s.heap, t), r.heap);
    case OpDechain(p) => DechainCounts(s.heap, s.held, p, r.heap);
    case OpRealloc(p, newLen) => ReallocCounts(s.heap, s.held, p, ChainOf(s.heap, p), newLen, r.heap);
    case OpSplit(p) =>
      var c := ChainOf(s.heap, p);
      if Split(s.heap, c).1 < |c| {
        SplitCounts(s.heap, s.held, p, c, Split(s.heap, c).0, Split(s.heap, c).1);
      }
  }

  /** However chains are shared, each count is the number of links and held references, and
      nothing referenced is missing. */
  lemma {:induction false} RunCounts(ops: seq<Op>, s: State)
    requires SharingRun(ops, s)
    ensures WellFormed(s.heap) && Counted(s.heap, s.held)
    decreases |ops|
  {
    if ops == [] {
      assert s.heap == map[];
    } else {
      var r :| SharingRun(ops[..|ops| - 1], r) && WellFormed(r.heap)
               && Owns(r, ops[|ops| - 1]) && s == Step(r, ops[|ops| - 1]);
      RunCounts(ops[..|ops| - 1], r);
      StepCounts(r, ops[|ops| - 1], s);
    }
  }

  /** In every run, a chain of less than 64K has its exact length in `tot_len`. */
  lemma RunTotalsExact(ops: seq<Op>, s: State, p: Ptr, c: seq<Ptr>)
    requires Run(ops, s) && p in s.heap && IsChain(s.heap, p, c)
    ensures s.heap[p].tot == Add16(0, Sum(s.heap, c))
    ensures Sum(s.heap, c) < U16 ==> s.heap[p].tot == Sum(s.heap, c)
  {
    RunKeeps(ops, s);
    TotalIsSum(s.heap, p, c);
  }
}
