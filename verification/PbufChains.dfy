/** Joining and cutting chains: what each operation of lwip/pbuf.c keeps, and exactly when the
    totals survive it. */
module PbufChains {
  import opened PbufHeap
  import opened PbufOps

  // ----- changing a front part keeps counts and chains -----

  lemma FieldsKeep(h: Heap, r: Heap, held: multiset<Ptr>)
    requires WellFormed(h) && Counted(h, held) && SameLinks(h, r)
    requires forall p :: p in h ==> r[p].len < U16 && r[p].tot < U16 && r[p].len <= |r[p].payload|
    ensures WellFormed(r) && Counted(r, held)
  {
    SameLinksKeep(h, r, held);
    SameLinksChains(h, r);
    forall p | p in r ensures HasChain(r, p) {
      assert HasChain(h, p);
    }
  }

  /** `Shift` before the link is stored: only lengths differ. */
  function Shifted(h: Heap, front: seq<Ptr>, d: int, len: nat): (r: Heap)
    requires front != [] && Last(front) in h
    ensures SameLinks(h, r)
  {
    var a := AddTotals(h, front, d);
    a[Last(front) := a[Last(front)].(len := len)]
  }

  lemma ShiftIsSetNext(h: Heap, front: seq<Ptr>, d: int, y: Ptr, len: nat)
    requires front != [] && Last(front) in h
    ensures Shift(h, front, d, y, len) == SetNext(Shifted(h, front, d, len), Last(front), y)
  {}

  lemma ShiftedKeeps(h: Heap, held: multiset<Ptr>, front: seq<Ptr>, d: int, len: nat, r: Heap)
    requires WellFormed(h) && Counted(h, held) && front != [] && Last(front) in h && len <= h[Last(front)].len
    requires r == Shifted(h, front, d, len)
    ensures WellFormed(r) && Counted(r, held)
  {
    FieldsKeep(h, r, held);
  }

  lemma ShiftLinks(h: Heap, held: multiset<Ptr>, front: seq<Ptr>, d: int, y: Ptr, len: nat, c: seq<Ptr>, s: Heap)
    requires WellFormed(h) && Counted(h, held) && front != [] && Last(front) in h && len <= h[Last(front)].len
    requires h[Last(front)].next == NULL && y in held && IsChain(h, y, c) && Last(front) !in c
    requires s == Shift(h, front, d, y, len)
    ensures WellFormed(s) && Counted(s, held - multiset{y})
  {
    var r := Shifted(h, front, d, len);
    ShiftedKeeps(h, held, front, d, len, r);
    ShiftIsSetNext(h, front, d, y, len);
    assert IsChain(r, y, c);
    LinkCounts(r, held, Last(front), y);
    LinkChains(r, Last(front), y, c);
  }

  lemma ShiftCuts(h: Heap, held: multiset<Ptr>, front: seq<Ptr>, d: int, len: nat, s: Heap)
    requires WellFormed(h) && Counted(h, held) && front != [] && Last(front) in h && len <= h[Last(front)].len
    requires s == Shift(h, front, d, NULL, len)
    ensures WellFormed(s)
    ensures Counted(s, if h[Last(front)].next == NULL then held else held + multiset{h[Last(front)].next})
  {
    var p := Last(front);
    var r := Shifted(h, front, d, len);
    ShiftedKeeps(h, held, front, d, len, r);
    ShiftIsSetNext(h, front, d, NULL, len);
    if h[p].next != NULL {
      NextInHeap(h, p);
      UnlinkCounts(r, held, p);
      UnlinkChains(r, p);
    } else {
      assert SetNext(r, p, NULL) == r;
    }
  }

  // ----- pbuf_cat and pbuf_chain -----

  /** `pbuf_cat(h, t)`, where the chain of `h` is `c`. */
  function Cat(h: Heap, c: seq<Ptr>, t: Ptr): Heap
    requires c != [] && Last(c) in h && t in h
  {
    Shift(h, c, h[t].tot, t, h[Last(c)].len)
  }

  /** The two chains have different ends; otherwise the join would close a cycle. */
  ghost predicate Joinable(h: Heap, p: Ptr, c: seq<Ptr>, t: Ptr, d: seq<Ptr>) {
    && WellFormed(h) && IsChain(h, p, c) && c != [] && t in h && IsChain(h, t, d) && Last(c) !in d
  }

  lemma JoinableApart(h: Heap, p: Ptr, c: seq<Ptr>, t: Ptr, d: seq<Ptr>)
    requires Joinable(h, p, c, t, d)
    ensures t !in c && h[Last(c)].next == NULL && Front(h, c) && t != NULL
  {
    if t in c {
      var i :| 0 <= i < |c| && c[i] == t;
      ChainsMeet(h, c, i, t, d, 0);
    }
  }

  /** `pbuf_cat` takes over the reference to `t`, whatever the totals are. */
  lemma CatCounts(h: Heap, held: multiset<Ptr>, p: Ptr, c: seq<Ptr>, t: Ptr, d: seq<Ptr>, r: Heap)
    requires Joinable(h, p, c, t, d) && Counted(h, held) && t in held && r == Cat(h, c, t)
    ensures WellFormed(r) && Counted(r, held - multiset{t})
  {
    JoinableApart(h, p, c, t, d);
    ShiftLinks(h, held, c, h[t].tot, t, h[Last(c)].len, d, r);
  }

  /** `pbuf_cat` takes over the reference to `t`; the totals stay right exactly when `t` is
      empty or no other pbuf shares a tail with `h`. */
  lemma CatKeeps(h: Heap, held: multiset<Ptr>, p: Ptr, c: seq<Ptr>, t: Ptr, d: seq<Ptr>, r: Heap)
    requires Joinable(h, p, c, t, d) && Counted(h, held) && Totals(h) && t in held && r == Cat(h, c, t)
    ensures WellFormed(r) && Counted(r, held - multiset{t})
    ensures Totals(r) <==> h[t].tot == 0 || Unshared(h, c)
  {
    CatTotals(h, p, c, t, d);
    CatCounts(h, held, p, c, t, d, r);
  }

  lemma CatChain(h: Heap, p: Ptr, c: seq<Ptr>, t: Ptr, d: seq<Ptr>, r: Heap)
    requires Joinable(h, p, c, t, d) && r == Cat(h, c, t)
    ensures IsChain(r, p, c + d)
  {
    JoinableApart(h, p, c, t, d);
    LinkChain(h, Last(c), t, d, p, c);
    assert forall x :: x in r ==> r[x].next == SetNext(h, Last(c), t)[x].next;
  }

  /** `pbuf_chain(h, t)`: the caller keeps its reference to `t`. */
  function Chained(h: Heap, c: seq<Ptr>, t: Ptr): Heap
    requires c != [] && Last(c) in h && t in h
  {
    var r := Cat(h, c, t);
    SetRef(r, t, Add16(r[t].ref, 1))
  }

  /** One more reference; right as long as the 16-bit count has room. */
  lemma RefKeeps(h: Heap, held: multiset<Ptr>, p: Ptr, r: Heap)
    requires WellFormed(h) && Counted(h, held) && p in h && r == SetRef(h, p, Add16(h[p].ref, 1))
    ensures Counted(r, held + multiset{p}) <==> h[p].ref + 1 < U16
    ensures h[p].ref + 1 < U16 ==> WellFormed(r) && (Totals(h) ==> Totals(r))
  {
    if h[p].ref + 1 < U16 {
      SetRefKeeps(h, p, h[p].ref + 1);
      SetRefCounts(h, held, p, h[p].ref + 1, held + multiset{p});
    } else {
      RefWraps(h, held + multiset{p}, p, r);
    }
  }

  lemma RefWraps(h: Heap, held: multiset<Ptr>, p: Ptr, r: Heap)
    requires p in h && h[p].ref + 1 == U16 && r == SetRef(h, p, Add16(h[p].ref, 1))
    ensures !Counted(r, held)
  {
    assert p in r && r[p].ref == 0;
  }

  /** `pbuf_chain` leaves the caller its reference; the totals stay right exactly when those of
      `pbuf_cat` do. */
  lemma ChainedKeeps(h: Heap, held: multiset<Ptr>, p: Ptr, c: seq<Ptr>, t: Ptr, d: seq<Ptr>, r: Heap)
    requires Joinable(h, p, c, t, d) && Counted(h, held) && Totals(h) && t in held && h[t].ref + 1 < U16
    requires r == Chained(h, c, t)
    ensures WellFormed(r) && Counted(r, held)
    ensures Totals(r) <==> h[t].tot == 0 || Unshared(h, c)
  {
    var s := Cat(h, c, t);
    CatKeeps(h, held, p, c, t, d, s);
    CatRef(h, p, c, t, d);
    RefAgain(s, held - multiset{t}, held, t, r);
  }

  lemma ChainedCounts(h: Heap, held: multiset<Ptr>, p: Ptr, c: seq<Ptr>, t: Ptr, d: seq<Ptr>, r: Heap)
    requires Joinable(h, p, c, t, d) && Counted(h, held) && t in held && h[t].ref + 1 < U16
    requires r == Chained(h, c, t)
    ensures WellFormed(r) && Counted(r, held)
  {
    var s := Cat(h, c, t);
    CatCounts(h, held, p, c, t, d, s);
    CatRef(h, p, c, t, d);
    RefAgain(s, held - multiset{t}, held, t, r);
  }

  lemma CatRef(h: Heap, p: Ptr, c: seq<Ptr>, t: Ptr, d: seq<Ptr>)
    requires Joinable(h, p, c, t, d)
    ensures t in Cat(h, c, t) && Cat(h, c, t)[t].ref == h[t].ref
  {
    JoinableApart(h, p, c, t, d);
  }

  lemma RefAgain(s: Heap, less: multiset<Ptr>, held: multiset<Ptr>, t: Ptr, r: Heap)
    requires WellFormed(s) && t in s && held == less + multiset{t} && Counted(s, less) && s[t].ref + 1 < U16
    requires r == SetRef(s, t, Add16(s[t].ref, 1))
    ensures WellFormed(r) && Counted(r, held) && (Totals(r) <==> Totals(s))
  {
    RefKeeps(s, less, t, r);
    SetRefTotals(r, t, s[t].ref, s);
  }

  /** No total is wrong that was right before. */
  lemma SetRefTotals(h: Heap, p: Ptr, ref: nat, r: Heap)
    requires p in h && r == SetRef(h, p, ref)
    ensures Totals(h) ==> Totals(r)
  {
    if Totals(h) {
      forall x | x in r ensures TotAt(r, x) { assert TotAt(h, x); }
    }
  }

  // ----- cutting a chain and giving up what follows -----

  /** `Shift` cuts the chain after `front`, then the rest loses the reference that the link held. */
  lemma CutKeeps(h: Heap, held: multiset<Ptr>, front: seq<Ptr>, rest: seq<Ptr>, d: int, len: nat, s: Heap, r: Heap)
    requires WellFormed(h) && Counted(h, held) && Totals(h) && front != [] && rest != []
    requires IsChain(h, front[0], front + rest) && Last(front) in h && len <= h[Last(front)].len
    requires Add16(h[Last(front)].tot, d) == len
    requires s == Shift(h, front, d, NULL, len) && r == Release(s, rest[0])
    ensures WellFormed(r) && Counted(r, held)
    ensures Totals(r) <==> Add16(0, d) == 0 || Unshared(h, front)
  {
    CutFacts(h, front, rest, d, len, s);
    ShiftCuts(h, held, front, d, len, s);
    CutTotals(h, front, d, len);
    ReleaseAdded(s, held, rest[0], r);
    if !(Add16(0, d) == 0 || Unshared(h, front)) {
      var x :| x in h && h[x].next in front && x !in front;
      CutStaysWrong(h, front, rest, d, len, s, x);
    }
  }

  lemma ReleaseAdded(s: Heap, held: multiset<Ptr>, q: Ptr, r: Heap)
    requires WellFormed(s) && Counted(s, held + multiset{q}) && r == Release(s, q)
    ensures WellFormed(r) && Counted(r, held) && (Totals(s) ==> Totals(r))
  {
    ReleaseKeeps(s, held + multiset{q}, q);
    assert held + multiset{q} - multiset{q} == held;
  }

  lemma CutFacts(h: Heap, front: seq<Ptr>, rest: seq<Ptr>, d: int, len: nat, s: Heap)
    requires NULL !in h && front != [] && rest != [] && IsChain(h, front[0], front + rest) && Last(front) in h
    requires s == Shift(h, front, d, NULL, len)
    ensures Front(h, front) && h[Last(front)].next == rest[0] && IsChain(s, rest[0], rest)
    ensures forall i :: 0 <= i < |front| ==> front[i] !in rest
  {
    var c := front + rest;
    assert forall i :: 0 <= i < |front| ==> c[i] == front[i];
    assert forall i :: 0 <= i < |rest| ==> c[|front| + i] == rest[i];
  }

  lemma CutTotals(h: Heap, front: seq<Ptr>, d: int, len: nat)
    requires Totals(h) && NULL !in h && Front(h, front)
    requires Add16(h[Last(front)].tot, d) == len
    ensures Totals(Shift(h, front, d, NULL, len)) <==> Add16(0, d) == 0 || Unshared(h, front)
  {
    assert TotOf(h, NULL) == 0 && Add16(len, 0) == len;
    assert NULL !in front;
    ShiftTotals(h, front, d, NULL, len);
  }

  lemma CatTotals(h: Heap, p: Ptr, c: seq<Ptr>, t: Ptr, d: seq<Ptr>)
    requires Joinable(h, p, c, t, d) && Totals(h)
    ensures Totals(Cat(h, c, t)) <==> h[t].tot == 0 || Unshared(h, c)
  {
    JoinableApart(h, p, c, t, d);
    assert TotAt(h, Last(c)) && Add16(0, h[t].tot) == h[t].tot && h[Last(c)].tot == h[Last(c)].len;
    ShiftTotals(h, c, h[t].tot, t, h[Last(c)].len);
  }

  /** What follows a part of a chain does not link back into it. */
  lemma RestLinks(h: Heap, front: seq<Ptr>, rest: seq<Ptr>, i: nat)
    requires NULL !in h && front != [] && IsChain(h, front[0], front + rest) && i < |rest|
    ensures rest[i] in h && h[rest[i]].next !in front
  {
    var c := front + rest;
    ChainNext(h, front[0], c, |front| + i);
    assert forall j :: 0 <= j < |front| ==> c[j] == front[j];
  }

  /** A total made wrong by the cut is still there, and still wrong, after the release. */
  lemma CutStaysWrong(h: Heap, front: seq<Ptr>, rest: seq<Ptr>, d: int, len: nat, s: Heap, x: Ptr)
    requires NULL !in h && Totals(h) && front != [] && rest != [] && IsChain(h, front[0], front + rest) && Last(front) in h
    requires s == Shift(h, front, d, NULL, len) && x in h && h[x].next in front && x !in front && Add16(0, d) != 0
    ensures !Totals(Release(s, rest[0]))
  {
    CutFacts(h, front, rest, d, len, s);
    ReleasesPrefix(s, rest[0], rest);
    forall i | 0 <= i < |rest| ensures rest[i] != x { RestLinks(h, front, rest, i); }
    var r := Release(s, rest[0]);
    assert h[x].next in r && r[h[x].next].tot == s[h[x].next].tot && r[x].tot == h[x].tot;
    assert TotAt(h, x);
    ShiftModU16(h[x].len, h[h[x].next].tot, d);
    assert !TotAt(r, x);
  }

  lemma SubModU16(tot: nat, len: nat, rest: nat)
    requires tot == Add16(len, rest) && len < U16 && rest < U16
    ensures Add16(tot, 0 - rest) == len && Add16(tot, 0 - len) == rest
  {}

  // ----- pbuf_dechain -----

  /** `pbuf_dechain(p)`. */
  function Dechain(h: Heap, p: Ptr): Heap
    requires p in h
  {
    var q := h[p].next;
    if q !in h then h
    else
      var h1 := h[q := h[q].(tot := Add16(h[p].tot, 0 - h[p].len))];
      Release(h1[p := h1[p].(next := NULL, tot := h1[p].len)], q)
  }

  /** In a chain with right totals, `pbuf_dechain` takes the rest's bytes off `p`. */
  lemma DechainShift(h: Heap, p: Ptr)
    requires WellFormed(h) && Totals(h) && p in h && h[p].next in h
    ensures var q := h[p].next;
            var s := Shift(h, [p], 0 - h[q].tot, NULL, h[p].len);
            && Dechain(h, p) == Release(s, q) && Add16(h[p].tot, 0 - h[q].tot) == h[p].len
  {
    var q := h[p].next;
    NextInHeap(h, p);
    assert TotAt(h, p);
    SubModU16(h[p].tot, h[p].len, h[q].tot);
    assert h[q := h[q].(tot := Add16(h[p].tot, 0 - h[p].len))] == h;
    assert Shift(h, [p], 0 - h[q].tot, NULL, h[p].len) == h[p := h[p].(next := NULL, tot := h[p].len)];
  }

  lemma NegModU16(x: nat)
    requires x < U16
    ensures Add16(0, 0 - x) == 0 <==> x == 0
  {}

  lemma CutOne(h: Heap, held: multiset<Ptr>, p: Ptr, rest: seq<Ptr>, d: int, s: Heap, r: Heap)
    requires WellFormed(h) && Counted(h, held) && Totals(h) && p in h && rest != [] && IsChain(h, p, [p] + rest)
    requires Add16(h[p].tot, d) == h[p].len && s == Shift(h, [p], d, NULL, h[p].len) && r == Release(s, rest[0])
    ensures WellFormed(r) && Counted(r, held)
    ensures Totals(r) <==> Add16(0, d) == 0 || Unshared(h, [p])
  {
    assert Last([p]) == p && [p][0] == p;
    CutKeeps(h, held, [p], rest, d, h[p].len, s, r);
  }

  /** `pbuf_dechain` keeps every reference; the totals stay right exactly when nothing
      followed, or what followed was empty, or nothing links to `p`. */
  lemma DechainKeeps(h: Heap, held: multiset<Ptr>, p: Ptr, r: Heap)
    requires WellFormed(h) && Counted(h, held) && Totals(h) && p in h && r == Dechain(h, p)
    ensures WellFormed(r) && Counted(r, held)
    ensures Totals(r) <==> TotOf(h, h[p].next) == 0 || Linking(h, p) == {}
  {
    var q := h[p].next;
    NextInHeap(h, p);
    if q in h {
      var c := ChainOf(h, p);
      ChainNext(h, p, c, 0);
      assert c == [p] + c[1..] && c[1..][0] == q;
      DechainShift(h, p);
      UnsharedOne(h, p);
      NegModU16(h[q].tot);
      var s := Shift(h, [p], 0 - h[q].tot, NULL, h[p].len);
      CutOne(h, held, p, c[1..], 0 - h[q].tot, s, r);
    }
  }

  /** The pbuf `x` becomes the last one, with `len` bytes. */
  function CutAfter(h: Heap, x: Ptr, len: nat): Heap
    requires x in h
  {
    h[x := h[x].(next := NULL, len := len, tot := len)]
  }

  /** Cutting after one pbuf and giving up what followed, whatever the totals are. */
  lemma CutCounts(h: Heap, held: multiset<Ptr>, x: Ptr, len: nat, q: Ptr, r: Heap)
    requires WellFormed(h) && Counted(h, held) && x in h && len <= h[x].len && q == h[x].next
    requires r == Release(CutAfter(h, x, len), q)
    ensures WellFormed(r) && Counted(r, held)
  {
    var s := CutAfter(h, x, len);
    CutOneCounts(h, held, x, len, q, s);
    if q != NULL {
      ReleaseAdded(s, held, q, r);
    } else {
      assert Release(s, NULL) == s;
    }
  }

  lemma CutOneCounts(h: Heap, held: multiset<Ptr>, x: Ptr, len: nat, q: Ptr, s: Heap)
    requires WellFormed(h) && Counted(h, held) && x in h && len <= h[x].len && q == h[x].next && s == CutAfter(h, x, len)
    ensures WellFormed(s) && Counted(s, if q == NULL then held else held + multiset{q})
  {
    ShiftOne(h, x, len);
    assert Last([x]) == x;
    ShiftCuts(h, held, [x], len - h[x].tot, len, s);
  }

  lemma ShiftOne(h: Heap, x: Ptr, len: nat)
    requires x in h && len < U16
    ensures CutAfter(h, x, len) == Shift(h, [x], len - h[x].tot, NULL, len)
  {
    assert Last([x]) == x && Add16(h[x].tot, len - h[x].tot) == len;
    assert forall y :: y in [x] <==> y == x;
  }

  lemma DechainCounts(h: Heap, held: multiset<Ptr>, p: Ptr, r: Heap)
    requires WellFormed(h) && Counted(h, held) && p in h && r == Dechain(h, p)
    ensures WellFormed(r) && Counted(r, held)
  {
    var q := h[p].next;
    NextInHeap(h, p);
    if q in h {
      var h1 := h[q := h[q].(tot := Add16(h[p].tot, 0 - h[p].len))];
      FieldsKeep(h, h1, held);
      CutCounts(h1, held, p, h[p].len, q, r);
    }
  }

  lemma UnsharedOne(h: Heap, p: Ptr)
    requires WellFormed(h) && p in h
    ensures Unshared(h, [p]) <==> Linking(h, p) == {}
  {
    NextInHeap(h, p);
    if Linking(h, p) == {} {
      assert forall x :: x in h && h[x].next == p ==> x in Linking(h, p);
    } else {
      var x :| x in Linking(h, p);
      assert x != p && h[x].next in [p];
    }
  }

  // ----- pbuf_realloc -----

  /** Where the walk of `pbuf_realloc` stops: the pbuf that becomes the last one, the first with
      which the length is reached. */
  function KeepAt(h: Heap, c: seq<Ptr>, rem: nat): (k: nat)
    requires forall i :: 0 <= i < |c| ==> c[i] in h
    ensures k <= |c|
    ensures k < |c| ==> Sum(h, c[..k]) <= rem <= Sum(h, c[..k]) + h[c[k]].len
    ensures 0 < k < |c| ==> Sum(h, c[..k]) < rem
    ensures k == |c| ==> c == [] || Sum(h, c) < rem
  {
    if c == [] then 0
    else if rem > h[c[0]].len then
      var k := KeepAt(h, c[1..], rem - h[c[0]].len);
      assert c[..k + 1][1..] == c[1..][..k];
      k + 1
    else 0
  }

  /** `pbuf_realloc(p, newLen)`, where the chain of `p` is `c`. */
  function Realloc(h: Heap, c: seq<Ptr>, newLen: nat): Heap
    requires c != [] && forall i :: 0 <= i < |c| ==> c[i] in h
  {
    var k := KeepAt(h, c, newLen);
    if newLen >= h[c[0]].tot || k == |c| then h
    else
      var rem := newLen - Sum(h, c[..k]);
      var a := AddTotals(h, c[..k], newLen - h[c[0]].tot);
      Release(CutAfter(a, c[k], rem), Then(c, k + 1))
  }

  lemma {:induction false} SumSplit(h: Heap, c: seq<Ptr>, k: nat)
    requires k <= |c| && forall i :: 0 <= i < |c| ==> c[i] in h
    ensures Sum(h, c) == Sum(h, c[..k]) + Sum(h, c[k..])
    decreases k
  {
    if k == 0 {
      assert c[k..] == c;
    } else {
      SumSplit(h, c[1..], k - 1);
      assert c[..k][1..] == c[1..][..k - 1] && c[1..][k - 1..] == c[k..];
    }
  }

  /** The total of the pbuf at `k` is that of the first less what lies before it. */
  lemma TotalAt(h: Heap, p: Ptr, c: seq<Ptr>, k: nat)
    requires NULL !in h && Totals(h) && IsChain(h, p, c) && k < |c| && h[p].tot < U16 && h[c[k]].tot < U16
    ensures h[c[k]].tot == Add16(h[p].tot, 0 - Sum(h, c[..k])) && Sum(h, c) >= h[p].tot
  {
    TotalIsSum(h, p, c);
    ChainTail(h, c, k);
    TotalIsSum(h, c[k], c[k..]);
    SumSplit(h, c, k);
  }

  /** A shorter length is found within the chain. */
  lemma KeepInside(h: Heap, p: Ptr, c: seq<Ptr>, newLen: nat)
    requires WellFormed(h) && Totals(h) && IsChain(h, p, c) && p in h && newLen < h[p].tot
    ensures KeepAt(h, c, newLen) < |c|
  {
    TotalAt(h, p, c, 0);
  }

  lemma AddBack(tot: nat, before: nat, newLen: nat)
    requires before <= newLen < tot < U16
    ensures Add16(Add16(tot, 0 - before), newLen - tot) == newLen - before && Add16(0, newLen - tot) != 0
  {}

  /** The walk's last step is a `Shift`: all totals up to there fall by the same amount. */
  lemma LastStepIsShift(h: Heap, c: seq<Ptr>, k: nat, rem: nat, grow: int, front: seq<Ptr>)
    requires k < |c| && Distinct(c) && c[k] in h && front == c[..k + 1] && Add16(h[c[k]].tot, grow) == rem
    ensures var a := AddTotals(h, c[..k], grow);
            a[c[k] := a[c[k]].(next := NULL, len := rem, tot := rem)] == Shift(h, front, grow, NULL, rem)
  {
    assert front == c[..k] + [c[k]] && Last(front) == c[k];
    assert forall x :: x in front <==> x in c[..k] || x == c[k];
    assert c[k] !in c[..k];
  }

  lemma ReallocShift(h: Heap, p: Ptr, c: seq<Ptr>, newLen: nat, k: nat, rem: nat, grow: int, front: seq<Ptr>)
    requires WellFormed(h) && Totals(h) && IsChain(h, p, c) && p in h && newLen < h[p].tot
    requires k == KeepAt(h, c, newLen) < |c| && rem == newLen - Sum(h, c[..k]) && grow == newLen - h[p].tot && front == c[..k + 1]
    ensures rem <= h[c[k]].len && Add16(h[c[k]].tot, grow) == rem && Add16(0, grow) != 0
    ensures front != [] && Last(front) == c[k] && front[0] == p
    ensures Realloc(h, c, newLen) == Release(Shift(h, front, grow, NULL, rem), Then(c, k + 1))
  {
    TotalAt(h, p, c, k);
    AddBack(h[p].tot, Sum(h, c[..k]), newLen);
    TrimIs(h, p, c, newLen, k, rem, grow);
    TrimShift(h, c, k, rem, grow, front, Then(c, k + 1));
  }

  lemma TrimShift(h: Heap, c: seq<Ptr>, k: nat, rem: nat, grow: int, front: seq<Ptr>, q: Ptr)
    requires k < |c| && Distinct(c) && c[k] in h && front == c[..k + 1] && Add16(h[c[k]].tot, grow) == rem
    ensures front != [] && Last(front) == c[k] && front[0] == c[0]
    ensures Release(CutAfter(AddTotals(h, c[..k], grow), c[k], rem), q) == Release(Shift(h, front, grow, NULL, rem), q)
  {
    LastStepIsShift(h, c, k, rem, grow, front);
  }

  lemma CutAnywhere(h: Heap, held: multiset<Ptr>, c: seq<Ptr>, front: seq<Ptr>, rest: seq<Ptr>, d: int, len: nat, r: Heap)
    requires WellFormed(h) && Counted(h, held) && Totals(h) && front != [] && c == front + rest
    requires IsChain(h, c[0], c) && Last(front) in h && len <= h[Last(front)].len && Add16(h[Last(front)].tot, d) == len
    requires r == Release(Shift(h, front, d, NULL, len), Then(rest, 0))
    ensures WellFormed(r) && Counted(r, held)
    ensures Totals(r) <==> Add16(0, d) == 0 || Unshared(h, front)
  {
    var s := Shift(h, front, d, NULL, len);
    if rest != [] {
      CutKeeps(h, held, front, rest, d, len, s, r);
    } else {
      assert front == c;
      ShiftCuts(h, held, front, d, len, s);
      CutTotals(h, front, d, len);
    }
  }

  /** The part of a chain that `pbuf_realloc` keeps. */
  function KeptPart(h: Heap, c: seq<Ptr>, newLen: nat): seq<Ptr>
    requires forall i :: 0 <= i < |c| ==> c[i] in h
  {
    var k := KeepAt(h, c, newLen);
    if k < |c| then c[..k + 1] else c
  }

  lemma FrontAndRest(c: seq<Ptr>, k: nat)
    requires k < |c|
    ensures c == c[..k + 1] + c[k + 1..] && Then(c[k + 1..], 0) == Then(c, k + 1)
  {}

  lemma ReallocCuts(h: Heap, held: multiset<Ptr>, p: Ptr, c: seq<Ptr>, newLen: nat, k: nat, front: seq<Ptr>, rest: seq<Ptr>)
    requires WellFormed(h) && Counted(h, held) && Totals(h) && p in h && IsChain(h, p, c) && newLen < h[p].tot
    requires k == KeepAt(h, c, newLen) < |c| && front == c[..k + 1] && rest == c[k + 1..]
    ensures WellFormed(Realloc(h, c, newLen)) && Counted(Realloc(h, c, newLen), held)
    ensures Totals(Realloc(h, c, newLen)) <==> Unshared(h, front)
  {
    var rem, grow := newLen - Sum(h, c[..k]), newLen - h[p].tot;
    ReallocShift(h, p, c, newLen, k, rem, grow, front);
    FrontAndRest(c, k);
    CutAnywhere(h, held, c, front, rest, grow, rem, Realloc(h, c, newLen));
  }

  /** `pbuf_realloc` keeps every reference; the totals stay right exactly when it does nothing
      or nothing outside links into the part that is kept. */
  lemma ReallocKeeps(h: Heap, held: multiset<Ptr>, p: Ptr, c: seq<Ptr>, newLen: nat, r: Heap)
    requires WellFormed(h) && Counted(h, held) && Totals(h) && p in h && IsChain(h, p, c) && r == Realloc(h, c, newLen)
    ensures WellFormed(r) && Counted(r, held)
    ensures Totals(r) <==> newLen >= h[p].tot || Unshared(h, KeptPart(h, c, newLen))
  {
    if newLen < h[p].tot {
      KeepInside(h, p, c, newLen);
      var k := KeepAt(h, c, newLen);
      ReallocCuts(h, held, p, c, newLen, k, c[..k + 1], c[k + 1..]);
    }
  }

  /** Whatever the totals are, a trim that ends within the chain keeps every reference. */
  lemma ReallocCounts(h: Heap, held: multiset<Ptr>, p: Ptr, c: seq<Ptr>, newLen: nat, r: Heap)
    requires WellFormed(h) && Counted(h, held) && p in h && IsChain(h, p, c) && r == Realloc(h, c, newLen)
    ensures WellFormed(r) && Counted(r, held)
  {
    var k := KeepAt(h, c, newLen);
    if newLen < h[p].tot && k < |c| {
      var rem, grow := newLen - Sum(h, c[..k]), newLen - h[p].tot;
      TrimIs(h, p, c, newLen, k, rem, grow);
      TrimCounts(h, held, c[..k], grow, c[k], rem, Then(c, k + 1), r);
    }
  }

  lemma TrimIs(h: Heap, p: Ptr, c: seq<Ptr>, newLen: nat, k: nat, rem: nat, grow: int)
    requires p in h && IsChain(h, p, c) && newLen < h[p].tot && k == KeepAt(h, c, newLen) < |c|
    requires rem == newLen - Sum(h, c[..k]) && grow == newLen - h[p].tot
    ensures c[k] in h && rem <= h[c[k]].len && h[c[k]].next == Then(c, k + 1)
    ensures Realloc(h, c, newLen) == Release(CutAfter(AddTotals(h, c[..k], grow), c[k], rem), Then(c, k + 1))
  {
    ChainNext(h, p, c, k);
  }

  lemma TrimCounts(h: Heap, held: multiset<Ptr>, front: seq<Ptr>, d: int, x: Ptr, len: nat, q: Ptr, r: Heap)
    requires WellFormed(h) && Counted(h, held) && x in h && len <= h[x].len && q == h[x].next
    requires r == Release(CutAfter(AddTotals(h, front, d), x, len), q)
    ensures WellFormed(r) && Counted(r, held)
  {
    AddTotalsCounts(h, held, front, d, AddTotals(h, front, d));
    CutCounts(AddTotals(h, front, d), held, x, len, q, r);
  }

  lemma AddTotalsCounts(h: Heap, held: multiset<Ptr>, front: seq<Ptr>, d: int, a: Heap)
    requires WellFormed(h) && Counted(h, held) && a == AddTotals(h, front, d)
    ensures WellFormed(a) && Counted(a, held)
    ensures forall x :: x in h ==> a[x].next == h[x].next && a[x].len == h[x].len
  {
    FieldsKeep(h, a, held);
  }
}
