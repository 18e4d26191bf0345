/** Moving bytes between chains: `pbuf_copy` and `pbuf_coalesce` (lwip/pbuf.c). */
module PbufTransfer {
  import opened PbufHeap
  import opened PbufOps
  import opened PbufChains
  import opened PbufRuns
  import opened PbufMemory
  import opened PbufData

  // ----- pbuf_copy -----

  /** One packet of non-empty pbufs, with exact totals. */
  ghost predicate Packet(h: Heap, c: seq<Ptr>) {
    && c != [] && Readable(h, c)
    && forall i :: 0 <= i < |c| ==> InPacket(h, c, i)
  }

  ghost predicate InPacket(h: Heap, c: seq<Ptr>, i: nat)
    requires Readable(h, c) && i < |c|
  {
    h[c[i]].len > 0 && h[c[i]].tot == Sum(h, c[i..])
  }

  lemma SumAtHead(h: Heap, c: seq<Ptr>)
    ensures Packet(h, c) ==> h[c[0]].tot == Sum(h, c) >= h[c[0]].len > 0
  {
    if Packet(h, c) { assert InPacket(h, c, 0) && c[0..] == c; }
  }

  /** What right totals give a chain of non-empty pbufs with less than 64K. */
  lemma PacketOf(h: Heap, p: Ptr, c: seq<Ptr>)
    requires WellFormed(h) && Totals(h) && IsChain(h, p, c) && c != [] && Sum(h, c) < U16
    requires forall i :: 0 <= i < |c| ==> h[c[i]].len > 0
    ensures Packet(h, c)
  {
    forall i | 0 <= i < |c| ensures InPacket(h, c, i) {
      ChainTail(h, c, i);
      TotalIsSum(h, c[i], c[i..]);
      SumSplit(h, c, i);
    }
  }

  /** A place in a chain: `off` bytes into the pbuf at `i`, `k` bytes from the start. */
  datatype Cursor = Cursor(i: nat, off: nat)

  ghost predicate At(h: Heap, c: seq<Ptr>, u: Cursor, k: nat)
    requires Readable(h, c)
  {
    && u.i <= |c| && k == Sum(h, c[..u.i]) + u.off
    && if u.i == |c| then u.off == 0 else u.off == 0 || u.off < h[c[u.i]].len
  }

  function Advance(u: Cursor, len: nat, n: nat): Cursor {
    if u.off + n >= len then Cursor(u.i + 1, 0) else Cursor(u.i, u.off + n)
  }

  lemma AdvancePlace(h: Heap, c: seq<Ptr>, u: Cursor, k: nat, n: nat)
    requires Readable(h, c) && At(h, c, u, k) && u.i < |c| && u.off + n <= h[c[u.i]].len
    ensures At(h, c, Advance(u, h[c[u.i]].len, n), k + n)
  {
    SumNext(h, c, u.i);
  }

  lemma AdvanceBytes(h: Heap, c: seq<Ptr>, u: Cursor, k: nat, n: nat)
    requires Readable(h, c) && At(h, c, u, k) && u.i < |c| && u.off + n <= h[c[u.i]].len
    ensures k + n <= Sum(h, c) && View(h, c)[k..k + n] == h[c[u.i]].payload[u.off..u.off + n]
  {
    ViewPiece(h, c, u.i);
    SubSlice(View(h, c), Sum(h, c[..u.i]), h[c[u.i]].payload, h[c[u.i]].len, u.off, n);
  }

  lemma ViewPiece(h: Heap, c: seq<Ptr>, i: nat)
    requires Readable(h, c) && i < |c|
    ensures var n, pos := h[c[i]], Sum(h, c[..i]); pos + n.len <= |View(h, c)| && View(h, c)[pos..pos + n.len] == n.payload[..n.len]
  {
    ViewAt(h, c, i);
  }

  lemma SubSlice(v: seq<Byte>, pos: nat, payload: seq<Byte>, len: nat, off: nat, n: nat)
    requires pos + len <= |v| && len <= |payload| && v[pos..pos + len] == payload[..len] && off + n <= len
    ensures v[pos + off..pos + off + n] == payload[off..off + n]
  {
    var a, b := v[pos + off..pos + off + n], payload[off..off + n];
    forall i | 0 <= i < n ensures a[i] == b[i] {
      assert v[pos..pos + len][off + i] == payload[..len][off + i];
    }
  }

  /** The first `k` bytes have been copied, and only they. */
  ghost predicate Copied(h: Heap, r: Heap, c: seq<Ptr>, d: seq<Ptr>, u: Cursor, w: Cursor, k: nat)
    requires Readable(h, c) && Readable(h, d)
  {
    && At(h, c, u, k) && At(h, d, w, k) && OnlyData(h, r, c) && Readable(r, c)
    && k <= Sum(h, c) && k <= Sum(h, d)
    && View(r, c) == Splice(View(h, c), 0, View(h, d)[..k])
  }

  ghost predicate Disjoint(c: seq<Ptr>, d: seq<Ptr>) { forall i :: 0 <= i < |d| ==> d[i] !in c }

  lemma CopiedNext(h: Heap, r: Heap, c: seq<Ptr>, d: seq<Ptr>, u: Cursor, w: Cursor, k: nat, n: nat, k': nat, s: Heap)
    requires k' == k + n && Readable(h, c) && Readable(h, d) && Copied(h, r, c, d, u, w, k) && Distinct(c) && Disjoint(c, d) && u.i < |c| && w.i < |d|
    requires u.off + n <= h[c[u.i]].len && w.off + n <= h[d[w.i]].len
    requires c[u.i] in r && u.off + n <= |r[c[u.i]].payload| && s == Write(r, c[u.i], u.off, h[d[w.i]].payload[w.off..w.off + n])
    ensures Copied(h, s, c, d, Advance(u, h[c[u.i]].len, n), Advance(w, h[d[w.i]].len, n), k')
  {
    AdvancePlace(h, c, u, k, n);
    AdvancePlace(h, d, w, k, n);
    CopiedBytes(h, r, c, d, u, w, k, n, k', s);
  }

  lemma CopiedBytes(h: Heap, r: Heap, c: seq<Ptr>, d: seq<Ptr>, u: Cursor, w: Cursor, k: nat, n: nat, k': nat, s: Heap)
    requires k' == k + n && Readable(h, c) && Readable(h, d) && Copied(h, r, c, d, u, w, k) && Distinct(c) && u.i < |c| && w.i < |d|
    requires u.off + n <= h[c[u.i]].len && w.off + n <= h[d[w.i]].len
    requires c[u.i] in r && u.off + n <= |r[c[u.i]].payload| && s == Write(r, c[u.i], u.off, h[d[w.i]].payload[w.off..w.off + n])
    ensures k' <= Sum(h, c) && k' <= Sum(h, d) && Readable(s, c) && View(s, c) == Splice(View(h, c), 0, View(h, d)[..k'])
  {
    AdvanceBytes(h, c, u, k, n);
    AdvanceBytes(h, d, w, k, n);
    SumSame(h, r, c[..u.i]);
    SumSame(h, r, c);
    SpliceMore(r, c, u, k, View(h, c), View(h, d), n, k', h[d[w.i]].payload[w.off..w.off + n], s);
  }

  lemma SpliceMore(r: Heap, c: seq<Ptr>, u: Cursor, k: nat, v: seq<Byte>, from: seq<Byte>, n: nat, k': nat,
                   data: seq<Byte>, s: Heap)
    requires k' == k + n && Readable(r, c) && Distinct(c) && u.i < |c| && k == Sum(r, c[..u.i]) + u.off && u.off + n <= r[c[u.i]].len
    requires k' <= |from| && k' <= |v| == Sum(r, c) && from[k..k'] == data && |data| == n
    requires s == Write(r, c[u.i], u.off, data) && View(r, c) == Splice(v, 0, from[..k])
    ensures Readable(s, c) && View(s, c) == Splice(v, 0, from[..k'])
  {
    ViewWrite(r, c, u.i, u.off, data, s);
    SpliceNext(v, from[..k], data);
    PrefixNext(from, k, n, data);
  }

  lemma PrefixNext(v: seq<Byte>, k: nat, n: nat, data: seq<Byte>)
    requires k + n <= |v| && v[k..k + n] == data
    ensures v[..k] + data == v[..k + n]
  {}

  lemma CopiedAll(h: Heap, r: Heap, c: seq<Ptr>, d: seq<Ptr>, u: Cursor, w: Cursor, k: nat)
    requires Readable(h, c) && Readable(h, d) && Copied(h, r, c, d, u, w, k) && w.i == |d|
    ensures Sum(h, d) <= Sum(h, c) && View(r, c) == Splice(View(h, c), 0, View(h, d))
  {
    assert d[..w.i] == d && View(h, d)[..k] == View(h, d);
  }

  /** A target that is big enough does not run out of pbufs. */
  lemma NeverShort(h: Heap, r: Heap, c: seq<Ptr>, d: seq<Ptr>, u: Cursor, w: Cursor, k: nat)
    requires Readable(h, c) && Readable(h, d) && Copied(h, r, c, d, u, w, k) && u.i == |c| && w.i < |d|
    ensures Packet(h, d) ==> Sum(h, c) < Sum(h, d)
  {
    if Packet(h, d) {
      assert c[..u.i] == c && InPacket(h, d, w.i);
      SumNext(h, d, w.i);
      SumSplit(h, d, w.i + 1);
    }
  }

  /** In one packet, only the last pbuf has a total equal to its length. */
  lemma NeverQueue(h: Heap, p: Ptr, c: seq<Ptr>, i: nat)
    requires IsChain(h, p, c) && i < |c| && h[c[i]].len == h[c[i]].tot
    ensures Packet(h, c) ==> h[c[i]].next == NULL
  {
    ChainNext(h, p, c, i);
    if Packet(h, c) && i + 1 < |c| {
      assert InPacket(h, c, i) && InPacket(h, c, i + 1);
      TwoLengths(h, c, i);
    }
  }

  lemma TwoLengths(h: Heap, c: seq<Ptr>, i: nat)
    requires Readable(h, c) && i + 1 < |c|
    ensures Sum(h, c[i..]) >= h[c[i]].len + h[c[i + 1]].len
  {
    assert c[i..][1..] == c[i + 1..] && c[i + 1..][0] == c[i + 1];
  }

  /** After one round each cursor is where its pointer is, and one of them left its pbuf. */
  lemma PointsNext(h: Heap, c: seq<Ptr>, u: Cursor, n: nat, p: Ptr, off: nat)
    requires u.i < |c| && c[u.i] in h && h[c[u.i]].next == Then(c, u.i + 1) && u.off + n <= h[c[u.i]].len
    requires if u.off + n == h[c[u.i]].len then off == 0 && p == h[c[u.i]].next else off == u.off + n && p == c[u.i]
    ensures Points(c, Advance(u, h[c[u.i]].len, n), p, off)
  {}

  /** The cursors as the pointers and offsets of `pbuf_copy`. */
  ghost predicate Points(c: seq<Ptr>, u: Cursor, p: Ptr, off: int) { p == Then(c, u.i) && off == u.off }

  /** What one round may copy. */
  lemma CopyRoom(h: Heap, r: Heap, c: seq<Ptr>, d: seq<Ptr>, u: Cursor, w: Cursor, k: nat)
    requires Readable(h, c) && Readable(h, d) && Copied(h, r, c, d, u, w, k) && Disjoint(c, d) && u.i < |c| && w.i < |d|
    ensures var pt, pf := c[u.i], d[w.i];
            && pt != pf && pt in r && pf in r && r[pf] == h[pf] && r[pt].len == h[pt].len <= |r[pt].payload| && r[pt].next == h[pt].next
            && u.off <= r[pt].len && w.off <= r[pf].len <= |r[pf].payload|
  {}

  /** One round of the loop: the longest part that lies in one pbuf of each chain. */
  method CopyPart(m: Memory, pt: Ptr, ot: nat, pf: Ptr, of: nat, ghost h: Heap, ghost c: seq<Ptr>, ghost d: seq<Ptr>,
                  ghost u: Cursor, ghost w: Cursor, ghost k: nat) returns (pt': Ptr, ot': nat, pf': Ptr, of': nat, ghost n: nat, ghost k': nat)
    requires Readable(h, c) && Readable(h, d) && Copied(h, m.heap, c, d, u, w, k) && Distinct(c) && Disjoint(c, d)
    requires u.i < |c| && w.i < |d| && pt == c[u.i] && ot == u.off && pf == d[w.i] && of == w.off
    modifies m
    ensures u.off + n <= h[pt].len && w.off + n <= h[pf].len && (u.off + n == h[pt].len || w.off + n == h[pf].len)
    ensures Copied(h, m.heap, c, d, Advance(u, h[c[u.i]].len, n), Advance(w, h[d[w.i]].len, n), k') && k' == k + n
    ensures if ot + n == h[pt].len then ot' == 0 && pt' == h[pt].next else ot' == ot + n && pt' == pt
    ensures if of + n == h[pf].len then of' == 0 && pf' == h[pf].next else of' == of + n && pf' == pf
  {
    CopyRoom(h, m.heap, c, d, u, w, k);
    var part := if m.heap[pt].len - ot >= m.heap[pf].len - of then m.heap[pf].len - of else m.heap[pt].len - ot;
    n, k' := part, k + part;
    CopiedNext(h, m.heap, c, d, u, w, k, n, k', Write(m.heap, pt, ot, m.heap[pf].payload[of..of + n]));
    pt', ot', pf', of' := CopyBytes(m, pt, ot, pf, of, part);
  }

  /** The assignments of one round. */
  method CopyBytes(m: Memory, pt: Ptr, ot: nat, pf: Ptr, of: nat, n: nat) returns (pt': Ptr, ot': nat, pf': Ptr, of': nat)
    requires pt in m.heap && pf in m.heap && pt != pf
    requires ot + n <= m.heap[pt].len <= |m.heap[pt].payload| && of + n <= m.heap[pf].len <= |m.heap[pf].payload|
    modifies m
    ensures m.heap == Write(old(m.heap), pt, ot, old(m.heap)[pf].payload[of..of + n])
    ensures if ot + n == m.heap[pt].len then ot' == 0 && pt' == m.heap[pt].next else ot' == ot + n && pt' == pt
    ensures if of + n == m.heap[pf].len then of' == 0 && pf' == m.heap[pf].next else of' == of + n && pf' == pf
    ensures m.heap[pf] == old(m.heap)[pf]
  {
    m.heap := Write(m.heap, pt, ot, m.heap[pf].payload[of..of + n]);
    pt', ot', pf', of' := pt, ot + n, pf, of + n;
    if of' >= m.heap[pf].len {
      of' := 0;
      pf' := m.heap[pf].next;
    }
    if ot' == m.heap[pt].len {
      ot' := 0;
      pt' := m.heap[pt].next;
    }
  }

  /** A pbuf that ends a packet, with another behind it. */
  ghost predicate Queued(h: Heap, c: seq<Ptr>) {
    exists i :: 0 <= i < |c| && c[i] in h && h[c[i]].len == h[c[i]].tot && h[c[i]].next != NULL
  }

  /** `pbuf_copy`.  Success means that all bytes arrived; one packet of non-empty pbufs is
      always copied into another that is big enough, and refused untouched by one that is not.
      The other refusals have a reason in the chains: a target that ends first, or a queue. */
  method Copy(m: Memory, to: Ptr, from: Ptr, ghost c: seq<Ptr>, ghost d: seq<Ptr>) returns (err: Err)
    requires IsChain(m.heap, to, c) && IsChain(m.heap, from, d) && Readable(m.heap, c) && Readable(m.heap, d)
    requires Disjoint(c, d)
    modifies m
    ensures OnlyData(old(m.heap), m.heap, c) && Readable(m.heap, c)
    ensures err == OK ==> Sum(old(m.heap), d) <= Sum(old(m.heap), c)
    ensures err == OK ==> View(m.heap, c) == Splice(View(old(m.heap), c), 0, View(old(m.heap), d))
    ensures Packet(old(m.heap), c) && Packet(old(m.heap), d) ==>
              err == if Sum(old(m.heap), c) >= Sum(old(m.heap), d) then OK else ARG
    ensures Packet(old(m.heap), c) && Packet(old(m.heap), d) && err == ARG ==> m.heap == old(m.heap)
    ensures err == VAL ==> Queued(old(m.heap), c) || Queued(old(m.heap), d)
    ensures err == ARG ==> m.heap == old(m.heap) || Sum(old(m.heap), c) <= Sum(old(m.heap), d)
    ensures to == NULL || from == NULL || old(m.heap)[to].tot < old(m.heap)[from].tot ==>
              err == ARG && m.heap == old(m.heap)
  {
    ghost var h := m.heap;
    SumAtHead(h, c);
    SumAtHead(h, d);
    if to == NULL || from == NULL || m.heap[to].tot < m.heap[from].tot {
      return ARG;
    }
    var pt, ot, pf, of := to, 0, from, 0;
    ghost var u, w, k: nat := Cursor(0, 0), Cursor(0, 0), 0;
    assert Splice(View(h, c), 0, View(h, d)[..0]) == View(h, c);
    while pf != NULL
      invariant Copied(h, m.heap, c, d, u, w, k) && Points(c, u, pt, ot) && Points(d, w, pf, of)
      invariant pf != NULL ==> pt != NULL
      decreases |c| - u.i + |d| - w.i
    {
      ChainNext(h, to, c, u.i);
      ChainNext(h, from, d, w.i);
      ghost var n;
      ghost var k';
      pt, ot, pf, of, n, k' := CopyPart(m, pt, ot, pf, of, h, c, d, u, w, k);
      PointsNext(h, c, u, n, pt, ot);
      PointsNext(h, d, w, n, pf, of);
      u, w, k := Advance(u, h[c[u.i]].len, n), Advance(w, h[d[w.i]].len, n), k';
      err := Check(m, pt, pf, h, c, d, u, w, k);
      if err != OK {
        return;
      }
    }
    CopiedAll(h, m.heap, c, d, u, w, k);
    err := OK;
  }

  /** The tests at the end of each round: the target ran out, or there is a packet queue. */
  method Check(m: Memory, pt: Ptr, pf: Ptr, ghost h: Heap, ghost c: seq<Ptr>, ghost d: seq<Ptr>,
               ghost u: Cursor, ghost w: Cursor, ghost k: nat) returns (err: Err)
    requires IsChain(h, Then(c, 0), c) && IsChain(h, Then(d, 0), d) && Readable(h, c) && Readable(h, d) && Copied(h, m.heap, c, d, u, w, k)
    requires pt == Then(c, u.i) && pf == Then(d, w.i) && Disjoint(c, d)
    ensures err == OK ==> pf == NULL || pt != NULL
    ensures Packet(h, c) && Packet(h, d) && Sum(h, c) >= Sum(h, d) ==> err == OK
    ensures err == ARG ==> Sum(h, c) <= Sum(h, d)
    ensures err == VAL ==> Queued(h, c) || Queued(h, d)
  {
    if pt == NULL && pf != NULL {
      NeverShort(h, m.heap, c, d, u, w, k);
      assert c[..u.i] == c;
      return ARG;
    }
    if pf != NULL && m.heap[pf].len == m.heap[pf].tot && m.heap[pf].next != NULL {
      NeverQueue(h, Then(d, 0), d, w.i);
      return VAL;
    }
    if pt != NULL && m.heap[pt].len == m.heap[pt].tot && m.heap[pt].next != NULL {
      NeverQueue(h, Then(c, 0), c, u.i);
      return VAL;
    }
    err := OK;
  }

  // ----- pbuf_coalesce -----

  /** The single pbuf that holds all bytes of a chain. */
  function Whole(v: seq<Byte>): Node { Node(NULL, |v|, |v|, 1, v, false) }

  lemma CoalesceOld(h: Heap, p: Ptr, c: seq<Ptr>, q: Ptr, s: Heap)
    requires IsChain(h, p, c) && Packet(h, c) && q !in h && q in s && s == h[q := s[q]]
    ensures IsChain(s, p, c) && Packet(s, c) && Sum(s, c) == Sum(h, c) && View(s, c) == View(h, c)
  {
    SumSame(h, s, c);
    ViewSame(h, s, c);
    PacketSame(h, c, s);
  }

  lemma PacketSame(h: Heap, c: seq<Ptr>, s: Heap)
    requires Packet(h, c) && forall i :: 0 <= i < |c| ==> c[i] in s && s[c[i]] == h[c[i]]
    ensures Packet(s, c)
  {
    forall i | 0 <= i < |c| ensures InPacket(s, c, i) {
      assert InPacket(h, c, i);
      SumSame(h, s, c[i..]);
    }
  }

  lemma CoalesceNew(q: Ptr, tot: nat, s: Heap)
    requires q != NULL && q in s && s[q].next == NULL && s[q].len == s[q].tot == |s[q].payload| == tot > 0
    ensures IsChain(s, q, [q]) && Packet(s, [q]) && Sum(s, [q]) == tot
  {
    var c := [q];
    assert c[1..] == [] && c[0..] == c && Sum(s, []) == 0;
    assert InPacket(s, c, 0);
  }

  lemma CoalesceReady(h: Heap, p: Ptr, c: seq<Ptr>, q: Ptr, s: Heap)
    requires IsChain(h, p, c) && Packet(h, c) && q != NULL && q !in h
    requires s == h[q := Node(NULL, h[p].tot, h[p].tot, 1, Blank(h[p].tot), false)]
    ensures IsChain(s, q, [q]) && IsChain(s, p, c) && Packet(s, [q]) && Packet(s, c) && Disjoint([q], c)
    ensures Sum(s, [q]) == Sum(s, c) == Sum(h, c) == h[p].tot && View(s, c) == View(h, c)
  {
    CoalesceOld(h, p, c, q, s);
    SumAtHead(h, c);
    CoalesceNew(q, h[p].tot, s);
  }

  lemma CoalesceDone(s: Heap, r: Heap, q: Ptr, v: seq<Byte>)
    requires q in s && s[q].len == |s[q].payload| == |v| && s[q].(payload := v) == Whole(v)
    requires OnlyData(s, r, [q]) && Readable(s, [q]) && Readable(r, [q]) && Sum(s, [q]) == |v|
    requires View(r, [q]) == Splice(View(s, [q]), 0, v)
    ensures r == s[q := Whole(v)]
  {
    assert [q][1..] == [] && View(r, []) == [];
    assert Splice(View(s, [q]), 0, v) == v;
    assert View(r, [q]) == r[q].payload[..r[q].len] == r[q].payload;
  }

  /** `pbuf_coalesce`, given what `pbuf_alloc` answered: one pbuf with all the bytes, the old
      chain given up; or the old chain. */
  method Coalesce(m: Memory, p: Ptr, got: Ptr, ghost c: seq<Ptr>) returns (q: Ptr)
    requires WellFormed(m.heap) && IsChain(m.heap, p, c) && Packet(m.heap, c) && Sum(m.heap, c) < U16
    requires got != NULL ==> got !in m.heap
    modifies m
    ensures if |c| == 1 || got == NULL then q == p && m.heap == old(m.heap)
            else q == got && m.heap == Release(old(m.heap)[q := Whole(View(old(m.heap), c))], p)
  {
    ghost var h := m.heap;
    ChainNext(h, p, c, 0);
    if m.heap[p].next == NULL {
      return p;
    }
    q := got;
    if q == NULL {
      return p;
    }
    m.heap := m.heap[q := Node(NULL, m.heap[p].tot, m.heap[p].tot, 1, Blank(m.heap[p].tot), false)];
    ghost var s := m.heap;
    CoalesceReady(h, p, c, q, s);
    var err := Copy(m, q, p, [q], c);
    assert err == OK;
    assert c[0..] == c && c[0] == p;
    CoalesceDone(s, m.heap, q, View(h, c));
    assert m.heap == h[q := Whole(View(h, c))];
    FreshChains(h, q, Whole(View(h, c)));
    assert IsChain(m.heap, p, c);
    var gone := Free(m, p, c);
  }

  method Free(m: Memory, p: Ptr, ghost c: seq<Ptr>) returns (gone: nat)
    requires WellFormed(m.heap) && IsChain(m.heap, p, c)
    modifies m
    ensures m.heap == Release(old(m.heap), p)
  {
    gone := m.Free(p, c);
  }

  /** The new pbuf is held in place of the old chain, keeps all totals right, and shows the
      same bytes. */
  lemma CoalesceKeeps(h: Heap, held: multiset<Ptr>, p: Ptr, c: seq<Ptr>, q: Ptr, r: Heap)
    requires Good(h, held) && p in held && IsChain(h, p, c) && Packet(h, c) && Sum(h, c) < U16
    requires q != NULL && q !in h && r == Release(h[q := Whole(View(h, c))], p)
    ensures Good(r, held - multiset{p} + multiset{q})
    ensures IsChain(r, q, [q]) && Readable(r, [q]) && View(r, [q]) == View(h, c)
  {
    var n := Whole(View(h, c));
    FreshGood(h, held, q, n, h[q := n]);
    GivenUp(h[q := n], held, p, q, r);
    ReleaseWhole(h, p, c, q, n, r);
    WholeView(r, q, View(h, c));
  }

  lemma FreshGood(h: Heap, held: multiset<Ptr>, q: Ptr, n: Node, s: Heap)
    requires Good(h, held) && q !in h && q != NULL && n.next == NULL && n.ref == 1
    requires n.tot == n.len < U16 && n.len <= |n.payload| && s == h[q := n]
    ensures Good(s, held + multiset{q})
  {
    FreshCounts(h, held, q, n);
    FreshChains(h, q, n);
    FreshTotals(h, q, n);
  }

  lemma GivenUp(s: Heap, held: multiset<Ptr>, p: Ptr, q: Ptr, r: Heap)
    requires Good(s, held + multiset{q}) && p in held && r == Release(s, p)
    ensures Good(r, held - multiset{p} + multiset{q})
  {
    ReleaseKeeps(s, held + multiset{q}, p);
    assert held + multiset{q} - multiset{p} == held - multiset{p} + multiset{q};
  }

  lemma ReleaseWhole(h: Heap, p: Ptr, c: seq<Ptr>, q: Ptr, n: Node, r: Heap)
    requires NULL !in h && IsChain(h, p, c) && q != NULL && q !in h && r == Release(h[q := n], p)
    ensures q in r && r[q] == n
  {
    assert IsChain(h[q := n], p, c) && q !in c;
    ReleaseApart(h[q := n], q, n, p, c);
  }

  lemma WholeView(r: Heap, q: Ptr, v: seq<Byte>)
    requires q != NULL && q in r && r[q] == Whole(v)
    ensures IsChain(r, q, [q]) && Readable(r, [q]) && View(r, [q]) == v
  {
    assert [q][1..] == [] && View(r, []) == [] && v[..|v|] == v;
  }

  lemma FreshTotals(h: Heap, q: Ptr, n: Node)
    requires WellFormed(h) && Totals(h) && q !in h && q != NULL && n.next == NULL && n.tot == n.len < U16
    ensures Totals(h[q := n])
  {
    var s := h[q := n];
    forall x | x in s ensures TotAt(s, x) {
      if x != q {
        NextInHeap(h, x);
        assert TotAt(h, x);
      }
    }
  }
}
