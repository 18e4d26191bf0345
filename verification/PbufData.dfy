/** The bytes that a chain shows, and what the copying, cutting and joining functions of
    lwip/pbuf.c make of them, for every way the bytes are cut into pbufs. */
module PbufData {
  import opened PbufHeap
  import opened PbufOps
  import opened PbufChains
  import opened PbufRuns
  import opened PbufMemory

  ghost predicate Readable(h: Heap, c: seq<Ptr>) {
    forall i :: 0 <= i < |c| ==> c[i] in h && h[c[i]].len <= |h[c[i]].payload|
  }

  /** The bytes of a chain, in order. */
  function View(h: Heap, c: seq<Ptr>): (v: seq<Byte>)
    requires Readable(h, c)
    ensures |v| == Sum(h, c)
  {
    if c == [] then [] else h[c[0]].payload[..h[c[0]].len] + View(h, c[1..])
  }

  lemma {:induction false} ViewSplit(h: Heap, c: seq<Ptr>, k: nat)
    requires Readable(h, c) && k <= |c|
    ensures View(h, c) == View(h, c[..k]) + View(h, c[k..])
    decreases k
  {
    if k == 0 {
      assert c[k..] == c;
    } else {
      ViewSplit(h, c[1..], k - 1);
      assert c[..k][1..] == c[1..][..k - 1] && c[1..][k - 1..] == c[k..];
    }
  }

  lemma {:induction false} ViewSame(h: Heap, r: Heap, c: seq<Ptr>)
    requires Readable(h, c)
    requires forall i :: 0 <= i < |c| ==> c[i] in r && r[c[i]].len == h[c[i]].len && r[c[i]].payload == h[c[i]].payload
    ensures Readable(r, c) && View(r, c) == View(h, c)
    decreases |c|
  {
    if c != [] {
      ViewSame(h, r, c[1..]);
    }
  }

  lemma ViewHead(h: Heap, c: seq<Ptr>, i: nat)
    requires Readable(h, c) && i < |c|
    ensures View(h, c[i..]) == h[c[i]].payload[..h[c[i]].len] + View(h, c[i + 1..])
  {
    assert c[i..][1..] == c[i + 1..];
  }

  lemma Middle(v: seq<Byte>, a: seq<Byte>, m: seq<Byte>, b: seq<Byte>)
    requires v == a + (m + b)
    ensures v == a + m + b && |a| + |m| <= |v| && v[|a|..|a| + |m|] == m
  {}

  /** The pbuf at `i` holds the bytes that lie between the sums around it. */
  lemma ViewAt(h: Heap, c: seq<Ptr>, i: nat)
    requires Readable(h, c) && i < |c|
    ensures var n, pos := h[c[i]], Sum(h, c[..i]);
            && pos + n.len <= |View(h, c)| && View(h, c)[pos..pos + n.len] == n.payload[..n.len]
            && View(h, c) == View(h, c[..i]) + n.payload[..n.len] + View(h, c[i + 1..])
  {
    ViewSplit(h, c, i);
    ViewHead(h, c, i);
    Middle(View(h, c), View(h, c[..i]), h[c[i]].payload[..h[c[i]].len], View(h, c[i + 1..]));
  }

  function Splice(s: seq<Byte>, pos: nat, data: seq<Byte>): (r: seq<Byte>)
    requires pos + |data| <= |s|
    ensures |r| == |s|
  {
    s[..pos] + data + s[pos + |data|..]
  }

  /** MEMCPY into the payload of a pbuf. */
  function Write(h: Heap, p: Ptr, off: nat, data: seq<Byte>): Heap
    requires p in h && off + |data| <= |h[p].payload|
  {
    h[p := h[p].(payload := Splice(h[p].payload, off, data))]
  }

  /** Only payloads of pbufs in `c` differ. */
  ghost predicate OnlyData(h: Heap, r: Heap, c: seq<Ptr>) {
    && r.Keys == h.Keys
    && (forall x :: x in h ==> r[x] == h[x].(payload := r[x].payload) && |r[x].payload| == |h[x].payload|)
    && forall x :: x in h && x !in c ==> r[x] == h[x]
  }

  /** Writing into one pbuf writes at one place of the view. */
  lemma ViewWrite(h: Heap, c: seq<Ptr>, i: nat, off: nat, data: seq<Byte>, r: Heap)
    requires Readable(h, c) && Distinct(c) && i < |c| && off + |data| <= h[c[i]].len && r == Write(h, c[i], off, data)
    ensures Readable(r, c) && Sum(h, c[..i]) + off + |data| <= Sum(h, c)
    ensures View(r, c) == Splice(View(h, c), Sum(h, c[..i]) + off, data)
  {
    var a, b := View(h, c[..i]), View(h, c[i + 1..]);
    WriteElsewhere(h, c, i, off, data, r);
    ViewAt(h, c, i);
    ViewAt(r, c, i);
    WriteMiddle(View(h, c), View(r, c), a, h[c[i]].payload, h[c[i]].len, b, off, data);
  }

  lemma WriteMiddle(v: seq<Byte>, w: seq<Byte>, a: seq<Byte>, payload: seq<Byte>, len: nat, b: seq<Byte>, off: nat, data: seq<Byte>)
    requires off + |data| <= len <= |payload|
    requires v == a + payload[..len] + b && w == a + Splice(payload, off, data)[..len] + b
    ensures w == Splice(v, |a| + off, data)
  {
    SpliceWithin(payload, len, off, data);
    SpliceMiddle(a, payload[..len], b, off, data);
  }

  lemma WriteElsewhere(h: Heap, c: seq<Ptr>, i: nat, off: nat, data: seq<Byte>, r: Heap)
    requires Readable(h, c) && Distinct(c) && i < |c| && off + |data| <= h[c[i]].len && r == Write(h, c[i], off, data)
    ensures Readable(r, c) && View(r, c[..i]) == View(h, c[..i]) && View(r, c[i + 1..]) == View(h, c[i + 1..])
  {
    ViewSame(h, r, c[..i]);
    ViewSame(h, r, c[i + 1..]);
  }

  lemma SpliceWithin(s: seq<Byte>, len: nat, off: nat, data: seq<Byte>)
    requires off + |data| <= len <= |s|
    ensures Splice(s, off, data)[..len] == Splice(s[..len], off, data)
  {}

  lemma SpliceMiddle(a: seq<Byte>, m: seq<Byte>, b: seq<Byte>, off: nat, data: seq<Byte>)
    requires off + |data| <= |m|
    ensures a + Splice(m, off, data) + b == Splice(a + m + b, |a| + off, data)
  {
    var s, pos := a + m + b, |a| + off;
    assert s[..pos] == a + m[..off];
    assert s[pos + |data|..] == m[off + |data|..] + b;
  }

  /** Two writes, one behind the other. */
  lemma SpliceNext(s: seq<Byte>, a: seq<Byte>, b: seq<Byte>)
    requires |a| + |b| <= |s|
    ensures Splice(Splice(s, 0, a), |a|, b) == Splice(s, 0, a + b)
  {}

  // ----- pbuf_realloc and pbuf_cat on bytes -----

  /** A shortened chain shows the first `newLen` bytes. */
  lemma ReallocView(h: Heap, p: Ptr, c: seq<Ptr>, newLen: nat, r: Heap, kept: seq<Ptr>)
    requires WellFormed(h) && Totals(h) && p in h && IsChain(h, p, c) && newLen < h[p].tot
    requires KeepAt(h, c, newLen) < |c| && kept == c[..KeepAt(h, c, newLen) + 1] && r == Realloc(h, c, newLen)
    ensures newLen <= Sum(h, c) && IsChain(r, p, kept) && Readable(r, kept) && View(r, kept) == View(h, c)[..newLen]
  {
    var k := KeepAt(h, c, newLen);
    var rem, grow := newLen - Sum(h, c[..k]), newLen - h[p].tot;
    var s := Shift(h, kept, grow, NULL, rem);
    ReallocShift(h, p, c, newLen, k, rem, grow, kept);
    ReallocFields(h, p, c, kept, k, rem, grow, s, r);
    PrefixView(h, r, c, kept, k, rem);
  }

  /** The part that is kept shows a prefix, as its last pbuf is the only one that got shorter. */
  lemma PrefixView(h: Heap, r: Heap, c: seq<Ptr>, kept: seq<Ptr>, k: nat, rem: nat)
    requires Readable(h, c) && k < |c| && kept == c[..k + 1] && rem <= h[c[k]].len
    requires forall i :: 0 <= i <= k ==> c[i] in r && r[c[i]].payload == h[c[i]].payload
                                         && r[c[i]].len == if i == k then rem else h[c[i]].len
    ensures Readable(r, kept) && Sum(h, c[..k]) + rem <= Sum(h, c)
    ensures View(r, kept) == View(h, c)[..Sum(h, c[..k]) + rem]
  {
    ViewSame(h, r, c[..k]);
    assert kept[..k] == c[..k];
    ViewLast(r, kept, k);
    ViewAt(h, c, k);
    Shorter(View(h, c[..k]), h[c[k]].payload, h[c[k]].len, View(h, c[k + 1..]), rem);
  }

  lemma ViewLast(h: Heap, c: seq<Ptr>, k: nat)
    requires Readable(h, c) && |c| == k + 1
    ensures View(h, c) == View(h, c[..k]) + h[c[k]].payload[..h[c[k]].len]
  {
    ViewSplit(h, c, k);
    assert c[k..] == [c[k]] && [c[k]][1..] == [];
    assert View(h, c[k..]) == h[c[k]].payload[..h[c[k]].len] + View(h, []);
  }

  lemma Shorter(a: seq<Byte>, payload: seq<Byte>, len: nat, b: seq<Byte>, rem: nat)
    requires rem <= len <= |payload|
    ensures (a + payload[..len] + b)[..|a| + rem] == a + payload[..rem]
  {}

  lemma ReallocFields(h: Heap, p: Ptr, c: seq<Ptr>, kept: seq<Ptr>, k: nat, rem: nat, grow: int, s: Heap, r: Heap)
    requires NULL !in h && IsChain(h, p, c) && k < |c| && kept == c[..k + 1] && s == Shift(h, kept, grow, NULL, rem)
    requires r == Release(s, Then(c, k + 1)) && rem <= h[c[k]].len
    ensures IsChain(r, p, kept)
    ensures forall i :: 0 <= i <= k ==> c[i] in r && r[c[i]].payload == h[c[i]].payload
                                        && r[c[i]].len == if i == k then rem else h[c[i]].len
  {
    var rest := c[k + 1..];
    assert Last(kept) == c[k];
    ChainTail(h, c, k + 1);
    assert IsChain(s, Then(c, k + 1), rest);
    ReleasesPrefix(s, Then(c, k + 1), rest);
    forall i | 0 <= i <= k ensures c[i] in kept && c[i] in r && r[c[i]] == s[c[i]] {
      assert c[i] == kept[i] && c[i] !in rest;
    }
    KeptChain(h, p, c, kept, k, r);
  }

  lemma KeptChain(h: Heap, p: Ptr, c: seq<Ptr>, kept: seq<Ptr>, k: nat, r: Heap)
    requires IsChain(h, p, c) && k < |c| && kept == c[..k + 1]
    requires forall i :: 0 <= i <= k ==> c[i] in r && r[c[i]].next == if i == k then NULL else h[c[i]].next
    ensures IsChain(r, p, kept)
  {}

  /** The joined chain shows the bytes of the first and then of the second. */
  lemma CatView(h: Heap, p: Ptr, c: seq<Ptr>, t: Ptr, d: seq<Ptr>)
    requires Joinable(h, p, c, t, d)
    ensures Readable(h, c) && Readable(h, d) && Readable(Cat(h, c, t), c + d) && IsChain(Cat(h, c, t), p, c + d)
    ensures View(Cat(h, c, t), c + d) == View(h, c) + View(h, d)
  {
    var r := Cat(h, c, t);
    CatChain(h, p, c, t, d, r);
    ViewSame(h, r, c);
    ViewSame(h, r, d);
    ViewSplit(r, c + d, |c|);
  }

  // ----- pbuf_copy_partial -----

  /** What `pbuf_copy_partial` is asked for: at most `len` bytes from `offset` on. */
  function Part(v: seq<Byte>, len: nat, offset: nat): seq<Byte> {
    if offset >= |v| then [] else v[offset..if offset + len <= |v| then offset + len else |v|]
  }

  /** What `pbuf_take` wrote is what `pbuf_copy_partial` reads back. */
  lemma TakeThenCopy(v: seq<Byte>, data: seq<Byte>)
    requires |data| <= |v|
    ensures Part(Splice(v, 0, data), |data|, 0) == data
  {}

  lemma PartSkip(a: seq<Byte>, b: seq<Byte>, len: nat, offset: nat)
    requires offset >= |a|
    ensures Part(a + b, len, offset) == Part(b, len, offset - |a|)
  {}

  lemma PartHead(a: seq<Byte>, b: seq<Byte>, len: nat, offset: nat, n: nat)
    requires offset < |a| || offset == 0
    requires n == (if |a| - offset > len then len else |a| - offset)
    ensures offset <= |a| && Part(a + b, len, offset) == a[offset..offset + n] + Part(b, len - n, 0)
  {}

  datatype Err = OK | ARG | VAL

  /** `pbuf_copy_partial` stands at the pbuf `i` with `left` bytes to go, `off` into it. */
  ghost predicate Copying(h: Heap, c: seq<Ptr>, want: seq<Byte>, i: nat, q: Ptr, left: int, off: int, data: seq<Byte>) {
    && Readable(h, c) && i <= |c| && q == Then(c, i) && left >= 0 && off >= 0
    && want == data + Part(View(h, c[i..]), left, off)
  }

  lemma CopySkips(h: Heap, p: Ptr, c: seq<Ptr>, want: seq<Byte>, i: nat, q: Ptr, left: int, off: int, data: seq<Byte>)
    requires IsChain(h, p, c) && Copying(h, c, want, i, q, left, off, data) && i < |c| && off >= h[q].len
    ensures Copying(h, c, want, i + 1, h[q].next, left, off - h[q].len, data)
  {
    ViewHead(h, c, i);
    ChainNext(h, p, c, i);
    PartSkip(h[q].payload[..h[q].len], View(h, c[i + 1..]), left, off);
  }

  lemma CopyTakes(h: Heap, p: Ptr, c: seq<Ptr>, want: seq<Byte>, i: nat, q: Ptr, left: int, off: int, data: seq<Byte>, n: int)
    requires IsChain(h, p, c) && Copying(h, c, want, i, q, left, off, data) && i < |c| && (off == 0 || off < h[q].len)
    requires n == (if h[q].len - off > left then left else h[q].len - off)
    ensures 0 <= n <= left && off + n <= |h[q].payload|
    ensures Copying(h, c, want, i + 1, h[q].next, left - n, 0, data + h[q].payload[off..off + n])
  {
    var rest := View(h, c[i + 1..]);
    ViewHead(h, c, i);
    ChainNext(h, p, c, i);
    var piece := TakePiece(h[q].payload, h[q].len, rest, left, off, n);
    Append(data, piece, Part(rest, left - n, 0));
  }

  lemma TakePiece(payload: seq<Byte>, len: nat, rest: seq<Byte>, left: nat, off: nat, n: int) returns (piece: seq<Byte>)
    requires len <= |payload| && (off == 0 || off < len) && n == (if len - off > left then left else len - off)
    ensures 0 <= n <= left && off + n <= len && piece == payload[off..off + n]
    ensures Part(payload[..len] + rest, left, off) == piece + Part(rest, left - n, 0)
  {
    PartHead(payload[..len], rest, left, off, n);
    piece := payload[..len][off..off + n];
    assert piece == payload[off..off + n];
  }

  lemma Append(a: seq<Byte>, b: seq<Byte>, c: seq<Byte>)
    ensures a + (b + c) == a + b + c
  {}

  lemma CopyEnd(h: Heap, c: seq<Ptr>, want: seq<Byte>, i: nat, q: Ptr, left: int, off: int, data: seq<Byte>)
    requires Copying(h, c, want, i, q, left, off, data) && (left == 0 || q == NULL) && NULL !in c
    ensures data == want
  {
    if left != 0 { assert c[i..] == []; }
  }

  /** `pbuf_copy_partial`. */
  method CopyPartial(m: Memory, p: Ptr, len: nat, offset: nat, ghost c: seq<Ptr>) returns (data: seq<Byte>)
    requires IsChain(m.heap, p, c) && Readable(m.heap, c)
    ensures data == Part(View(m.heap, c), len, offset)
  {
    data := [];
    var q, left, off := p, len, offset;
    ghost var i, want := 0, Part(View(m.heap, c), len, offset);
    assert c[0..] == c && [] + want == want;
    while left != 0 && q != NULL
      invariant Copying(m.heap, c, want, i, q, left, off, data)
      decreases |c| - i
    {
      if off != 0 && off >= m.heap[q].len {
        CopySkips(m.heap, p, c, want, i, q, left, off, data);
        off := off - m.heap[q].len;
      } else {
        var n := m.heap[q].len - off;
        if n > left {
          n := left;
        }
        CopyTakes(m.heap, p, c, want, i, q, left, off, data, n);
        data := data + m.heap[q].payload[off..off + n];
        left := left - n;
        off := 0;
      }
      q := m.heap[q].next;
      i := i + 1;
    }
    CopyEnd(m.heap, c, want, i, q, left, off, data);
  }

  /** `pbuf_take` has filled the pbufs before `i` with the first `copied` bytes. */
  ghost predicate Taking(h: Heap, c: seq<Ptr>, data: seq<Byte>, i: nat, q: Ptr, copied: int, r: Heap)
    requires Readable(h, c)
  {
    && i <= |c| && q == Then(c, i) && 0 <= copied <= |data| <= Sum(h, c)
    && OnlyData(h, r, c) && Readable(r, c)
    && View(r, c) == Splice(View(h, c), 0, data[..copied])
    && (copied == |data| || copied == Sum(h, c[..i]))
  }

  lemma TakeRoom(h: Heap, c: seq<Ptr>, data: seq<Byte>, i: nat, q: Ptr, copied: int, r: Heap)
    requires Readable(h, c) && Taking(h, c, data, i, q, copied, r) && i < |c|
    ensures q == c[i] && q in r && r[q].next == h[q].next && r[q].len == h[q].len <= |r[q].payload|
  {}

  lemma TakeRound(h: Heap, p: Ptr, c: seq<Ptr>, data: seq<Byte>, i: nat, q: Ptr, copied: int, r: Heap, n: int)
    requires IsChain(h, p, c) && Readable(h, c) && Taking(h, c, data, i, q, copied, r) && copied < |data|
    requires i < |c| && n == (if |data| - copied > h[q].len then h[q].len else |data| - copied)
    ensures q in r && n <= |r[q].payload|
    ensures Taking(h, c, data, i + 1, h[q].next, copied + n, Write(r, q, 0, data[copied..copied + n]))
  {
    TakeRoom(h, c, data, i, q, copied, r);
    SumSame(h, r, c[..i]);
    SumSame(h, r, c);
    var w := Write(r, q, 0, data[copied..copied + n]);
    TakeWrites(View(h, c), r, c, data, i, copied, n, w);
    assert OnlyData(r, w, c);
    SumNext(h, c, i);
    ChainNext(h, p, c, i);
  }

  lemma TakeWrites(v: seq<Byte>, r: Heap, c: seq<Ptr>, data: seq<Byte>, i: nat, copied: nat, n: nat, w: Heap)
    requires Readable(r, c) && Distinct(c) && i < |c| && copied + n <= |data| <= |v| == Sum(r, c) && n <= r[c[i]].len
    requires View(r, c) == Splice(v, 0, data[..copied]) && copied == Sum(r, c[..i])
    requires w == Write(r, c[i], 0, data[copied..copied + n])
    ensures Readable(w, c) && View(w, c) == Splice(v, 0, data[..copied + n])
  {
    ViewWrite(r, c, i, 0, data[copied..copied + n], w);
    SpliceNext(v, data[..copied], data[copied..copied + n]);
    assert data[..copied] + data[copied..copied + n] == data[..copied + n];
  }

  lemma TakeInside(h: Heap, c: seq<Ptr>, data: seq<Byte>, i: nat, q: Ptr, copied: int, r: Heap)
    requires Readable(h, c) && Taking(h, c, data, i, q, copied, r) && copied < |data|
    ensures i < |c|
  {
    assert c[..|c|] == c;
  }

  lemma SumAtLeast(h: Heap, p: Ptr, c: seq<Ptr>)
    requires NULL !in h && Totals(h) && IsChain(h, p, c) && p in h
    ensures h[p].tot <= Sum(h, c)
  {
    TotalIsSum(h, p, c);
  }

  /** `pbuf_take`. */
  method Take(m: Memory, p: Ptr, data: seq<Byte>, ghost c: seq<Ptr>) returns (err: Err)
    requires WellFormed(m.heap) && Totals(m.heap) && p in m.heap && IsChain(m.heap, p, c)
    modifies m
    ensures err == if old(m.heap)[p].tot < |data| then ARG else OK
    ensures err == ARG ==> m.heap == old(m.heap)
    ensures err == OK ==>
              && OnlyData(old(m.heap), m.heap, c) && Readable(m.heap, c) && |data| <= |View(old(m.heap), c)|
              && View(m.heap, c) == Splice(View(old(m.heap), c), 0, data)
  {
    if m.heap[p].tot < |data| {
      return ARG;
    }
    ghost var h := m.heap;
    SumAtLeast(h, p, c);
    var q, copied := p, 0;
    ghost var i := 0;
    assert Splice(View(h, c), 0, data[..0]) == View(h, c);
    while |data| - copied != 0
      invariant Taking(h, c, data, i, q, copied, m.heap)
      decreases |c| - i
    {
      TakeInside(h, c, data, i, q, copied, m.heap);
      q, copied := TakeInto(m, p, q, copied, data, c, h, i);
      i := i + 1;
    }
    assert data[..copied] == data;
    err := OK;
  }

  /** One round of the loop of `pbuf_take`. */
  method TakeInto(m: Memory, p: Ptr, q: Ptr, copied: nat, data: seq<Byte>, ghost c: seq<Ptr>, ghost h: Heap, ghost i: nat)
    returns (q': Ptr, copied': nat)
    requires IsChain(h, p, c) && Readable(h, c) && Taking(h, c, data, i, q, copied, m.heap) && copied < |data| && i < |c|
    modifies m
    ensures Taking(h, c, data, i + 1, q', copied', m.heap)
  {
    TakeRoom(h, c, data, i, q, copied, m.heap);
    var n := |data| - copied;
    if n > m.heap[q].len {
      n := m.heap[q].len;
    }
    TakeRound(h, p, c, data, i, q, copied, m.heap, n);
    m.heap := Write(m.heap, q, 0, data[copied..copied + n]);
    copied', q' := copied + n, m.heap[q].next;
  }

  lemma DataChain(h: Heap, r: Heap, p: Ptr, c: seq<Ptr>)
    requires IsChain(h, p, c) && OnlyData(h, r, c)
    ensures IsChain(r, p, c)
  {}

  /** What `pbuf_take` wrote, `pbuf_copy_partial` reads back, however the chain is cut into pbufs. */
  method TakeAndCopy(m: Memory, p: Ptr, data: seq<Byte>, ghost c: seq<Ptr>) returns (err: Err, back: seq<Byte>)
    requires WellFormed(m.heap) && Totals(m.heap) && p in m.heap && IsChain(m.heap, p, c)
    modifies m
    ensures err == if old(m.heap)[p].tot < |data| then ARG else OK
    ensures err == OK ==> back == data
  {
    ghost var h := m.heap;
    back := [];
    err := Take(m, p, data, c);
    if err == OK {
      DataChain(h, m.heap, p, c);
      back := CopyPartial(m, p, |data|, 0, c);
      TakeThenCopy(View(h, c), data);
    }
  }
}
