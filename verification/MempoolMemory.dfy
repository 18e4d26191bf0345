/** Carving a datastore out of pages, and the free lists as words in memory (core/mempool.c). */
module MempoolMemory {
  import opened Arithmetic
  import opened Mempools

  const NULL: nat := 0
  const PAGE: nat := 0x20_0000

  /** A slot's header is two words: `next` at its address and `next_chunk` 8 bytes on. */
  const HEADER: nat := 16

  /** Memory words that were written; fresh pages read as zero. */
  type Words = map<nat, nat>

  function Word(mem: Words, a: nat): nat { if a in mem then mem[a] else NULL }

  /** `a * b` counted by repeated addition, as the loops count. */
  function Mul(a: nat, b: nat): nat { if a == 0 then 0 else Mul(a - 1, b) + b }

  lemma {:induction false} Product(a: nat, b: nat)
    ensures Mul(a, b) == a * b
  {
    if a > 0 {
      Product(a - 1, b);
      assert a * b == (a - 1) * b + b;
    }
  }

  // ----- where the slots are -----

  /** `elem_len` as the datastore stores it. */
  function Stride(elemLen: nat, offset: nat): nat { (elemLen + 7) / 8 * 8 + offset }

  /** The layout `mempool_init_buf_with_pages` walks: `perPage` slots in each of `pages` pages. */
  datatype Layout = Layout(buf: nat, offset: nat, perPage: nat, pages: nat, stride: nat)

  function Addr(y: Layout, i: nat, j: nat): nat { y.buf + i * PAGE + y.offset + j * y.stride }

  function SlotsOfPage(y: Layout, i: nat, n: nat): (s: seq<nat>)
    ensures |s| == n && forall j :: 0 <= j < n ==> s[j] == Addr(y, i, j)
  {
    seq(n, j requires 0 <= j < n => Addr(y, i, j))
  }

  /** The slots of the first `i` pages, in the order of the walk. */
  function Slots(y: Layout, i: nat): (s: seq<nat>)
    ensures |s| == Mul(i, y.perPage)
  {
    if i == 0 then [] else Slots(y, i - 1) + SlotsOfPage(y, i - 1, y.perPage)
  }

  /** Slots do not straddle pages, or there is one run of slots over all pages. */
  ghost predicate Fits(y: Layout) { y.perPage * y.stride <= PAGE || y.pages <= 1 }

  /** Slots are a stride apart. */
  ghost predicate Spaced(s: seq<nat>, stride: nat) {
    forall i, j :: 0 <= i < j < |s| ==> s[i] + stride <= s[j]
  }

  lemma {:induction false} SlotAt(y: Layout, n: nat, i: nat, j: nat)
    requires i < n && j < y.perPage
    ensures Mul(i, y.perPage) + j < Mul(n, y.perPage) && Slots(y, n)[Mul(i, y.perPage) + j] == Addr(y, i, j)
    decreases n
  {
    if i < n - 1 {
      Order(i, j, n - 1, y.perPage);
      SlotAt(y, n - 1, i, j);
    }
  }

  lemma {:induction false} Order(i: nat, j: nat, m: nat, per: nat)
    requires i < m && j < per
    ensures Mul(i, per) + j < Mul(m, per)
    decreases m
  {
    if i < m - 1 {
      Order(i, j, m - 1, per);
    }
  }

  lemma {:induction false} Within(y: Layout, i: nat, k: nat)
    requires Fits(y) && i <= y.pages && k < Mul(i, y.perPage)
    ensures y.buf + y.offset <= Slots(y, i)[k] && (i > 1 ==> Slots(y, i)[k] + y.stride <= y.buf + y.offset + i * PAGE)
    ensures y.pages <= 1 ==> Slots(y, i)[k] == y.buf + y.offset + k * y.stride
    decreases i
  {
    if k < Mul(i - 1, y.perPage) {
      Within(y, i - 1, k);
      if i == 2 { InPage(k, y.perPage, y.stride); }
    } else {
      InPage(k - Mul(i - 1, y.perPage), y.perPage, y.stride);
    }
  }

  lemma InPage(j: nat, per: nat, stride: nat)
    requires j < per
    ensures j * stride + stride <= per * stride && j * stride >= 0
  {
    assert (per - j - 1) * stride >= 0;
    assert per * stride == j * stride + stride + (per - j - 1) * stride;
  }

  /** For every element size, page count and mode, slots are pairwise disjoint. */
  lemma {:induction false} SlotsSpaced(y: Layout, i: nat)
    requires Fits(y) && i <= y.pages
    ensures Spaced(Slots(y, i), y.stride)
    decreases i
  {
    if i > 0 {
      SlotsSpaced(y, i - 1);
      forall a, b | 0 <= a < b < Mul(i, y.perPage) ensures Slots(y, i)[a] + y.stride <= Slots(y, i)[b] {
        SpacedPair(y, i, a, b);
      }
    }
  }

  lemma SpacedPair(y: Layout, i: nat, a: nat, b: nat)
    requires Fits(y) && 0 < i <= y.pages && a < b < Mul(i, y.perPage) && Spaced(Slots(y, i - 1), y.stride)
    ensures Slots(y, i)[a] + y.stride <= Slots(y, i)[b]
  {
    var before := Mul(i - 1, y.perPage);
    if a >= before {
      InPage(a - before, b - before, y.stride);
    } else if b >= before {
      BeforePage(y, i, a);
      InPage(b - before, y.perPage, y.stride);
    }
  }

  lemma BeforePage(y: Layout, i: nat, a: nat)
    requires Fits(y) && 0 < i <= y.pages && a < Mul(i - 1, y.perPage)
    ensures Slots(y, i - 1)[a] + y.stride <= Addr(y, i - 1, 0)
  {
    Within(y, i - 1, a);
    if i == 2 { InPage(a, y.perPage, y.stride); }
  }

  /** In the no-straddle mode each slot lies in one 2MB page of the buffer. */
  lemma NoStraddle(y: Layout, i: nat, j: nat)
    requires y.stride > 0 && y.perPage == PAGE / y.stride && y.offset == 0 && i < y.pages && j < y.perPage
    ensures y.buf + i * PAGE <= Addr(y, i, j) && Addr(y, i, j) + y.stride <= y.buf + (i + 1) * PAGE
  {
    InPage(j, y.perPage, y.stride);
    assert y.perPage * y.stride <= PAGE;
  }

  /** The pages that `mempool_create_datastore` asks for hold all slots of the other mode. */
  lemma StraddleInside(y: Layout, elems: nat, nrPages: nat, k: nat)
    requires y.stride > 0 && PAGE / y.stride > 0 && y.perPage == elems && y.pages == 1 && y.offset == 0 && k < elems
    requires nrPages == (elems + PAGE / y.stride - 1) / (PAGE / y.stride)
    ensures y.buf <= Addr(y, 0, k) && Addr(y, 0, k) + y.stride <= y.buf + nrPages * PAGE
  {
    var per := PAGE / y.stride;
    InPage(k, elems, y.stride);
    assert elems <= nrPages * per;
    Mono(elems, nrPages * per, y.stride);
    assert per * y.stride <= PAGE;
    Mono(per * y.stride, PAGE, nrPages);
    assert nrPages * per * y.stride == per * y.stride * nrPages;
  }

  /** "At least `nr_elems`": with the pages that `mempool_create_datastore` asks for, the carved
      chunks hold no fewer slots, as long as `chunk_size` divides that number. */
  lemma EnoughSlots(elems: nat, per: nat, nrPages: nat, size: nat)
    requires per > 0 && nrPages == (elems + per - 1) / per && size > 0 && elems % size == 0
    ensures elems <= Mul(nrPages * per / size, size) <= nrPages * per
  {
    var n := nrPages * per;
    RoundedUp(elems, per, nrPages);
    Product(n / size, size);
    WholeChunks(elems, n, size);
  }

  lemma RoundedUp(a: nat, b: nat, q: nat)
    requires b > 0 && q == (a + b - 1) / b
    ensures a <= q * b
  {
    assert a + b - 1 == q * b + (a + b - 1) % b;
  }

  lemma WholeChunks(a: nat, n: nat, d: nat)
    requires d > 0 && a <= n && a % d == 0
    ensures a <= n / d * d <= n
  {
    var q, p := a / d, n / d;
    assert a == q * d && n == p * d + n % d;
    if p < q { Mono(p + 1, q, d); Times(p, d); }
    Mono(q, p, d);
  }

  /** Headers of different slots overlap exactly when the stride is below 16 bytes, that is for
      elements of at most 8 bytes: `next_chunk` of a slot is then `next` of the one after it. */
  lemma HeadersOverlap(y: Layout, elemLen: nat, i: nat, j: nat)
    requires elemLen > 0 && y.offset == 0 && y.stride == Stride(elemLen, 0) && i < y.pages && j + 1 < y.perPage
    ensures Addr(y, i, j) + 8 == Addr(y, i, j + 1) <==> elemLen <= 8
  {
    Times(j, y.stride);
  }

  /** `elems_per_page` is 0, and core/mempool.c:189 divides by it, exactly for elements that do not
      fit a page behind the offset, which is 0 or one word. */
  lemma NoElemsPerPage(elemLen: nat, offset: nat)
    requires elemLen > 0 && offset % 8 == 0 && offset <= PAGE
    ensures PAGE / Stride(elemLen, offset) == 0 <==> elemLen > 0x20_0000 - offset
  {
    var stride := Stride(elemLen, offset);
    RoundsUp(elemLen);
    if stride <= PAGE {
      AtLeastOnce(PAGE, stride);
    } else {
      Division(PAGE, 0, PAGE, stride);
    }
  }

  lemma RoundsUp(n: nat)
    ensures n <= (n + 7) / 8 * 8 < n + 8 && (n + 7) / 8 * 8 % 8 == 0
  {}

  lemma AtLeastOnce(a: nat, b: nat)
    requires 0 < b <= a
    ensures a / b > 0
  {}

  // ----- lists in memory -----

  ghost predicate IsList(mem: Words, p: nat, c: seq<nat>) {
    && NULL !in c && p == (if c == [] then NULL else c[0])
    && (forall i, j :: 0 <= i < j < |c| && j == i + 1 ==> Word(mem, c[i]) == c[j])
    && (c != [] ==> Word(mem, c[|c| - 1]) == NULL)
  }

  function First(c: seq<nat>): nat { if c == [] then NULL else c[0] }

  ghost predicate IsChunks(mem: Words, p: nat, cs: seq<seq<nat>>) {
    && p == (if cs == [] then NULL else First(cs[0]))
    && (forall k :: 0 <= k < |cs| ==> cs[k] != [] && IsList(mem, First(cs[k]), cs[k]))
    && (forall k, l :: 0 <= k < l < |cs| && l == k + 1 ==> Word(mem, First(cs[k]) + 8) == First(cs[l]))
    && (cs != [] ==> Word(mem, First(cs[|cs| - 1]) + 8) == NULL)
  }

  /** No header word of the lists is at `a`. */
  ghost predicate Untouched(a: nat, cs: seq<seq<nat>>) {
    forall k :: 0 <= k < |cs| ==> a !in cs[k] && a != First(cs[k]) + 8
  }

  lemma ListFrame(mem: Words, p: nat, c: seq<nat>, a: nat, v: nat)
    requires IsList(mem, p, c) && a !in c
    ensures IsList(mem[a := v], p, c)
  {}

  lemma ChunksFrame(mem: Words, p: nat, cs: seq<seq<nat>>, a: nat, v: nat)
    requires IsChunks(mem, p, cs) && Untouched(a, cs)
    ensures IsChunks(mem[a := v], p, cs)
  {
    forall k | 0 <= k < |cs| ensures IsList(mem[a := v], First(cs[k]), cs[k]) {
      ListFrame(mem, First(cs[k]), cs[k], a, v);
    }
  }

  /** A list in front of the others. */
  lemma ChunksCons(mem: Words, p: nat, cs: seq<seq<nat>>, c: seq<nat>)
    requires IsChunks(mem, p, cs) && c != [] && IsList(mem, First(c), c) && Word(mem, First(c) + 8) == p
    ensures IsChunks(mem, First(c), [c] + cs)
  {}

  lemma ListTail(mem: Words, p: nat, c: seq<nat>)
    requires IsList(mem, p, c) && c != []
    ensures IsList(mem, Word(mem, p), c[1..])
  {}

  // ----- carving -----

  /** The first `t` chunks, the last one in front. */
  function Carved(slots: seq<nat>, size: nat, t: nat): (cs: seq<seq<nat>>)
    requires Mul(t, size) <= |slots|
    ensures |cs| == t && forall k :: 0 <= k < t ==> |cs[k]| == size
  {
    if t == 0 then [] else
      [slots[Mul(t - 1, size)..Mul(t, size)]] + Carved(slots, size, t - 1)
  }

  lemma CarvedStep(slots: seq<nat>, n: nat, m: nat, cs: seq<seq<nat>>)
    requires n <= m <= |slots| && ChunkBags(cs) == multiset(slots[..n])
    ensures ChunkBags([slots[n..m]] + cs) == multiset(slots[..m])
  {
    assert ([slots[n..m]] + cs)[1..] == cs;
    assert slots[..m] == slots[..n] + slots[n..m];
  }

  lemma {:induction false} CarvedElements(slots: seq<nat>, size: nat, t: nat)
    requires Mul(t, size) <= |slots|
    ensures ChunkBags(Carved(slots, size, t)) == multiset(slots[..Mul(t, size)])
  {
    if t > 0 {
      CarvedElements(slots, size, t - 1);
      CarvedStep(slots, Mul(t - 1, size), Mul(t, size), Carved(slots, size, t - 1));
    }
  }

  /** A carved datastore meets what the theorems about runs start from: `floor(n / size)` chunks
      of `size` slots, and no slot twice. */
  lemma CarvedExact(slots: seq<nat>, size: nat, stride: nat)
    requires Spaced(slots, stride) && stride > 0 && size > 0
    ensures Mul(|slots| / size, size) <= |slots|
    ensures var cs := Carved(slots, size, |slots| / size);
            Once(ChunkBags(cs)) && forall k :: 0 <= k < |cs| ==> |cs[k]| == size
  {
    Floor(|slots|, size);
    CarvedOnce(slots, size, |slots| / size, stride);
  }

  lemma Floor(n: nat, d: nat)
    requires d > 0
    ensures Mul(n / d, d) <= n
  {
    Product(n / d, d);
  }

  lemma CarvedOnce(slots: seq<nat>, size: nat, t: nat, stride: nat)
    requires Spaced(slots, stride) && stride > 0 && Mul(t, size) <= |slots|
    ensures Once(ChunkBags(Carved(slots, size, t)))
  {
    CarvedElements(slots, size, t);
    DistinctOnce(slots[..Mul(t, size)]);
  }

  lemma {:induction false} DistinctOnce(s: seq<nat>)
    requires forall i, j :: 0 <= i < j < |s| ==> s[i] != s[j]
    ensures Once(multiset(s))
    decreases |s|
  {
    if s != [] {
      DistinctOnce(s[1..]);
      assert s == [s[0]] + s[1..];
    }
  }

  function LastOf(c: seq<nat>): nat { if c == [] then NULL else c[|c| - 1] }

  /** The chunks `cs` are listed and lie below `bound` and below `run`. */
  ghost predicate Behind(mem: Words, cs: seq<seq<nat>>, run: seq<nat>, chunkHead: nat, bound: nat) {
    && IsChunks(mem, chunkHead, cs)
    && forall k, x :: 0 <= k < |cs| && x in cs[k] ==> x + HEADER <= bound && (run != [] ==> x + HEADER <= run[0])
  }

  /** The slots of `run` are linked, up to the last one, which is still blank; all that was
      touched lies below `bound`. */
  ghost predicate Growing(mem: Words, run: seq<nat>, head: nat, prev: nat, bound: nat) {
    && head == First(run) && prev == LastOf(run)
    && NULL !in run && Spaced(run, HEADER) && (forall i :: 0 <= i < |run| ==> run[i] + HEADER <= bound)
    && (forall i, j :: 0 <= i < j < |run| && j == i + 1 ==> Word(mem, run[i]) == run[j])
    && (forall a :: a in mem ==> a < bound)
    && (forall a :: a in mem && run != [] && a >= run[0] ==> a in run[..|run| - 1])
  }

  ghost predicate Carving(mem: Words, cs: seq<seq<nat>>, run: seq<nat>, chunkHead: nat, head: nat, prev: nat, bound: nat) {
    Behind(mem, cs, run, chunkHead, bound) && Growing(mem, run, head, prev, bound)
  }

  /** `prev->next = cur`. */
  function Linked(mem: Words, prev: nat, cur: nat): Words { if prev == NULL then mem else mem[prev := cur] }

  lemma LinkChunks(mem: Words, cs: seq<seq<nat>>, run: seq<nat>, chunkHead: nat, prev: nat, bound: nat, cur: nat)
    requires Behind(mem, cs, run, chunkHead, bound) && prev == LastOf(run) && Spaced(run, HEADER) && NULL !in run && cur >= bound
    ensures Behind(Linked(mem, prev, cur), cs, run + [cur], chunkHead, cur + HEADER)
  {
    if run != [] {
      assert prev in run;
      forall k | 0 <= k < |cs| ensures prev !in cs[k] && prev != First(cs[k]) + 8 {
        assert First(cs[k]) in cs[k];
      }
      ChunksFrame(mem, chunkHead, cs, prev, cur);
    }
  }

  lemma LinkRun(mem: Words, run: seq<nat>, head: nat, prev: nat, bound: nat, cur: nat)
    requires Growing(mem, run, head, prev, bound) && cur >= bound && cur != NULL
    ensures Growing(Linked(mem, prev, cur), run + [cur], First(run + [cur]), cur, cur + HEADER)
  {
    if run != [] {
      RunWords(mem, run, prev, cur, Linked(mem, prev, cur));
    }
    assert (run + [cur])[..|run|] == run;
  }

  lemma RunWords(mem: Words, run: seq<nat>, prev: nat, cur: nat, r: Words)
    requires run != [] && prev == LastOf(run) && Spaced(run, HEADER) && r == mem[prev := cur]
    requires forall i, j :: 0 <= i < j < |run| && j == i + 1 ==> Word(mem, run[i]) == run[j]
    requires forall a :: a in mem && a >= run[0] ==> a in run[..|run| - 1]
    ensures forall i, j :: 0 <= i < j < |run| + 1 && j == i + 1 ==> Word(r, run[i]) == (run + [cur])[j]
    ensures forall a :: a in r && a >= run[0] ==> a in run
  {}

  /** The run becomes a chunk in front of the others. */
  lemma CloseRun(mem: Words, cs: seq<seq<nat>>, run: seq<nat>, chunkHead: nat, head: nat, prev: nat, bound: nat, r: Words)
    requires Carving(mem, cs, run, chunkHead, head, prev, bound) && run != []
    requires r == if chunkHead == NULL then mem else mem[head + 8 := chunkHead]
    ensures Carving(r, [run] + cs, [], head, NULL, NULL, bound)
  {
    var a := head + 8;
    assert a !in run;
    assert IsList(mem, head, run);
    if chunkHead != NULL {
      assert Untouched(a, cs) by {
        forall k | 0 <= k < |cs| ensures a !in cs[k] && a != First(cs[k]) + 8 {
          assert First(cs[k]) in cs[k];
        }
      }
      ChunksFrame(mem, chunkHead, cs, a, chunkHead);
      ListFrame(mem, head, run, a, chunkHead);
    } else {
      assert a !in mem by { assert forall x :: x in run[..|run| - 1] ==> x in run; }
    }
    ChunksCons(r, chunkHead, cs, run);
  }

  function Bound(slots: seq<nat>, n: nat): nat
    requires n <= |slots|
  {
    if n == 0 then 0 else slots[n - 1] + HEADER
  }

  /** Before slot `n` there are `t` chunks, and the `run` of the slots since then. */
  ghost predicate Placed(slots: seq<nat>, size: nat, n: nat, t: nat, cs: seq<seq<nat>>, run: seq<nat>) {
    && |run| < size && Mul(t, size) + |run| == n <= |slots|
    && cs == Carved(slots, size, t) && run == slots[Mul(t, size)..n]
  }

  /** The next slot joins the run. */
  lemma PlacedMore(slots: seq<nat>, size: nat, n: nat, t: nat, cs: seq<seq<nat>>, run: seq<nat>)
    requires Placed(slots, size, n, t, cs, run) && n < |slots| && |run| + 1 < size
    ensures Placed(slots, size, n + 1, t, cs, run + [slots[n]])
  {
    assert run + [slots[n]] == slots[Mul(t, size)..n + 1];
  }

  /** The next slot completes a chunk. */
  lemma PlacedFull(slots: seq<nat>, size: nat, n: nat, t: nat, cs: seq<seq<nat>>, run: seq<nat>)
    requires Placed(slots, size, n, t, cs, run) && n < |slots| && |run| + 1 == size
    ensures Placed(slots, size, n + 1, t + 1, [run + [slots[n]]] + cs, [])
  {
    assert Mul(t + 1, size) == n + 1;
    assert run + [slots[n]] == slots[Mul(t, size)..n + 1];
    assert Carved(slots, size, t + 1) == [slots[Mul(t, size)..n + 1]] + Carved(slots, size, t);
    assert slots[n + 1..n + 1] == [];
  }

  /** The next slot lies behind everything touched so far. */
  lemma BoundNext(slots: seq<nat>, n: nat)
    requires Spaced(slots, HEADER) && n < |slots|
    ensures slots[n] >= Bound(slots, n) && Bound(slots, n + 1) == slots[n] + HEADER
  {}

  lemma UsableSlots(y: Layout, slots: seq<nat>)
    requires slots == Slots(y, y.pages) && y.stride >= HEADER && Fits(y) && y.buf > 0
    ensures Spaced(slots, HEADER) && |slots| == Mul(y.pages, y.perPage) && NULL !in slots
  {
    SlotsSpaced(y, y.pages);
    forall k | 0 <= k < |slots| ensures slots[k] != NULL {
      Within(y, y.pages, k);
    }
  }

  /** Slot `n` is the first of page `i`, and the others of the page follow a stride apart. */
  ghost predicate OnPage(y: Layout, i: nat, slots: seq<nat>, n: nat) {
    && n + y.perPage <= |slots| && (y.perPage > 0 ==> slots[n] == y.buf + i * PAGE + y.offset)
    && forall j, k :: n <= j < k < n + y.perPage && k == j + 1 ==> slots[k] == slots[j] + y.stride
  }

  lemma PageSlots(y: Layout, i: nat, slots: seq<nat>, n: nat)
    requires i < y.pages && slots == Slots(y, y.pages) && n == Mul(i, y.perPage)
    ensures OnPage(y, i, slots, n)
  {
    if y.perPage > 0 {
      Order(i, y.perPage - 1, y.pages, y.perPage);
    } else {
      Product(i, 0);
    }
    forall j | n <= j < n + y.perPage ensures slots[j] == Addr(y, i, j - n) {
      SlotAt(y, y.pages, i, j - n);
    }
    forall j, k | n <= j < k < n + y.perPage && k == j + 1 ensures slots[k] == slots[j] + y.stride {
      Times(j - n, y.stride);
    }
  }

  /** The state of the walk: the words and counters of the datastore, the loop's own variables,
      and the chunks and the run that they stand for. */
  datatype Walk = Walk(mem: Words, chunkHead: nat, chunks: nat, head: nat, prev: nat, cs: seq<seq<nat>>, run: seq<nat>)

  /** The body of the inner loop, for the slot at `cur`. */
  function CarveOne(w: Walk, cur: nat, size: nat): Walk {
    var joined := Linked(w.mem, w.prev, cur);
    var h := if w.prev == NULL then cur else w.head;
    if |w.run| + 1 < size then w.(mem := joined, head := h, prev := cur, run := w.run + [cur])
    else Walk(if w.chunkHead == NULL then joined else joined[h + 8 := w.chunkHead], h, w.chunks + 1, NULL, NULL,
              [w.run + [cur]] + w.cs, [])
  }

  lemma PlacedKeeps(w: Walk, slots: seq<nat>, size: nat, n: nat, r: Walk)
    requires Placed(slots, size, n, w.chunks, w.cs, w.run) && n < |slots| && r == CarveOne(w, slots[n], size)
    ensures Placed(slots, size, n + 1, r.chunks, r.cs, r.run)
  {
    if |w.run| + 1 < size {
      PlacedMore(slots, size, n, w.chunks, w.cs, w.run);
    } else {
      PlacedFull(slots, size, n, w.chunks, w.cs, w.run);
    }
  }

  lemma Joined(mem: Words, cs: seq<seq<nat>>, run: seq<nat>, chunkHead: nat, head: nat, prev: nat, bound: nat, cur: nat)
    requires Carving(mem, cs, run, chunkHead, head, prev, bound) && cur >= bound && cur != NULL
    ensures Carving(Linked(mem, prev, cur), cs, run + [cur], chunkHead, First(run + [cur]), cur, cur + HEADER)
  {
    LinkChunks(mem, cs, run, chunkHead, prev, bound, cur);
    LinkRun(mem, run, head, prev, bound, cur);
  }

  lemma CarvingMore(w: Walk, bound: nat, cur: nat, size: nat, r: Walk)
    requires Carving(w.mem, w.cs, w.run, w.chunkHead, w.head, w.prev, bound) && cur >= bound && cur != NULL
    requires |w.run| + 1 < size && r == CarveOne(w, cur, size)
    ensures Carving(r.mem, r.cs, r.run, r.chunkHead, r.head, r.prev, cur + HEADER)
  {
    Joined(w.mem, w.cs, w.run, w.chunkHead, w.head, w.prev, bound, cur);
    FirstOf(w.run, cur);
  }

  /** What completing a run assigns. */
  lemma FullFields(w: Walk, cur: nat, size: nat, run: seq<nat>, r: Walk)
    requires NULL !in w.run && w.prev == LastOf(w.run) && w.head == First(w.run) && run == w.run + [cur]
    requires |run| >= size && r == CarveOne(w, cur, size)
    ensures r.cs == [run] + w.cs && r.run == [] && r.chunkHead == First(run) && r.head == r.prev == NULL
    ensures var joined := Linked(w.mem, w.prev, cur);
            r.mem == if w.chunkHead == NULL then joined else joined[First(run) + 8 := w.chunkHead]
  {
    FirstOf(w.run, cur);
  }

  lemma CarvingFull(w: Walk, bound: nat, cur: nat, size: nat, r: Walk)
    requires Carving(w.mem, w.cs, w.run, w.chunkHead, w.head, w.prev, bound) && cur >= bound && cur != NULL
    requires |w.run| + 1 >= size && r == CarveOne(w, cur, size)
    ensures Carving(r.mem, r.cs, r.run, r.chunkHead, r.head, r.prev, cur + HEADER)
  {
    var run := w.run + [cur];
    FullFields(w, cur, size, run, r);
    Joined(w.mem, w.cs, w.run, w.chunkHead, w.head, w.prev, bound, cur);
    CloseRun(Linked(w.mem, w.prev, cur), w.cs, run, w.chunkHead, First(run), cur, cur + HEADER, r.mem);
  }

  lemma FirstOf(run: seq<nat>, cur: nat)
    requires NULL !in run
    ensures First(run + [cur]) == if LastOf(run) == NULL then cur else First(run)
  {
    assert run != [] ==> run[|run| - 1] in run;
  }

  /** The walk over the first `n` slots of zeroed pages. */
  function WalkTo(slots: seq<nat>, size: nat, n: nat): Walk
    requires n <= |slots|
  {
    if n == 0 then Walk(map[], NULL, 0, NULL, NULL, [], []) else CarveOne(WalkTo(slots, size, n - 1), slots[n - 1], size)
  }

  lemma {:induction false} WalkPlaced(slots: seq<nat>, size: nat, n: nat, w: Walk)
    requires n <= |slots| && size > 0 && w == WalkTo(slots, size, n)
    ensures Placed(slots, size, n, w.chunks, w.cs, w.run)
    decreases n
  {
    if n == 0 {
      assert Carved(slots, size, 0) == [] && slots[0..0] == [];
    } else {
      WalkPlaced(slots, size, n - 1, WalkTo(slots, size, n - 1));
      PlacedKeeps(WalkTo(slots, size, n - 1), slots, size, n - 1, w);
    }
  }

  lemma {:induction false} WalkCarves(slots: seq<nat>, size: nat, n: nat, w: Walk)
    requires n <= |slots| && Spaced(slots, HEADER) && NULL !in slots && w == WalkTo(slots, size, n)
    ensures Carving(w.mem, w.cs, w.run, w.chunkHead, w.head, w.prev, Bound(slots, n))
    decreases n
  {
    if n > 0 {
      WalkCarves(slots, size, n - 1, WalkTo(slots, size, n - 1));
      BoundNext(slots, n - 1);
      var v := WalkTo(slots, size, n - 1);
      if |v.run| + 1 < size {
        CarvingMore(v, Bound(slots, n - 1), slots[n - 1], size, w);
      } else {
        CarvingFull(v, Bound(slots, n - 1), slots[n - 1], size, w);
      }
    }
  }

  lemma {:induction false} RunIsShort(slots: seq<nat>, size: nat, n: nat)
    requires n <= |slots| && size > 0
    ensures |WalkTo(slots, size, n).run| < size
  {
    if n > 0 {
      RunIsShort(slots, size, n - 1);
    }
  }

  lemma CarveCount(slots: seq<nat>, size: nat, w: Walk)
    requires size > 0 && w == WalkTo(slots, size, |slots|)
    ensures w.chunks == |slots| / size && Mul(|slots| / size, size) <= |slots| && w.cs == Carved(slots, size, |slots| / size)
  {
    WalkPlaced(slots, size, |slots|, w);
    Product(w.chunks, size);
    Division(|slots|, w.chunks, |w.run|, size);
  }

  lemma CarveEnd(slots: seq<nat>, size: nat, w: Walk)
    requires size > 0 && Spaced(slots, HEADER) && NULL !in slots && w == WalkTo(slots, size, |slots|)
    ensures Mul(|slots| / size, size) <= |slots|
    ensures IsChunks(w.mem, w.chunkHead, Carved(slots, size, |slots| / size))
  {
    CarveCount(slots, size, w);
    WalkCarves(slots, size, |slots|, w);
  }

  class Datastore {
    var mem: Words
    var chunkHead: nat
    var numChunks: nat
    var freeChunks: nat

    /** The datastore and the loop's variables are those of `w`. */
    ghost predicate Shows(w: Walk, head: nat, prev: nat, count: nat)
      reads this
    {
      w == Walk(mem, chunkHead, numChunks, head, prev, w.cs, w.run) && freeChunks == numChunks && count == |w.run|
    }

    /** `mempool_init_buf_with_pages`, on zeroed pages: `floor(n / size)` chunks of `size` slots,
        which memory shows as lists unless headers overlap. */
    method InitBuf(y: Layout, size: nat, ghost slots: seq<nat>)
      requires slots == Slots(y, y.pages) && mem == map[] && chunkHead == NULL && numChunks == freeChunks == 0
      requires size > 0 && y.buf > 0
      modifies this
      ensures |slots| == y.pages * y.perPage && Mul(|slots| / size, size) <= |slots|
      ensures numChunks == freeChunks == |slots| / size
      ensures mem == WalkTo(slots, size, |slots|).mem && chunkHead == WalkTo(slots, size, |slots|).chunkHead
      ensures y.stride >= HEADER && Fits(y) ==> IsChunks(mem, chunkHead, Carved(slots, size, |slots| / size))
    {
      ghost var w := WalkTo(slots, size, 0);
      ghost var n := 0;
      var count, head, prev := 0, NULL, NULL;
      var i := 0;
      while i < y.pages
        invariant 0 <= i <= y.pages && n == Mul(i, y.perPage) <= |slots|
        invariant Shows(w, head, prev, count) && w == WalkTo(slots, size, n)
      {
        PageSlots(y, i, slots, n);
        w, head, prev, count := CarvePage(y, i, size, slots, n, w, head, prev, count);
        n, i := n + y.perPage, i + 1;
      }
      Product(y.pages, y.perPage);
      CarveCount(slots, size, w);
      if y.stride >= HEADER && Fits(y) {
        UsableSlots(y, slots);
        CarveEnd(slots, size, w);
      }
    }

    /** The inner loop of `mempool_init_buf_with_pages`. */
    method CarvePage(y: Layout, i: nat, size: nat, ghost slots: seq<nat>, ghost n: nat, ghost w0: Walk, head0: nat, prev0: nat, count0: nat)
      returns (ghost w: Walk, head: nat, prev: nat, count: nat)
      requires size > 0 && OnPage(y, i, slots, n) && Shows(w0, head0, prev0, count0) && w0 == WalkTo(slots, size, n)
      modifies this
      ensures Shows(w, head, prev, count) && w == WalkTo(slots, size, n + y.perPage)
    {
      w, head, prev, count := w0, head0, prev0, count0;
      var cur, j := y.buf + i * PAGE + y.offset, 0;
      while j < y.perPage
        invariant 0 <= j <= y.perPage && (j < y.perPage ==> cur == slots[n + j])
        invariant Shows(w, head, prev, count) && w == WalkTo(slots, size, n + j)
      {
        RunIsShort(slots, size, n + j);
        w, head, prev, count := Carve(size, cur, w, head, prev, count);
        assert j + 1 < y.perPage ==> slots[n + j + 1] == slots[n + j] + y.stride;
        cur, j := cur + y.stride, j + 1;
      }
    }

    /** The body of the inner loop. */
    method Carve(size: nat, cur: nat, ghost w: Walk, head: nat, prev: nat, count: nat)
      returns (ghost w': Walk, head': nat, prev': nat, count': nat)
      requires Shows(w, head, prev, count) && |w.run| < size
      modifies this
      ensures w' == CarveOne(w, cur, size) && Shows(w', head', prev', count')
    {
      w' := CarveOne(w, cur, size);
      head' := head;
      if prev == NULL {
        head' := cur;
      } else {
        mem := mem[prev := cur];
      }
      count' := count + 1;
      if count' == size {
        if chunkHead == NULL {
          chunkHead := head';
        } else {
          mem := mem[head' + 8 := chunkHead];
          chunkHead := head';
        }
        head', prev', count' := NULL, NULL, 0;
        numChunks := numChunks + 1;
        freeChunks := freeChunks + 1;
      } else {
        prev' := cur;
      }
    }
  }
}
