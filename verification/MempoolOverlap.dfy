/** Carving slots of 8 bytes, whose headers overlap (core/mempool.c): the number of chunks is
    right, but `next_chunk` of a slot is `next` of the one after it, and exactly the smallest
    datastores come out as lists. */
module MempoolOverlap {
  import opened Mempools
  import opened MempoolMemory

  /** Slots that follow each other 8 bytes apart. */
  ghost predicate Dense(slots: seq<nat>) {
    NULL !in slots && forall i, j :: 0 <= i < j < |slots| ==> slots[j] == slots[i] + 8 * (j - i)
  }

  /** Slots of a stride of 8 are dense in either mode, as they fill each page. */
  lemma DenseSlots(y: Layout)
    requires y.stride == 8 && y.offset == 0 && y.buf > 0 && (y.pages <= 1 || y.perPage == PAGE / 8)
    ensures Dense(Slots(y, y.pages))
  {
    forall k | 0 <= k < |Slots(y, y.pages)| ensures Slots(y, y.pages)[k] == y.buf + 8 * k {
      DenseAt(y, y.pages, k);
    }
  }

  lemma {:induction false} DenseAt(y: Layout, i: nat, k: nat)
    requires y.stride == 8 && y.offset == 0 && (i <= 1 || y.perPage == PAGE / 8) && k < Mul(i, y.perPage)
    ensures Slots(y, i)[k] == y.buf + 8 * k
    decreases i
  {
    if k < Mul(i - 1, y.perPage) {
      DenseAt(y, i - 1, k);
    } else {
      Product(i - 1, y.perPage);
    }
  }

  /** When the lists come out right all the same. */
  predicate Spared(size: nat, chunks: nat) {
    chunks == 0 || (size == 1 && chunks <= 2) || (size == 2 && chunks == 1)
  }

  // ----- the walk, whatever it does to memory -----

  lemma {:induction false} Heads(slots: seq<nat>, size: nat, n: nat, w: Walk)
    requires n <= |slots| && NULL !in slots && w == WalkTo(slots, size, n)
    ensures w.head == First(w.run) && w.prev == LastOf(w.run) && NULL !in w.run
    ensures w.chunkHead == if w.cs == [] then NULL else First(w.cs[0])
    decreases n
  {
    if n > 0 {
      var v := WalkTo(slots, size, n - 1);
      Heads(slots, size, n - 1, v);
      FirstOf(v.run, slots[n - 1]);
    }
  }

  lemma {:induction false} MulGrows(a: nat, b: nat, c: nat)
    requires a <= b
    ensures Mul(a, c) <= Mul(b, c)
    decreases b
  {
    if a < b {
      MulGrows(a, b - 1, c);
    }
  }

  /** After `q` chunks, the run starts at or behind the slot where the next chunk begins. */
  lemma RunBehind(slots: seq<nat>, size: nat, q: nat, n: nat, w: Walk)
    requires size > 0 && Mul(q, size) <= n < |slots| && w == WalkTo(slots, size, n)
    ensures Mul(q, size) <= n - |w.run| && w.run == slots[n - |w.run|..n] && (q > 0 ==> w.cs != [])
  {
    WalkPlaced(slots, size, n, w);
    if w.chunks < q {
      MulGrows(w.chunks + 1, q, size);
    } else {
      MulGrows(q, w.chunks, size);
    }
  }

  /** What lies below the chunks still to come is not written any more. */
  lemma StepAbove(slots: seq<nat>, size: nat, q: nat, a: nat, n: nat)
    requires Dense(slots) && size > 0 && q > 0 && Mul(q, size) <= n < |slots| && 0 < Mul(q, size)
    requires a < slots[Mul(q, size)] || (size == 1 && a == slots[Mul(q, size)])
    ensures Word(WalkTo(slots, size, n + 1).mem, a) == Word(WalkTo(slots, size, n).mem, a)
  {
    var w, k := WalkTo(slots, size, n), Mul(q, size);
    Heads(slots, size, n, w);
    WalkPlaced(slots, size, n, w);
    RunBehind(slots, size, q, n, w);
    FirstOf(w.run, slots[n]);
    assert w.run != [] ==> w.prev == slots[n - 1] && w.head == slots[n - |w.run|];
  }

  lemma {:induction false} Persists(slots: seq<nat>, size: nat, q: nat, a: nat, n: nat)
    requires Dense(slots) && size > 0 && q > 0 && 0 < Mul(q, size) <= n <= |slots|
    requires n > Mul(q, size) ==> a < slots[Mul(q, size)] || (size == 1 && a == slots[Mul(q, size)])
    ensures Word(WalkTo(slots, size, n).mem, a) == Word(WalkTo(slots, size, Mul(q, size)).mem, a)
    decreases n
  {
    if n > Mul(q, size) {
      Persists(slots, size, q, a, n - 1);
      StepAbove(slots, size, q, a, n - 1);
    }
  }

  lemma {:induction false} CarvedAt(slots: seq<nat>, size: nat, t: nat, j: nat)
    requires Mul(t, size) <= |slots| && j < t
    ensures Mul(j, size) + size <= Mul(t, size) && Carved(slots, size, t)[t - 1 - j] == slots[Mul(j, size)..Mul(j, size) + size]
    decreases t
  {
    MulGrows(j + 1, t, size);
    if j < t - 1 {
      CarvedAt(slots, size, t - 1, j);
    }
  }

  // ----- three ways to go wrong -----

  /** The first run is linked. */
  lemma {:induction false} FirstRun(slots: seq<nat>, size: nat, n: nat, w: Walk)
    requires Dense(slots) && n < size && n <= |slots| && w == WalkTo(slots, size, n)
    ensures w.run == slots[..n] && w.cs == [] && w.chunkHead == NULL
    ensures forall i :: 0 <= i < n - 1 ==> Word(w.mem, slots[i]) == slots[i + 1]
    decreases n
  {
    if n > 0 {
      var v := WalkTo(slots, size, n - 1);
      FirstRun(slots, size, n - 1, v);
      Heads(slots, size, n - 1, v);
      assert slots[..n] == slots[..n - 1] + [slots[n - 1]];
    }
  }

  lemma MulSmall(c: nat)
    ensures Mul(0, c) == 0 && Mul(1, c) == c && Mul(2, c) == 2 * c && Mul(3, c) == 3 * c
  {
    assert Mul(1, c) == Mul(0, c) + c;
    assert Mul(2, c) == Mul(1, c) + c;
    assert Mul(3, c) == Mul(2, c) + c;
  }

  lemma FirstClosed(slots: seq<nat>, size: nat)
    requires Dense(slots) && 3 <= size <= |slots|
    ensures Word(WalkTo(slots, size, size).mem, slots[1]) == slots[2]
  {
    var v := WalkTo(slots, size, size - 1);
    FirstRun(slots, size, size - 1, v);
    Heads(slots, size, size - 1, v);
    assert v.prev == slots[size - 2];
    assert WalkTo(slots, size, size).mem == v.mem[slots[size - 2] := slots[size - 1]];
  }

  /** With three or more slots in a chunk, `next_chunk` of the last chunk is its third slot. */
  lemma LongChunks(slots: seq<nat>, size: nat, t: nat, w: Walk)
    requires Dense(slots) && size >= 3 && t >= 1 && Mul(t, size) <= |slots| && w == WalkTo(slots, size, |slots|)
    ensures !IsChunks(w.mem, w.chunkHead, Carved(slots, size, t))
  {
    MulSmall(size);
    MulGrows(1, t, size);
    FirstClosed(slots, size);
    Persists(slots, size, 1, slots[1], |slots|);
    CarvedAt(slots, size, t, 0);
    NotLast(w.mem, w.chunkHead, Carved(slots, size, t), slots);
  }

  lemma NotLast(mem: Words, p: nat, cs: seq<seq<nat>>, slots: seq<nat>)
    requires Dense(slots) && |slots| > 2 && cs != [] && First(cs[|cs| - 1]) == slots[0] && Word(mem, slots[1]) == slots[2]
    ensures !IsChunks(mem, p, cs)
  {
    assert slots[0] + 8 == slots[1] && slots[2] in slots;
  }

  /** The walk just before the second chunk is complete. */
  lemma BeforeSecond(slots: seq<nat>, size: nat, w: Walk)
    requires Dense(slots) && 1 <= size <= 2 && |slots| >= 2 * size && w == WalkTo(slots, size, 2 * size - 1)
    ensures |w.run| + 1 == size && w.chunkHead == slots[0] != NULL && First(w.run + [slots[2 * size - 1]]) == slots[size]
    ensures w.prev == (if size == 1 then NULL else slots[2]) && (w.prev == NULL ==> w.run == [])
    ensures (if w.prev == NULL then slots[2 * size - 1] else w.head) == slots[size]
  {
    MulSmall(size);
    WalkPlaced(slots, size, 2 * size - 1, w);
    if w.chunks != 1 { MulGrows(2, w.chunks, size); }
    CarvedAt(slots, size, 1, 0);
    Heads(slots, size, 2 * size - 1, w);
    assert slots[0] in slots && slots[size] in slots;
  }

  /** What closing the second chunk writes. */
  lemma SecondChunk(slots: seq<nat>, size: nat)
    requires Dense(slots) && 1 <= size <= 2 && |slots| >= 2 * size
    ensures Word(WalkTo(slots, size, 2 * size).mem, slots[size] + 8) == slots[0]
  {
    BeforeSecond(slots, size, WalkTo(slots, size, 2 * size - 1));
    SecondCloses(WalkTo(slots, size, 2 * size - 1), slots[2 * size - 1], size, slots[size]);
    WalkNext(slots, size, 2 * size);
  }

  lemma WalkNext(slots: seq<nat>, size: nat, n: nat)
    requires 0 < n <= |slots|
    ensures WalkTo(slots, size, n) == CarveOne(WalkTo(slots, size, n - 1), slots[n - 1], size)
  {}

  lemma SecondCloses(w: Walk, cur: nat, size: nat, h: nat)
    requires |w.run| + 1 == size && w.chunkHead != NULL && (if w.prev == NULL then cur else w.head) == h
    ensures Word(CarveOne(w, cur, size).mem, h + 8) == w.chunkHead
  {}

  lemma TwoOrMore(slots: seq<nat>, t: nat, w: Walk)
    requires Dense(slots) && t >= 2 && Mul(t, 2) <= |slots| && w == WalkTo(slots, 2, |slots|)
    ensures !IsChunks(w.mem, w.chunkHead, Carved(slots, 2, t))
  {
    MulSmall(2);
    MulGrows(2, t, 2);
    SecondChunk(slots, 2);
    Persists(slots, 2, 2, slots[3], |slots|);
    CarvedAt(slots, 2, t, 1);
    var c := Carved(slots, 2, t)[t - 2];
    assert c == slots[2..4] && c[1] == slots[3] && slots[0] in slots;
  }

  lemma ThreeOrMore(slots: seq<nat>, t: nat, w: Walk)
    requires Dense(slots) && t >= 3 && Mul(t, 1) <= |slots| && w == WalkTo(slots, 1, |slots|)
    ensures !IsChunks(w.mem, w.chunkHead, Carved(slots, 1, t))
  {
    MulSmall(1);
    MulGrows(3, t, 1);
    SecondChunk(slots, 1);
    Persists(slots, 1, 2, slots[2], |slots|);
    CarvedAt(slots, 1, t, 2);
    var c := Carved(slots, 1, t)[t - 3];
    assert c == slots[2..3] && c[0] == slots[2] && slots[0] in slots;
  }

  // ----- and the cases that are spared -----

  /** A slot that is a chunk of its own. */
  lemma CloseSingle(w: Walk, cur: nat)
    requires w.run == [] && w.prev == NULL
    ensures CarveOne(w, cur, 1) == Walk(if w.chunkHead == NULL then w.mem else w.mem[cur + 8 := w.chunkHead], cur, w.chunks + 1,
                                        NULL, NULL, [[cur]] + w.cs, [])
  {
    assert w.run + [cur] == [cur];
  }

  lemma OneSlot(slots: seq<nat>, v: Walk)
    requires slots != [] && slots[0] != NULL && v == WalkTo(slots, 1, 1)
    ensures v == Walk(map[], slots[0], 1, NULL, NULL, [[slots[0]]], []) && IsChunks(v.mem, v.chunkHead, v.cs)
  {
    CloseSingle(WalkTo(slots, 1, 0), slots[0]);
    assert [[slots[0]]] + [] == [[slots[0]]];
  }

  lemma TwoSlots(slots: seq<nat>, w: Walk)
    requires |slots| >= 2 && slots[0] != NULL && slots[1] == slots[0] + 8 && w == WalkTo(slots, 1, 2)
    ensures IsChunks(w.mem, w.chunkHead, w.cs)
  {
    var v := WalkTo(slots, 1, 1);
    OneSlot(slots, v);
    CloseSingle(v, slots[1]);
    TwoShown(slots[0], slots[1], w);
  }

  lemma TwoShown(a: nat, b: nat, w: Walk)
    requires a != NULL && b == a + 8 && w == Walk(map[b + 8 := a], b, 2, NULL, NULL, [[b]] + [[a]], [])
    ensures IsChunks(w.mem, w.chunkHead, w.cs)
  {
    assert w.cs == [[b], [a]];
  }

  lemma OneByOne(slots: seq<nat>, w: Walk)
    requires 1 <= |slots| <= 2 && slots[0] != NULL && (|slots| == 2 ==> slots[1] == slots[0] + 8)
    requires w == WalkTo(slots, 1, |slots|)
    ensures IsChunks(w.mem, w.chunkHead, w.cs)
  {
    if |slots| == 1 {
      OneSlot(slots, w);
    } else {
      TwoSlots(slots, w);
    }
  }

  lemma OpenPair(w: Walk, cur: nat)
    requires w == Walk(map[], NULL, 0, NULL, NULL, [], [])
    ensures CarveOne(w, cur, 2) == Walk(map[], NULL, 0, cur, cur, [], [cur])
  {
    assert [] + [cur] == [cur];
  }

  lemma OnePair(slots: seq<nat>, w: Walk)
    requires Dense(slots) && 2 <= |slots| <= 3 && w == WalkTo(slots, 2, |slots|)
    ensures IsChunks(w.mem, w.chunkHead, w.cs)
  {
    assert slots[0] in slots;
    var u, v := WalkTo(slots, 2, 1), WalkTo(slots, 2, 2);
    OpenPair(WalkTo(slots, 2, 0), slots[0]);
    PairClosed(u, slots[0], slots[1], v);
    if |slots| == 3 {
      assert w == v.(head := slots[2], prev := slots[2], run := [] + [slots[2]]);
    }
  }

  lemma PairClosed(u: Walk, a: nat, b: nat, v: Walk)
    requires a != NULL && b == a + 8 && u == Walk(map[], NULL, 0, a, a, [], [a]) && v == CarveOne(u, b, 2)
    ensures v == Walk(map[a := b], a, 1, NULL, NULL, [[a, b]], []) && IsChunks(v.mem, v.chunkHead, v.cs)
  {
    assert [a] + [b] == [a, b] && [[a, b]] + [] == [[a, b]];
  }

  lemma SparedShows(slots: seq<nat>, size: nat, t: nat, w: Walk)
    requires Dense(slots) && size > 0 && Spared(size, t) && w == WalkTo(slots, size, |slots|) && w.chunks == t
    requires Placed(slots, size, |slots|, t, w.cs, w.run)
    ensures IsChunks(w.mem, w.chunkHead, w.cs)
  {
    MulSmall(size);
    if t == 0 {
      Heads(slots, size, |slots|, w);
    } else if size == 1 {
      assert slots[0] in slots;
      OneByOne(slots, w);
    } else {
      OnePair(slots, w);
    }
  }

  /** For elements of at most 8 bytes, the carved memory shows the chunks as lists if and only if
      there is no chunk, or one of two slots, or at most two of one slot. */
  lemma OverlapIff(slots: seq<nat>, size: nat, w: Walk)
    requires Dense(slots) && size > 0 && w == WalkTo(slots, size, |slots|)
    ensures w.chunks == |slots| / size && Mul(|slots| / size, size) <= |slots|
    ensures IsChunks(w.mem, w.chunkHead, Carved(slots, size, |slots| / size)) <==> Spared(size, |slots| / size)
  {
    CarveCount(slots, size, w);
    WalkPlaced(slots, size, |slots|, w);
    if Spared(size, w.chunks) {
      SparedShows(slots, size, w.chunks, w);
    } else if size >= 3 {
      LongChunks(slots, size, w.chunks, w);
    } else if size == 2 {
      TwoOrMore(slots, w.chunks, w);
    } else {
      ThreeOrMore(slots, w.chunks, w);
    }
  }
}
