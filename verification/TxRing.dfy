/** The transmit ring of ixgbe/ixgbe_rxtx.c.  Packets are posted as in the function that the
    file keeps commented out; without it no mbuf would ever be on the ring. */
module TxRing {
  import opened RingIndex

  function InUse(r: Ring): nat { Ahead(r.head, r.tail) }

  /** Room for one more descriptor is kept, and no entry outside the descriptors that are with
      the hardware holds an mbuf. */
  ghost predicate Good(r: Ring) {
    Sized(r) && InUse(r) < r.len && forall k :: InUse(r) <= k < r.len ==> Lap(r)[k] == NULL
  }

  /** The descriptors with the hardware, oldest first: NULL for context descriptors and for all
      but the last descriptor of a packet. */
  function Window(r: Ring): (w: seq<nat>)
    requires r.len > 0 && |r.entries| == r.len && InUse(r) <= r.len
    ensures |w| == InUse(r)
  {
    Lap(r)[..InUse(r)]
  }

  function Nulls(n: nat): (w: seq<nat>)
    ensures |w| == n && forall k :: 0 <= k < n ==> w[k] == NULL
  {
    seq(n, k => NULL)
  }

  function One(x: nat): (m: seq<nat>)
    ensures |m| <= 1 && NULL !in m
  {
    if x == NULL then [] else [x]
  }

  function Mbufs(w: seq<nat>): (m: seq<nat>)
    ensures |m| <= |w| && NULL !in m
  {
    if w == [] then [] else Mbufs(w[..|w| - 1]) + One(w[|w| - 1])
  }

  lemma MbufsSnoc(w: seq<nat>, x: nat)
    ensures Mbufs(w + [x]) == Mbufs(w) + One(x)
  {
    var v := w + [x];
    assert v[..|v| - 1] == w && v[|v| - 1] == x;
  }

  lemma {:induction false} MbufsConcat(a: seq<nat>, b: seq<nat>)
    ensures Mbufs(a + b) == Mbufs(a) + Mbufs(b)
    decreases |b|
  {
    if b == [] {
      assert a + b == a;
    } else {
      var c, x := b[..|b| - 1], b[|b| - 1];
      assert b == c + [x];
      MbufsConcat(a, c);
      MbufsStep(a, c, x);
    }
  }

  lemma MbufsStep(a: seq<nat>, c: seq<nat>, x: nat)
    requires Mbufs(a + c) == Mbufs(a) + Mbufs(c)
    ensures Mbufs(a + (c + [x])) == Mbufs(a) + Mbufs(c + [x])
  {
    calc {
      Mbufs(a + (c + [x]));
      { assert a + (c + [x]) == (a + c) + [x]; }
      Mbufs((a + c) + [x]);
      { MbufsSnoc(a + c, x); }
      Mbufs(a) + Mbufs(c) + One(x);
      { Append(Mbufs(a), Mbufs(c), One(x)); }
      Mbufs(a) + (Mbufs(c) + One(x));
      { MbufsSnoc(c, x); }
      Mbufs(a) + Mbufs(c + [x]);
    }
  }

  lemma {:induction false} MbufsNone(w: seq<nat>)
    requires forall k :: 0 <= k < |w| ==> w[k] == NULL
    ensures Mbufs(w) == []
    decreases |w|
  {
    if w != [] {
      MbufsNone(w[..|w| - 1]);
    }
  }

  // ----- ixgbe_tx_reclaim -----

  /** The first descriptor that holds an mbuf the hardware has not finished. */
  function Stop(w: seq<nat>, done: nat -> bool, k: nat): (n: nat)
    requires k <= |w|
    ensures k <= n <= |w|
    ensures forall i :: k <= i < n ==> w[i] == NULL || done(i)
    ensures n < |w| ==> w[n] != NULL && !done(n)
    decreases |w| - k
  {
    if k == |w| || (w[k] != NULL && !done(k)) then k else Stop(w, done, k + 1)
  }

  /** Descriptors up to the last mbuf before `n`. */
  function Last(w: seq<nat>, n: nat): (m: nat)
    requires n <= |w|
    ensures m <= n && (m > 0 ==> w[m - 1] != NULL)
    ensures forall i :: m <= i < n ==> w[i] == NULL
  {
    if n == 0 then 0 else if w[n - 1] != NULL then n else Last(w, n - 1)
  }

  /** The first `n` descriptors have been completed. */
  function Cleared(r: Ring, n: nat): (s: Ring)
    requires r.len > 0 && |r.entries| == r.len
    ensures |s.entries| == r.len && s == r.(entries := s.entries)
  {
    if n == 0 then r
    else
      var s := Cleared(r, n - 1);
      s.(entries := s.entries[Slot(r.head + n - 1, r.len) := NULL])
  }

  lemma {:induction false} ClearedLap(r: Ring, n: nat)
    requires Sized(r) && n <= r.len
    ensures Lap(Cleared(r, n)) == Nulls(n) + Lap(r)[n..]
    decreases n
  {
    if n > 0 {
      ClearedLap(r, n - 1);
      LapWrite(Cleared(r, n - 1), n - 1, NULL, Cleared(r, n));
    }
  }

  /** `ixgbe_tx_reclaim`; `done(k)` is what the hardware reports of the `k`-th descriptor from
      `head` when it is read. */
  function Reclaimed(r: Ring, done: nat -> bool): Ring
    requires r.len > 0 && |r.entries| == r.len && InUse(r) <= r.len
  {
    var n := Stop(Window(r), done, 0);
    Cleared(r, n).(head := Wrap(r.head + Last(Window(r), n)))
  }

  /** The lap after completing the first `n` descriptors and moving on by `m` of them. */
  lemma LapAfter(r: Ring, n: nat, m: nat, s: Ring)
    requires Good(r) && m <= n <= InUse(r) && s == Cleared(r, n).(head := Wrap(r.head + m))
    ensures InUse(s) == InUse(r) - m && Lap(s) == Nulls(n - m) + Lap(r)[n..] + Nulls(m)
  {
    ClearedLap(r, n);
    LapMove(Cleared(r, n), m, s);
    AheadMoves(r.head, r.tail, m);
  }

  lemma GoodAfter(r: Ring, n: nat, m: nat, s: Ring)
    requires Good(r) && m <= n <= InUse(r) && s == Cleared(r, n).(head := Wrap(r.head + m))
    ensures Good(s) && InUse(s) == InUse(r) - m && Window(s) == Nulls(n - m) + Window(r)[n..]
  {
    LapAfter(r, n, m, s);
    var lap := Lap(r);
    forall k | InUse(s) <= k < s.len ensures Lap(s)[k] == NULL {
      assert Lap(s)[k] == if k < n - m then NULL else if k < r.len - m then lap[k + m] else NULL;
    }
  }

  lemma GapHasNone(b: seq<nat>, gap: nat)
    ensures Mbufs(Nulls(gap) + b) == Mbufs(b)
  {
    MbufsConcat(Nulls(gap), b);
    MbufsNone(Nulls(gap));
    assert [] + Mbufs(b) == Mbufs(b);
  }

  /** Reclaiming completes a prefix of the pending mbufs, in ring order: all that are finished up
      to the first that is not.  `head` does not pass `tail`. */
  lemma ReclaimKeeps(r: Ring, done: nat -> bool, s: Ring, n: nat)
    requires Good(r) && s == Reclaimed(r, done) && n == Stop(Window(r), done, 0)
    ensures Good(s) && s.tail == r.tail && s.len == r.len && InUse(s) == InUse(r) - Last(Window(r), n)
    ensures Free(s) == s.len - InUse(s)
  {
    GoodAfter(r, n, Last(Window(r), n), s);
    LeftOver(s.head, s.tail, s.len);
  }

  lemma ReclaimPending(r: Ring, done: nat -> bool, s: Ring, n: nat, w: seq<nat>)
    requires Good(r) && s == Reclaimed(r, done) && w == Window(r) && n == Stop(w, done, 0)
    ensures Good(s) && Mbufs(w) == Mbufs(w[..n]) + Mbufs(Window(s))
  {
    GoodAfter(r, n, Last(w, n), s);
    MbufsSplit(w, n);
    GapHasNone(w[n..], n - Last(w, n));
  }

  lemma MbufsSplit(w: seq<nat>, n: nat)
    requires n <= |w|
    ensures Mbufs(w) == Mbufs(w[..n]) + Mbufs(w[n..])
  {
    assert w == w[..n] + w[n..];
    MbufsConcat(w[..n], w[n..]);
  }

  /** What `ixgbe_tx_reclaim` returns. */
  function Free(s: Ring): nat { Wrap(s.len + s.head - s.tail) }

  // ----- posting -----

  /** `count` descriptors are used up; the last one carries the mbuf. */
  function Posted(r: Ring, count: nat, mbuf: nat): Ring
    requires r.len > 0 && |r.entries| == r.len && count > 0
  {
    r.(entries := r.entries[Slot(r.tail + count - 1, r.len) := mbuf], tail := Wrap(r.tail + count))
  }

  function Room(r: Ring, count: nat): bool { Wrap(r.tail + count - r.head) < r.len }

  lemma RoomMeans(r: Ring, count: nat)
    requires Sized(r) && InUse(r) < r.len && 0 < count <= 60000
    ensures Room(r, count) <==> InUse(r) + count < r.len
  {
    AheadMoves(r.head, r.tail, count);
    WrapNear(r.tail + count - r.head);
    WrapNear(r.tail - r.head);
  }

  /** The descriptor at distance `k` behind `tail` is the one at distance `InUse + k` from `head`. */
  lemma SlotFromTail(r: Ring, k: nat)
    requires Sized(r)
    ensures Slot(r.tail + k, r.len) == Slot(r.head + (InUse(r) + k), r.len)
  {
    SlotWraps(r.head + InUse(r), k, r.len);
    AheadMoves(r.head, r.tail, InUse(r));
  }

  lemma PostedWindow(r: Ring, count: nat, mbuf: nat, s: Ring)
    requires Good(r) && count > 0 && InUse(r) + count < r.len && s == Posted(r, count, mbuf)
    ensures Good(s) && s.head == r.head && s.len == r.len && InUse(s) == InUse(r) + count
    ensures Window(s) == Window(r) + Nulls(count - 1) + [mbuf]
  {
    AheadMoves(r.head, r.tail, count);
    SlotFromTail(r, count - 1);
    var t := r.(entries := s.entries);
    LapWrite(r, InUse(r) + (count - 1), mbuf, t);
    assert Lap(s) == Lap(t);
  }

  /** Posting adds the mbuf behind all others; a context descriptor adds none. */
  lemma PostKeeps(r: Ring, count: nat, mbuf: nat, s: Ring)
    requires Good(r) && count > 0 && InUse(r) + count < r.len && s == Posted(r, count, mbuf)
    ensures Good(s) && s.head == r.head && InUse(s) == InUse(r) + count
    ensures Mbufs(Window(s)) == Mbufs(Window(r)) + (if mbuf == NULL then [] else [mbuf])
  {
    PostedWindow(r, count, mbuf, s);
    LastMbuf(Window(r), count - 1, mbuf);
  }

  lemma LastMbuf(w: seq<nat>, gap: nat, mbuf: nat)
    ensures Mbufs(w + Nulls(gap) + [mbuf]) == Mbufs(w) + (if mbuf == NULL then [] else [mbuf])
  {
    MbufsConcat(w + Nulls(gap), [mbuf]);
    MbufsConcat(w, Nulls(gap));
    MbufsNone(Nulls(gap));
    assert [mbuf][..0] == [];
  }

  // ----- every run -----

  datatype Event = Post(mbuf: nat, iovs: nat) | Context | Reclaim(done: nat -> bool) | Reset

  /** The mbufs posted and completed since the last reset, and those that resets dropped. */
  datatype State = State(ring: Ring, posted: seq<nat>, completed: seq<nat>, dropped: seq<nat>)

  function AfterReclaim(s: State, done: nat -> bool): State
    requires Sized(s.ring) && InUse(s.ring) < s.ring.len
  {
    var w := Window(s.ring);
    s.(ring := Reclaimed(s.ring, done), completed := s.completed + Mbufs(w[..Stop(w, done, 0)]))
  }

  /** Room is made first if there is none; without room the call fails and posts nothing. */
  function Posting(s: State, count: nat, mbuf: nat, done: nat -> bool): (State, bool)
    requires Sized(s.ring) && InUse(s.ring) < s.ring.len && count > 0
  {
    var t := if Room(s.ring, count) then s else AfterReclaim(s, done);
    if Room(t.ring, count) then
      (t.(ring := Posted(t.ring, count, mbuf), posted := if mbuf == NULL then t.posted else t.posted + [mbuf]), true)
    else (t, false)
  }

  function Empty(len: nat): Ring { Ring(len, seq(len, i => NULL), 0, 0) }

  /** Posted mbufs have been completed, in order and once, or are still pending. */
  ghost predicate Inv(s: State) { Good(s.ring) && s.posted == s.completed + Mbufs(Window(s.ring)) }

  lemma ReclaimInv(s: State, done: nat -> bool, t: State)
    requires Inv(s) && t == AfterReclaim(s, done)
    ensures Inv(t)
  {
    var w := Window(s.ring);
    ReclaimKeeps(s.ring, done, t.ring, Stop(w, done, 0));
    ReclaimPending(s.ring, done, t.ring, Stop(w, done, 0), w);
    Append(s.completed, Mbufs(w[..Stop(w, done, 0)]), Mbufs(Window(t.ring)));
  }

  lemma Append(a: seq<nat>, b: seq<nat>, c: seq<nat>)
    ensures a + (b + c) == a + b + c
  {}

  lemma PostInv(s: State, count: nat, mbuf: nat, done: nat -> bool, t: State, ok: bool)
    requires Inv(s) && 0 < count <= 60000 && (t, ok) == Posting(s, count, mbuf, done)
    ensures Inv(t) && (!ok ==> t.posted == s.posted) && (ok && mbuf != NULL ==> t.posted == s.posted + [mbuf])
  {
    var u := if Room(s.ring, count) then s else AfterReclaim(s, done);
    ReclaimInv(s, done, AfterReclaim(s, done));
    RoomMeans(u.ring, count);
    if ok { PostAdds(u, count, mbuf, t); }
  }

  /** A call posts if and only if its descriptors fit at once or after a reclaim, which is tried only
      if they do not. */
  lemma PostsIff(s: State, e: Event, done: nat -> bool, t: State, n: nat)
    requires Inv(s) && Legal(e) && (e.Post? || e.Context?) && n == (if e.Post? then e.iovs + 1 else 1) && t == Step(s, e, done)
    ensures var len, u := s.ring.len, AfterReclaim(s, done);
            && Good(u.ring) && u.ring.tail == s.ring.tail
            && if InUse(s.ring) + n < len then InUse(t.ring) == InUse(s.ring) + n && t.completed == s.completed && t.ring.head == s.ring.head
               else if InUse(u.ring) + n < len then InUse(t.ring) == InUse(u.ring) + n && t.completed == u.completed
               else t == u
  {
    var u, mbuf := AfterReclaim(s, done), if e.Post? then e.mbuf else NULL;
    ReclaimInv(s, done, u);
    ReclaimKeeps(s.ring, done, u.ring, Stop(Window(s.ring), done, 0));
    RoomMeans(s.ring, n);
    RoomMeans(u.ring, n);
    if InUse(s.ring) + n < s.ring.len {
      PostedWindow(s.ring, n, mbuf, Posted(s.ring, n, mbuf));
    } else if InUse(u.ring) + n < s.ring.len {
      PostedWindow(u.ring, n, mbuf, Posted(u.ring, n, mbuf));
    }
  }

  lemma PostAdds(u: State, count: nat, mbuf: nat, t: State)
    requires Inv(u) && count > 0 && InUse(u.ring) + count < u.ring.len
    requires t == u.(ring := Posted(u.ring, count, mbuf), posted := if mbuf == NULL then u.posted else u.posted + [mbuf])
    ensures Inv(t)
  {
    PostKeeps(u.ring, count, mbuf, t.ring);
  }

  lemma EmptyInv(len: nat, dropped: seq<nat>)
    requires Length(len)
    ensures Inv(State(Empty(len), [], [], dropped))
  {
    assert Window(Empty(len)) == [] && InUse(Empty(len)) == 0;
    forall k | 0 <= k < len ensures Lap(Empty(len))[k] == NULL {
      assert Empty(len).entries[Slot(0 + k, len)] == NULL;
    }
  }

  /** One event; `done` is what the hardware reports if room has to be made. */
  function Step(s: State, e: Event, done: nat -> bool): State
    requires Sized(s.ring) && InUse(s.ring) < s.ring.len
  {
    match e
    case Post(mbuf, iovs) => Posting(s, iovs + 1, mbuf, done).0
    case Context => Posting(s, 1, NULL, done).0
    case Reclaim(d) => AfterReclaim(s, d)
    case Reset => State(Empty(s.ring.len), [], [], s.dropped + Mbufs(Window(s.ring)))
  }

  ghost predicate Legal(e: Event) { e.Post? ==> e.mbuf != NULL && e.iovs < 60000 }

  /** In every run, through any wrap of the indices: the ring never overfills, and the completed
      mbufs are the oldest posted ones, each once, in order. */
  lemma StepInv(s: State, e: Event, done: nat -> bool, t: State)
    requires Inv(s) && Legal(e) && t == Step(s, e, done)
    ensures Inv(t)
  {
    match e
    case Post(mbuf, iovs) => PostInv(s, iovs + 1, mbuf, done, t, Posting(s, iovs + 1, mbuf, done).1);
    case Context => PostInv(s, 1, NULL, done, t, Posting(s, 1, NULL, done).1);
    case Reclaim(d) => ReclaimInv(s, d, t);
    case Reset => EmptyInv(s.ring.len, t.dropped);
  }

  /** All mbufs that the event posts. */
  function PostedBy(s: State, e: Event, done: nat -> bool): seq<nat>
    requires Sized(s.ring) && InUse(s.ring) < s.ring.len
  {
    if e.Post? && Posting(s, e.iovs + 1, e.mbuf, done).1 then [e.mbuf] else []
  }

  /** All mbufs that the event completes. */
  function CompletedBy(s: State, e: Event, done: nat -> bool): seq<nat>
    requires Sized(s.ring) && InUse(s.ring) < s.ring.len
  {
    if e.Reset? then [] else Step(s, e, done).completed[|s.completed|..]
  }

  /** Over every event, resets included, with `w` and `x` pending before and after: the mbufs pending
      before and those posted are those completed, those dropped and those pending after.  A reset
      completes nothing and drops exactly what is pending. */
  lemma StepAccounts(s: State, e: Event, done: nat -> bool, t: State, w: seq<nat>, x: seq<nat>)
    requires Inv(s) && Legal(e) && t == Step(s, e, done) && w == Mbufs(Window(s.ring))
    requires Sized(t.ring) && InUse(t.ring) <= t.ring.len && x == Mbufs(Window(t.ring))
    ensures t.dropped == s.dropped + if e.Reset? then w else []
    ensures multiset(w) + multiset(PostedBy(s, e, done)) + multiset(s.dropped) ==
            multiset(CompletedBy(s, e, done)) + multiset(t.dropped) + multiset(x)
  {
    var p, c := PostedBy(s, e, done), CompletedBy(s, e, done);
    if e.Reset? {
      ResetAccounts(s, done, t, w, x);
    } else {
      KeepAccounts(s, e, done, t, w, x, p, c);
      Account(s.completed, w, p, c, x, s.dropped, s.posted, t.posted, t.completed);
    }
  }

  lemma ResetAccounts(s: State, done: nat -> bool, t: State, w: seq<nat>, x: seq<nat>)
    requires Inv(s) && t == Step(s, Reset, done) && w == Mbufs(Window(s.ring))
    requires Sized(t.ring) && InUse(t.ring) <= t.ring.len && x == Mbufs(Window(t.ring))
    ensures x == [] && t.dropped == s.dropped + w && PostedBy(s, Reset, done) == CompletedBy(s, Reset, done) == []
  {
    assert InUse(t.ring) == 0 && Window(t.ring) == [];
  }

  lemma KeepAccounts(s: State, e: Event, done: nat -> bool, t: State, w: seq<nat>, x: seq<nat>, p: seq<nat>, c: seq<nat>)
    requires Inv(s) && Legal(e) && t == Step(s, e, done) && !e.Reset? && w == Mbufs(Window(s.ring))
    requires Sized(t.ring) && InUse(t.ring) <= t.ring.len && x == Mbufs(Window(t.ring))
    requires p == PostedBy(s, e, done) && c == CompletedBy(s, e, done)
    ensures s.posted == s.completed + w && t.posted == s.posted + p && t.completed == s.completed + c
    ensures t.posted == t.completed + x && t.dropped == s.dropped
  {
    StepInv(s, e, done, t);
    StepGrows(s, e, done, t);
    Behind(s.completed, t.completed);
  }

  lemma Account(a: seq<nat>, w: seq<nat>, p: seq<nat>, c: seq<nat>, x: seq<nat>, d: seq<nat>,
                posted: seq<nat>, posted': seq<nat>, completed': seq<nat>)
    requires posted == a + w && posted' == posted + p && completed' == a + c && posted' == completed' + x
    ensures multiset(w) + multiset(p) + multiset(d) == multiset(c) + multiset(d) + multiset(x)
  {
    Cancels(a, w, p, c, x);
  }

  lemma ReclaimGrows(s: State, done: nat -> bool)
    requires Sized(s.ring) && InUse(s.ring) < s.ring.len
    ensures var t := AfterReclaim(s, done); s.completed <= t.completed && t.posted == s.posted && t.dropped == s.dropped
  {}

  lemma PostingGrows(s: State, count: nat, mbuf: nat, done: nat -> bool)
    requires Sized(s.ring) && InUse(s.ring) < s.ring.len && count > 0
    ensures var (t, ok) := Posting(s, count, mbuf, done);
            && s.completed <= t.completed && t.dropped == s.dropped
            && t.posted == s.posted + if ok && mbuf != NULL then [mbuf] else []
  {
    ReclaimGrows(s, done);
  }

  lemma StepGrows(s: State, e: Event, done: nat -> bool, t: State)
    requires Inv(s) && Legal(e) && t == Step(s, e, done) && !e.Reset?
    ensures t.dropped == s.dropped && t.posted == s.posted + PostedBy(s, e, done)
    ensures s.completed <= t.completed
  {
    match e
    case Post(mbuf, iovs) => PostingGrows(s, iovs + 1, mbuf, done);
    case Context => PostingGrows(s, 1, NULL, done);
    case Reclaim(d) => ReclaimGrows(s, d);
  }

  lemma Behind(a: seq<nat>, b: seq<nat>)
    requires a <= b
    ensures b == a + b[|a|..]
  {
    assert b[..|a|] == a && b == b[..|a|] + b[|a|..];
  }

  lemma Cancels(a: seq<nat>, w: seq<nat>, p: seq<nat>, c: seq<nat>, x: seq<nat>)
    requires a + w + p == a + c + x
    ensures multiset(w) + multiset(p) == multiset(c) + multiset(x)
  {
    assert multiset(a) + multiset(w) + multiset(p) == multiset(a + w + p);
    assert multiset(a) + multiset(c) + multiset(x) == multiset(a + c + x);
    forall v ensures (multiset(w) + multiset(p))[v] == (multiset(c) + multiset(x))[v] {
      assert multiset(a)[v] + (multiset(w) + multiset(p))[v] == multiset(a + w + p)[v];
      assert multiset(a)[v] + (multiset(c) + multiset(x))[v] == multiset(a + c + x)[v];
    }
  }

  ghost function Run(len: nat, es: seq<(Event, nat -> bool)>): (s: State)
    requires Length(len) && forall i :: 0 <= i < |es| ==> Legal(es[i].0)
    ensures Inv(s)
  {
    if es == [] then EmptyInv(len, []); State(Empty(len), [], [], [])
    else
      var r := Run(len, es[..|es| - 1]);
      var t := Step(r, es[|es| - 1].0, es[|es| - 1].1);
      StepInv(r, es[|es| - 1].0, es[|es| - 1].1, t);
      t
  }

  // ----- the queue -----

  /** The mbufs among the first `k` descriptors. */
  function Found(w: seq<nat>, k: nat): seq<nat>
    requires k <= |w|
  {
    if k == 0 then [] else Found(w, k - 1) + One(w[k - 1])
  }

  lemma {:induction false} FoundIs(w: seq<nat>, k: nat)
    requires k <= |w|
    ensures Found(w, k) == Mbufs(w[..k])
    decreases k
  {
    if k > 0 {
      FoundIs(w, k - 1);
      assert w[..k] == w[..k - 1] + [w[k - 1]];
      MbufsSnoc(w[..k - 1], w[k - 1]);
    }
  }

  /** The loop of `ixgbe_tx_reclaim` has looked at `idx` descriptors. */
  ghost predicate Reclaiming(r: Ring, w: seq<nat>, done: nat -> bool, idx: nat, nb: nat, completed: seq<nat>, now: Ring)
  {
    && idx <= |w| && nb == Last(w, idx) && completed == Found(w, idx)
    && r.len > 0 && |r.entries| == r.len && now == Cleared(r, idx) && Stop(w, done, 0) == Stop(w, done, idx)
  }

  lemma ReclaimEnds(r: Ring, w: seq<nat>, done: nat -> bool, idx: nat, nb: nat, completed: seq<nat>, now: Ring)
    requires Good(r) && w == Window(r) && Reclaiming(r, w, done, idx, nb, completed, now) && Stop(w, done, 0) == idx
    ensures now.(head := Wrap(r.head + nb)) == Reclaimed(r, done) && completed == Mbufs(w[..idx])
    ensures Good(Reclaimed(r, done)) && Free(Reclaimed(r, done)) == r.len - InUse(Reclaimed(r, done))
  {
    FoundIs(w, idx);
    ReclaimKeeps(r, done, Reclaimed(r, done), idx);
  }

  /** The entry that the loop reads is the next one of the window. */
  lemma ReclaimAt(r: Ring, idx: nat, now: Ring)
    requires Sized(r) && idx < InUse(r) <= r.len && now == Cleared(r, idx)
    ensures Slot(r.head + idx, r.len) < |now.entries| && now.entries[Slot(r.head + idx, r.len)] == Window(r)[idx]
  {
    ClearedLap(r, idx);
    assert Lap(now)[idx] == now.entries[Slot(r.head + idx, r.len)];
  }

  /** It is completed or empty, and cleared. */
  lemma ReclaimOn(r: Ring, w: seq<nat>, done: nat -> bool, idx: nat, nb: nat, completed: seq<nat>, now: Ring, i: nat, s: Ring)
    requires Reclaiming(r, w, done, idx, nb, completed, now) && idx < |w| && (w[idx] == NULL || done(idx))
    requires i == Slot(r.head + idx, r.len) < |now.entries| && s == now.(entries := now.entries[i := NULL])
    ensures Reclaiming(r, w, done, idx + 1, if w[idx] == NULL then nb else idx + 1,
                       completed + One(w[idx]), s)
  {
    LastNext(w, idx);
    StopNext(w, done, idx);
    ClearedNext(r, idx, i, s);
  }

  lemma LastNext(w: seq<nat>, k: nat)
    requires k < |w|
    ensures Last(w, k + 1) == if w[k] == NULL then Last(w, k) else k + 1
  {}

  lemma StopNext(w: seq<nat>, done: nat -> bool, k: nat)
    requires k < |w| && (w[k] == NULL || done(k))
    ensures Stop(w, done, k) == Stop(w, done, k + 1)
  {}

  lemma ClearedNext(r: Ring, k: nat, i: nat, s: Ring)
    requires r.len > 0 && |r.entries| == r.len && i == Slot(r.head + k, r.len)
    requires s == Cleared(r, k).(entries := Cleared(r, k).entries[i := NULL])
    ensures s == Cleared(r, k + 1)
  {}

  class Queue {
    const len: nat
    var entries: seq<nat>
    var head: nat
    var tail: nat

    ghost function Now(): Ring
      reads this
    {
      Ring(len, entries, head, tail)
    }

    /** `ixgbe_reset_tx_queue`. */
    method ResetQueue()
      requires |entries| == len
      modifies this
      ensures Now() == Empty(len)
    {
      var i := 0;
      while i < len
        invariant 0 <= i <= len == |entries| && forall k :: 0 <= k < i ==> entries[k] == NULL
      {
        entries := entries[i := NULL];
        i := i + 1;
      }
      head := 0;
      tail := 0;
    }

    /** `ixgbe_tx_reclaim`; `completed` are the mbufs given to `mbuf_xmit_done`. */
    method ReclaimDone(done: nat -> bool) returns (free: nat, completed: seq<nat>)
      requires Good(Now())
      modifies this
      ensures Now() == Reclaimed(old(Now()), done) && Good(Now())
      ensures completed == Mbufs(Window(old(Now()))[..Stop(Window(old(Now())), done, 0)])
      ensures free == len - InUse(Now())
    {
      ghost var r, w, idx := Now(), Window(Now()), 0;
      var nb;
      nb, completed, idx := Scan(done, r, w);
      ReclaimEnds(r, w, done, idx, nb, completed, Now());
      head := Wrap(head + nb);
      free := Wrap(len + head - tail);
      assert Now() == Reclaimed(r, done) && free == Free(Now());
    }

    /** The loop: how many descriptors can be passed, and the mbufs that are done. */
    method Scan(done: nat -> bool, ghost r: Ring, ghost w: seq<nat>) returns (nb: nat, completed: seq<nat>, ghost n: nat)
      requires r == Now() && Good(r) && w == Window(r)
      modifies `entries
      ensures Reclaiming(r, w, done, n, nb, completed, Now()) && Stop(w, done, 0) == n
    {
      var idx := 0;
      nb, completed := 0, [];
      while Wrap(head + idx) != tail
        invariant Reclaiming(r, w, done, idx, nb, completed, Now())
        decreases |w| - idx
      {
        AheadMoves(r.head, r.tail, idx);
        var stop;
        stop, nb, completed := ScanOne(done, idx, nb, completed, r, w);
        if stop {
          return nb, completed, idx;
        }
        idx := idx + 1;
      }
      AheadMoves(r.head, r.tail, idx);
      n := idx;
    }

    /** The body of the loop; `stop` at an mbuf that is not done. */
    method ScanOne(done: nat -> bool, idx: nat, nb: nat, completed: seq<nat>, ghost r: Ring, ghost w: seq<nat>)
      returns (stop: bool, nb': nat, completed': seq<nat>)
      requires Good(r) && w == Window(r) && Reclaiming(r, w, done, idx, nb, completed, Now()) && idx < |w|
      modifies `entries
      ensures Reclaiming(r, w, done, if stop then idx else idx + 1, nb', completed', Now())
      ensures stop ==> Stop(w, done, 0) == idx
    {
      ReclaimAt(r, idx, Now());
      stop, nb', completed' := false, nb, completed;
      var i := Slot(head + idx, len);
      if entries[i] != NULL {
        if !done(idx) {
          stop := true;
        } else {
          ReclaimOn(r, w, done, idx, nb, completed, Now(), i, Ring(len, entries[i := NULL], head, tail));
          completed' := completed + [entries[i]];
          entries := entries[i := NULL];
          nb' := idx + 1;
        }
      } else {
        assert entries == entries[i := NULL] && completed + One(NULL) == completed;
        ReclaimOn(r, w, done, idx, nb, completed, Now(), i, Now());
      }
    }

    /** `ixgbe_tx_xmit_ctx`; false for -EAGAIN. */
    method XmitContext(done: nat -> bool) returns (ok: bool, completed: seq<nat>)
      requires Good(Now())
      modifies this
      ensures Room(old(Now()), 1) ==> ok && completed == [] && Now() == Posted(old(Now()), 1, NULL)
      ensures !Room(old(Now()), 1) ==>
                var r := Reclaimed(old(Now()), done);
                && completed == Mbufs(Window(old(Now()))[..Stop(Window(old(Now())), done, 0)])
                && ok == Room(r, 1) && |r.entries| == r.len == len && Now() == if ok then Posted(r, 1, NULL) else r
    {
      completed := [];
      if Wrap(tail + 1 - head) >= len {
        var free;
        free, completed := ReclaimDone(done);
        if Wrap(tail + 1 - head) >= len {
          return false, completed;
        }
      }
      PostContext();
      ok := true;
    }

    /** The context descriptor has no mbuf. */
    method PostContext()
      requires len > 0 && |entries| == len
      modifies this`entries, this`tail
      ensures Now() == Posted(old(Now()), 1, NULL)
    {
      entries := entries[Slot(tail, len) := NULL];
      tail := Wrap(tail + 1);
    }
  }
}
