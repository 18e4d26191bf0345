/** The receive ring of ixgbe/ixgbe_rxtx.c. */
module RxRing {
  import opened RingIndex

  const RDT_THRESH: nat := 32

  /** Descriptors taken from the hardware and not yet given back. */
  function Unreturned(r: Ring): nat { Wrap(r.len - (r.tail + 1 - r.head)) }

  /** Every slot holds exactly one mbuf, no two the same, and few descriptors are held back. */
  ghost predicate Good(r: Ring) {
    && Sized(r) && Ahead(r.head, r.tail) < r.len && r.len - 1 - Ahead(r.head, r.tail) < RDT_THRESH
    && NULL !in Lap(r) && forall j, k :: 0 <= j < k < r.len ==> Lap(r)[j] != Lap(r)[k]
  }

  lemma UnreturnedIs(r: Ring)
    requires r.head < U16 && r.tail < U16 && Ahead(r.head, r.tail) < r.len <= 4096
    ensures Unreturned(r) == r.len - 1 - Ahead(r.head, r.tail)
  {
    WrapNear(r.tail - r.head);
    WrapNear(r.len - (r.tail + 1 - r.head));
  }

  // ----- ixgbe_rx_poll -----

  /** How many descriptors a poll takes: up to the first that the hardware has not completed, or
      the first for which there is no new mbuf. */
  function Count(done: nat -> bool, grants: nat, k: nat): (n: nat)
    requires k <= grants
    ensures k <= n <= grants
    ensures forall i :: k <= i < n ==> done(i)
    ensures n < grants ==> !done(n)
    decreases grants - k
  {
    if k < grants && done(k) then Count(done, grants, k + 1) else k
  }

  /** The new mbufs take the place of the first `n`. */
  function Refilled(r: Ring, grants: seq<nat>, n: nat): (s: Ring)
    requires r.len > 0 && |r.entries| == r.len && n <= |grants|
    ensures |s.entries| == r.len && s == r.(entries := s.entries)
  {
    if n == 0 then r
    else
      var s := Refilled(r, grants, n - 1);
      s.(entries := s.entries[Slot(r.head + n - 1, r.len) := grants[n - 1]])
  }

  /** The ring after taking `n`, before `tail` is looked at. */
  function Taken(r: Ring, grants: seq<nat>, n: nat): Ring
    requires r.len > 0 && |r.entries| == r.len && n <= |grants|
  {
    Refilled(r, grants, n).(head := Wrap(r.head + n))
  }

  function Returned(r: Ring): Ring {
    if Unreturned(r) >= RDT_THRESH then r.(tail := Wrap(r.head + r.len - 1)) else r
  }

  /** `ixgbe_rx_poll`: `done(k)` is what the hardware reports of the `k`-th descriptor from
      `head`, and `grants` are the mbufs that can be allocated. */
  function Polled(r: Ring, done: nat -> bool, grants: seq<nat>): Ring
    requires r.len > 0 && |r.entries| == r.len
  {
    Returned(Taken(r, grants, Count(done, |grants|, 0)))
  }

  lemma {:induction false} RefilledLap(r: Ring, grants: seq<nat>, n: nat)
    requires Sized(r) && n <= |grants| && n <= r.len
    ensures Lap(Refilled(r, grants, n)) == grants[..n] + Lap(r)[n..]
    decreases n
  {
    if n > 0 {
      RefilledLap(r, grants, n - 1);
      LapWrite(Refilled(r, grants, n - 1), n - 1, grants[n - 1], Refilled(r, grants, n));
    }
  }

  /** The hardware completes only descriptors before `tail`. */
  ghost predicate Honest(r: Ring, done: nat -> bool) { forall k: nat :: done(k) ==> k < Ahead(r.head, r.tail) }

  /** Mbufs that are nowhere on the ring. */
  ghost predicate Fresh(r: Ring, grants: seq<nat>)
    requires r.len > 0 && |r.entries| == r.len
  {
    && (forall i :: 0 <= i < |grants| ==> grants[i] != NULL && grants[i] !in Lap(r))
    && forall i, j :: 0 <= i < j < |grants| ==> grants[i] != grants[j]
  }

  lemma CountWithin(r: Ring, done: nat -> bool, grants: nat)
    requires Honest(r, done)
    ensures Count(done, grants, 0) <= Ahead(r.head, r.tail)
  {
    var n := Count(done, grants, 0);
    if n > 0 { assert done(n - 1); }
  }

  lemma TakenLap(r: Ring, grants: seq<nat>, n: nat, s: Ring)
    requires Sized(r) && n <= |grants| && n <= Ahead(r.head, r.tail) < r.len
    requires s == Taken(r, grants, n)
    ensures Sized(s) && s.len == r.len && Ahead(s.head, s.tail) == Ahead(r.head, r.tail) - n
    ensures Lap(s) == Lap(r)[n..] + grants[..n]
  {
    RefilledLap(r, grants, n);
    LapMove(Refilled(r, grants, n), n, s);
    AheadMoves(r.head, r.tail, n);
  }

  lemma ReturnedGood(s: Ring, r: Ring)
    requires Sized(s) && Ahead(s.head, s.tail) < s.len && r == Returned(s)
    ensures Sized(r) && Lap(r) == Lap(s) && Ahead(r.head, r.tail) < r.len
    ensures Unreturned(r) == r.len - 1 - Ahead(r.head, r.tail) < 32
    ensures Ahead(r.head, r.tail) == if s.len - 1 - Ahead(s.head, s.tail) >= 32 then s.len - 1 else Ahead(s.head, s.tail)
  {
    UnreturnedIs(s);
    WrapNear(s.head + s.len - 1);
    WrapNear(Wrap(s.head + s.len - 1) - s.head);
    UnreturnedIs(r);
  }

  /** A poll takes the oldest mbufs in ring order and puts as many new ones behind the others:
      nothing is lost, every slot holds one mbuf, and fewer than 32 descriptors stay unreturned.
      Where an allocation fails, the completed descriptor is the next one to be taken. */
  lemma PollKeeps(r: Ring, done: nat -> bool, grants: seq<nat>, s: Ring, n: nat)
    requires Good(r) && Honest(r, done) && Fresh(r, grants) && s == Polled(r, done, grants) && n == Count(done, |grants|, 0)
    ensures Good(s) && s.len == r.len && n <= Ahead(r.head, r.tail) && Unreturned(s) < 32
    ensures Lap(s) == Lap(r)[n..] + grants[..n]
  {
    CountWithin(r, done, |grants|);
    PollLap(r, grants, Taken(r, grants, n), s, n);
    StillDistinct(Lap(r), grants, n, Lap(s));
  }

  lemma PollLap(r: Ring, grants: seq<nat>, t: Ring, s: Ring, n: nat)
    requires Sized(r) && n <= |grants| && n <= Ahead(r.head, r.tail) < r.len
    requires t == Taken(r, grants, n) && s == Returned(t)
    ensures Sized(s) && s.len == r.len && Ahead(s.head, s.tail) < s.len
    ensures Unreturned(s) == s.len - 1 - Ahead(s.head, s.tail) < 32
    ensures Lap(s) == Lap(r)[n..] + grants[..n]
  {
    TakenLap(r, grants, n, t);
    ReturnedGood(t, s);
  }

  lemma StillDistinct(lap: seq<nat>, grants: seq<nat>, n: nat, w: seq<nat>)
    requires n <= |lap| && n <= |grants| && w == lap[n..] + grants[..n] && NULL !in lap && forall j, k :: 0 <= j < k < |lap| ==> lap[j] != lap[k]
    requires forall i :: 0 <= i < |grants| ==> grants[i] != NULL && grants[i] !in lap
    requires forall i, j :: 0 <= i < j < |grants| ==> grants[i] != grants[j]
    ensures NULL !in w && forall j, k :: 0 <= j < k < |w| ==> w[j] != w[k]
  {}

  /** A poll gives descriptors back to the hardware exactly when 32 or more are held back. */
  lemma TailMoves(r: Ring, done: nat -> bool, grants: seq<nat>, n: nat)
    requires Good(r) && Honest(r, done) && n == Count(done, |grants|, 0)
    ensures n <= Ahead(r.head, r.tail)
    ensures Polled(r, done, grants).tail != r.tail <==> r.len - 1 - (Ahead(r.head, r.tail) - n) >= 32
  {
    CountWithin(r, done, |grants|);
    TakenTail(r, grants, n, Taken(r, grants, n));
    ReturnedTail(Taken(r, grants, n), Polled(r, done, grants));
  }

  lemma TakenTail(r: Ring, grants: seq<nat>, n: nat, t: Ring)
    requires Sized(r) && n <= |grants| && n <= Ahead(r.head, r.tail) < r.len && t == Taken(r, grants, n)
    ensures Sized(t) && t.len == r.len && t.tail == r.tail && Ahead(t.head, t.tail) == Ahead(r.head, r.tail) - n
  {
    TakenLap(r, grants, n, t);
  }

  lemma ReturnedTail(t: Ring, s: Ring)
    requires Sized(t) && Ahead(t.head, t.tail) < t.len && s == Returned(t)
    ensures s.tail != t.tail <==> t.len - 1 - Ahead(t.head, t.tail) >= 32
  {
    UnreturnedIs(t);
    ReturnedGood(t, s);
    assert s.head == t.head;
  }

  /** New mbufs, as many as are wanted. */
  lemma {:induction false} MakeFresh(lap: seq<nat>, n: nat) returns (grants: seq<nat>)
    ensures |grants| == n && (forall i :: 0 <= i < n ==> grants[i] != NULL && grants[i] !in lap)
    ensures forall i, j :: 0 <= i < j < n ==> grants[i] != grants[j]
  {
    var top := Above(lap);
    grants := seq(n, i requires 0 <= i < n => top + i);
  }

  lemma {:induction false} Above(q: seq<nat>) returns (top: nat)
    ensures top > 0 && forall i :: 0 <= i < |q| ==> q[i] < top
    decreases |q|
  {
    if q == [] {
      top := 1;
    } else {
      top := Above(q[..|q| - 1]);
      top := if q[|q| - 1] < top then top else q[|q| - 1] + 1;
    }
  }

  /** Some poll gives descriptors back. */
  ghost predicate CanReturn(r: Ring)
    requires r.len > 0 && |r.entries| == r.len
  {
    exists done: nat -> bool, grants: seq<nat> :: Honest(r, done) && Fresh(r, grants) && Polled(r, done, grants).tail != r.tail
  }

  /** From a good ring, `tail` can move if and only if the ring has more than 32 descriptors. */
  lemma ShortRingStarves(r: Ring)
    requires Good(r)
    ensures CanReturn(r) <==> r.len > 32
  {
    if r.len > RDT_THRESH {
      var all := Ahead(r.head, r.tail);
      var grants := MakeFresh(Lap(r), all);
      var done := (k: nat) => k < all;
      CountAll(done, all, 0);
      TailMoves(r, done, grants, all);
      assert Honest(r, done) && Fresh(r, grants) && Polled(r, done, grants).tail != r.tail;
    } else {
      forall done: nat -> bool, grants: seq<nat> | Honest(r, done) && Fresh(r, grants)
        ensures Polled(r, done, grants).tail == r.tail
      {
        TailMoves(r, done, grants, Count(done, |grants|, 0));
      }
    }
  }

  lemma {:induction false} CountAll(done: nat -> bool, grants: nat, k: nat)
    requires k <= grants && forall i: nat :: i < grants ==> done(i)
    ensures Count(done, grants, k) == grants
    decreases grants - k
  {
    if k < grants { CountAll(done, grants, k + 1); }
  }

  // ----- every run -----

  datatype Poll = Poll(done: nat -> bool, grants: seq<nat>)

  /** All mbufs taken from the ring so far, and all that were put on it after the first lap. */
  datatype State = State(ring: Ring, taken: seq<nat>, added: seq<nat>)

  ghost predicate Legal(s: State, p: Poll) {
    Sized(s.ring) && Honest(s.ring, p.done) && Fresh(s.ring, p.grants)
  }

  ghost function Step(s: State, p: Poll): State
    requires Sized(s.ring) && Legal(s, p)
  {
    var n := Count(p.done, |p.grants|, 0);
    State(Polled(s.ring, p.done, p.grants), s.taken + Front(Lap(s.ring), n), s.added + p.grants[..n])
  }

  function Front(s: seq<nat>, n: nat): seq<nat> { if n <= |s| then s[..n] else s }

  ghost predicate Run(r: Ring, ps: seq<Poll>, s: State) {
    if ps == [] then s == State(r, [], [])
    else exists t :: Run(r, ps[..|ps| - 1], t) && Sized(t.ring) && Legal(t, ps[|ps| - 1]) && s == Step(t, ps[|ps| - 1])
  }

  /** In every run: the mbufs taken, followed by those on the ring, are those of the first lap
      followed by those added.  So each is taken once, in order. */
  lemma {:induction false} RunInOrder(r: Ring, ps: seq<Poll>, s: State)
    requires Good(r) && Run(r, ps, s)
    ensures Good(s.ring) && s.taken + Lap(s.ring) == Lap(r) + s.added
    decreases |ps|
  {
    if ps == [] {
      assert Lap(r) + [] == Lap(r) && [] + Lap(r) == Lap(r);
    } else {
      var p := ps[|ps| - 1];
      var t :| Run(r, ps[..|ps| - 1], t) && Sized(t.ring) && Legal(t, p) && s == Step(t, p);
      RunInOrder(r, ps[..|ps| - 1], t);
      var n := Count(p.done, |p.grants|, 0);
      PollKeeps(t.ring, p.done, p.grants, s.ring, n);
      Moved(t.taken, Lap(t.ring), n, p.grants[..n], Lap(r), t.added);
    }
  }

  /** Filling a cleared queue gives a ring from which runs start, with the new mbufs as first lap. */
  lemma FilledGood(len: nat, grants: seq<nat>, r: Ring)
    requires Length(len) && |grants| == len && NULL !in grants && forall i, j :: 0 <= i < j < len ==> grants[i] != grants[j]
    requires r == Ring(len, grants, 0, len - 1)
    ensures Good(r) && Lap(r) == grants
  {
    WrapNear(len - 1);
    assert forall k :: 0 <= k < len ==> Lap(r)[k] == grants[Slot(0 + k, len)] == grants[k];
    assert Lap(r) == grants;
  }

  /** So the mbufs of the fill are the first to be taken, in order. */
  lemma RunFromFill(len: nat, grants: seq<nat>, ps: seq<Poll>, s: State)
    requires Length(len) && |grants| == len && NULL !in grants && forall i, j :: 0 <= i < j < len ==> grants[i] != grants[j]
    requires Run(Ring(len, grants, 0, len - 1), ps, s)
    ensures Good(s.ring) && s.taken + Lap(s.ring) == grants + s.added
  {
    FilledGood(len, grants, Ring(len, grants, 0, len - 1));
    RunInOrder(Ring(len, grants, 0, len - 1), ps, s);
  }

  lemma Moved(taken: seq<nat>, lap: seq<nat>, n: nat, new': seq<nat>, first: seq<nat>, added: seq<nat>)
    requires n <= |lap| && taken + lap == first + added
    ensures (taken + lap[..n]) + (lap[n..] + new') == first + (added + new')
  {
    assert lap == lap[..n] + lap[n..];
    assert (taken + lap[..n]) + (lap[n..] + new') == taken + lap + new';
  }

  // ----- the queue -----

  /** What became of a received mbuf: passed up, or freed for a bad checksum or because
      `eth_recv` refused it. */
  datatype Fate = Up(mbuf: nat) | Freed(mbuf: nat)

  function MbufsOf(log: seq<Fate>): (m: seq<nat>)
    ensures |m| == |log| && forall i :: 0 <= i < |log| ==> m[i] == log[i].mbuf
  {
    seq(|log|, i requires 0 <= i < |log| => log[i].mbuf)
  }

  /** The loop of `ixgbe_rx_poll` has taken `n` descriptors. */
  ghost predicate Polling(r: Ring, done: nat -> bool, grants: seq<nat>, n: nat, log: seq<Fate>, now: Ring) {
    && r.len > 0 && |r.entries| == r.len && n <= |grants| && n <= Ahead(r.head, r.tail) && n <= r.len
    && now == Taken(r, grants, n)
    && Count(done, |grants|, 0) == Count(done, |grants|, n) && |log| == n && forall i :: 0 <= i < n ==> log[i].mbuf == Lap(r)[i]
  }

  /** The entry that the loop reads is the next one of the lap. */
  lemma PollAt(r: Ring, grants: seq<nat>, n: nat, now: Ring)
    requires Sized(r) && n < |grants| && n < r.len && now == Taken(r, grants, n)
    ensures Slot(now.head, r.len) == Slot(r.head + n, r.len)
    ensures Slot(now.head, r.len) < |now.entries| && now.entries[Slot(now.head, r.len)] == Lap(r)[n]
  {
    SlotWraps(r.head + n, 0, r.len);
    RefilledLap(r, grants, n);
    assert Lap(Refilled(r, grants, n))[n] == Lap(r)[n];
  }

  lemma TakenNext(r: Ring, grants: seq<nat>, n: nat, now: Ring, s: Ring)
    requires r.len > 0 && |r.entries| == r.len && n < |grants| && now == Taken(r, grants, n)
    requires Slot(now.head, r.len) == Slot(r.head + n, r.len)
    requires s == now.(entries := now.entries[Slot(now.head, r.len) := grants[n]], head := Wrap(now.head + 1))
    ensures s == Taken(r, grants, n + 1)
  {
    WrapTwice(r.head + n);
  }

  lemma PollRound(r: Ring, done: nat -> bool, grants: seq<nat>, n: nat, log: seq<Fate>, now: Ring, f: Fate, s: Ring)
    requires Polling(r, done, grants, n, log, now) && done(n) && n < |grants| && n < Ahead(r.head, r.tail) && n < r.len
    requires Slot(now.head, r.len) == Slot(r.head + n, r.len) < |now.entries| && f.mbuf == Lap(r)[n]
    requires s == now.(entries := now.entries[Slot(now.head, r.len) := grants[n]], head := Wrap(now.head + 1))
    ensures Polling(r, done, grants, n + 1, log + [f], s)
  {
    TakenNext(r, grants, n, now, s);
  }

  class Queue {
    const len: nat
    var entries: seq<nat>
    var head: nat
    var tail: nat

    ghost function Now(): Ring
      reads this
    {
      Ring(len, entries, head, tail)
    }

    /** `ixgbe_rx_poll`; `good(k)` and `accepts(k)` are the checksum and what `eth_recv` makes of
        the `k`-th packet. */
    method PollQueue(done: nat -> bool, grants: seq<nat>, good: nat -> bool, accepts: nat -> bool)
      returns (n: nat, log: seq<Fate>)
      requires Good(Now()) && Honest(Now(), done) && Fresh(Now(), grants)
      modifies this
      ensures Now() == Polled(old(Now()), done, grants) && n == Count(done, |grants|, 0) == |log|
      ensures n <= len && MbufsOf(log) == Lap(old(Now()))[..n]
      ensures forall k :: 0 <= k < n ==> (log[k].Up? <==> good(k) && accepts(k))
    {
      ghost var r := Now();
      n, log := TakeAll(done, grants, good, accepts, r);
      CountWithin(r, done, |grants|);
      if Wrap(len - (tail + 1 - head)) >= RDT_THRESH {
        tail := Wrap(head + len - 1);
      }
    }

    /** The loop of `ixgbe_rx_poll`. */
    method TakeAll(done: nat -> bool, grants: seq<nat>, good: nat -> bool, accepts: nat -> bool, ghost r: Ring)
      returns (n: nat, log: seq<Fate>)
      requires r == Now() && Good(r) && Honest(r, done)
      modifies `entries, `head
      ensures Polling(r, done, grants, n, log, Now()) && n == Count(done, |grants|, 0) == |log|
      ensures forall k :: 0 <= k < n ==> (log[k].Up? <==> good(k) && accepts(k))
    {
      n, log := 0, [];
      while done(n)
        invariant Polling(r, done, grants, n, log, Now()) && |log| == n
        invariant forall k :: 0 <= k < n ==> (log[k].Up? <==> good(k) && accepts(k))
        decreases |grants| - n
      {
        if n == |grants| {
          return;
        }
        assert n < Ahead(r.head, r.tail) < r.len;
        PollAt(r, grants, n, Now());
        var slot := Slot(head, len);
        var f := if good(n) && accepts(n) then Up(entries[slot]) else Freed(entries[slot]);
        PollRound(r, done, grants, n, log, Now(), f, Ring(len, entries[slot := grants[n]], Wrap(head + 1), tail));
        entries := entries[slot := grants[n]];
        log := log + [f];
        head := Wrap(head + 1);
        n := n + 1;
      }
    }

    /** `ixgbe_clear_rx_queue`: every mbuf on the ring is freed once. */
    method Clear() returns (freed: seq<nat>)
      requires |entries| == len && len > 0
      modifies this
      ensures |entries| == len && (forall k :: 0 <= k < len ==> entries[k] == NULL) && head == 0 && tail == len - 1
      ensures freed == Held(old(entries), len)
      ensures NULL !in freed && forall x :: x != NULL ==> multiset(freed)[x] == multiset(old(entries))[x]
    {
      freed := [];
      ghost var e := entries;
      var i := 0;
      while i < len
        invariant 0 <= i <= len == |entries| == |e| && freed == Held(e, i)
        invariant forall k :: 0 <= k < i ==> entries[k] == NULL
        invariant forall k :: i <= k < len ==> entries[k] == e[k]
      {
        if entries[i] != NULL {
          freed := freed + [entries[i]];
          entries := entries[i := NULL];
        }
        i := i + 1;
      }
      HeldIs(e, len);
      assert e[..len] == e;
      head := 0;
      tail := len - 1;
    }

    /** `ixgbe_alloc_rx_mbufs`: all slots are filled, or what was allocated is freed again.  In that
        case the first entries still name the freed mbufs. */
    method Fill(grants: seq<nat>) returns (ok: bool, freed: seq<nat>)
      requires |entries| == len && forall i :: 0 <= i < |grants| ==> grants[i] != NULL
      modifies this
      ensures |entries| == len && ok == (|grants| >= len) && head == old(head) && tail == old(tail)
      ensures if ok then entries == grants[..len] && freed == []
              else multiset(freed) == multiset(grants) && entries == grants + old(entries)[|grants|..]
    {
      freed := [];
      var i := 0;
      while i < len
        invariant 0 <= i <= len == |entries| && i <= |grants| && entries[..i] == grants[..i] && freed == []
        invariant head == old(head) && tail == old(tail) && entries[i..] == old(entries)[i..]
      {
        if i == |grants| {
          assert grants[..i] == grants;
          freed := GiveBack(i, grants);
          return false, freed;
        }
        entries := entries[i := grants[i]];
        i := i + 1;
      }
      ok := true;
    }

    method GiveBack(n: nat, ghost grants: seq<nat>) returns (freed: seq<nat>)
      requires n <= |entries| && entries[..n] == grants
      ensures multiset(freed) == multiset(grants)
    {
      freed := [];
      var i := n;
      assert grants[..n] == grants;
      while i > 0
        invariant 0 <= i <= n && multiset(freed) + multiset(grants[..i]) == multiset(grants)
      {
        assert grants[..i] == grants[..i - 1] + [grants[i - 1]];
        i := i - 1;
        freed := freed + [entries[i]];
      }
    }
  }

  function Held(entries: seq<nat>, n: nat): seq<nat>
    requires n <= |entries|
  {
    if n == 0 then [] else Held(entries, n - 1) + (if entries[n - 1] == NULL then [] else [entries[n - 1]])
  }

  /** All mbufs among the entries, each as often as it is there. */
  lemma {:induction false} HeldIs(entries: seq<nat>, n: nat)
    requires n <= |entries|
    ensures NULL !in Held(entries, n)
    ensures forall x :: x != NULL ==> multiset(Held(entries, n))[x] == multiset(entries[..n])[x]
    decreases n
  {
    if n > 0 {
      HeldIs(entries, n - 1);
      assert entries[..n] == entries[..n - 1] + [entries[n - 1]];
    }
  }
}
