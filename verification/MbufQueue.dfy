/** The linked queues behind the flow-group machine: `struct queue`, `struct eth_rx_queue`,
    `enqueue`, the head removal of `eth_process_recv_queue`, and `migrate_pkts_to_remote`,
    which unlinks nodes through a pointer to the previous link.

    The `next` fields of all mbufs are one map that the methods update. */
module MbufQueues {
  import opened FlowGroups

  /** A pointer to an mbuf, with the packet that the mbuf carries. */
  datatype Mbuf = Mbuf(addr: nat, pkt: Pkt)

  const NULL := Mbuf(0, Pkt(0, 0))

  type Links = map<Mbuf, Mbuf>

  function Packets(list: seq<Mbuf>): (ps: seq<Pkt>)
    ensures |ps| == |list| && forall i :: 0 <= i < |list| ==> ps[i] == list[i].pkt
  {
    seq(|list|, i requires 0 <= i < |list| => list[i].pkt)
  }

  ghost predicate Distinct(list: seq<Mbuf>) {
    NULL !in list && forall i, j :: 0 <= i < j < |list| ==> list[i] != list[j]
  }

  ghost predicate Apart(a: seq<Mbuf>, b: seq<Mbuf>) {
    forall i :: 0 <= i < |a| ==> a[i] !in b
  }

  /** Following `next` from `a` visits `list` and then reaches `b`. */
  ghost predicate Path(next: Links, a: Mbuf, list: seq<Mbuf>, b: Mbuf)
    decreases |list|
  {
    if list == [] then a == b
    else a == list[0] && a in next && Path(next, next[a], list[1..], b)
  }

  lemma {:induction false} PathFrame(next: Links, a: Mbuf, list: seq<Mbuf>, b: Mbuf, m: Mbuf, x: Mbuf)
    requires Path(next, a, list, b) && m !in list
    ensures Path(next[m := x], a, list, b)
    decreases |list|
  {
    if list != [] {
      PathFrame(next, next[a], list[1..], b, m, x);
    }
  }

  /** Storing `x` in the last node leads the path to `x`. */
  lemma {:induction false} PathRelink(next: Links, a: Mbuf, list: seq<Mbuf>, b: Mbuf, x: Mbuf)
    requires Path(next, a, list, b) && list != [] && Distinct(list)
    ensures Path(next[list[|list| - 1] := x], a, list, x)
    decreases |list|
  {
    var last := list[|list| - 1];
    if |list| == 1 {
      assert list[1..] == [];
    } else {
      assert list[1..][|list| - 2] == last;
      PathRelink(next, next[a], list[1..], b, x);
    }
  }

  lemma {:induction false} PathSnoc(next: Links, a: Mbuf, list: seq<Mbuf>, b: Mbuf)
    requires Path(next, a, list, b) && b in next
    ensures Path(next, a, list + [b], next[b])
    decreases |list|
  {
    if list == [] {
      assert ([b])[1..] == [];
    } else {
      PathSnoc(next, next[a], list[1..], b);
      assert (list + [b])[1..] == list[1..] + [b];
    }
  }

  lemma PacketsSnoc(list: seq<Mbuf>, m: Mbuf, g: nat)
    ensures Packets(list + [m]) == Packets(list) + [m.pkt]
    ensures NotOfGroup(Packets(list + [m]), g) == NotOfGroup(Packets(list), g) + (if m.pkt.fg == g then [] else [m.pkt])
    ensures OfGroup(Packets(list + [m]), g) == OfGroup(Packets(list), g) + (if m.pkt.fg == g then [m.pkt] else [])
  {
    assert Packets(list + [m]) == Packets(list) + [m.pkt];
    assert (Packets(list) + [m.pkt])[..|list|] == Packets(list);
  }

  /** How far the walk has come: `done` is kept or moved, `rest` is still to be looked at. */
  datatype Walk = Walk(done: seq<Mbuf>, rest: seq<Mbuf>, kept: seq<Mbuf>, moved: seq<Mbuf>)

  /** The packets looked at are split by group. */
  ghost predicate Sorts(w: Walk, g: nat) {
    && Packets(w.kept) == NotOfGroup(Packets(w.done), g) && Packets(w.moved) == OfGroup(Packets(w.done), g)
    && multiset(w.kept) + multiset(w.moved) == multiset(w.done)
  }

  /** No node occurs twice. */
  ghost predicate Parts(w: Walk, all: seq<Mbuf>) {
    w.done + w.rest == all && Distinct(w.rest) && Distinct(w.kept)
    && Apart(w.done, w.rest) && forall i :: 0 <= i < |w.kept| ==> w.kept[i] in w.done
  }

  function Next(w: Walk, g: nat): Walk
    requires w.rest != []
  {
    var m := w.rest[0];
    if m.pkt.fg == g then Walk(w.done + [m], w.rest[1..], w.kept, w.moved + [m])
    else Walk(w.done + [m], w.rest[1..], w.kept + [m], w.moved)
  }

  lemma NextSorts(w: Walk, r: Walk, g: nat)
    requires Sorts(w, g) && w.rest != [] && r == Next(w, g)
    ensures Sorts(r, g)
  {
    PacketsSnoc(w.done, w.rest[0], g);
    PacketsSnoc(w.kept, w.rest[0], g);
    PacketsSnoc(w.moved, w.rest[0], g);
  }

  lemma NextParts(w: Walk, r: Walk, all: seq<Mbuf>, g: nat)
    requires Parts(w, all) && w.rest != [] && r == Next(w, g)
    ensures Parts(r, all)
    ensures w.rest[0] !in w.kept && w.rest[0] !in w.rest[1..] && Apart(w.kept, w.rest)
  {
    var m := w.rest[0];
    assert w.rest == [m] + r.rest && m in w.rest;
    assert forall x :: x in w.done ==> x !in w.rest;
    assert forall i :: 0 <= i < |w.kept| ==> w.kept[i] in w.done && w.kept[i] != m;
  }

  /** The walk after `i` packets. */
  ghost function WalkAt(all: seq<Mbuf>, g: nat, i: nat): (w: Walk)
    requires i <= |all|
    ensures |w.rest| == |all| - i
  {
    if i == 0 then Walk([], all, [], []) else Next(WalkAt(all, g, i - 1), g)
  }

  lemma {:induction false} WalkInvariant(all: seq<Mbuf>, g: nat, i: nat)
    requires Distinct(all) && i <= |all|
    ensures Sorts(WalkAt(all, g, i), g) && Parts(WalkAt(all, g, i), all)
  {
    if i == 0 {
      assert Packets([]) == [] && [] + all == all;
    } else {
      WalkInvariant(all, g, i - 1);
      NextSorts(WalkAt(all, g, i - 1), WalkAt(all, g, i), g);
      NextParts(WalkAt(all, g, i - 1), WalkAt(all, g, i), all, g);
    }
  }

  lemma WalkNode(all: seq<Mbuf>, q0: seq<Mbuf>, g: nat, i: nat, w: Walk)
    requires Distinct(all) && Apart(all, q0) && i < |all| && w == WalkAt(all, g, i)
    ensures w.rest[0] !in w.kept && w.rest[0] !in w.rest[1..] && Apart(w.kept, w.rest) && Distinct(w.kept)
    ensures Apart(w.kept, q0 + w.moved) && Apart(w.rest, q0 + w.moved) && NULL !in w.kept + w.rest
  {
    WalkInvariant(all, g, i);
    NextParts(w, Next(w, g), all, g);
    WalkApart(all, q0, w, g);
  }

  /** Kept and moved packets are different nodes, as no node occurs twice among them. */
  lemma WalkApart(all: seq<Mbuf>, q0: seq<Mbuf>, w: Walk, g: nat)
    requires Distinct(all) && Apart(all, q0) && Sorts(w, g) && Parts(w, all)
    ensures Apart(w.kept, q0 + w.moved) && Apart(w.rest, q0 + w.moved) && NULL !in w.kept + w.rest
  {
    assert all == w.done + w.rest;
    forall m | m in w.moved ensures m in w.done {
      assert multiset(w.moved)[m] > 0 && multiset(w.done)[m] > 0;
    }
    assert forall i :: 0 <= i < |w.done| ==> w.done[i] == all[i];
    DistinctCount(w.done);
    forall i | 0 <= i < |w.kept| ensures w.kept[i] !in q0 + w.moved {
      var m := w.kept[i];
      assert m in all && multiset(w.done)[m] == 1 && multiset(w.kept)[m] >= 1;
    }
    forall i | 0 <= i < |w.rest| ensures w.rest[i] !in q0 + w.moved {
      assert w.rest[i] in all;
    }
  }

  lemma {:induction false} DistinctCount(list: seq<Mbuf>)
    requires Distinct(list)
    ensures forall m :: m in list ==> multiset(list)[m] == 1
    decreases |list|
  {
    if list != [] {
      var init, last := list[..|list| - 1], list[|list| - 1];
      DistinctCount(init);
      assert list == init + [last];
    }
  }

  lemma WalkOver(all: seq<Mbuf>, g: nat, i: nat, w: Walk, next: Links)
    requires Distinct(all) && i <= |all| && w == WalkAt(all, g, i) && Path(next, NULL, w.rest, NULL)
    ensures i == |all|
  {
    WalkInvariant(all, g, i);
  }

  lemma WalkEnd(all: seq<Mbuf>, q0: seq<Mbuf>, g: nat, w: Walk)
    requires Distinct(all) && Apart(all, q0) && w == WalkAt(all, g, |all|)
    ensures Distinct(w.kept) && multiset(w.kept) + multiset(w.moved) == multiset(all)
    ensures Packets(w.kept) == NotOfGroup(Packets(all), g) && Packets(w.moved) == OfGroup(Packets(all), g)
    ensures Apart(w.kept, q0 + w.moved)
  {
    WalkInvariant(all, g, |all|);
    WalkApart(all, q0, w, g);
    assert w.done + [] == w.done;
  }

  /** `*prv = pkt->next` in memory. */
  function Unlinked(next: Links, prv: Mbuf, n: Mbuf): Links { if prv == NULL then next else next[prv := n] }

  function LastOf(list: seq<Mbuf>): Mbuf { if list == [] then NULL else list[|list| - 1] }

  /** `enqueue` in memory. */
  function Enqueued(next: Links, list: seq<Mbuf>, pkt: Mbuf): Links {
    if list == [] then next[pkt := NULL] else next[pkt := NULL][list[|list| - 1] := pkt]
  }

  /** A path through nodes that are neither queued on `list` nor `pkt` survives `enqueue`. */
  lemma EnqueueFrame(next: Links, a: Mbuf, path: seq<Mbuf>, b: Mbuf, list: seq<Mbuf>, pkt: Mbuf)
    requires Path(next, a, path, b) && pkt !in path && Apart(path, list)
    ensures Path(Enqueued(next, list, pkt), a, path, b)
  {
    PathFrame(next, a, path, b, pkt, NULL);
    if list != [] {
      assert forall i :: 0 <= i < |path| ==> path[i] != LastOf(list);
      PathFrame(next[pkt := NULL], a, path, b, LastOf(list), pkt);
    }
  }

  /** What `*prv = pkt->next` does to the kept part, the rest, and the other queue. */
  lemma UnlinkPaths(next: Links, head: Mbuf, kept: seq<Mbuf>, pkt: Mbuf, rest: seq<Mbuf>, qh: Mbuf, list: seq<Mbuf>)
    requires Path(next, head, kept, pkt) && pkt in next && Path(next, next[pkt], rest, NULL) && Path(next, qh, list, NULL)
    requires Distinct(kept) && pkt !in kept && Apart(kept, rest) && Apart(kept, list)
    ensures var n, r := next[pkt], Unlinked(next, LastOf(kept), next[pkt]);
            && Path(r, if kept == [] then n else head, kept, n) && Path(r, n, rest, NULL) && Path(r, qh, list, NULL)
  {
    if kept != [] {
      var prv := LastOf(kept);
      assert kept[|kept| - 1] == prv && prv !in rest && prv !in list && prv != NULL;
      PathRelink(next, head, kept, pkt, next[pkt]);
      PathFrame(next, next[pkt], rest, NULL, prv, next[pkt]);
      PathFrame(next, qh, list, NULL, prv, next[pkt]);
    }
  }

  lemma {:induction false} PathEnd(next: Links, a: Mbuf, list: seq<Mbuf>, b: Mbuf)
    requires Path(next, a, list, b) && list != []
    ensures LastOf(list) in next && next[LastOf(list)] == b
    decreases |list|
  {
    if |list| == 1 {
      assert list[1..] == [];
    } else {
      PathEnd(next, next[a], list[1..], b);
    }
  }

  /** A packet that stays: the walk goes one link further. */
  lemma KeepPaths(next: Links, head: Mbuf, w: Walk, r: Walk, g: nat)
    requires w.rest != [] && Path(next, head, w.kept, w.rest[0]) && Path(next, w.rest[0], w.rest, NULL)
    requires w.rest[0].pkt.fg != g && r == Next(w, g)
    ensures w.rest[0] in next && LastOf(r.kept) == w.rest[0] && r.moved == w.moved
    ensures |r.kept| + |r.rest| == |w.kept| + |w.rest|
    ensures Path(next, head, r.kept, next[w.rest[0]]) && Path(next, next[w.rest[0]], r.rest, NULL)
  {
    PathSnoc(next, head, w.kept, w.rest[0]);
  }

  class Queue {
    var head: Mbuf
    var tail: Mbuf
    var len: int

    constructor ()
      ensures head == NULL && len == 0
    {
      head, tail, len := NULL, NULL, 0;
    }
  }

  class Memory {
    var next: Links

    /** `q` holds `list`; its tail is meaningful only while it is not empty. */
    ghost predicate Holds(q: Queue, list: seq<Mbuf>)
      reads this, q
    {
      Path(next, q.head, list, NULL) && Distinct(list) && q.len == |list|
      && (list != [] ==> q.tail == list[|list| - 1])
    }

    method Enqueue(q: Queue, pkt: Mbuf, ghost list: seq<Mbuf>)
      requires Holds(q, list) && pkt != NULL && pkt !in list
      modifies this, q
      ensures Holds(q, list + [pkt])
      ensures next == Enqueued(old(next), list, pkt)
    {
      PathFrame(next, q.head, list, NULL, pkt, NULL);
      next := next[pkt := NULL];
      if q.head == NULL {
        q.head := pkt;
        q.tail := pkt;
        assert list == [] && [pkt][1..] == [];
      } else {
        PathRelink(next, q.head, list, NULL, pkt);
        next := next[q.tail := pkt];
        PathSnoc(next, q.head, list, pkt);
        q.tail := pkt;
      }
      q.len := q.len + 1;
    }

    /** The head removal of `eth_process_recv_queue`; NULL where it returns -EAGAIN. */
    method Dequeue(q: Queue, ghost list: seq<Mbuf>) returns (pkt: Mbuf)
      requires Holds(q, list)
      modifies q
      ensures if list == [] then pkt == NULL && Holds(q, []) else pkt == list[0] && Holds(q, list[1..])
    {
      pkt := q.head;
      if pkt != NULL {
        q.head := next[pkt];
        q.len := q.len - 1;
        assert list[0] !in list[1..];
      }
    }

    /** One round of the loop for a packet that goes: unlink it, then append it to `q`.
        `prv` is the link that leads to `pkt`: NULL for the head, else a node's `next`. */
    method Move(rxq: Queue, q: Queue, prv: Mbuf, pkt: Mbuf,
                ghost kept: seq<Mbuf>, ghost rest: seq<Mbuf>, ghost list: seq<Mbuf>) returns (n: Mbuf)
      requires rxq != q && Holds(q, list) && prv == LastOf(kept) && pkt in next
      requires Path(next, rxq.head, kept, pkt) && Path(next, next[pkt], rest, NULL)
      requires Distinct(kept) && pkt != NULL && pkt !in kept + rest + list
      requires Apart(kept, rest) && Apart(kept, list) && Apart(rest, list)
      modifies this, rxq, q
      ensures Path(next, rxq.head, kept, n) && Path(next, n, rest, NULL)
      ensures Holds(q, list + [pkt]) && rxq.len == old(rxq.len) - 1
    {
      n := next[pkt];
      UnlinkPaths(next, rxq.head, kept, pkt, rest, q.head, list);
      if prv == NULL {
        rxq.head := n;
      } else {
        next := next[prv := n];
      }
      EnqueueFrame(next, rxq.head, kept, n, list, pkt);
      EnqueueFrame(next, n, rest, NULL, list, pkt);
      Enqueue(q, pkt, list);
      if kept != [] {
        PathEnd(next, rxq.head, kept, n);
      }
      n := if prv == NULL then rxq.head else next[prv];
      rxq.len := rxq.len - 1;
    }

    /** Where the loop stands after `i` packets. */
    ghost predicate Walking(rxq: Queue, q: Queue, g: nat, all: seq<Mbuf>, q0: seq<Mbuf>,
                            i: nat, w: Walk, pkt: Mbuf, prv: Mbuf)
      reads this, rxq, q
    {
      && i <= |all| && w == WalkAt(all, g, i)
      && Path(next, rxq.head, w.kept, pkt) && Path(next, pkt, w.rest, NULL)
      && prv == LastOf(w.kept) && rxq.len == |w.kept| + |w.rest|
      && Holds(q, q0 + w.moved)
    }

    /** One round of the loop: `pkt` stays or goes, and the next packet comes up. */
    method Round(rxq: Queue, q: Queue, g: nat, ghost all: seq<Mbuf>, ghost q0: seq<Mbuf>,
                 ghost i: nat, ghost w: Walk, pkt: Mbuf, prv: Mbuf)
      returns (n: Mbuf, p: Mbuf, ghost r: Walk)
      requires rxq != q && Distinct(all) && Apart(all, q0) && pkt != NULL
      requires Walking(rxq, q, g, all, q0, i, w, pkt, prv)
      modifies this, rxq, q
      ensures Walking(rxq, q, g, all, q0, i + 1, r, n, p)
    {
      WalkNode(all, q0, g, i, w);
      r := Next(w, g);
      if g == pkt.pkt.fg {
        n := Move(rxq, q, prv, pkt, w.kept, w.rest[1..], q0 + w.moved);
        p := prv;
        assert q0 + w.moved + [w.rest[0]] == q0 + r.moved;
      } else {
        KeepPaths(next, rxq.head, w, r, g);
        p := pkt;
        n := next[pkt];
      }
    }

    /** `migrate_pkts_to_remote`: the group's packets move to the end of `q`, in order. */
    method MigratePktsToRemote(rxq: Queue, q: Queue, g: nat, ghost all: seq<Mbuf>, ghost q0: seq<Mbuf>)
      returns (ghost kept: seq<Mbuf>, ghost moved: seq<Mbuf>)
      requires rxq != q && Holds(rxq, all) && Holds(q, q0) && Apart(all, q0)
      modifies this, rxq, q
      ensures Holds(rxq, kept) && Holds(q, q0 + moved) && Apart(kept, q0 + moved)
      ensures Packets(kept) == NotOfGroup(Packets(all), g) && Packets(moved) == OfGroup(Packets(all), g)
      ensures multiset(kept) + multiset(moved) == multiset(all)
    {
      ghost var i, w := 0, Walk([], all, [], []);
      var pkt, prv := rxq.head, NULL;
      assert q0 + [] == q0;
      while pkt != NULL
        invariant Walking(rxq, q, g, all, q0, i, w, pkt, prv)
        decreases |all| - i
      {
        pkt, prv, w := Round(rxq, q, g, all, q0, i, w, pkt, prv);
        i := i + 1;
      }
      rxq.tail := prv;
      WalkOver(all, g, i, w, next);
      WalkEnd(all, q0, g, w);
      kept, moved := w.kept, w.moved;
    }
  }
}
