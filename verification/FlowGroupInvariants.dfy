/** What every reachable state of the flow-group machine satisfies, and why. */
module FlowGroupInvariants {
  import opened FlowGroups

  // ----- the invariants -----

  /** Unassigned, owned or moving, and never two of them. */
  ghost predicate GroupOk(s: State, fg: Group) {
    if fg.inTransition then
      fg.cur == NO_CPU && IsCpu(s, fg.prev) && IsCpu(s, fg.target) && fg.prev != fg.target
    else fg.cur == NO_CPU || IsCpu(s, fg.cur)
  }

  ghost predicate GroupsOk(s: State)
    requires Shape(s)
  {
    forall g :: 0 <= g < TOTAL_FG ==> GroupOk(s, s.fgs[g])
  }

  ghost predicate OwnedBy(s: State, p: Pkt, c: int, d: int)
    requires Shape(s)
  {
    p.fg < TOTAL_FG && p.fg / ETH_MAX_NUM_FG == d && !s.fgs[p.fg].inTransition && s.fgs[p.fg].cur == c
  }

  ghost predicate MovingTo(s: State, p: Pkt, c: int)
    requires Shape(s)
  {
    p.fg < TOTAL_FG && s.fgs[p.fg].inTransition && s.fgs[p.fg].target == c
  }

  /** A receive queue holds packets of groups its CPU owns; a hand-over queue holds packets
      of groups that move to its CPU. */
  ghost predicate Located(s: State)
    requires Shape(s)
  {
    forall c :: 0 <= c < |s.mig| ==>
      && (forall d, p :: 0 <= d < NETHDEV && p in s.rx[c][d] ==> OwnedBy(s, p, c, d))
      && (forall p :: p in s.remote[c] ==> MovingTo(s, p, c))
      && (forall p :: p in s.local[c] ==> MovingTo(s, p, c))
  }

  function RxOf(s: State, c: int, g: nat): seq<Pkt>
    requires Shape(s) && g < TOTAL_FG
  {
    if IsCpu(s, c) then s.rx[c][g / ETH_MAX_NUM_FG] else []
  }

  /** Everything observed about one group.  `first` and `second` are its accepted packets
      that are still queued: the owner's or the previous CPU's, and the target's. */
  datatype View = View(delivered: seq<Pkt>, first: seq<Pkt>, second: seq<Pkt>, epochs: seq<Epoch>,
                       arrived: seq<Pkt>, lost: seq<Pkt>)

  function First(s: State, g: nat): seq<Pkt>
    requires Shape(s) && g < TOTAL_FG
  {
    OfGroup(if s.fgs[g].inTransition then At(s.remote, s.fgs[g].target) else RxOf(s, s.fgs[g].cur, g), g)
  }

  function Second(s: State, g: nat): seq<Pkt>
    requires Shape(s) && g < TOTAL_FG
  {
    if s.fgs[g].inTransition then OfGroup(At(s.local, s.fgs[g].target), g) else []
  }

  function ViewOf(s: State, g: nat): View
    requires Shape(s) && g < TOTAL_FG
  {
    View(DeliveredTo(s.hist.delivered, g), First(s, g), Second(s, g), s.hist.epochs[g],
         OfGroup(s.hist.arrived, g), OfGroup(s.hist.lost, g))
  }

  /** What was delivered, followed by what is queued, is exactly the accepted packets, epoch
      by epoch, the previous CPU's before the target's, each in arrival order; and every
      arrival was either lost or accepted, once. */
  ghost predicate Consistent(v: View) {
    && |v.epochs| > 0
    && v.delivered + v.first + v.second == Flatten(v.epochs)
    && v.epochs[|v.epochs| - 1].late == v.second
    && multiset(v.arrived) == multiset(v.lost) + multiset(Flatten(v.epochs))
  }

  ghost predicate DeliveredByOwner(s: State) {
    forall i :: 0 <= i < |s.hist.delivered| ==> s.hist.delivered[i].cpu == s.hist.delivered[i].owner
  }

  ghost predicate Core(s: State)
    requires Shape(s)
  {
    && GroupsOk(s) && Located(s) && DeliveredByOwner(s)
    && forall g :: 0 <= g < TOTAL_FG ==> Consistent(ViewOf(s, g))
  }

  /** The groups in transition away from `c`. */
  function MovingFrom(s: State, c: int): set<nat>
    requires Shape(s)
  {
    set g: nat | g < TOTAL_FG && s.fgs[g].inTransition && s.fgs[g].prev == c
  }

  /** What `migration_info` of CPU `c` says: `c` moves its groups to another CPU, or `c`
      receives the groups of another CPU, or neither. */
  ghost predicate MigrationOk(s: State, c: int)
    requires Shape(s) && IsCpu(s, c)
  {
    var m := s.mig[c];
    if m.prevCpu == c then
      && IsCpu(s, m.targetCpu) && m.targetCpu != c && s.mig[m.targetCpu].prevCpu == c
      && m.bitmap == MovingFrom(s, c) && m.bitmap != {}
      && s.drainCalls[c] == multiset{}
      && s.drainCalls[m.targetCpu] == (if m.timerActive then multiset{} else multiset{c})
      && s.hist.started[c] == s.hist.drained[c] + 1
    else
      && MovingFrom(s, c) == {}
      && !m.timerActive
      && s.hist.started[c] == s.hist.drained[c]
      && (m.prevCpu == NO_CPU ==> s.drainCalls[c] == multiset{})
      && (m.prevCpu != NO_CPU ==>
            IsCpu(s, m.prevCpu) && s.mig[m.prevCpu].prevCpu == m.prevCpu && s.mig[m.prevCpu].targetCpu == c)
  }

  ghost predicate Control(s: State)
    requires Shape(s)
  {
    && (forall c :: 0 <= c < |s.mig| ==> MigrationOk(s, c))
    && (forall g :: 0 <= g < TOTAL_FG && s.fgs[g].inTransition ==>
          IsCpu(s, s.fgs[g].prev) && s.mig[s.fgs[g].prev].targetCpu == s.fgs[g].target)
  }

  ghost predicate Inv(s: State) { Shape(s) && Core(s) && Control(s) }

  // ----- sequences -----

  lemma Split<T>(a: seq<T>, x: T)
    ensures (a + [x])[..|a + [x]| - 1] == a && (a + [x])[|a + [x]| - 1] == x
  {}

  lemma OfGroupSnoc(q: seq<Pkt>, p: Pkt, g: nat)
    ensures OfGroup(q + [p], g) == OfGroup(q, g) + (if p.fg == g then [p] else [])
    ensures NotOfGroup(q + [p], g) == NotOfGroup(q, g) + (if p.fg == g then [] else [p])
  {
    Split(q, p);
  }

  lemma {:induction false} OfGroupConcat(a: seq<Pkt>, b: seq<Pkt>, g: nat)
    ensures OfGroup(a + b, g) == OfGroup(a, g) + OfGroup(b, g)
  {
    if b == [] {
      assert a + b == a;
    } else {
      var b0, x := b[..|b| - 1], b[|b| - 1];
      OfGroupConcat(a, b0, g);
      assert a + b == (a + b0) + [x] && b == b0 + [x];
      OfGroupSnoc(a + b0, x, g);
      OfGroupSnoc(b0, x, g);
    }
  }

  lemma OfGroupHead(q: seq<Pkt>, g: nat)
    requires q != []
    ensures OfGroup(q, g) == (if q[0].fg == g then [q[0]] else []) + OfGroup(q[1..], g)
  {
    assert q == [q[0]] + q[1..];
    OfGroupConcat([q[0]], q[1..], g);
    assert [q[0]][..0] == [] && OfGroup([], g) == [];
  }

  lemma {:induction false} OfGroupMembers(q: seq<Pkt>, g: nat)
    ensures forall p :: p in OfGroup(q, g) <==> p in q && p.fg == g
    ensures forall p :: p in NotOfGroup(q, g) <==> p in q && p.fg != g
  {
    if q != [] {
      OfGroupMembers(q[..|q| - 1], g);
      assert q == q[..|q| - 1] + [q[|q| - 1]];
    }
  }

  lemma OfGroupNone(q: seq<Pkt>, g: nat)
    requires forall p :: p in q ==> p.fg != g
    ensures OfGroup(q, g) == []
  {
    OfGroupMembers(q, g);
    if OfGroup(q, g) != [] {
      assert OfGroup(q, g)[0] in OfGroup(q, g);
    }
  }

  /** Taking one group out of a queue leaves every other group's packets as they were. */
  lemma {:induction false} OfGroupOthers(q: seq<Pkt>, g: nat, h: nat)
    ensures OfGroup(NotOfGroup(q, g), h) == if g == h then [] else OfGroup(q, h)
    ensures OfGroup(OfGroup(q, g), h) == if g == h then OfGroup(q, g) else []
  {
    if q != [] {
      var q0, x := q[..|q| - 1], q[|q| - 1];
      OfGroupOthers(q0, g, h);
      if x.fg == g {
        assert OfGroup(q, g) == OfGroup(q0, g) + [x] && NotOfGroup(q, g) == NotOfGroup(q0, g);
        OfGroupSnoc(OfGroup(q0, g), x, h);
      } else {
        assert OfGroup(q, g) == OfGroup(q0, g) && NotOfGroup(q, g) == NotOfGroup(q0, g) + [x];
        OfGroupSnoc(NotOfGroup(q0, g), x, h);
      }
    }
  }

  lemma DeliveredSnoc(ds: seq<Delivery>, x: Delivery, g: nat)
    ensures DeliveredTo(ds + [x], g) == DeliveredTo(ds, g) + (if x.pkt.fg == g then [x.pkt] else [])
  {
    Split(ds, x);
  }

  lemma {:induction false} DeliveredAll(ds: seq<Delivery>, q: seq<Pkt>, c: nat, fgs: seq<Group>, g: nat)
    requires forall p :: p in q ==> p.fg < |fgs|
    ensures DeliveredTo(ds + DeliverAll(q, c, fgs), g) == DeliveredTo(ds, g) + OfGroup(q, g)
  {
    if q == [] {
      assert ds + DeliverAll(q, c, fgs) == ds;
    } else {
      var q0, x := q[..|q| - 1], q[|q| - 1];
      DeliveredAll(ds, q0, c, fgs, g);
      var dx := Delivery(c, x, fgs[x.fg].cur);
      assert ds + DeliverAll(q, c, fgs) == (ds + DeliverAll(q0, c, fgs)) + [dx];
      DeliveredSnoc(ds + DeliverAll(q0, c, fgs), dx, g);
    }
  }

  lemma CancelRight<T>(a: seq<T>, b: seq<T>, c: seq<T>)
    requires a + c == b + c
    ensures a == b
  {
    assert |a| == |b|;
    assert (a + c)[..|a|] == a && (b + c)[..|b|] == b;
  }

  /** A packet accepted by the owner or the previous CPU. */
  lemma AcceptEarly(v: View, p: Pkt)
    requires Consistent(v)
    ensures Consistent(v.(arrived := v.arrived + [p], first := v.first + [p], epochs := Early(v.epochs, p)))
  {
    var es, e := v.epochs, v.epochs[|v.epochs| - 1];
    var before := Flatten(es[..|es| - 1]);
    assert Early(es, p)[..|es| - 1] == es[..|es| - 1];
    assert Flatten(Early(es, p)) == before + (e.early + [p]) + e.late;
    CancelRight(v.delivered + v.first, before + e.early, v.second);
    assert v.delivered + (v.first + [p]) + v.second == (before + e.early) + [p] + v.second;
    assert multiset(Flatten(Early(es, p))) == multiset(Flatten(es)) + multiset{p};
  }

  /** A packet accepted by the target CPU. */
  lemma AcceptLate(v: View, p: Pkt)
    requires Consistent(v)
    ensures Consistent(v.(arrived := v.arrived + [p], second := v.second + [p], epochs := Late(v.epochs, p)))
  {
    var es := v.epochs;
    assert Late(es, p)[..|es| - 1] == es[..|es| - 1];
    assert Flatten(Late(es, p)) == Flatten(es) + [p];
    assert v.delivered + v.first + (v.second + [p]) == (v.delivered + v.first + v.second) + [p];
  }

  /** The oldest queued packet of the owner is delivered. */
  lemma DeliverFirst(v: View, w: View)
    requires Consistent(v) && v.first != []
    requires w == v.(delivered := v.delivered + [v.first[0]], first := v.first[1..])
    ensures Consistent(w)
  {
    assert w.delivered + w.first + w.second == v.delivered + v.first + v.second;
  }

  /** The drain delivers everything queued and opens a new epoch. */
  lemma DeliverQueued(v: View, w: View)
    requires Consistent(v)
    requires w == v.(delivered := v.delivered + (v.first + v.second), first := [], second := [],
                     epochs := v.epochs + [Epoch([], [])])
    ensures Consistent(w)
  {
    Split(v.epochs, Epoch([], []));
    assert Flatten(w.epochs) == Flatten(v.epochs);
    assert w.delivered + w.first + w.second == v.delivered + v.first + v.second;
  }

  lemma ViewCount(v: View)
    requires Consistent(v)
    ensures multiset(v.arrived) == multiset(v.lost) + multiset(v.delivered) + multiset(v.first + v.second)
  {
    assert v.delivered + v.first + v.second == v.delivered + (v.first + v.second);
  }

  lemma {:induction false} OfGroupCount(q: seq<Pkt>, x: Pkt)
    ensures multiset(OfGroup(q, x.fg))[x] == multiset(q)[x]
  {
    if q != [] {
      OfGroupCount(q[..|q| - 1], x);
      assert q == q[..|q| - 1] + [q[|q| - 1]];
    }
  }
}
