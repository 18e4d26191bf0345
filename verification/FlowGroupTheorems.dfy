/** The main results about flow-group migration, over every run. */
module FlowGroupTheorems {
  import opened FlowGroups
  import opened FlowGroupInvariants
  import opened FlowGroupSafety
  import opened FlowGroupMigration

  lemma InitInv(n: nat)
    ensures Inv(Init(n))
  {
    var s := Init(n);
    forall g | 0 <= g < TOTAL_FG
      ensures Consistent(ViewOf(s, g)) && GroupOk(s, s.fgs[g])
    {
      assert s.hist.epochs[g][..0] == [];
    }
  }

  lemma StepInv(s: State, e: Event)
    requires Inv(s) && PacketsOk(s) && Enabled(s, e)
    ensures Inv(Step(INTENDED, s, e))
  {
    match e
    case Arrive(c, p) => ReceiveKeeps(s, c, p); ControlIsKept(s, Receive(s, c, p));
    case Process(c, d) => ProcessKeeps(s, c, d);
    case Assign(p, t, gs) => AssignKeeps(s, p, t, gs);
    case TimerFires(p) => TimerKeeps(s, p);
    case RunEarly(p, ps) => EarlyKeeps(s, p, ps);
    case RunDrain(t, info) => DrainKeeps(s, t, info);
  }

  lemma {:induction false} RunInv(n: nat, es: seq<Event>, s: State)
    requires Run(INTENDED, n, es, s)
    ensures Inv(s)
  {
    if es == [] {
      InitInv(n);
    } else {
      var r :| Run(INTENDED, n, es[..|es| - 1], r) && Shape(r) && PacketsOk(r)
               && Enabled(r, es[|es| - 1]) && s == Step(INTENDED, r, es[|es| - 1]);
      RunInv(n, es[..|es| - 1], r);
      StepInv(r, es[|es| - 1]);
    }
  }

  predicate Unassigned(fg: Group) { !fg.inTransition && fg.cur == NO_CPU }

  predicate Owned(fg: Group, c: int) { !fg.inTransition && fg.cur == c && c != NO_CPU }

  predicate Migrates(fg: Group, p: int, t: int) { fg.inTransition && fg.prev == p && fg.target == t }

  predicate SendsGroups(s: State, c: int)
    requires IsCpu(s, c)
  {
    s.mig[c].prevCpu == c
  }

  /** In every reachable state a group is unassigned, or owned by one CPU, or moving between
      two, and its queued packets are where that says.  The groups that leave a CPU are its
      migration bitmap; no CPU takes part in two migrations; and a migration has been
      drained exactly once by the time it is over, and not at all before. */
  lemma MigrationSafety(n: nat, es: seq<Event>, s: State)
    requires Run(INTENDED, n, es, s)
    ensures Shape(s)
    ensures forall g :: 0 <= g < TOTAL_FG ==>
              || Unassigned(s.fgs[g])
              || (exists c :: IsCpu(s, c) && Owned(s.fgs[g], c))
              || (exists p, t :: IsCpu(s, p) && IsCpu(s, t) && p != t && Migrates(s.fgs[g], p, t)
                                 && SendsGroups(s, p) && s.mig[p].targetCpu == t && g in s.mig[p].bitmap)
    ensures forall c, g :: IsCpu(s, c) && SendsGroups(s, c) && g in s.mig[c].bitmap ==>
              g < TOTAL_FG && Migrates(s.fgs[g], c, s.mig[c].targetCpu)
    ensures forall a, b :: IsCpu(s, a) && IsCpu(s, b) && a != b && SendsGroups(s, a) && SendsGroups(s, b) ==>
              {a, s.mig[a].targetCpu} !! {b, s.mig[b].targetCpu}
    ensures forall c, d, p :: IsCpu(s, c) && 0 <= d < NETHDEV && p in s.rx[c][d] ==>
              p.fg < TOTAL_FG && Owned(s.fgs[p.fg], c)
    ensures forall c, p :: IsCpu(s, c) && (p in s.remote[c] || p in s.local[c]) ==>
              p.fg < TOTAL_FG && s.fgs[p.fg].inTransition && s.fgs[p.fg].target == c
    ensures forall c :: IsCpu(s, c) ==>
              s.hist.started[c] == s.hist.drained[c] + (if SendsGroups(s, c) then 1 else 0)
  {
    RunInv(n, es, s);
    assert forall c :: IsCpu(s, c) ==> MigrationOk(s, c);
    forall g | 0 <= g < TOTAL_FG && s.fgs[g].inTransition
      ensures SendsGroups(s, s.fgs[g].prev) && g in s.mig[s.fgs[g].prev].bitmap
    {
      assert MigrationOk(s, s.fgs[g].prev) && g in MovingFrom(s, s.fgs[g].prev);
    }
    forall g | 0 <= g < TOTAL_FG && s.fgs[g].inTransition
      ensures exists p, t :: IsCpu(s, p) && IsCpu(s, t) && p != t && Migrates(s.fgs[g], p, t)
                             && SendsGroups(s, p) && s.mig[p].targetCpu == t && g in s.mig[p].bitmap
    {
      assert GroupOk(s, s.fgs[g]) && Migrates(s.fgs[g], s.fgs[g].prev, s.fgs[g].target);
    }
    forall g | 0 <= g < TOTAL_FG && !s.fgs[g].inTransition && s.fgs[g].cur != NO_CPU
      ensures exists c :: IsCpu(s, c) && Owned(s.fgs[g], c)
    {
      assert GroupOk(s, s.fgs[g]) && Owned(s.fgs[g], s.fgs[g].cur);
    }
    forall c, g | IsCpu(s, c) && SendsGroups(s, c) && g in s.mig[c].bitmap
      ensures g < TOTAL_FG && Migrates(s.fgs[g], c, s.mig[c].targetCpu)
    {
      assert MigrationOk(s, c) && g in MovingFrom(s, c);
    }
  }

  /** In every interleaving the packets delivered to a group are a prefix of the packets
      accepted for it, where an epoch lists what the owner and the previous CPU accepted
      before what the target accepted, each in arrival order; what is missing is still
      queued; and each delivery was made by the CPU that owned the group at that moment. */
  lemma DeliveryOrder(n: nat, es: seq<Event>, s: State, g: nat)
    requires Run(INTENDED, n, es, s) && g < TOTAL_FG
    ensures Shape(s)
    ensures DeliveredTo(s.hist.delivered, g) + First(s, g) + Second(s, g) == Flatten(s.hist.epochs[g])
    ensures DeliveredTo(s.hist.delivered, g) <= Flatten(s.hist.epochs[g])
    ensures forall i :: 0 <= i < |s.hist.delivered| ==> s.hist.delivered[i].cpu == s.hist.delivered[i].owner
  {
    RunInv(n, es, s);
    assert Consistent(ViewOf(s, g));
  }

  lemma {:induction false} DeliveredCount(ds: seq<Delivery>, q: seq<Pkt>, x: Pkt)
    requires |q| == |ds| && forall i :: 0 <= i < |ds| ==> q[i] == ds[i].pkt
    ensures multiset(DeliveredTo(ds, x.fg))[x] == multiset(q)[x]
  {
    if ds != [] {
      var ds0, q0, p := ds[..|ds| - 1], q[..|q| - 1], q[|q| - 1];
      DeliveredCount(ds0, q0, x);
      assert multiset(q) == multiset(q0) + multiset{p} by { assert q == q0 + [p]; }
      assert DeliveredTo(ds, x.fg) == DeliveredTo(ds0, x.fg) + (if p.fg == x.fg then [p] else []);
    }
  }

  /** No packet is delivered more often than it arrived, and the packets that arrived for a
      group are exactly those delivered, those still queued and those lost. */
  lemma DeliveredAtMostOnce(n: nat, es: seq<Event>, s: State, q: seq<Pkt>, x: Pkt)
    requires Run(INTENDED, n, es, s) && x.fg < TOTAL_FG
    requires |q| == |s.hist.delivered| && forall i :: 0 <= i < |q| ==> q[i] == s.hist.delivered[i].pkt
    ensures Shape(s)
    ensures multiset(s.hist.arrived)[x] == multiset(s.hist.lost)[x] + multiset(q)[x]
                                           + multiset(First(s, x.fg) + Second(s, x.fg))[x]
    ensures multiset(q)[x] <= multiset(s.hist.arrived)[x]
  {
    RunInv(n, es, s);
    ViewCount(ViewOf(s, x.fg));
    OfGroupCount(s.hist.arrived, x);
    OfGroupCount(s.hist.lost, x);
    DeliveredCount(s.hist.delivered, q, x);
  }

  /** CPU `c` neither owns the packet's group nor takes part in its migration, or its receive
      queue is full. */
  predicate Drops(s: State, c: nat, p: Pkt)
    requires p.fg < |s.fgs| && c < |s.rx| && p.fg / ETH_MAX_NUM_FG < |s.rx[c]|
  {
    var fg := s.fgs[p.fg];
    || (!Owned(fg, c) && !(fg.inTransition && c in {fg.prev, fg.target}))
    || (Owned(fg, c) && |s.rx[c][p.fg / ETH_MAX_NUM_FG]| >= 32768)
  }

  /** The packets of a poll that are dropped when their turn comes, in order. */
  function Dropped(s: State, c: nat, ps: seq<Pkt>): seq<Pkt>
    requires Shape(s) && IsCpu(s, c) && forall p :: p in ps ==> p.fg < TOTAL_FG
  {
    if ps == [] then []
    else
      var init, p := ps[..|ps| - 1], ps[|ps| - 1];
      Dropped(s, c, init) + (if Drops(ReceiveAll(s, c, init), c, p) then [p] else [])
  }

  /** The packets that an event takes from the hardware, and those of them that it drops. */
  function Taken(s: State, e: Event): seq<Pkt>
    requires Shape(s) && Enabled(s, e)
  {
    match e
    case Arrive(c, p) => [p]
    case RunEarly(p, ps) => if s.mig[p].timerActive then ps else []
    case _ => []
  }

  function Losses(s: State, e: Event): seq<Pkt>
    requires Shape(s) && Enabled(s, e)
  {
    match e
    case Arrive(c, p) => if Drops(s, c, p) then [p] else []
    case RunEarly(p, ps) =>
      if s.mig[p].timerActive then Dropped(StopTimer(s.(earlyCalls := s.earlyCalls[p := s.earlyCalls[p] - 1]), p), p, ps) else []
    case _ => []
  }

  lemma ReceiveLoss(s: State, c: nat, p: Pkt)
    requires Shape(s) && IsCpu(s, c) && p.fg < TOTAL_FG
    ensures Receive(s, c, p).hist.lost == s.hist.lost + (if Drops(s, c, p) then [p] else [])
    ensures Receive(s, c, p).hist.arrived == s.hist.arrived + [p]
  {}

  lemma {:induction false} ReceiveAllLoss(s: State, c: nat, ps: seq<Pkt>)
    requires Shape(s) && IsCpu(s, c) && forall p :: p in ps ==> p.fg < TOTAL_FG
    ensures ReceiveAll(s, c, ps).hist.lost == s.hist.lost + Dropped(s, c, ps)
    ensures ReceiveAll(s, c, ps).hist.arrived == s.hist.arrived + ps
    decreases |ps|
  {
    if ps != [] {
      var init, p := ps[..|ps| - 1], ps[|ps| - 1];
      ReceiveAllLoss(s, c, init);
      ReceiveLoss(ReceiveAll(s, c, init), c, p);
      assert ps == init + [p];
    }
  }

  /** In every step, as intended and as written: exactly the packets that the step takes and that
      are dropped when their turn comes are lost, in order; no other step loses a packet. */
  lemma OnlyLoss(port: Port, s: State, e: Event)
    requires Shape(s) && PacketsOk(s) && Enabled(s, e)
    ensures Step(port, s, e).hist.lost == s.hist.lost + Losses(s, e)
    ensures Step(port, s, e).hist.arrived == s.hist.arrived + Taken(s, e)
  {
    match e
    case Arrive(c, p) => ReceiveLoss(s, c, p);
    case RunEarly(p, ps) => EarlyLoss(s, p, ps);
    case _ => NoLoss(port, s, e);
  }

  lemma EarlyLoss(s: State, p: nat, ps: seq<Pkt>)
    requires Shape(s) && Enabled(s, RunEarly(p, ps))
    ensures EarlyTransitionPrev(s, p, ps).hist.lost == s.hist.lost + Losses(s, RunEarly(p, ps))
    ensures EarlyTransitionPrev(s, p, ps).hist.arrived == s.hist.arrived + Taken(s, RunEarly(p, ps))
  {
    if s.mig[p].timerActive {
      ReceiveAllLoss(StopTimer(s.(earlyCalls := s.earlyCalls[p := s.earlyCalls[p] - 1]), p), p, ps);
    }
  }

  lemma NoLoss(port: Port, s: State, e: Event)
    requires Shape(s) && PacketsOk(s) && Enabled(s, e) && !e.Arrive? && !e.RunEarly?
    ensures Step(port, s, e).hist.lost == s.hist.lost && Step(port, s, e).hist.arrived == s.hist.arrived
  {
    if e.Assign? {
      assert AssignUpTo(s, e.cpu, e.target, e.groups, TOTAL_FG).hist == s.hist;
    }
  }

  lemma EpochCounts(es: seq<Epoch>, p: Pkt)
    requires es != []
    ensures multiset(Flatten(Early(es, p))) == multiset(Flatten(es)) + multiset{p}
    ensures multiset(Flatten(Late(es, p))) == multiset(Flatten(es)) + multiset{p}
  {
    var e, before := es[|es| - 1], Flatten(es[..|es| - 1]);
    assert Early(es, p)[..|es| - 1] == es[..|es| - 1] && Late(es, p)[..|es| - 1] == es[..|es| - 1];
    assert Flatten(Early(es, p)) == before + (e.early + [p]) + e.late;
    assert Flatten(Late(es, p)) == before + e.early + (e.late + [p]);
  }

  lemma ReceiveEpochs(s: State, c: nat, p: Pkt)
    requires Shape(s) && IsCpu(s, c) && p.fg < TOTAL_FG
    ensures var es, r := s.hist.epochs[p.fg], Receive(s, c, p).hist.epochs[p.fg];
            if Drops(s, c, p) then r == es else r == Early(es, p) || r == Late(es, p)
  {}

  /** A packet that is not dropped joins the accepted packets of its group, once. */
  lemma AcceptsOnce(s: State, c: nat, p: Pkt)
    requires Shape(s) && IsCpu(s, c) && p.fg < TOTAL_FG
    ensures multiset(Flatten(Receive(s, c, p).hist.epochs[p.fg])) ==
            multiset(Flatten(s.hist.epochs[p.fg])) + (if Drops(s, c, p) then multiset{} else multiset{p})
  {
    EpochCounts(s.hist.epochs[p.fg], p);
    ReceiveEpochs(s, c, p);
  }
}
