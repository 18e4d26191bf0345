/** The early calls of a migration (core/ethfg.c:497): over every intended run the target sends its
    sender one call for each migration in which it parks a packet, and no more. */
module FlowGroupCalls {
  import opened FlowGroups
  import opened FlowGroupInvariants
  import opened FlowGroupSafety
  import opened FlowGroupMigration
  import opened FlowGroupTheorems

  /** The two ends of each migration know of each other, and packets are parked only where one is
      received. */
  ghost predicate Linked(s: State)
    requires Shape(s)
  {
    && (forall c :: 0 <= c < |s.mig| && s.mig[c].prevCpu == c ==>
          IsCpu(s, s.mig[c].targetCpu) && s.mig[c].targetCpu != c && s.mig[s.mig[c].targetCpu].prevCpu == c)
    && (forall g :: 0 <= g < TOTAL_FG && s.fgs[g].inTransition ==>
          var p, t := s.fgs[g].prev, s.fgs[g].target;
          IsCpu(s, p) && IsCpu(s, t) && p != t && s.mig[p].prevCpu == p && s.mig[p].targetCpu == t && s.mig[t].prevCpu == p)
    && (forall t :: 0 <= t < |s.mig| && s.local[t] != [] ==>
          var p := s.mig[t].prevCpu; IsCpu(s, p) && s.mig[p].prevCpu == p && s.mig[p].targetCpu == t)
  }

  lemma InvLinked(s: State)
    requires Inv(s)
    ensures Linked(s)
  {
    forall c | 0 <= c < |s.mig| && s.mig[c].prevCpu == c
      ensures IsCpu(s, s.mig[c].targetCpu) && s.mig[c].targetCpu != c && s.mig[s.mig[c].targetCpu].prevCpu == c
    {
      assert MigrationOk(s, c);
    }
    forall g | 0 <= g < TOTAL_FG && s.fgs[g].inTransition
      ensures var p, t := s.fgs[g].prev, s.fgs[g].target;
              IsCpu(s, p) && IsCpu(s, t) && p != t && s.mig[p].prevCpu == p && s.mig[p].targetCpu == t && s.mig[t].prevCpu == p
    {
      assert GroupOk(s, s.fgs[g]) && MigrationOk(s, s.fgs[g].prev) && g in MovingFrom(s, s.fgs[g].prev);
    }
    forall t | 0 <= t < |s.mig| && s.local[t] != []
      ensures var p := s.mig[t].prevCpu; IsCpu(s, p) && s.mig[p].prevCpu == p && s.mig[p].targetCpu == t
    {
      assert s.local[t][0] in s.local[t] && MovingTo(s, s.local[t][0], t);
    }
  }

  /** CPU `p` sends groups to a CPU that has parked a packet. */
  predicate Parked(s: State, p: nat)
    requires Shape(s) && IsCpu(s, p)
  {
    s.mig[p].prevCpu == p && At(s.local, s.mig[p].targetCpu) != []
  }

  function OneIf(b: bool): nat { if b then 1 else 0 }

  /** Of the calls to `p`, `ran` have run: no more were sent than there were migrations, the present
      one counting once a packet is parked. */
  ghost predicate Bounded(s: State, p: nat, ran: nat)
    requires Shape(s) && IsCpu(s, p)
  {
    s.earlyCalls[p] + ran <= s.hist.drained[p] + OneIf(Parked(s, p))
  }

  /** Once a packet is parked, and while the timer of the sender runs, a call waits there. */
  ghost predicate Pending(s: State, p: nat)
    requires Shape(s) && IsCpu(s, p)
  {
    Parked(s, p) && s.mig[p].timerActive ==> s.earlyCalls[p] > 0
  }

  // ----- each step -----

  lemma ReceiveLinked(s: State, c: nat, x: Pkt)
    requires Shape(s) && Linked(s) && IsCpu(s, c) && x.fg < TOTAL_FG
    ensures Linked(Receive(s, c, x))
  {}

  lemma ReceiveCall(s: State, c: nat, x: Pkt, p: nat, ran: nat)
    requires Shape(s) && Linked(s) && IsCpu(s, c) && x.fg < TOTAL_FG && IsCpu(s, p)
    ensures Bounded(s, p, ran) ==> Bounded(Receive(s, c, x), p, ran)
    ensures Pending(s, p) ==> Pending(Receive(s, c, x), p)
  {}

  lemma {:induction false} ReceiveAllCalls(s: State, c: nat, xs: seq<Pkt>, p: nat, ran: nat)
    requires Shape(s) && Linked(s) && IsCpu(s, c) && IsCpu(s, p) && forall x :: x in xs ==> x.fg < TOTAL_FG
    ensures Linked(ReceiveAll(s, c, xs))
    ensures Bounded(s, p, ran) ==> Bounded(ReceiveAll(s, c, xs), p, ran)
    ensures Pending(s, p) ==> Pending(ReceiveAll(s, c, xs), p)
    decreases |xs|
  {
    if xs != [] {
      ReceiveAllCalls(s, c, xs[..|xs| - 1], p, ran);
      ReceiveLinked(ReceiveAll(s, c, xs[..|xs| - 1]), c, xs[|xs| - 1]);
      ReceiveCall(ReceiveAll(s, c, xs[..|xs| - 1]), c, xs[|xs| - 1], p, ran);
    }
  }

  lemma EarlyCallRuns(s: State, q: nat, xs: seq<Pkt>, p: nat, ran: nat)
    requires Inv(s) && Enabled(s, RunEarly(q, xs)) && IsCpu(s, p) && Bounded(s, p, ran) && Pending(s, p)
    ensures var r := EarlyTransitionPrev(s, q, xs);
            Shape(r) && |r.mig| == |s.mig| && Bounded(r, p, ran + OneIf(p == q)) && Pending(r, p)
  {
    InvLinked(s);
    var s1 := s.(earlyCalls := s.earlyCalls[q := s.earlyCalls[q] - 1]);
    if s.mig[q].timerActive {
      TimerStops(s, q, p, ran, StopTimer(s1, q));
      ReceiveAllCalls(StopTimer(s1, q), q, xs, p, ran + OneIf(p == q));
    }
  }

  lemma TimerStops(s: State, q: nat, p: nat, ran: nat, r: State)
    requires Shape(s) && Linked(s) && IsCpu(s, q) && s.earlyCalls[q] > 0 && IsCpu(s, p) && Bounded(s, p, ran) && Pending(s, p)
    requires r == StopTimer(s.(earlyCalls := s.earlyCalls[q := s.earlyCalls[q] - 1]), q)
    ensures Linked(r) && Bounded(r, p, ran + OneIf(p == q)) && Pending(r, p)
  {}

  /** Nothing is parked for a CPU that receives no groups. */
  lemma NothingParked(s: State, t: nat)
    requires Inv(s) && IsCpu(s, t) && s.mig[t].prevCpu == NO_CPU
    ensures s.local[t] == []
  {
    InvLinked(s);
  }

  lemma AssignCalls(s: State, q: nat, t: nat, gs: set<nat>, p: nat, ran: nat)
    requires Inv(s) && Enabled(s, Assign(q, t, gs)) && IsCpu(s, p) && Bounded(s, p, ran) && Pending(s, p)
    ensures var r := AssignToCpu(INTENDED, s, q, t, gs); Shape(r) && IsCpu(r, p) && Bounded(r, p, ran) && Pending(r, p)
  {
    NothingParked(s, t);
    NothingParked(s, q);
    assert MigrationOk(s, p);
  }

  lemma DrainCalls(s: State, t: nat, info: int, p: nat, ran: nat)
    requires Inv(s) && PacketsOk(s) && Enabled(s, RunDrain(t, info)) && IsCpu(s, p) && Bounded(s, p, ran) && Pending(s, p)
    ensures var r := TransitionTarget(s, t, info); Shape(r) && IsCpu(r, p) && Bounded(r, p, ran) && Pending(r, p)
  {
    DrainIsOfPrev(s, t, info);
    InvLinked(s);
  }

  predicate Runs(e: Event, p: nat) { e.RunEarly? && e.cpu == p }

  lemma StepCalls(s: State, e: Event, p: nat, ran: nat, r: State)
    requires Inv(s) && PacketsOk(s) && Enabled(s, e) && IsCpu(s, p) && Bounded(s, p, ran) && Pending(s, p)
    requires r == Step(INTENDED, s, e)
    ensures Shape(r) && |r.mig| == |s.mig| && Bounded(r, p, ran + OneIf(Runs(e, p))) && Pending(r, p)
  {
    match e
    case Arrive(c, x) => InvLinked(s); ReceiveCall(s, c, x, p, ran);
    case Process(c, d) =>
    case Assign(q, t, gs) => AssignCalls(s, q, t, gs, p, ran);
    case TimerFires(q) =>
    case RunEarly(q, xs) => EarlyCallRuns(s, q, xs, p, ran);
    case RunDrain(t, info) => DrainCalls(s, t, info, p, ran);
  }

  // ----- every run -----

  /** How many calls have run on CPU `p`. */
  function Ran(es: seq<Event>, p: nat): nat {
    if es == [] then 0 else Ran(es[..|es| - 1], p) + OneIf(Runs(es[|es| - 1], p))
  }

  lemma InitCalls(n: nat, p: nat)
    requires p < n
    ensures |Init(n).mig| == n && Bounded(Init(n), p, 0) && Pending(Init(n), p)
  {}

  lemma {:induction false} RunCalls(n: nat, es: seq<Event>, s: State, p: nat)
    requires Run(INTENDED, n, es, s) && p < n
    ensures Shape(s) && |s.mig| == n && Bounded(s, p, Ran(es, p)) && Pending(s, p)
    decreases |es|
  {
    if es == [] {
      InitCalls(n, p);
    } else {
      var e := es[|es| - 1];
      var r :| Run(INTENDED, n, es[..|es| - 1], r) && Shape(r) && PacketsOk(r) && Enabled(r, e) && s == Step(INTENDED, r, e);
      RunInv(n, es[..|es| - 1], r);
      RunCalls(n, es[..|es| - 1], r, p);
      StepCalls(r, e, p, Ran(es[..|es| - 1], p), s);
    }
  }

  /** In every intended run, the calls that wait on a CPU and those that have run there are together
      at most its finished migrations, and one more if the target of the present one holds a
      packet.  While it does, and the timer runs, a call waits. */
  lemma OneCallEach(n: nat, es: seq<Event>, s: State, p: nat)
    requires Run(INTENDED, n, es, s) && p < n
    ensures Shape(s) && |s.mig| == n
    ensures s.earlyCalls[p] + Ran(es, p) <= s.hist.drained[p] + (if Parked(s, p) then 1 else 0)
    ensures s.earlyCalls[p] + Ran(es, p) <= s.hist.started[p]
    ensures Parked(s, p) ==> s.earlyCalls[p] > 0 || !s.mig[p].timerActive
  {
    RunInv(n, es, s);
    RunCalls(n, es, s, p);
    assert MigrationOk(s, p);
  }

  /** Wherever a target holds a packet that it was sent before the groups were its own, its sender
      has been told to hurry, or is past the need: the call waits, or the timer is over. */
  lemma ParkedIsTold(n: nat, es: seq<Event>, s: State, t: nat)
    requires Run(INTENDED, n, es, s) && t < n
    ensures Shape(s) && |s.mig| == n
    ensures s.local[t] != [] ==> var p := s.mig[t].prevCpu;
                                 0 <= p < n && s.mig[p].targetCpu == t && (s.earlyCalls[p] > 0 || !s.mig[p].timerActive)
  {
    OneCallEach(n, es, s, t);
    RunInv(n, es, s);
    InvLinked(s);
    if s.local[t] != [] { OneCallEach(n, es, s, s.mig[t].prevCpu); }
  }
}
