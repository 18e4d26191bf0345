/** When the code as written, which neither clears the bitmap nor leaves the timer out of the
    copy, does what it is for: exactly as long as no assignment that moves a group finds a stale
    bit of another group, or a call that waits on the target. */
module FlowGroupWritten {
  import opened FlowGroups
  import opened FlowGroupInvariants
  import opened FlowGroupSafety
  import opened FlowGroupMigration
  import opened FlowGroupTheorems
  import opened FlowGroupMachine

  // ----- what the departures leave behind -----

  /** `migration_info` without what is stale: bitmaps and timers of CPUs that send no groups. */
  function PlainInfo(mig: seq<Migration>): (r: seq<Migration>)
    ensures |r| == |mig|
    ensures forall c :: 0 <= c < |mig| ==>
              r[c] == if mig[c].prevCpu == c then mig[c] else mig[c].(bitmap := {}, timerActive := false)
  {
    seq(|mig|, c requires 0 <= c < |mig| =>
      if mig[c].prevCpu == c then mig[c] else mig[c].(bitmap := {}, timerActive := false))
  }

  function Plain(s: State): State { s.(mig := PlainInfo(s.mig)) }

  /** No call waits on a CPU whose timer is only a copy. */
  ghost predicate CallsOk(s: State)
    requires Shape(s)
  {
    forall c :: 0 <= c < |s.mig| && s.mig[c].timerActive && s.mig[c].prevCpu != c ==> s.earlyCalls[c] == 0
  }

  ghost predicate Sound(s: State) { Shape(s) && Inv(Plain(s)) && CallsOk(s) }

  /** What an assignment can check before it starts. */
  ghost predicate Safe(s: State, e: Event)
    requires Shape(s) && Enabled(s, e)
  {
    e.Assign? ==>
      var moved := Moving(s.fgs, e.target, e.groups, TOTAL_FG);
      moved == {} || (s.mig[e.cpu].bitmap <= moved && s.earlyCalls[e.target] == 0)
  }

  /** Groups in transition leave a CPU that sends to the one that expects them. */
  ghost predicate Senders(s: State)
    requires Shape(s)
  {
    forall g :: 0 <= g < TOTAL_FG && s.fgs[g].inTransition ==>
      var p, t := s.fgs[g].prev, s.fgs[g].target;
      IsCpu(s, p) && IsCpu(s, t) && s.mig[p].prevCpu == p && s.mig[t].prevCpu == p
  }

  lemma SendersOf(s: State)
    requires Shape(s) && Inv(Plain(s))
    ensures Senders(s)
  {
    var q := Plain(s);
    forall g | 0 <= g < TOTAL_FG && s.fgs[g].inTransition
      ensures var p, t := s.fgs[g].prev, s.fgs[g].target;
              IsCpu(s, p) && IsCpu(s, t) && s.mig[p].prevCpu == p && s.mig[t].prevCpu == p
    {
      assert GroupOk(q, q.fgs[g]) && MigrationOk(q, q.fgs[g].prev) && g in MovingFrom(q, q.fgs[g].prev);
    }
  }

  // ----- each step is the intended one, but for what is stale -----

  lemma ReceivePlain(s: State, c: nat, p: Pkt)
    requires Shape(s) && IsCpu(s, c) && p.fg < TOTAL_FG
    ensures Receive(Plain(s), c, p) == Plain(Receive(s, c, p)) && Receive(s, c, p).mig == s.mig
  {}

  lemma {:induction false} ReceiveAllPlain(s: State, c: nat, ps: seq<Pkt>)
    requires Shape(s) && IsCpu(s, c) && forall p :: p in ps ==> p.fg < TOTAL_FG
    ensures ReceiveAll(Plain(s), c, ps) == Plain(ReceiveAll(s, c, ps)) && ReceiveAll(s, c, ps).mig == s.mig
    decreases |ps|
  {
    if ps != [] {
      ReceiveAllPlain(s, c, ps[..|ps| - 1]);
      ReceivePlain(ReceiveAll(s, c, ps[..|ps| - 1]), c, ps[|ps| - 1]);
    }
  }

  lemma {:induction false} AssignUpToPlain(s: State, p: nat, t: nat, gs: set<nat>, i: nat, mig: seq<Migration>)
    requires Shape(s) && IsCpu(s, p) && IsCpu(s, t) && i <= TOTAL_FG && |mig| == |s.mig|
    ensures AssignUpTo(s.(mig := mig), p, t, gs, i) == AssignUpTo(s, p, t, gs, i).(mig := mig)
  {
    if i > 0 {
      AssignUpToPlain(s, p, t, gs, i - 1, mig);
      SingleIgnoresInfo(AssignUpTo(s, p, t, gs, i - 1), p, t, i - 1, mig);
    }
  }

  /** Starting a migration on the same groups, with and without what is stale. */
  lemma StartPlain(s: State, p: nat, t: nat, moved: set<nat>)
    requires Shape(s) && IsCpu(s, p) && IsCpu(s, t) && s.mig[p].prevCpu == s.mig[t].prevCpu == NO_CPU
    requires moved != {} ==> p != t && s.mig[p].bitmap <= moved
    ensures Plain(StartMigration(AS_WRITTEN, s, p, t, moved)) == Plain(StartMigration(INTENDED, Plain(s), p, t, moved))
  {
    var a, b := StartMigration(AS_WRITTEN, s, p, t, moved).mig, StartMigration(INTENDED, Plain(s), p, t, moved).mig;
    if moved != {} {
      assert s.mig[p].bitmap + moved == moved;
    }
    assert PlainInfo(a) == PlainInfo(b);
  }

  lemma AssignPlain(s: State, p: nat, t: nat, gs: set<nat>)
    requires Sound(s) && Enabled(s, Assign(p, t, gs)) && Safe(s, Assign(p, t, gs))
    ensures Plain(AssignToCpu(AS_WRITTEN, s, p, t, gs)) == Plain(AssignToCpu(INTENDED, Plain(s), p, t, gs))
  {
    var r, moved := AssignUpTo(s, p, t, gs, TOTAL_FG), Moving(s.fgs, t, gs, TOTAL_FG);
    AssignUpToPlain(s, p, t, gs, TOTAL_FG, PlainInfo(s.mig));
    MovesApart(s, p, t, gs, moved);
    StartPlain(r, p, t, moved);
  }

  lemma MovesApart(s: State, p: nat, t: nat, gs: set<nat>, moved: set<nat>)
    requires Shape(s) && Enabled(s, Assign(p, t, gs)) && moved == Moving(s.fgs, t, gs, TOTAL_FG)
    ensures moved != {} ==> p != t
  {
    if moved != {} {
      var g :| g in moved;
    }
  }

  lemma TimerPlain(s: State, p: nat)
    requires Shape(s) && IsCpu(s, p) && s.mig[p].prevCpu == p
    ensures Plain(StopTimer(s, p)) == StopTimer(Plain(s), p) && Plain(TransitionPrev(s, p)) == TransitionPrev(Plain(s), p)
  {
    assert PlainInfo(s.mig[p := s.mig[p].(timerActive := false)]) == PlainInfo(s.mig)[p := s.mig[p].(timerActive := false)];
  }

  lemma EarlyPlain(s: State, p: nat, polled: seq<Pkt>)
    requires Sound(s) && Enabled(s, RunEarly(p, polled))
    ensures EarlyTransitionPrev(Plain(s), p, polled) == Plain(EarlyTransitionPrev(s, p, polled))
  {
    var s1 := s.(earlyCalls := s.earlyCalls[p := s.earlyCalls[p] - 1]);
    if s.mig[p].timerActive {
      TimerPlain(s1, p);
      ReceiveAllPlain(StopTimer(s1, p), p, polled);
    }
  }

  lemma DrainPlain(s: State, t: nat, info: int)
    requires Sound(s) && PacketsOk(s) && Enabled(s, RunDrain(t, info))
    ensures s.mig[info].prevCpu == info != t && !s.mig[info].timerActive && s.mig[t].prevCpu == info
    ensures Plain(TransitionTarget(s, t, info)) == Plain(TransitionTarget(Plain(s), t, info))
  {
    DrainIsOfPrev(Plain(s), t, info);
    assert PlainInfo(TransitionTarget(s, t, info).mig) == PlainInfo(TransitionTarget(Plain(s), t, info).mig);
  }

  /** Up to what is stale, a safe step of the code is a step of the intended machine. */
  lemma StepPlain(s: State, e: Event, r: State)
    requires Sound(s) && PacketsOk(s) && Enabled(s, e) && Safe(s, e) && r == Step(AS_WRITTEN, s, e)
    ensures Enabled(Plain(s), e) && Plain(r) == Plain(Step(INTENDED, Plain(s), e))
  {
    match e
    case Arrive(c, p) => ReceivePlain(s, c, p); PlainTwice(Receive(s, c, p));
    case Process(c, d) => PlainTwice(r);
    case Assign(p, t, gs) => AssignPlain(s, p, t, gs);
    case TimerFires(p) => TimerPlain(s, p); PlainTwice(r);
    case RunEarly(p, ps) => EarlyPlain(s, p, ps); PlainTwice(r);
    case RunDrain(t, info) => DrainPlain(s, t, info);
  }

  lemma PlainTwice(s: State)
    ensures Plain(Plain(s)) == Plain(s)
  {
    assert PlainInfo(PlainInfo(s.mig)) == PlainInfo(s.mig);
  }

  lemma PlainKeeps(s: State)
    requires Inv(s)
    ensures Inv(Plain(s))
  {
    var r := Plain(s);
    CoreIgnoresControl(s, r);
    forall c | 0 <= c < |r.mig| ensures MigrationOk(r, c) {
      assert MigrationOk(s, c) && MovingFrom(r, c) == MovingFrom(s, c);
    }
  }

  // ----- no call ever waits where a copied timer is -----

  lemma ReceiveCalls(s: State, c: nat, p: Pkt)
    requires Shape(s) && Senders(s) && CallsOk(s) && IsCpu(s, c) && p.fg < TOTAL_FG
    ensures Senders(Receive(s, c, p)) && CallsOk(Receive(s, c, p))
  {}

  lemma {:induction false} ReceiveAllCalls(s: State, c: nat, ps: seq<Pkt>)
    requires Shape(s) && Senders(s) && CallsOk(s) && IsCpu(s, c) && forall p :: p in ps ==> p.fg < TOTAL_FG
    ensures Senders(ReceiveAll(s, c, ps)) && CallsOk(ReceiveAll(s, c, ps))
    decreases |ps|
  {
    if ps != [] {
      ReceiveAllCalls(s, c, ps[..|ps| - 1]);
      ReceiveCalls(ReceiveAll(s, c, ps[..|ps| - 1]), c, ps[|ps| - 1]);
    }
  }

  lemma EarlyCallsOk(s: State, p: nat, polled: seq<Pkt>)
    requires Shape(s) && Senders(s) && CallsOk(s) && Enabled(s, RunEarly(p, polled))
    ensures CallsOk(EarlyTransitionPrev(s, p, polled))
  {
    var s1 := s.(earlyCalls := s.earlyCalls[p := s.earlyCalls[p] - 1]);
    if s.mig[p].timerActive {
      ReceiveAllCalls(StopTimer(s1, p), p, polled);
    }
  }

  lemma StepCalls(s: State, e: Event, r: State)
    requires Sound(s) && PacketsOk(s) && Enabled(s, e) && Safe(s, e) && r == Step(AS_WRITTEN, s, e) && Shape(r)
    ensures CallsOk(r)
  {
    SendersOf(s);
    match e
    case Arrive(c, p) => ReceiveCalls(s, c, p);
    case Process(c, d) =>
    case Assign(p, t, gs) =>
    case TimerFires(p) =>
    case RunEarly(p, ps) => EarlyCallsOk(s, p, ps);
    case RunDrain(t, info) => DrainPlain(s, t, info);
  }

  lemma StepSound(s: State, e: Event, r: State)
    requires Sound(s) && PacketsOk(s) && Enabled(s, e) && Safe(s, e) && r == Step(AS_WRITTEN, s, e)
    ensures Sound(r)
  {
    StepPlain(s, e, r);
    StepInv(Plain(s), e);
    PlainKeeps(Step(INTENDED, Plain(s), e));
    assert Shape(r);
    StepCalls(s, e, r);
  }

  // ----- the results -----

  /** An assignment keeps the code sound if and only if it is safe. */
  lemma AssignSoundIff(s: State, p: nat, t: nat, gs: set<nat>)
    requires Sound(s) && PacketsOk(s) && Enabled(s, Assign(p, t, gs))
    ensures Sound(AssignToCpu(AS_WRITTEN, s, p, t, gs)) <==> Safe(s, Assign(p, t, gs))
  {
    var moved, r := Moving(s.fgs, t, gs, TOTAL_FG), AssignToCpu(AS_WRITTEN, s, p, t, gs);
    if Safe(s, Assign(p, t, gs)) {
      StepSound(s, Assign(p, t, gs), r);
    } else {
      MovesApart(s, p, t, gs, moved);
      assert r.mig[p].prevCpu == p && r.mig[p].bitmap == s.mig[p].bitmap + moved;
      assert r.mig[t].timerActive && r.mig[t].prevCpu == p && r.earlyCalls[t] == s.earlyCalls[t];
      if !(s.mig[p].bitmap <= moved) {
        StaleBreaks(s, p, t, gs, moved, r);
      }
    }
  }

  lemma StaleBreaks(s: State, p: nat, t: nat, gs: set<nat>, moved: set<nat>, r: State)
    requires Sound(s) && PacketsOk(s) && Enabled(s, Assign(p, t, gs)) && moved == Moving(s.fgs, t, gs, TOTAL_FG)
    requires Shape(r) && r == AssignToCpu(AS_WRITTEN, s, p, t, gs) && IsCpu(r, p) && r.mig[p].prevCpu == p
    requires r.mig[p].bitmap == s.mig[p].bitmap + moved != moved
    ensures !Inv(Plain(r))
  {
    var q := Plain(s);
    AssignUpToPlain(s, p, t, gs, TOTAL_FG, q.mig);
    assert AllAssignable(q, p, t, gs);
    AssignUpToKeeps(q, p, t, gs, TOTAL_FG);
    AssignMoving(q, Plain(r), p, t, gs, moved, p);
    assert !MigrationOk(Plain(r), p);
  }

  ghost predicate SafeRun(n: nat, es: seq<Event>, s: State) {
    if es == [] then s == Init(n)
    else exists r :: SafeRun(n, es[..|es| - 1], r) && Shape(r) && PacketsOk(r) && Enabled(r, es[|es| - 1])
                     && Safe(r, es[|es| - 1]) && s == Step(AS_WRITTEN, r, es[|es| - 1])
  }

  lemma {:induction false} SafeRunSound(n: nat, es: seq<Event>, s: State)
    requires SafeRun(n, es, s)
    ensures Sound(s)
    decreases |es|
  {
    if es == [] {
      InitInv(n);
      PlainKeeps(s);
    } else {
      var r :| SafeRun(n, es[..|es| - 1], r) && Shape(r) && PacketsOk(r) && Enabled(r, es[|es| - 1])
               && Safe(r, es[|es| - 1]) && s == Step(AS_WRITTEN, r, es[|es| - 1]);
      SafeRunSound(n, es[..|es| - 1], r);
      StepSound(r, es[|es| - 1], s);
    }
  }

  /** In every run of the code as written whose assignments are safe, what holds of the intended
      machine holds: order, ownership, and one drain per migration. */
  lemma SafeRunDelivers(n: nat, es: seq<Event>, s: State, g: nat, c: nat)
    requires SafeRun(n, es, s) && g < TOTAL_FG && IsCpu(s, c)
    ensures Shape(s)
    ensures DeliveredTo(s.hist.delivered, g) + First(s, g) + Second(s, g) == Flatten(s.hist.epochs[g])
    ensures forall i :: 0 <= i < |s.hist.delivered| ==> s.hist.delivered[i].cpu == s.hist.delivered[i].owner
    ensures s.hist.started[c] == s.hist.drained[c] + (if SendsGroups(s, c) then 1 else 0)
  {
    SafeRunSound(n, es, s);
    SoundDelivers(s, g);
    assert MigrationOk(Plain(s), c);
  }

  lemma SoundDelivers(s: State, g: nat)
    requires Sound(s) && g < TOTAL_FG
    ensures Consistent(ViewOf(s, g)) && DeliveredByOwner(s)
  {
    assert ViewOf(Plain(s), g) == ViewOf(s, g);
  }
}
