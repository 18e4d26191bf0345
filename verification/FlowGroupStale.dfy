/** What a bit left over in the migration bitmap does (core/ethfg.c): the next drain takes the
    group of that bit away from its owner. */
module FlowGroupStale {
  import opened FlowGroups
  import opened FlowGroupInvariants
  import opened FlowGroupMigration
  import opened FlowGroupTheorems
  import opened FlowGroupQuirks
  import opened FlowGroupWritten

  /** A drain leaves a group without an owner if and only if its bit is set although the group is
      not on its way to any CPU, or it had none before. */
  lemma DrainUnowns(s: State, t: nat, p: int, g: nat)
    requires Shape(s) && PacketsOk(s) && IsCpu(s, t) && IsCpu(s, p) && g < TOTAL_FG
    ensures Unassigned(TransitionTarget(s, t, p).fgs[g]) <==>
            if g in s.mig[p].bitmap then s.fgs[g].target == NO_CPU else Unassigned(s.fgs[g])
  {}

  function Settled(c: int): Group { Group(false, c, NO_CPU, NO_CPU) }

  ghost predicate Idle(s: State, u: nat, q: nat) {
    && Sound(s) && PacketsOk(s) && IsCpu(s, u) && IsCpu(s, q) && u != q
    && s.mig[u].prevCpu == NO_CPU && s.mig[q].prevCpu == NO_CPU
  }

  lemma SoundCore(s: State)
    requires Sound(s)
    ensures Core(s)
  {
    CoreIgnoresControl(Plain(s), s);
  }

  /** The drain of the one migration from `u` to `q`. */
  lemma DrainIdles(s: State, u: nat, q: nat)
    requires Sound(s) && PacketsOk(s) && IsCpu(s, u) && IsCpu(s, q) && u as int in s.drainCalls[q]
    ensures var r := TransitionTarget(s, q, u);
            Idle(r, u, q) && r.fgs == SettleAll(s.fgs, s.mig[u].bitmap) && r.mig[u].bitmap == s.mig[u].bitmap
  {
    DrainPlain(s, q, u);
    var r := TransitionTarget(s, q, u);
    StepSound(s, RunDrain(q, u), r);
    SoundCore(r);
    CorePackets(r);
  }

  /** A safe assignment of one group. */
  lemma MoveStarts(n: nat, es: seq<Event>, s: State, u: nat, q: nat, g: nat, r: State)
    requires Run(AS_WRITTEN, n, es, s) && Idle(s, u, q) && s.mig[u].bitmap == {} && s.earlyCalls[q] == 0
    requires g < TOTAL_FG && s.fgs[g] == Settled(u) && r == AssignToCpu(AS_WRITTEN, s, u, q, {g})
    ensures Run(AS_WRITTEN, n, es + [Assign(u, q, {g})], r) && Sound(r) && PacketsOk(r) && |r.mig| == |s.mig|
    ensures r.fgs == s.fgs[g := Group(true, NO_CPU, u, q)] && r.mig[u] == Migration(u, q, {g}, true)
  {
    SoundCore(s);
    MoveOne(AS_WRITTEN, s, u, q, g);
    assert {} + {g} == {g} && Moving(s.fgs, q, {g}, TOTAL_FG) == {g};
    StepSound(s, Assign(u, q, {g}), r);
    Extend(AS_WRITTEN, n, es, s, Assign(u, q, {g}));
  }

  lemma MoveEnds(n: nat, es: seq<Event>, s: State, u: nat, q: nat, g: nat) returns (r: State)
    requires Run(AS_WRITTEN, n, es, s) && Sound(s) && PacketsOk(s) && IsCpu(s, u) && IsCpu(s, q) && u != q
    requires g < TOTAL_FG && s.fgs[g] == Group(true, NO_CPU, u, q) && s.mig[u] == Migration(u, q, {g}, true)
    ensures Run(AS_WRITTEN, n, es + [TimerFires(u)] + [RunDrain(q, u)], r) && Idle(r, u, q) && |r.mig| == |s.mig|
    ensures r.fgs == SettleAll(s.fgs, {g}) && r.mig[u].bitmap == {g}
  {
    TimerAtPrev(s, u, q);
    var s2 := TransitionPrev(s, u);
    StepSound(s, TimerFires(u), s2);
    Extend(AS_WRITTEN, n, es, s, TimerFires(u));
    DrainIdles(s2, u, q);
    Extend(AS_WRITTEN, n, es + [TimerFires(u)], s2, RunDrain(q, u));
    r := TransitionTarget(s2, q, u);
  }

  lemma SettleOne(fgs: seq<Group>, u: nat, q: nat, g: nat)
    requires g < |fgs|
    ensures SettleAll(fgs[g := Group(true, NO_CPU, u, q)], {g}) == fgs[g := Settled(q)]
  {}

  /** The first migration: group `g` moves, and its bit stays. */
  lemma MoveFirst(n: nat, es: seq<Event>, s: State, u: nat, q: nat, g: nat) returns (es': seq<Event>, r: State)
    requires Run(AS_WRITTEN, n, es, s) && Idle(s, u, q) && s.mig[u].bitmap == {} && s.earlyCalls[q] == 0
    requires g < TOTAL_FG && s.fgs[g] == Settled(u)
    ensures Run(AS_WRITTEN, n, es', r) && Idle(r, u, q) && |r.mig| == |s.mig|
    ensures es' == es + [Assign(u, q, {g})] + [TimerFires(u)] + [RunDrain(q, u)]
    ensures r.fgs == s.fgs[g := Settled(q)] && r.mig[u].bitmap == {g}
  {
    var s1 := AssignToCpu(AS_WRITTEN, s, u, q, {g});
    MoveStarts(n, es, s, u, q, g, s1);
    r := MoveEnds(n, es + [Assign(u, q, {g})], s1, u, q, g);
    SettleOne(s.fgs, u, q, g);
    es' := es + [Assign(u, q, {g})] + [TimerFires(u)] + [RunDrain(q, u)];
  }

  /** The second one: group `h` moves, and group `g`, which is not part of it, loses its owner. */
  lemma MoveSecond(n: nat, es: seq<Event>, s: State, u: nat, q: nat, g: nat, h: nat) returns (es': seq<Event>, r: State)
    requires Run(AS_WRITTEN, n, es, s) && Idle(s, u, q) && g in s.mig[u].bitmap
    requires g < TOTAL_FG && h < TOTAL_FG && g != h && s.fgs[g] == Settled(q) && s.fgs[h] == Settled(u)
    ensures Run(AS_WRITTEN, n, es', r) && Shape(r) && |r.mig| == |s.mig|
    ensures es' == es + [Assign(u, q, {h})] + [TimerFires(u)] + [RunDrain(q, u)]
    ensures Unassigned(r.fgs[g]) && r.fgs[h] == Settled(q)
  {
    SoundCore(s);
    MoveOne(AS_WRITTEN, s, u, q, h);
    Extend(AS_WRITTEN, n, es, s, Assign(u, q, {h}));
    es', r := TimerDrains(n, es + [Assign(u, q, {h})], AssignToCpu(AS_WRITTEN, s, u, q, {h}), u, q, g);
  }

  /** Two groups are assigned to `u`. */
  lemma AssignBoth(n: nat, u: nat, q: nat, g: nat, h: nat) returns (es: seq<Event>, s: State)
    requires u < n && q < n && u != q && g < TOTAL_FG && h < TOTAL_FG && g != h
    ensures Run(AS_WRITTEN, n, es, s) && Idle(s, u, q) && |s.mig| == n && s.mig[u].bitmap == {} && s.earlyCalls[q] == 0
    ensures es == [Assign(u, u, {g, h})] && s.fgs[g] == Settled(u) && s.fgs[h] == Settled(u)
  {
    var s0, e := Init(n), Assign(u, u, {g, h});
    InitInv(n);
    PlainKeeps(s0);
    assert AllAssignable(s0, u, u, {g, h});
    AssignUpToKeeps(s0, u, u, {g, h}, TOTAL_FG);
    assert Moving(s0.fgs, u, {g, h}, TOTAL_FG) == {} && s0.mig[u].bitmap + {} == {};
    es, s := [] + [e], AssignToCpu(AS_WRITTEN, s0, u, u, {g, h});
    StepSound(s0, e, s);
    SoundCore(s);
    CorePackets(s);
    assert Run(AS_WRITTEN, n, [], s0);
    Extend(AS_WRITTEN, n, [], s0, e);
  }

  /** The code as written, on any two CPUs and any two groups: `g` and `h` are assigned to `u`, `g`
      moves to `q`, and then `h` does.  No event unassigns `g`, and yet nobody owns it in the end. */
  lemma StaleBitUnowns(n: nat, u: nat, q: nat, g: nat, h: nat) returns (es: seq<Event>, s: State)
    requires u < n && q < n && u != q && g < TOTAL_FG && h < TOTAL_FG && g != h
    ensures Run(AS_WRITTEN, n, es, s) && Shape(s) && |s.mig| == n
    ensures Unassigned(s.fgs[g]) && Owned(s.fgs[h], q)
    ensures es == [Assign(u, u, {g, h}), Assign(u, q, {g}), TimerFires(u), RunDrain(q, u),
                   Assign(u, q, {h}), TimerFires(u), RunDrain(q, u)]
  {
    var es1, s1 := AssignBoth(n, u, q, g, h);
    var es2, s2 := MoveFirst(n, es1, s1, u, q, g);
    es, s := MoveSecond(n, es2, s2, u, q, g, h);
    SevenEvents(Assign(u, u, {g, h}), Assign(u, q, {g}), Assign(u, q, {h}), TimerFires(u), RunDrain(q, u));
  }

  lemma SevenEvents(a: Event, b: Event, c: Event, t: Event, d: Event)
    ensures [a] + [b] + [t] + [d] + [c] + [t] + [d] == [a, b, t, d, c, t, d]
  {}

  // ----- what every stale bit does -----

  /** Groups that are not on their way have no target. */
  ghost predicate Untargeted(s: State)
    requires Shape(s)
  {
    forall g :: 0 <= g < TOTAL_FG && !s.fgs[g].inTransition ==> s.fgs[g].target == NO_CPU
  }

  lemma {:induction false} AssignUntargeted(s: State, p: nat, t: nat, gs: set<nat>, i: nat)
    requires Shape(s) && IsCpu(s, p) && IsCpu(s, t) && i <= TOTAL_FG && Untargeted(s)
    ensures Untargeted(AssignUpTo(s, p, t, gs, i))
  {
    if i > 0 { AssignUntargeted(s, p, t, gs, i - 1); }
  }

  lemma {:induction false} ReceiveAllGroups(s: State, c: nat, ps: seq<Pkt>)
    requires Shape(s) && IsCpu(s, c) && forall p :: p in ps ==> p.fg < TOTAL_FG
    ensures ReceiveAll(s, c, ps).fgs == s.fgs
    decreases |ps|
  {
    if ps != [] { ReceiveAllGroups(s, c, ps[..|ps| - 1]); }
  }

  lemma StepUntargeted(port: Port, s: State, e: Event, r: State)
    requires Shape(s) && PacketsOk(s) && Enabled(s, e) && Untargeted(s) && r == Step(port, s, e) && Shape(r)
    ensures Untargeted(r)
  {
    match e
    case Assign(p, t, gs) => AssignUntargeted(s, p, t, gs, TOTAL_FG);
    case RunEarly(p, ps) =>
      if s.mig[p].timerActive { ReceiveAllGroups(StopTimer(s.(earlyCalls := s.earlyCalls[p := s.earlyCalls[p] - 1]), p), p, ps); }
    case _ =>
  }

  lemma {:induction false} RunUntargeted(port: Port, n: nat, es: seq<Event>, s: State)
    requires Run(port, n, es, s)
    ensures Shape(s) && Untargeted(s)
    decreases |es|
  {
    if es != [] {
      var r :| Run(port, n, es[..|es| - 1], r) && Shape(r) && PacketsOk(r)
               && Enabled(r, es[|es| - 1]) && s == Step(port, r, es[|es| - 1]);
      RunUntargeted(port, n, es[..|es| - 1], r);
      StepShape(port, r, es[|es| - 1]);
      StepUntargeted(port, r, es[|es| - 1], s);
    }
  }

  lemma StepShape(port: Port, s: State, e: Event)
    requires Shape(s) && PacketsOk(s) && Enabled(s, e)
    ensures Shape(Step(port, s, e))
  {}

  /** From any sound state that the code reaches, with a bit of group `g` left over on `p`: an
      assignment that moves other groups, followed by its drain, leaves `g` without an owner if
      `g` was not on its way.  If it was, the drain ends that migration, which is not its own. */
  lemma StaleBitLoses(n: nat, es: seq<Event>, s: State, p: nat, t: nat, gs: set<nat>, g: nat) returns (es': seq<Event>, r: State)
    requires Run(AS_WRITTEN, n, es, s) && Sound(s) && PacketsOk(s) && Enabled(s, Assign(p, t, gs))
    requires Moving(s.fgs, t, gs, TOTAL_FG) != {} && g < TOTAL_FG && g in s.mig[p].bitmap - Moving(s.fgs, t, gs, TOTAL_FG)
    ensures Run(AS_WRITTEN, n, es', r) && Shape(r)
    ensures es' == es + [Assign(p, t, gs)] + [TimerFires(p)] + [RunDrain(t, p)]
    ensures if s.fgs[g].inTransition then r.fgs[g] == Settled(s.fgs[g].target) else Unassigned(r.fgs[g])
  {
    var moved, s1 := Moving(s.fgs, t, gs, TOTAL_FG), AssignToCpu(AS_WRITTEN, s, p, t, gs);
    StaleStarts(s, p, t, gs, moved, g, s1);
    Extend(AS_WRITTEN, n, es, s, Assign(p, t, gs));
    RunUntargeted(AS_WRITTEN, n, es + [Assign(p, t, gs)], s1);
    es', r := TimerDrains(n, es + [Assign(p, t, gs)], s1, p, t, g);
  }

  lemma StaleStarts(s: State, p: nat, t: nat, gs: set<nat>, moved: set<nat>, g: nat, r: State)
    requires Sound(s) && PacketsOk(s) && Enabled(s, Assign(p, t, gs)) && moved == Moving(s.fgs, t, gs, TOTAL_FG)
    requires moved != {} && g < TOTAL_FG && g in s.mig[p].bitmap - moved && r == AssignToCpu(AS_WRITTEN, s, p, t, gs)
    ensures p != t && Ready(r) && |r.mig| == |s.mig| && r.mig[p] == Migration(p, t, s.mig[p].bitmap + moved, true)
    ensures if s.fgs[g].inTransition then r.fgs[g] == s.fgs[g] else !r.fgs[g].inTransition
  {
    SoundCore(s);
    assert AllAssignable(s, p, t, gs);
    AssignUpToKeeps(s, p, t, gs, TOTAL_FG);
    MovesApart(s, p, t, gs, moved);
    CoreIgnoresControl(AssignUpTo(s, p, t, gs, TOTAL_FG), r);
    CorePackets(r);
  }
}
