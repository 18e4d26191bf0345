/** Where the code as written departs from its intent, and what that breaks. */
module FlowGroupQuirks {
  import opened FlowGroups
  import opened FlowGroupInvariants
  import opened FlowGroupSafety
  import opened FlowGroupMigration
  import opened FlowGroupTheorems

  /** Without clearing the bitmap, a migration starts correctly exactly when every bit left
      over from earlier ones names a group that moves again. */
  lemma StaleBitmap(s: State, p: nat, t: nat, gs: set<nat>)
    requires Inv(s) && Enabled(s, Assign(p, t, gs))
    ensures Inv(AssignToCpu(Port(false, false), s, p, t, gs)) <==>
            Moving(s.fgs, t, gs, TOTAL_FG) == {} || s.mig[p].bitmap <= Moving(s.fgs, t, gs, TOTAL_FG)
  {
    var moved := Moving(s.fgs, t, gs, TOTAL_FG);
    AssignKeeps(s, p, t, gs);
    if moved == {} {
      NothingMoves(s, p, t, gs);
    } else if s.mig[p].bitmap <= moved {
      assert s.mig[p].bitmap + moved == moved;
    } else {
      StaleBit(s, p, t, gs, moved);
    }
  }

  lemma NothingMoves(s: State, p: nat, t: nat, gs: set<nat>)
    requires Inv(s) && Enabled(s, Assign(p, t, gs)) && Moving(s.fgs, t, gs, TOTAL_FG) == {}
    ensures Inv(AssignToCpu(Port(false, false), s, p, t, gs))
  {
    AssignKeeps(s, p, t, gs);
    var good, w := AssignToCpu(INTENDED, s, p, t, gs), AssignToCpu(Port(false, false), s, p, t, gs);
    CoreIgnoresControl(good, w);
    forall c | 0 <= c < |w.mig| ensures MigrationOk(w, c) {
      assert MigrationOk(good, c) && MovingFrom(w, c) == MovingFrom(good, c);
    }
  }

  lemma StaleBit(s: State, p: nat, t: nat, gs: set<nat>, moved: set<nat>)
    requires Inv(s) && Enabled(s, Assign(p, t, gs))
    requires moved == Moving(s.fgs, t, gs, TOTAL_FG) && moved != {} && !(s.mig[p].bitmap <= moved)
    ensures !Inv(AssignToCpu(Port(false, false), s, p, t, gs))
  {
    assert AllAssignable(s, p, t, gs);
    AssignUpToKeeps(s, p, t, gs, TOTAL_FG);
    var r := AssignUpTo(s, p, t, gs, TOTAL_FG);
    var w := StartMigration(Port(false, false), r, p, t, moved);
    AssignMoving(s, r, p, t, gs, moved, p);
    assert MovingFrom(w, p) == moved;
    assert w.mig[p].prevCpu == p && w.mig[p].bitmap != MovingFrom(w, p);
    assert !MigrationOk(w, p);
  }

  ghost predicate Queued(s: State, r: State) {
    r.rx == s.rx && r.remote == s.remote && r.local == s.local
  }

  lemma CorePackets(s: State)
    requires Shape(s) && Core(s)
    ensures PacketsOk(s)
  {
    forall c | 0 <= c < |s.mig|
      ensures (forall p :: p in s.remote[c] ==> p.fg < TOTAL_FG)
      ensures (forall p :: p in s.local[c] ==> p.fg < TOTAL_FG)
      ensures (forall d, p :: 0 <= d < NETHDEV && p in s.rx[c][d] ==> p.fg < TOTAL_FG)
    {
      assert forall p :: p in s.remote[c] ==> MovingTo(s, p, c);
      assert forall p :: p in s.local[c] ==> MovingTo(s, p, c);
      assert forall d, p :: 0 <= d < NETHDEV && p in s.rx[c][d] ==> OwnedBy(s, p, c, d);
    }
  }

  /** Starting to move one group. */
  lemma MoveOne(port: Port, s: State, p: nat, t: nat, g: nat)
    requires Shape(s) && Core(s) && IsCpu(s, p) && IsCpu(s, t) && p != t && g < TOTAL_FG && Owned(s.fgs[g], p)
    ensures var r := AssignToCpu(port, s, p, t, {g});
            && Shape(r) && Core(r) && PacketsOk(r)
            && r.fgs == s.fgs[g := Group(true, NO_CPU, p, t)]
            && r.mig == s.mig[p := Migration(p, t, if port.clearsBitmap then {g} else s.mig[p].bitmap + {g}, true)]
                             [t := r.mig[t]]
            && r.mig[t] == r.mig[p].(timerActive := port.copiesTimer || s.mig[t].timerActive)
            && r.local == s.local && r.earlyCalls == s.earlyCalls && r.drainCalls == s.drainCalls
            && r.hist == s.hist.(started := s.hist.started[p := s.hist.started[p] + 1])
  {
    assert AllAssignable(s, p, t, {g});
    AssignUpToKeeps(s, p, t, {g}, TOTAL_FG);
    assert Moving(s.fgs, t, {g}, TOTAL_FG) == {g};
    var r := AssignToCpu(port, s, p, t, {g});
    CoreIgnoresControl(AssignUpTo(s, p, t, {g}, TOTAL_FG), r);
    CorePackets(r);
  }

  lemma Extend(port: Port, n: nat, es: seq<Event>, r: State, e: Event)
    requires Run(port, n, es, r) && Shape(r) && PacketsOk(r) && Enabled(r, e)
    ensures Run(port, n, es + [e], Step(port, r, e))
  {
    Split(es, e);
  }

  ghost predicate Ready(s: State) { Shape(s) && PacketsOk(s) }

  /** The waiting call on `u` finds the copied timer active. */
  lemma EarlyAtTarget(s: State, q: nat, u: nat)
    requires Ready(s) && IsCpu(s, q) && IsCpu(s, u) && q != u && s.earlyCalls[u] > 0
    requires s.mig[u] == Migration(q, u, s.mig[u].bitmap, true)
    ensures var r := EarlyTransitionPrev(s, u, []);
            && Ready(r) && r.fgs == s.fgs && r.hist == s.hist
            && r.mig == s.mig[u := s.mig[u].(timerActive := false)] && u as int in r.drainCalls[u]
  {
    var r := EarlyTransitionPrev(s, u, []);
    assert Queued(s, r);
  }

  lemma DrainGroup(s: State, u: nat, info: int, g: nat)
    requires Ready(s) && IsCpu(s, u) && IsCpu(s, info) && g < TOTAL_FG && g in s.mig[info].bitmap
    ensures var r := TransitionTarget(s, u, info);
            && Ready(r) && r.fgs == SettleAll(s.fgs, s.mig[info].bitmap) && r.fgs[g] == Settle(s.fgs[g])
            && (forall c :: IsCpu(s, c) && c != u && c != info ==> r.mig[c] == s.mig[c])
            && r.hist.drained == s.hist.drained[info := s.hist.drained[info] + 1]
            && r.hist.started == s.hist.started
  {}

  lemma TimerAtPrev(s: State, q: nat, u: nat)
    requires Ready(s) && IsCpu(s, q) && IsCpu(s, u) && s.mig[q].targetCpu == u
    ensures var r := TransitionPrev(s, q);
            && Ready(r) && r.fgs == s.fgs && r.hist == s.hist
            && r.mig == s.mig[q := s.mig[q].(timerActive := false)] && q as int in r.drainCalls[u]
  {
    assert Queued(s, TransitionPrev(s, q));
  }

  /** The timer of `q` ends its migration to `u`; `u` drains. */
  lemma TimerDrains(n: nat, es: seq<Event>, s: State, q: nat, u: nat, g: nat) returns (es': seq<Event>, r: State)
    requires Run(AS_WRITTEN, n, es, s) && Ready(s) && IsCpu(s, q) && IsCpu(s, u) && q != u
    requires s.mig[q].prevCpu == q && s.mig[q].targetCpu == u && s.mig[q].timerActive
    requires g < TOTAL_FG && g in s.mig[q].bitmap
    ensures Run(AS_WRITTEN, n, es', r) && Shape(r) && |r.mig| == |s.mig|
    ensures es' == es + [TimerFires(q)] + [RunDrain(u, q)]
    ensures r.fgs == SettleAll(s.fgs, s.mig[q].bitmap)
    ensures r.hist.drained == s.hist.drained[q := s.hist.drained[q] + 1] && r.hist.started == s.hist.started
  {
    var es1, s1 := es + [TimerFires(q)], TransitionPrev(s, q);
    TimerStep(n, es, s, q, u, es1, s1);
    es', r := es1 + [RunDrain(u, q)], TransitionTarget(s1, u, q);
    DrainGroup(s1, u, q, g);
    Extend(AS_WRITTEN, n, es1, s1, RunDrain(u, q));
  }

  lemma TimerStep(n: nat, es: seq<Event>, s: State, q: nat, u: nat, es1: seq<Event>, s1: State)
    requires Run(AS_WRITTEN, n, es, s) && Ready(s) && IsCpu(s, q) && IsCpu(s, u) && q != u
    requires s.mig[q].prevCpu == q && s.mig[q].targetCpu == u && s.mig[q].timerActive
    requires es1 == es + [TimerFires(q)] && s1 == TransitionPrev(s, q)
    ensures Run(AS_WRITTEN, n, es1, s1) && Ready(s1) && Enabled(s1, RunDrain(u, q))
    ensures s1.fgs == s.fgs && s1.hist == s.hist && s1.mig == s.mig[q := s.mig[q].(timerActive := false)]
  {
    TimerAtPrev(s, q, u);
    Extend(AS_WRITTEN, n, es, s, TimerFires(q));
  }

  lemma TwoDrains(n: nat, es: seq<Event>, s: State, q: nat, u: nat, g: nat) returns (es': seq<Event>, r: State)
    requires Run(AS_WRITTEN, n, es, s) && Ready(s) && IsCpu(s, q) && IsCpu(s, u) && q != u
    requires u as int in s.drainCalls[u] && s.mig[q].prevCpu == q && s.mig[q].targetCpu == u && s.mig[q].timerActive
    requires g < TOTAL_FG && s.fgs[g].target == u && g in s.mig[u].bitmap && g in s.mig[q].bitmap
    ensures Run(AS_WRITTEN, n, es', r) && Shape(r) && IsCpu(r, u) && |r.mig| == |s.mig|
    ensures es' == es + [RunDrain(u, u)] + [TimerFires(q)] + [RunDrain(u, q)]
    ensures Unassigned(r.fgs[g])
    ensures r.hist.drained[u] == s.hist.drained[u] + 1 && r.hist.started[u] == s.hist.started[u]
  {
    DrainGroup(s, u, u, g);
    Extend(AS_WRITTEN, n, es, s, RunDrain(u, u));
    es', r := TimerDrains(n, es + [RunDrain(u, u)], TransitionTarget(s, u, u), q, u, g);
  }

  /** Group `g` moves from `q` to `u` while an old call still waits on `u`.  The call takes
      `u`'s copy of the timer for a running one and drains; `q`'s own timer drains again, and
      the second drain leaves the group without an owner. */
  lemma DrainTwice(n: nat, es: seq<Event>, s: State, q: nat, u: nat, g: nat) returns (es': seq<Event>, r: State)
    requires Run(AS_WRITTEN, n, es, s) && Shape(s) && Core(s) && IsCpu(s, q) && IsCpu(s, u) && q != u
    requires s.mig[q].prevCpu == NO_CPU && s.mig[u].prevCpu == NO_CPU && s.earlyCalls[u] > 0
    requires g < TOTAL_FG && Owned(s.fgs[g], q)
    ensures Run(AS_WRITTEN, n, es', r) && Shape(r) && IsCpu(r, u) && |r.mig| == |s.mig|
    ensures es' == es + [Assign(q, u, {g}), RunEarly(u, []), RunDrain(u, u), TimerFires(q), RunDrain(u, q)]
    ensures Unassigned(r.fgs[g])
    ensures r.hist.drained[u] == s.hist.drained[u] + 1 && r.hist.started[u] == s.hist.started[u]
  {
    CorePackets(s);
    MoveOne(AS_WRITTEN, s, q, u, g);
    Extend(AS_WRITTEN, n, es, s, Assign(q, u, {g}));
    var es1, s1 := es + [Assign(q, u, {g})], AssignToCpu(AS_WRITTEN, s, q, u, {g});
    EarlyAtTarget(s1, q, u);
    Extend(AS_WRITTEN, n, es1, s1, RunEarly(u, []));
    es', r := TwoDrains(n, es1 + [RunEarly(u, [])], EarlyTransitionPrev(s1, u, []), q, u, g);
    FiveMore(es, Assign(q, u, {g}), RunEarly(u, []), RunDrain(u, u), TimerFires(q), RunDrain(u, q));
  }

  lemma FiveMore(es: seq<Event>, a: Event, b: Event, c: Event, d: Event, e: Event)
    ensures es + [a] + [b] + [c] + [d] + [e] == es + [a, b, c, d, e]
  {}

  /** `s` with the copied timer of CPU `q` showing as active. */
  function Flagged(s: State, q: nat): (r: State)
    requires Shape(s) && IsCpu(s, q)
    ensures Shape(r)
  {
    s.(mig := s.mig[q := s.mig[q].(timerActive := true)])
  }

  /** The flag that was copied to `q` changes nothing until a call runs on `q`. */
  lemma FlaggedArrive(n: nat, es: seq<Event>, s: State, q: nat, p: Pkt)
    requires Inv(s) && IsCpu(s, q) && p.fg < TOTAL_FG && Run(AS_WRITTEN, n, es, Flagged(s, q))
    ensures Run(AS_WRITTEN, n, es + [Arrive(q, p)], Flagged(Receive(s, q, p), q))
  {
    CorePackets(s);
    assert Receive(Flagged(s, q), q, p) == Flagged(Receive(s, q, p), q);
    Extend(AS_WRITTEN, n, es, Flagged(s, q), Arrive(q, p));
  }

  lemma FlaggedTimer(n: nat, es: seq<Event>, s: State, u: nat, q: nat)
    requires Inv(s) && IsCpu(s, u) && IsCpu(s, q) && u != q && Run(AS_WRITTEN, n, es, Flagged(s, q))
    requires s.mig[u].timerActive && s.mig[u].prevCpu == u
    ensures Run(AS_WRITTEN, n, es + [TimerFires(u)], Flagged(TransitionPrev(s, u), q))
  {
    CorePackets(s);
    var m, a := s.mig, s.mig[q].(timerActive := true);
    assert m[q := a][u := m[u].(timerActive := false)] == m[u := m[u].(timerActive := false)][q := a];
    assert TransitionPrev(Flagged(s, q), u) == Flagged(TransitionPrev(s, u), q);
    Extend(AS_WRITTEN, n, es, Flagged(s, q), TimerFires(u));
  }

  lemma FlaggedTarget(s: State, u: nat, q: nat)
    requires Shape(s) && PacketsOk(s) && IsCpu(s, u) && IsCpu(s, q) && u != q
    ensures TransitionTarget(Flagged(s, q), q, u) == Flagged(TransitionTarget(s, q, u), q)
  {
    assert TransitionTarget(Flagged(s, q), q, u).mig == Flagged(TransitionTarget(s, q, u), q).mig;
  }

  lemma FlaggedDrain(n: nat, es: seq<Event>, s: State, u: nat, q: nat)
    requires Shape(s) && PacketsOk(s) && IsCpu(s, u) && IsCpu(s, q) && u != q && Run(AS_WRITTEN, n, es, Flagged(s, q))
    requires u as int in s.drainCalls[q]
    ensures Run(AS_WRITTEN, n, es + [RunDrain(q, u)], Flagged(TransitionTarget(s, q, u), q))
  {
    FlaggedTarget(s, u, q);
    Extend(AS_WRITTEN, n, es, Flagged(s, q), RunDrain(q, u));
  }

  /** Group `g` is on its way from `u` to `q`. */
  ghost predicate OnItsWay(s: State, u: nat, q: nat, g: nat) {
    && Inv(s) && IsCpu(s, u) && IsCpu(s, q) && u != q && g < TOTAL_FG
    && s.mig[u].prevCpu == u && s.mig[u].targetCpu == q && g in s.mig[u].bitmap && s.fgs[g] == Group(true, NO_CPU, u, q)
  }

  lemma ArriveEarly(s: State, u: nat, q: nat, g: nat, p: Pkt)
    requires OnItsWay(s, u, q, g) && s.mig[u].timerActive && s.local[q] == [] && p.fg == g
    ensures var r := Receive(s, q, p); OnItsWay(r, u, q, g) && r.mig == s.mig && r.earlyCalls[u] > 0
  {
    assert MigrationOk(s, q) && MigrationOk(s, u);
    ReceiveKeeps(s, q, p);
    ControlIsKept(s, Receive(s, q, p));
  }

  lemma TimerEnds(s: State, u: nat, q: nat, g: nat)
    requires OnItsWay(s, u, q, g) && s.mig[u].timerActive
    ensures var r := TransitionPrev(s, u);
            OnItsWay(r, u, q, g) && r.earlyCalls == s.earlyCalls && u as int in r.drainCalls[q]
  {
    TimerKeeps(s, u);
    TimerAtPrevCalls(s, u, q);
  }

  lemma TimerAtPrevCalls(s: State, u: nat, q: nat)
    requires Shape(s) && IsCpu(s, u) && IsCpu(s, q) && s.mig[u].targetCpu == q
    ensures u as int in TransitionPrev(s, u).drainCalls[q]
  {}

  lemma DrainEnds(s: State, u: nat, q: nat, g: nat)
    requires OnItsWay(s, u, q, g) && u as int in s.drainCalls[q] && s.earlyCalls[u] > 0 && PacketsOk(s)
    ensures var r := TransitionTarget(s, q, u);
            && Inv(r) && |r.mig| == |s.mig| && r.mig[q].prevCpu == NO_CPU && r.mig[u].prevCpu == NO_CPU
            && r.earlyCalls[u] > 0 && Owned(r.fgs[g], q) && r.hist.started[u] == r.hist.drained[u]
  {
    DrainKeeps(s, q, u);
    assert MigrationOk(TransitionTarget(s, q, u), u);
  }

  /** A packet reaches `q` early, so a call waits on `u`; the timer ends the migration before
      that call runs. */
  lemma FinishEarly(n: nat, es: seq<Event>, s: State, u: nat, q: nat, g: nat) returns (es': seq<Event>, r: State)
    requires OnItsWay(s, u, q, g) && s.mig[u].timerActive && |s.mig| == n
    requires s.local[q] == [] && Run(AS_WRITTEN, n, es, Flagged(s, q))
    ensures Run(AS_WRITTEN, n, es', r) && Shape(r) && Core(r) && |r.mig| == n
    ensures es' == es + [Arrive(q, Pkt(0, g))] + [TimerFires(u)] + [RunDrain(q, u)]
    ensures r.mig[q].prevCpu == NO_CPU && r.mig[u].prevCpu == NO_CPU && r.earlyCalls[u] > 0
    ensures Owned(r.fgs[g], q) && r.hist.started[u] == r.hist.drained[u]
  {
    var p := Pkt(0, g);
    ArriveEarly(s, u, q, g, p);
    FlaggedArrive(n, es, s, q, p);
    var s1 := Receive(s, q, p);
    TimerEnds(s1, u, q, g);
    FlaggedTimer(n, es + [Arrive(q, p)], s1, u, q);
    var s2 := TransitionPrev(s1, u);
    CorePackets(s2);
    DrainEnds(s2, u, q, g);
    FlaggedDrain(n, es + [Arrive(q, p)] + [TimerFires(u)], s2, u, q);
    es' := es + [Arrive(q, p)] + [TimerFires(u)] + [RunDrain(q, u)];
    r := Flagged(TransitionTarget(s2, q, u), q);
    CoreIgnoresControl(TransitionTarget(s2, q, u), r);
  }

  /** Group `g` starts on CPU `u` and moves to `q`; a call outlives the migration. */
  lemma CallOutlivesMigration(n: nat, u: nat, q: nat, g: nat) returns (es: seq<Event>, s: State)
    requires u < n && q < n && u != q && g < TOTAL_FG
    ensures Run(AS_WRITTEN, n, es, s) && Shape(s) && Core(s) && |s.mig| == n
    ensures es == [Assign(u, u, {g}), Assign(u, q, {g}), Arrive(q, Pkt(0, g)), TimerFires(u), RunDrain(q, u)]
    ensures s.mig[q].prevCpu == NO_CPU && s.mig[u].prevCpu == NO_CPU && s.earlyCalls[u] > 0
    ensures Owned(s.fgs[g], q) && s.hist.started[u] == s.hist.drained[u]
  {
    var s1 := FirstOwner(n, u, q, g);
    es, s := StartAndFinish(n, [Assign(u, u, {g})], s1, u, q, g);
  }

  lemma FirstOwner(n: nat, u: nat, q: nat, g: nat) returns (s1: State)
    requires u < n && q < n && u != q && g < TOTAL_FG
    ensures Inv(s1) && |s1.mig| == n && Run(AS_WRITTEN, n, [Assign(u, u, {g})], s1) && Owned(s1.fgs[g], u)
    ensures s1.local[q] == [] && s1.mig[u] == Migration(NO_CPU, NO_CPU, {}, false) && s1.mig[q].prevCpu == NO_CPU
  {
    var s0 := Init(n);
    InitInv(n);
    AssignKeeps(s0, u, u, {g});
    AssignUpToKeeps(s0, u, u, {g}, TOTAL_FG);
    s1 := AssignToCpu(INTENDED, s0, u, u, {g});
    assert s0.mig[u].bitmap + {} == {};
    assert Moving(s0.fgs, u, {g}, TOTAL_FG) == {} && AssignToCpu(AS_WRITTEN, s0, u, u, {g}) == s1;
    assert Run(AS_WRITTEN, n, [], s0);
    Extend(AS_WRITTEN, n, [], s0, Assign(u, u, {g}));
    assert [] + [Assign(u, u, {g})] == [Assign(u, u, {g})];
  }

  lemma FlaggedAssign(s: State, u: nat, q: nat, g: nat)
    requires Shape(s) && IsCpu(s, u) && IsCpu(s, q) && u != q && g < TOTAL_FG && Owned(s.fgs[g], u)
    requires s.mig[u].bitmap == {}
    ensures AssignToCpu(AS_WRITTEN, s, u, q, {g}) == Flagged(AssignToCpu(INTENDED, s, u, q, {g}), q)
  {
    assert {} + {g} == {g};
    assert Moving(s.fgs, q, {g}, TOTAL_FG) == {g};
  }

  lemma FourMore(es: seq<Event>, a: Event, b: Event, c: Event, d: Event)
    ensures es + [a] + [b] + [c] + [d] == es + [a, b, c, d]
  {}

  lemma StartAndFinish(n: nat, es: seq<Event>, s: State, u: nat, q: nat, g: nat) returns (es': seq<Event>, r: State)
    requires Inv(s) && IsCpu(s, u) && IsCpu(s, q) && u != q && g < TOTAL_FG && |s.mig| == n
    requires Run(AS_WRITTEN, n, es, s) && Owned(s.fgs[g], u) && s.local[q] == []
    requires s.mig[u] == Migration(NO_CPU, NO_CPU, {}, false) && s.mig[q].prevCpu == NO_CPU
    ensures Run(AS_WRITTEN, n, es', r) && Shape(r) && Core(r) && |r.mig| == n
    ensures es' == es + [Assign(u, q, {g}), Arrive(q, Pkt(0, g)), TimerFires(u), RunDrain(q, u)]
    ensures r.mig[q].prevCpu == NO_CPU && r.mig[u].prevCpu == NO_CPU && r.earlyCalls[u] > 0
    ensures Owned(r.fgs[g], q) && r.hist.started[u] == r.hist.drained[u]
  {
    AssignKeeps(s, u, q, {g});
    MoveOne(INTENDED, s, u, q, g);
    FlaggedAssign(s, u, q, g);
    CorePackets(s);
    Extend(AS_WRITTEN, n, es, s, Assign(u, q, {g}));
    es', r := FinishEarly(n, es + [Assign(u, q, {g})], AssignToCpu(INTENDED, s, u, q, {g}), u, q, g);
    FourMore(es, Assign(u, q, {g}), Arrive(q, Pkt(0, g)), TimerFires(u), RunDrain(q, u));
  }

  /** The code as written, on any two CPUs and any group: `g` is assigned to `u`, moves to `q` and
      back.  A CPU drains without a migration of its own, and `g`, which no event unassigns, ends
      up without an owner. */
  lemma CodeDrainsTwice(n: nat, u: nat, q: nat, g: nat) returns (es: seq<Event>, s: State)
    requires u < n && q < n && u != q && g < TOTAL_FG
    ensures Run(AS_WRITTEN, n, es, s) && Shape(s) && |s.mig| == n
    ensures Unassigned(s.fgs[g]) && s.hist.drained[u] == s.hist.started[u] + 1
    ensures es == [Assign(u, u, {g}), Assign(u, q, {g}), Arrive(q, Pkt(0, g)), TimerFires(u), RunDrain(q, u),
                   Assign(q, u, {g}), RunEarly(u, []), RunDrain(u, u), TimerFires(q), RunDrain(u, q)]
  {
    var es1, s1 := CallOutlivesMigration(n, u, q, g);
    es, s := DrainTwice(n, es1, s1, q, u, g);
  }
}
