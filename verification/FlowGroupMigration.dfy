/** The steps of a migration keep the invariants. */
module FlowGroupMigration {
  import opened FlowGroups
  import opened FlowGroupInvariants
  import opened FlowGroupSafety

  // ----- eth_fg_assign_to_cpu -----

  ghost predicate Assignable(s: State, p: nat, t: nat, g: nat)
    requires Shape(s) && g < TOTAL_FG
  {
    IsCpu(s, p) && IsCpu(s, t) && !s.fgs[g].inTransition && s.fgs[g].cur in {p, t, NO_CPU}
  }

  function Assigned(fg: Group, t: int): Group {
    if fg.cur == t then fg else if fg.cur == NO_CPU then fg.(cur := t) else Group(true, NO_CPU, fg.cur, t)
  }

  /** No CPU holds a packet of a group that is unassigned. */
  lemma NothingQueued(s: State, c: int, g: nat)
    requires Shape(s) && Located(s) && g < TOTAL_FG
    ensures !s.fgs[g].inTransition ==> OfGroup(At(s.remote, c), g) == [] && OfGroup(At(s.local, c), g) == []
    ensures s.fgs[g].inTransition || s.fgs[g].cur != c ==> OfGroup(RxOf(s, c, g), g) == []
  {
    if IsCpu(s, c) {
      if !s.fgs[g].inTransition {
        assert forall p :: p in s.remote[c] ==> MovingTo(s, p, c);
        assert forall p :: p in s.local[c] ==> MovingTo(s, p, c);
        OfGroupNone(s.remote[c], g);
        OfGroupNone(s.local[c], g);
      }
      if s.fgs[g].inTransition || s.fgs[g].cur != c {
        var d := g / ETH_MAX_NUM_FG;
        assert forall p :: p in s.rx[c][d] ==> OwnedBy(s, p, c, d);
        OfGroupNone(s.rx[c][d], g);
      }
    }
  }

  lemma AssignRx(s: State, p: nat, t: nat, g: nat, k: int, h: nat)
    requires Shape(s) && g < TOTAL_FG && h < TOTAL_FG && Assignable(s, p, t, g)
    ensures RxOf(AssignSingle(s, p, t, g), k, h) in {RxOf(s, k, h), NotOfGroup(RxOf(s, k, h), g)}
  {}

  lemma AssignRemote(s: State, p: nat, t: nat, g: nat, k: int)
    requires Shape(s) && g < TOTAL_FG && Assignable(s, p, t, g)
    ensures var q := s.rx[p][g / ETH_MAX_NUM_FG];
            At(AssignSingle(s, p, t, g).remote, k) in {At(s.remote, k), At(s.remote, k) + OfGroup(q, g)}
  {}

  lemma AssignOther(s: State, p: nat, t: nat, g: nat, h: nat)
    requires Shape(s) && g < TOTAL_FG && h < TOTAL_FG && h != g && Assignable(s, p, t, g)
    ensures First(AssignSingle(s, p, t, g), h) == First(s, h)
  {
    if s.fgs[h].inTransition {
      var k, moved := s.fgs[h].target, OfGroup(s.rx[p][g / ETH_MAX_NUM_FG], g);
      AssignRemote(s, p, t, g, k);
      OfGroupOthers(s.rx[p][g / ETH_MAX_NUM_FG], g, h);
      OfGroupConcat(At(s.remote, k), moved, h);
    } else {
      AssignRx(s, p, t, g, s.fgs[h].cur, h);
      OfGroupOthers(RxOf(s, s.fgs[h].cur, h), g, h);
    }
  }

  /** Assigning a group moves its packets but changes neither their order nor their number. */
  lemma AssignFirst(s: State, p: nat, t: nat, g: nat, h: nat)
    requires Shape(s) && Located(s) && g < TOTAL_FG && h < TOTAL_FG && Assignable(s, p, t, g)
    ensures First(AssignSingle(s, p, t, g), h) == First(s, h)
  {
    if h != g {
      AssignOther(s, p, t, g, h);
    } else if s.fgs[g].cur == NO_CPU {
      NothingQueued(s, t, g);
    } else if s.fgs[g].cur != t {
      var q := s.rx[p][g / ETH_MAX_NUM_FG];
      NothingQueued(s, t, g);
      OfGroupOthers(q, g, g);
      OfGroupConcat(s.remote[t], OfGroup(q, g), g);
    }
  }

  lemma AssignView(s: State, p: nat, t: nat, g: nat, h: nat, w: View)
    requires Shape(s) && Located(s) && g < TOTAL_FG && h < TOTAL_FG && Assignable(s, p, t, g)
    requires w == ViewOf(AssignSingle(s, p, t, g), h)
    ensures w == ViewOf(s, h)
  {
    AssignFirst(s, p, t, g, h);
    NothingQueued(s, t, g);
    assert AssignSingle(s, p, t, g).hist == s.hist;
    assert w.second == ViewOf(s, h).second;
  }

  lemma AssignLocated(s: State, p: nat, t: nat, g: nat)
    requires Shape(s) && GroupsOk(s) && Located(s) && g < TOTAL_FG && Assignable(s, p, t, g)
    ensures GroupsOk(AssignSingle(s, p, t, g)) && Located(AssignSingle(s, p, t, g))
  {
    var r, d := AssignSingle(s, p, t, g), g / ETH_MAX_NUM_FG;
    OfGroupMembers(s.rx[p][d], g);
    forall h | 0 <= h < TOTAL_FG ensures GroupOk(r, r.fgs[h]) { assert GroupOk(s, s.fgs[h]); }
  }

  lemma AssignSingleKeeps(s: State, p: nat, t: nat, g: nat)
    requires Shape(s) && Core(s) && g < TOTAL_FG && Assignable(s, p, t, g)
    ensures Core(AssignSingle(s, p, t, g))
  {
    var r := AssignSingle(s, p, t, g);
    AssignLocated(s, p, t, g);
    assert r.hist == s.hist;
    forall h | 0 <= h < TOTAL_FG
      ensures Consistent(ViewOf(r, h))
    {
      assert Consistent(ViewOf(s, h));
      AssignView(s, p, t, g, h, ViewOf(r, h));
    }
  }

  ghost predicate AllAssignable(s: State, p: nat, t: nat, gs: set<nat>)
    requires Shape(s)
  {
    IsCpu(s, p) && IsCpu(s, t) && forall g :: g in gs ==> g < TOTAL_FG && Assignable(s, p, t, g)
  }

  lemma {:induction false} AssignUpToKeeps(s: State, p: nat, t: nat, gs: set<nat>, i: nat)
    requires Shape(s) && Core(s) && i <= TOTAL_FG && AllAssignable(s, p, t, gs)
    ensures Core(AssignUpTo(s, p, t, gs, i))
    ensures forall g :: 0 <= g < TOTAL_FG ==>
              AssignUpTo(s, p, t, gs, i).fgs[g] == if g in gs && g < i then Assigned(s.fgs[g], t) else s.fgs[g]
  {
    if i > 0 {
      AssignUpToKeeps(s, p, t, gs, i - 1);
      var r := AssignUpTo(s, p, t, gs, i - 1);
      if i - 1 in gs {
        assert Assignable(s, p, t, i - 1);
        AssignSingleKeeps(r, p, t, i - 1);
      }
    }
  }

  /** Core does not look at `migration_info`, the pending calls or the migration counters. */
  lemma CoreIgnoresControl(s: State, r: State)
    requires Shape(s) && Shape(r) && Core(s)
    requires r.fgs == s.fgs && r.rx == s.rx && r.remote == s.remote && r.local == s.local
    requires r.hist.arrived == s.hist.arrived && r.hist.lost == s.hist.lost
    requires r.hist.delivered == s.hist.delivered && r.hist.epochs == s.hist.epochs
    ensures Core(r)
  {
    forall g | 0 <= g < TOTAL_FG
      ensures Consistent(ViewOf(r, g)) && GroupOk(r, r.fgs[g])
    {
      assert Consistent(ViewOf(s, g)) && GroupOk(s, s.fgs[g]);
      assert ViewOf(r, g) == ViewOf(s, g);
    }
  }

  /** Which groups move away from which CPU after the groups `gs` were assigned. */
  lemma AssignMoving(s: State, r: State, p: nat, t: nat, gs: set<nat>, moved: set<nat>, c: int)
    requires Inv(s) && Shape(r) && AllAssignable(s, p, t, gs) && s.mig[p].prevCpu == NO_CPU
    requires moved == Moving(s.fgs, t, gs, TOTAL_FG)
    requires forall g :: 0 <= g < TOTAL_FG ==> r.fgs[g] == if g in gs then Assigned(s.fgs[g], t) else s.fgs[g]
    ensures MovingFrom(r, c) == if c == p then moved else MovingFrom(s, c)
    ensures moved != {} ==> p != t
  {
    assert MigrationOk(s, p);
    assert forall g: nat :: g < TOTAL_FG && s.fgs[g].inTransition ==> r.fgs[g] == s.fgs[g];
    assert forall g :: g in moved ==> r.fgs[g] == Group(true, NO_CPU, p, t);
    assert forall g: nat :: g < TOTAL_FG && g !in moved && r.fgs[g].inTransition ==> r.fgs[g] == s.fgs[g];
    assert forall g: nat :: g < TOTAL_FG && s.fgs[g].inTransition && s.fgs[g].prev == p ==> g in MovingFrom(s, p);
    if moved != {} {
      var g :| g in moved;
      assert s.fgs[g].cur == p;
    }
  }

  lemma AssignControl(s: State, r: State, w: State, p: nat, t: nat, gs: set<nat>, moved: set<nat>)
    requires Inv(s) && Shape(r) && AllAssignable(s, p, t, gs)
    requires s.mig[p].prevCpu == NO_CPU && s.mig[t].prevCpu == NO_CPU
    requires moved == Moving(s.fgs, t, gs, TOTAL_FG)
    requires forall g :: 0 <= g < TOTAL_FG ==> r.fgs[g] == if g in gs then Assigned(s.fgs[g], t) else s.fgs[g]
    requires r.mig == s.mig && r.drainCalls == s.drainCalls && r.hist == s.hist
    requires w == StartMigration(INTENDED, r, p, t, moved)
    ensures Control(w)
  {
    assert MigrationOk(s, p) && MigrationOk(s, t);
    forall c | 0 <= c < |w.mig|
      ensures MigrationOk(w, c)
    {
      AssignMoving(s, r, p, t, gs, moved, c);
      assert MigrationOk(s, c) && MovingFrom(w, c) == MovingFrom(r, c);
      if s.mig[c].prevCpu == c {
        assert MigrationOk(s, s.mig[c].targetCpu);
      }
    }
    forall g | 0 <= g < TOTAL_FG && w.fgs[g].inTransition
      ensures IsCpu(w, w.fgs[g].prev) && w.mig[w.fgs[g].prev].targetCpu == w.fgs[g].target
    {
      if s.fgs[g].inTransition {
        assert g in MovingFrom(s, s.fgs[g].prev);
      } else {
        assert g in moved;
      }
    }
  }

  lemma AssignKeeps(s: State, p: nat, t: nat, gs: set<nat>)
    requires Inv(s) && Enabled(s, Assign(p, t, gs))
    ensures Inv(AssignToCpu(INTENDED, s, p, t, gs))
  {
    assert AllAssignable(s, p, t, gs);
    AssignUpToKeeps(s, p, t, gs, TOTAL_FG);
    var r, moved := AssignUpTo(s, p, t, gs, TOTAL_FG), Moving(s.fgs, t, gs, TOTAL_FG);
    var w := StartMigration(INTENDED, r, p, t, moved);
    AssignControl(s, r, w, p, t, gs, moved);
    CoreIgnoresControl(r, w);
  }

  // ----- transition_handler_prev and early_transition_handler_prev -----

  lemma TimerKeeps(s: State, p: nat)
    requires Inv(s) && IsCpu(s, p) && s.mig[p].timerActive
    ensures Inv(TransitionPrev(s, p)) && s.mig[p].prevCpu == p
  {
    var r := TransitionPrev(s, p);
    assert MigrationOk(s, p);
    var t := s.mig[p].targetCpu;
    forall c | 0 <= c < |r.mig|
      ensures MigrationOk(r, c)
    {
      assert MigrationOk(s, c);
      assert MovingFrom(r, c) == MovingFrom(s, c);
      if s.mig[c].prevCpu == c && s.mig[c].targetCpu == t {
        assert c == p;
      }
    }
    CoreIgnoresControl(s, r);
  }

  lemma EarlyKeeps(s: State, p: nat, polled: seq<Pkt>)
    requires Inv(s) && Enabled(s, RunEarly(p, polled))
    ensures Inv(EarlyTransitionPrev(s, p, polled))
  {
    var s1 := s.(earlyCalls := s.earlyCalls[p := s.earlyCalls[p] - 1]);
    CoreIgnoresControl(s, s1);
    ControlIsKept(s, s1);
    if s.mig[p].timerActive {
      TimerKeeps(s1, p);
      CoreIgnoresControl(s1, StopTimer(s1, p));
      ReceiveAllKeeps(StopTimer(s1, p), p, polled);
      var r := EarlyTransitionPrev(s, p, polled);
      ControlIsKept(TransitionPrev(s1, p), r);
      CoreIgnoresControl(ReceiveAll(StopTimer(s1, p), p, polled), r);
    }
  }

  // ----- transition_handler_target -----

  /** A drain that waits on `t` belongs to the one migration that `t` receives. */
  lemma DrainIsOfPrev(s: State, t: nat, p: int)
    requires Inv(s) && IsCpu(s, t) && IsCpu(s, p) && p in s.drainCalls[t]
    ensures s.mig[t].prevCpu == p && p != t && s.mig[p].prevCpu == p && s.mig[p].targetCpu == t
    ensures !s.mig[p].timerActive && s.drainCalls[t] == multiset{p}
    ensures s.mig[p].bitmap == MovingFrom(s, p)
    ensures forall g :: 0 <= g < TOTAL_FG ==>
              (g in s.mig[p].bitmap <==> s.fgs[g].inTransition && s.fgs[g].target == t)
  {
    assert MigrationOk(s, t);
    if s.mig[t].prevCpu != NO_CPU {
      assert MigrationOk(s, s.mig[t].prevCpu);
    }
    assert MigrationOk(s, p);
    forall g | 0 <= g < TOTAL_FG
      ensures g in s.mig[p].bitmap <==> s.fgs[g].inTransition && s.fgs[g].target == t
    {
      assert g in MovingFrom(s, p) <==> s.fgs[g].inTransition && s.fgs[g].prev == p;
      if s.fgs[g].inTransition {
        var o := s.fgs[g].prev;
        assert MigrationOk(s, o);
        assert g in MovingFrom(s, o);
      }
    }
  }

  lemma DrainFirst(s: State, t: nat, p: int, g: nat)
    requires Inv(s) && PacketsOk(s) && IsCpu(s, t) && IsCpu(s, p) && p in s.drainCalls[t] && g < TOTAL_FG
    ensures var r := TransitionTarget(s, t, p);
            if g in s.mig[p].bitmap then First(r, g) == [] && Second(r, g) == []
            else First(r, g) == First(s, g) && Second(r, g) == Second(s, g)
  {
    DrainIsOfPrev(s, t, p);
    NothingQueued(s, t, g);
    var r := TransitionTarget(s, t, p);
    if g in s.mig[p].bitmap {
      assert RxOf(r, t, g) == RxOf(s, t, g);
    } else if s.fgs[g].inTransition {
      var k := s.fgs[g].target;
      assert At(r.remote, k) == At(s.remote, k) && At(r.local, k) == At(s.local, k);
    } else {
      assert RxOf(r, s.fgs[g].cur, g) == RxOf(s, s.fgs[g].cur, g);
    }
  }

  /** What the drain delivers to group `g`. */
  lemma DrainDelivers(s: State, t: nat, p: int, g: nat)
    requires Inv(s) && PacketsOk(s) && IsCpu(s, t) && IsCpu(s, p) && p in s.drainCalls[t] && g < TOTAL_FG
    ensures DeliveredTo(TransitionTarget(s, t, p).hist.delivered, g) ==
            DeliveredTo(s.hist.delivered, g) + (if g in s.mig[p].bitmap then First(s, g) + Second(s, g) else [])
  {
    DrainIsOfPrev(s, t, p);
    var q := s.remote[t] + s.local[t];
    DeliveredAll(s.hist.delivered, q, t, SettleAll(s.fgs, s.mig[p].bitmap), g);
    OfGroupConcat(s.remote[t], s.local[t], g);
    if g !in s.mig[p].bitmap {
      assert forall x :: x in s.remote[t] ==> MovingTo(s, x, t);
      assert forall x :: x in s.local[t] ==> MovingTo(s, x, t);
      OfGroupNone(q, g);
    }
  }

  lemma DrainConsistent(s: State, t: nat, p: int, g: nat, w: View)
    requires Inv(s) && PacketsOk(s) && IsCpu(s, t) && IsCpu(s, p) && p in s.drainCalls[t] && g < TOTAL_FG
    requires Consistent(ViewOf(s, g)) && w == ViewOf(TransitionTarget(s, t, p), g)
    ensures Consistent(w)
  {
    var v := ViewOf(s, g);
    DrainFirst(s, t, p, g);
    DrainDelivers(s, t, p, g);
    if g in s.mig[p].bitmap {
      DeliverQueued(v, w);
    } else {
      assert w == v;
    }
  }

  lemma DrainLocated(s: State, t: nat, p: int)
    requires Inv(s) && PacketsOk(s) && IsCpu(s, t) && IsCpu(s, p) && p in s.drainCalls[t]
    ensures GroupsOk(TransitionTarget(s, t, p)) && Located(TransitionTarget(s, t, p))
  {
    DrainIsOfPrev(s, t, p);
    var r := TransitionTarget(s, t, p);
    forall g | 0 <= g < TOTAL_FG ensures GroupOk(r, r.fgs[g]) { assert GroupOk(s, s.fgs[g]); }
  }

  lemma DrainByOwner(s: State, t: nat, p: int)
    requires Inv(s) && PacketsOk(s) && IsCpu(s, t) && IsCpu(s, p) && p in s.drainCalls[t]
    ensures DeliveredByOwner(TransitionTarget(s, t, p))
  {
    DrainIsOfPrev(s, t, p);
    var q := s.remote[t] + s.local[t];
    forall i | 0 <= i < |q|
      ensures SettleAll(s.fgs, s.mig[p].bitmap)[q[i].fg].cur == t
    {
      assert q[i] in s.remote[t] || q[i] in s.local[t];
      assert MovingTo(s, q[i], t);
    }
  }

  lemma DrainControl(s: State, t: nat, p: int)
    requires Inv(s) && PacketsOk(s) && IsCpu(s, t) && IsCpu(s, p) && p in s.drainCalls[t]
    ensures Control(TransitionTarget(s, t, p))
  {
    DrainIsOfPrev(s, t, p);
    var r := TransitionTarget(s, t, p);
    assert MigrationOk(s, p) && MigrationOk(s, t);
    forall c | 0 <= c < |r.mig|
      ensures MigrationOk(r, c)
    {
      assert MigrationOk(s, c);
      assert MovingFrom(r, c) == if c == p then {} else MovingFrom(s, c);
      if s.mig[c].prevCpu == c {
        assert MigrationOk(s, s.mig[c].targetCpu);
      }
    }
  }

  lemma DrainShape(s: State, t: nat, p: int)
    requires Shape(s) && PacketsOk(s) && IsCpu(s, t) && IsCpu(s, p)
    ensures Shape(TransitionTarget(s, t, p))
  {}

  lemma DrainViews(s: State, t: nat, p: int, r: State)
    requires Inv(s) && PacketsOk(s) && IsCpu(s, t) && IsCpu(s, p) && p in s.drainCalls[t]
    requires r == TransitionTarget(s, t, p) && Shape(r)
    ensures forall g :: 0 <= g < TOTAL_FG ==> Consistent(ViewOf(r, g))
  {
    forall g | 0 <= g < TOTAL_FG
      ensures Consistent(ViewOf(r, g))
    {
      assert Consistent(ViewOf(s, g));
      DrainConsistent(s, t, p, g, ViewOf(r, g));
    }
  }

  lemma DrainKeeps(s: State, t: nat, p: int)
    requires Inv(s) && PacketsOk(s) && IsCpu(s, t) && IsCpu(s, p) && p in s.drainCalls[t]
    ensures Inv(TransitionTarget(s, t, p))
  {
    DrainShape(s, t, p);
    DrainViews(s, t, p, TransitionTarget(s, t, p));
    DrainLocated(s, t, p);
    DrainByOwner(s, t, p);
    DrainControl(s, t, p);
  }
}
