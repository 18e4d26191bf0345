/** The functions of core/ethfg.c and core/ethqueue.c as they run: fields updated in place and
    loops over groups and packets.  Each method does exactly one step of the state machine, so
    everything proved about runs of the machine holds of runs of these methods. */
module FlowGroupMachine {
  import opened FlowGroups

  /** Which packets were looked at, up to `i`, is all that matters to the bitmap. */
  lemma MovingNext(fgs: seq<Group>, t: nat, gs: set<nat>, i: nat)
    requires i < |fgs|
    ensures Moving(fgs, t, gs, i + 1) ==
            Moving(fgs, t, gs, i) + (if i in gs && fgs[i].cur != t && fgs[i].cur != NO_CPU then {i} else {})
  {}

  /** Assigning a group neither reads nor writes `migration_info`. */
  lemma SingleIgnoresInfo(s: State, p: nat, t: nat, g: nat, mig: seq<Migration>)
    requires Shape(s) && IsCpu(s, p) && IsCpu(s, t) && g < TOTAL_FG && |mig| == |s.mig|
    ensures AssignSingle(s.(mig := mig), p, t, g) == AssignSingle(s, p, t, g).(mig := mig)
  {}

  lemma {:induction false} LaterGroupsWait(s: State, p: nat, t: nat, gs: set<nat>, i: nat)
    requires Shape(s) && IsCpu(s, p) && IsCpu(s, t) && i <= TOTAL_FG
    ensures forall g :: i <= g < TOTAL_FG ==> AssignUpTo(s, p, t, gs, i).fgs[g] == s.fgs[g]
  {
    if i > 0 {
      LaterGroupsWait(s, p, t, gs, i - 1);
    }
  }

  lemma DeliverOneMore(q: seq<Pkt>, i: nat, c: nat, fgs: seq<Group>)
    requires i < |q| && forall p :: p in q ==> p.fg < |fgs|
    ensures DeliverAll(q[..i + 1], c, fgs) == DeliverAll(q[..i], c, fgs) + [Delivery(c, q[i], fgs[q[i].fg].cur)]
  {}

  /** The backlog is the remote queue and then the local queue. */
  lemma Backlog(s: State, t: nat, fgs: seq<Group>, ds: seq<Delivery>)
    requires Shape(s) && PacketsOk(s) && IsCpu(s, t) && |fgs| == TOTAL_FG
    ensures (forall p :: p in s.remote[t] ==> p.fg < TOTAL_FG) && (forall p :: p in s.local[t] ==> p.fg < TOTAL_FG)
    ensures ds + DeliverAll(s.remote[t] + s.local[t], t, fgs)
            == ds + DeliverAll(s.remote[t], t, fgs) + DeliverAll(s.local[t], t, fgs)
  {}

  function WithBitmap(mig: seq<Migration>, p: nat, bitmap: set<nat>): (r: seq<Migration>)
    requires p < |mig|
    ensures |r| == |mig|
  {
    mig[p := mig[p].(bitmap := bitmap)]
  }

  lemma WithBitmapTwice(mig: seq<Migration>, p: nat, a: set<nat>, b: set<nat>)
    requires p < |mig|
    ensures WithBitmap(WithBitmap(mig, p, a), p, b) == WithBitmap(mig, p, b) && WithBitmap(mig, p, a)[p].bitmap == a
  {}

  /** `eth_fg_assign_to_cpu` before group `i` is looked at; `base` is what the bitmap began with. */
  ghost function Partial(s: State, p: nat, t: nat, gs: set<nat>, base: set<nat>, i: nat): (r: State)
    requires Shape(s) && IsCpu(s, p) && IsCpu(s, t) && i <= TOTAL_FG
    ensures Shape(r) && |r.mig| == |s.mig|
  {
    AssignUpTo(s, p, t, gs, i).(mig := WithBitmap(s.mig, p, base + Moving(s.fgs, t, gs, i)))
  }

  lemma PartialNext(s: State, p: nat, t: nat, gs: set<nat>, base: set<nat>, i: nat)
    requires Shape(s) && IsCpu(s, p) && IsCpu(s, t) && i < TOTAL_FG
    ensures var r := Partial(s, p, t, gs, base, i);
            var moves := i in gs && r.fgs[i].cur != t && r.fgs[i].cur != NO_CPU;
            var q := if i in gs then AssignSingle(r, p, t, i) else r;
            && Partial(s, p, t, gs, base, i + 1) ==
               (if moves then q.(mig := WithBitmap(q.mig, p, q.mig[p].bitmap + {i})) else q)
            && moves == (Moving(s.fgs, t, gs, i + 1) != Moving(s.fgs, t, gs, i))
            && (moves ==> Moving(s.fgs, t, gs, i + 1) != {})
            && (!moves ==> Moving(s.fgs, t, gs, i + 1) == Moving(s.fgs, t, gs, i))
  {
    LaterGroupsWait(s, p, t, gs, i);
    MovingNext(s.fgs, t, gs, i);
    SingleIgnoresInfo(AssignUpTo(s, p, t, gs, i), p, t, i, Partial(s, p, t, gs, base, i).mig);
    var m := Moving(s.fgs, t, gs, i);
    assert i !in m && i in m + {i} && base + m + {i} == base + (m + {i});
    WithBitmapTwice(s.mig, p, base + m, base + m + {i});
    assert m + {} == m;
  }

  /** What the last lines of `eth_fg_assign_to_cpu` make of it. */
  lemma PartialEnd(port: Port, s: State, p: nat, t: nat, gs: set<nat>, base: set<nat>, r: State)
    requires Shape(s) && IsCpu(s, p) && IsCpu(s, t)
    requires base == (if port.clearsBitmap then {} else s.mig[p].bitmap) && r == Partial(s, p, t, gs, base, TOTAL_FG)
    ensures var info := Migration(p, t, r.mig[p].bitmap, true);
            var copy := if port.copiesTimer then info else info.(timerActive := r.mig[t].timerActive);
            AssignToCpu(port, s, p, t, gs) ==
            if Moving(s.fgs, t, gs, TOTAL_FG) == {} then r
            else r.(mig := r.mig[p := info][t := copy],
                    hist := r.hist.(started := r.hist.started[p := r.hist.started[p] + 1]))
  {
    var moved := Moving(s.fgs, t, gs, TOTAL_FG);
    assert {} + moved == moved && base + moved == (if port.clearsBitmap then moved else s.mig[p].bitmap + moved);
    var info := Migration(p, t, r.mig[p].bitmap, true);
    assert r.mig[p := info] == s.mig[p := info];
  }

  class Machine {
    const port: Port
    var fgs: seq<Group>
    var rx: seq<seq<seq<Pkt>>>
    var remote: seq<seq<Pkt>>
    var local: seq<seq<Pkt>>
    var mig: seq<Migration>
    var earlyCalls: seq<nat>
    var drainCalls: seq<multiset<int>>
    var hist: History

    ghost function Now(): State
      reads this
    {
      State(fgs, rx, remote, local, mig, earlyCalls, drainCalls, hist)
    }

    ghost predicate Ready()
      reads this
    {
      Shape(Now()) && PacketsOk(Now())
    }

    constructor (port: Port, n: nat)
      ensures this.port == port && Now() == Init(n)
    {
      this.port := port;
      var s := Init(n);
      fgs, rx, remote, local := s.fgs, s.rx, s.remote, s.local;
      mig, earlyCalls, drainCalls, hist := s.mig, s.earlyCalls, s.drainCalls, s.hist;
    }

    /** `eth_recv_handle_fg_transition`: false when the owner goes on with the packet. */
    method HandleTransition(c: nat, p: Pkt) returns (handled: bool)
      requires Shape(Now()) && IsCpu(Now(), c) && p.fg < TOTAL_FG
      modifies this
      ensures handled == (old(fgs[p.fg]).inTransition || old(fgs[p.fg]).cur != c)
      ensures Now() == if handled then Receive(old(Now()), c, p) else old(Now())
    {
      var fg := fgs[p.fg];
      handled := true;
      if !fg.inTransition && fg.cur == c {
        handled := false;
      } else if fg.inTransition && fg.prev == c {
        remote := Append(remote, fg.target, [p]);
        hist := NoteEarly(hist, p);
      } else if fg.inTransition && fg.target == c {
        if local[c] == [] {
          earlyCalls := AddEarlyCall(earlyCalls, mig[c].prevCpu);
        }
        local := Append(local, c, [p]);
        hist := NoteLate(hist, p);
      } else {
        hist := NoteLoss(hist, p);
      }
    }

    /** `eth_recv`. */
    method EthRecv(c: nat, p: Pkt)
      requires Shape(Now()) && IsCpu(Now(), c) && p.fg < TOTAL_FG
      modifies this
      ensures Now() == Receive(old(Now()), c, p)
    {
      var handled := HandleTransition(c, p);
      if !handled {
        var d := p.fg / ETH_MAX_NUM_FG;
        if |rx[c][d]| >= ETH_RX_MAX_DEPTH {
          hist := NoteLoss(hist, p);
        } else {
          rx := rx[c := rx[c][d := rx[c][d] + [p]]];
          hist := NoteEarly(hist, p);
        }
      }
    }

    /** `eth_process_poll`: hands over what the hardware holds for this CPU. */
    method ProcessPoll(c: nat, polled: seq<Pkt>)
      requires Shape(Now()) && IsCpu(Now(), c) && forall p :: p in polled ==> p.fg < TOTAL_FG
      modifies this
      ensures Now() == ReceiveAll(old(Now()), c, polled)
    {
      var i := 0;
      while i < |polled|
        invariant 0 <= i <= |polled| && Shape(Now()) && IsCpu(Now(), c)
        invariant Now() == ReceiveAll(old(Now()), c, polled[..i])
      {
        assert polled[..i + 1][..i] == polled[..i];
        EthRecv(c, polled[i]);
        i := i + 1;
      }
      assert polled[..i] == polled;
    }

    /** `eth_process_recv_queue`; false for -EAGAIN. */
    method ProcessRecvQueue(c: nat, d: nat) returns (any: bool)
      requires Ready() && IsCpu(Now(), c) && d < NETHDEV
      modifies this
      ensures any == (old(rx[c][d]) != []) && Now() == ProcessQueue(old(Now()), c, d)
    {
      var q := rx[c][d];
      any := q != [];
      if any {
        rx := rx[c := rx[c][d := q[1..]]];
        hist := hist.(delivered := hist.delivered + [Delivery(c, q[0], fgs[q[0].fg].cur)]);
      }
    }

    /** `eth_fg_assign_single_to_cpu`. */
    method AssignOne(p: nat, t: nat, g: nat) returns (moves: bool)
      requires Shape(Now()) && IsCpu(Now(), p) && IsCpu(Now(), t) && g < TOTAL_FG
      modifies this
      ensures moves == (old(fgs[g]).cur != t && old(fgs[g]).cur != NO_CPU)
      ensures Now() == AssignSingle(old(Now()), p, t, g)
    {
      var fg := fgs[g];
      var d := g / ETH_MAX_NUM_FG;
      moves := false;
      if fg.cur == t {
        return;
      } else if fg.cur == NO_CPU {
        fgs := fgs[g := fg.(cur := t)];
      } else {
        fgs := fgs[g := Group(true, NO_CPU, fg.cur, t)];
        remote := Append(remote, t, OfGroup(rx[p][d], g));
        rx := rx[p := rx[p][d := NotOfGroup(rx[p][d], g)]];
        moves := true;
      }
    }

    /** One round of the inner loop of `eth_fg_assign_to_cpu`: group `g`, if its bit is set. */
    method AssignRound(p: nat, t: nat, gs: set<nat>, g: nat, ghost s0: State, ghost base: set<nat>)
      returns (moves: bool)
      requires Shape(s0) && IsCpu(s0, p) && IsCpu(s0, t) && g < TOTAL_FG && Now() == Partial(s0, p, t, gs, base, g)
      modifies this
      ensures Now() == Partial(s0, p, t, gs, base, g + 1)
      ensures if moves then Moving(s0.fgs, t, gs, g + 1) != {}
              else Moving(s0.fgs, t, gs, g + 1) == Moving(s0.fgs, t, gs, g)
    {
      PartialNext(s0, p, t, gs, base, g);
      moves := false;
      if g in gs {
        moves := AssignOne(p, t, g);
        if moves {
          mig := mig[p := mig[p].(bitmap := mig[p].bitmap + {g})];
        }
      }
    }

    /** `eth_fg_assign_to_cpu`, on CPU `p`. */
    method AssignToTarget(p: nat, t: nat, gs: set<nat>)
      requires Shape(Now()) && IsCpu(Now(), p) && IsCpu(Now(), t)
      modifies this
      ensures Now() == AssignToCpu(port, old(Now()), p, t, gs)
    {
      ghost var s0 := Now();
      if port.clearsBitmap {
        mig := mig[p := mig[p].(bitmap := {})];
      }
      ghost var base := mig[p].bitmap;
      assert base + Moving(s0.fgs, t, gs, 0) == base && WithBitmap(s0.mig, p, base) == mig;
      var any := false;
      var i := 0;
      while i < NETHDEV
        invariant 0 <= i <= NETHDEV && Now() == Partial(s0, p, t, gs, base, i * ETH_MAX_NUM_FG)
        invariant any == (Moving(s0.fgs, t, gs, i * ETH_MAX_NUM_FG) != {})
      {
        var j := 0;
        while j < ETH_MAX_NUM_FG
          invariant 0 <= j <= ETH_MAX_NUM_FG && Now() == Partial(s0, p, t, gs, base, i * ETH_MAX_NUM_FG + j)
          invariant any == (Moving(s0.fgs, t, gs, i * ETH_MAX_NUM_FG + j) != {})
        {
          var moves := AssignRound(p, t, gs, i * ETH_MAX_NUM_FG + j, s0, base);
          any := any || moves;
          j := j + 1;
        }
        i := i + 1;
      }
      PartialEnd(port, s0, p, t, gs, base, Now());
      if any {
        var info := Migration(p, t, mig[p].bitmap, true);
        var copy := if port.copiesTimer then info else info.(timerActive := mig[t].timerActive);
        mig := mig[p := info][t := copy];
        hist := hist.(started := hist.started[p := hist.started[p] + 1]);
      }
    }

    /** `transition_handler_prev`, when the timer fires on CPU `p`. */
    method TransitionHandlerPrev(p: nat)
      requires Shape(Now()) && IsCpu(Now(), p)
      modifies this
      ensures Now() == TransitionPrev(old(Now()), p)
    {
      mig := mig[p := mig[p].(timerActive := false)];
      drainCalls := AddDrainCall(drainCalls, mig[p].targetCpu, p);
    }

    /** `early_transition_handler_prev`, when the call that waits on CPU `p` runs. */
    method EarlyTransitionHandlerPrev(p: nat, polled: seq<Pkt>)
      requires Shape(Now()) && IsCpu(Now(), p) && earlyCalls[p] > 0
      requires forall x :: x in polled ==> x.fg < TOTAL_FG
      modifies this
      ensures Now() == EarlyTransitionPrev(old(Now()), p, polled)
    {
      earlyCalls := earlyCalls[p := earlyCalls[p] - 1];
      if !mig[p].timerActive {
        return;
      }
      mig := mig[p := mig[p].(timerActive := false)];
      ProcessPoll(p, polled);
      drainCalls := AddDrainCall(drainCalls, mig[p].targetCpu, p);
    }

    /** `eth_input` on every packet of a hand-over queue. */
    method Drain(t: nat, q: seq<Pkt>)
      requires forall p :: p in q ==> p.fg < |fgs|
      modifies `hist
      ensures hist == old(hist).(delivered := old(hist).delivered + DeliverAll(q, t, fgs))
    {
      var i := 0;
      while i < |q|
        invariant 0 <= i <= |q|
        invariant hist == old(hist).(delivered := old(hist).delivered + DeliverAll(q[..i], t, fgs))
      {
        DeliverOneMore(q, i, t, fgs);
        hist := hist.(delivered := hist.delivered + [Delivery(t, q[i], fgs[q[i].fg].cur)]);
        i := i + 1;
      }
      assert q[..i] == q;
    }

    method Settles(bitmap: set<nat>)
      requires |fgs| == TOTAL_FG
      modifies `fgs
      ensures fgs == SettleAll(old(fgs), bitmap)
    {
      var i := 0;
      while i < TOTAL_FG
        invariant 0 <= i <= TOTAL_FG == |fgs|
        invariant forall g :: 0 <= g < i ==> fgs[g] == SettleAll(old(fgs), bitmap)[g]
        invariant forall g :: i <= g < TOTAL_FG ==> fgs[g] == old(fgs)[g]
      {
        if i in bitmap {
          fgs := fgs[i := Settle(fgs[i])];
        }
        i := i + 1;
      }
    }

    /** `transition_handler_target`, when a drain given `migration_info` of `info` runs on `t`. */
    method TransitionHandlerTarget(t: nat, info: nat)
      requires Ready() && IsCpu(Now(), t) && IsCpu(Now(), info)
      modifies this
      ensures Now() == TransitionTarget(old(Now()), t, info)
    {
      ghost var s0 := Now();
      var bitmap := mig[info].bitmap;
      Settles(bitmap);
      Backlog(s0, t, fgs, hist.delivered);
      Drain(t, remote[t]);
      remote := remote[t := []];
      Drain(t, local[t]);
      local := local[t := []];
      mig := EndMigration(EndMigration(mig, t), info);
      drainCalls := drainCalls[t := drainCalls[t] - multiset{info}];
      hist := hist.(epochs := NewEpochs(hist.epochs, bitmap), drained := hist.drained[info := hist.drained[info] + 1]);
    }
  }
}
