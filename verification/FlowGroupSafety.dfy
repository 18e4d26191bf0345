/** The invariants hold in every run, and what follows from them. */
module FlowGroupSafety {
  import opened FlowGroups
  import opened FlowGroupInvariants

  // ----- receiving -----

  /** Everything the migration protocol itself looks at. */
  ghost predicate SameControl(s: State, r: State)
    requires Shape(s)
  {
    && Shape(r) && r.fgs == s.fgs && r.mig == s.mig && r.drainCalls == s.drainCalls
    && r.hist.started == s.hist.started && r.hist.drained == s.hist.drained
  }

  lemma ControlIsKept(s: State, r: State)
    requires Shape(s) && Control(s) && SameControl(s, r)
    ensures Control(r)
  {
    forall c | 0 <= c < |r.mig|
      ensures MigrationOk(r, c)
    {
      assert MigrationOk(s, c);
      assert MovingFrom(r, c) == MovingFrom(s, c);
    }
  }

  lemma ReceiveControl(s: State, c: nat, p: Pkt)
    requires Shape(s) && IsCpu(s, c) && p.fg < TOTAL_FG
    ensures SameControl(s, Receive(s, c, p))
  {}

  lemma ReceiveLocated(s: State, c: nat, p: Pkt)
    requires Shape(s) && GroupsOk(s) && Located(s) && IsCpu(s, c) && p.fg < TOTAL_FG
    ensures Located(Receive(s, c, p))
  {
    assert GroupOk(s, s.fgs[p.fg]);
  }

  lemma ReceiveGroups(s: State, c: nat, p: Pkt)
    requires Shape(s) && GroupsOk(s) && IsCpu(s, c) && p.fg < TOTAL_FG
    ensures GroupsOk(Receive(s, c, p))
  {
    var r := Receive(s, c, p);
    assert r.fgs == s.fgs && |r.mig| == |s.mig|;
    forall g | 0 <= g < TOTAL_FG ensures GroupOk(r, r.fgs[g]) { assert GroupOk(s, s.fgs[g]); }
  }

  lemma FirstOther(s: State, c: nat, p: Pkt, g: nat)
    requires Shape(s) && IsCpu(s, c) && p.fg < TOTAL_FG && g < TOTAL_FG && g != p.fg
    ensures First(Receive(s, c, p), g) == First(s, g)
  {
    var r := Receive(s, c, p);
    if s.fgs[g].inTransition {
      var t := s.fgs[g].target;
      assert At(r.remote, t) == At(s.remote, t) || At(r.remote, t) == At(s.remote, t) + [p];
      OfGroupSnoc(At(s.remote, t), p, g);
    } else {
      var o := s.fgs[g].cur;
      assert RxOf(r, o, g) == RxOf(s, o, g) || RxOf(r, o, g) == RxOf(s, o, g) + [p];
      OfGroupSnoc(RxOf(s, o, g), p, g);
    }
  }

  lemma SecondOther(s: State, c: nat, p: Pkt, g: nat)
    requires Shape(s) && IsCpu(s, c) && p.fg < TOTAL_FG && g < TOTAL_FG && g != p.fg
    ensures Second(Receive(s, c, p), g) == Second(s, g)
  {
    var t := s.fgs[g].target;
    assert At(Receive(s, c, p).local, t) in {At(s.local, t), At(s.local, t) + [p]};
    OfGroupSnoc(At(s.local, t), p, g);
  }

  lemma HistoryOther(s: State, c: nat, p: Pkt, g: nat)
    requires Shape(s) && IsCpu(s, c) && p.fg < TOTAL_FG && g < TOTAL_FG && g != p.fg
    ensures var h := Receive(s, c, p).hist;
            && h.arrived == s.hist.arrived + [p] && h.delivered == s.hist.delivered
            && h.lost in {s.hist.lost, s.hist.lost + [p]} && h.epochs[g] == s.hist.epochs[g]
  {}

  lemma LogsOther(s: State, c: nat, p: Pkt, g: nat)
    requires Shape(s) && IsCpu(s, c) && p.fg < TOTAL_FG && g < TOTAL_FG && g != p.fg
    ensures OfGroup(Receive(s, c, p).hist.arrived, g) == OfGroup(s.hist.arrived, g)
    ensures OfGroup(Receive(s, c, p).hist.lost, g) == OfGroup(s.hist.lost, g)
  {
    HistoryOther(s, c, p, g);
    OfGroupSnoc(s.hist.arrived, p, g);
    OfGroupSnoc(s.hist.lost, p, g);
  }

  /** Packets of other groups change nothing. */
  lemma ViewOther(s: State, c: nat, p: Pkt, g: nat)
    requires Shape(s) && IsCpu(s, c) && p.fg < TOTAL_FG && g < TOTAL_FG && g != p.fg
    ensures ViewOf(Receive(s, c, p), g) == ViewOf(s, g)
  {
    FirstOther(s, c, p, g);
    SecondOther(s, c, p, g);
    HistoryOther(s, c, p, g);
    LogsOther(s, c, p, g);
  }

  /** How a packet changes what is observed about its own group. */
  function Observed(s: State, c: nat, p: Pkt): View
    requires Shape(s) && IsCpu(s, c) && p.fg < TOTAL_FG
  {
    var v, fg := ViewOf(s, p.fg), s.fgs[p.fg];
    if (!fg.inTransition && fg.cur == c && |s.rx[c][p.fg / ETH_MAX_NUM_FG]| < ETH_RX_MAX_DEPTH)
       || (fg.inTransition && fg.prev == c) then
      v.(arrived := v.arrived + [p], first := v.first + [p], epochs := Early(v.epochs, p))
    else if fg.inTransition && fg.target == c then
      v.(arrived := v.arrived + [p], second := v.second + [p], epochs := Late(v.epochs, p))
    else
      v.(arrived := v.arrived + [p], lost := v.lost + [p])
  }

  lemma FirstOwn(s: State, c: nat, p: Pkt)
    requires Shape(s) && IsCpu(s, c) && p.fg < TOTAL_FG && GroupOk(s, s.fgs[p.fg])
    ensures First(Receive(s, c, p), p.fg) == Observed(s, c, p).first
  {
    var r, fg := Receive(s, c, p), s.fgs[p.fg];
    if fg.inTransition {
      var t := fg.target;
      assert At(r.remote, t) == if fg.prev == c then At(s.remote, t) + [p] else At(s.remote, t);
      OfGroupSnoc(At(s.remote, t), p, p.fg);
    } else if fg.cur == c && |s.rx[c][p.fg / ETH_MAX_NUM_FG]| < ETH_RX_MAX_DEPTH {
      assert RxOf(r, c, p.fg) == RxOf(s, c, p.fg) + [p];
      OfGroupSnoc(RxOf(s, c, p.fg), p, p.fg);
    }
  }

  lemma SecondOwn(s: State, c: nat, p: Pkt)
    requires Shape(s) && IsCpu(s, c) && p.fg < TOTAL_FG && GroupOk(s, s.fgs[p.fg])
    ensures Second(Receive(s, c, p), p.fg) == Observed(s, c, p).second
  {
    OfGroupSnoc(At(s.local, s.fgs[p.fg].target), p, p.fg);
  }

  lemma HistoryOwn(s: State, c: nat, p: Pkt)
    requires Shape(s) && IsCpu(s, c) && p.fg < TOTAL_FG
    ensures var h := Receive(s, c, p).hist;
            && h.arrived == s.hist.arrived + [p] && h.delivered == s.hist.delivered
            && h.epochs[p.fg] == Observed(s, c, p).epochs
  {}

  lemma LogsOwn(s: State, c: nat, p: Pkt)
    requires Shape(s) && IsCpu(s, c) && p.fg < TOTAL_FG
    ensures OfGroup(Receive(s, c, p).hist.arrived, p.fg) == Observed(s, c, p).arrived
    ensures OfGroup(Receive(s, c, p).hist.lost, p.fg) == Observed(s, c, p).lost
  {
    OfGroupSnoc(s.hist.arrived, p, p.fg);
    OfGroupSnoc(s.hist.lost, p, p.fg);
  }

  lemma ViewOwn(s: State, c: nat, p: Pkt)
    requires Shape(s) && IsCpu(s, c) && p.fg < TOTAL_FG && GroupOk(s, s.fgs[p.fg])
    ensures ViewOf(Receive(s, c, p), p.fg) == Observed(s, c, p)
  {
    FirstOwn(s, c, p);
    SecondOwn(s, c, p);
    HistoryOwn(s, c, p);
    LogsOwn(s, c, p);
  }

  lemma Lose(v: View, p: Pkt)
    requires Consistent(v)
    ensures Consistent(v.(arrived := v.arrived + [p], lost := v.lost + [p]))
  {}

  lemma ObservedConsistent(s: State, c: nat, p: Pkt, w: View)
    requires Shape(s) && IsCpu(s, c) && p.fg < TOTAL_FG && Consistent(ViewOf(s, p.fg))
    requires w == Observed(s, c, p)
    ensures Consistent(w)
  {
    var v, fg := ViewOf(s, p.fg), s.fgs[p.fg];
    if (!fg.inTransition && fg.cur == c && |s.rx[c][p.fg / ETH_MAX_NUM_FG]| < ETH_RX_MAX_DEPTH)
       || (fg.inTransition && fg.prev == c) {
      AcceptEarly(v, p);
    } else if fg.inTransition && fg.target == c {
      AcceptLate(v, p);
    } else {
      Lose(v, p);
    }
  }

  lemma ReceiveConsistent(s: State, c: nat, p: Pkt, g: nat, w: View)
    requires Shape(s) && IsCpu(s, c) && p.fg < TOTAL_FG && g < TOTAL_FG && GroupOk(s, s.fgs[p.fg])
    requires Consistent(ViewOf(s, g)) && w == ViewOf(Receive(s, c, p), g)
    ensures Consistent(w)
  {
    if g != p.fg {
      ViewOther(s, c, p, g);
    } else {
      ViewOwn(s, c, p);
      ObservedConsistent(s, c, p, w);
    }
  }

  lemma ReceiveKeeps(s: State, c: nat, p: Pkt)
    requires Shape(s) && Core(s) && IsCpu(s, c) && p.fg < TOTAL_FG
    ensures Core(Receive(s, c, p)) && SameControl(s, Receive(s, c, p))
  {
    ReceiveControl(s, c, p);
    ReceiveLocated(s, c, p);
    ReceiveGroups(s, c, p);
    assert GroupOk(s, s.fgs[p.fg]);
    var r := Receive(s, c, p);
    assert r.hist.delivered == s.hist.delivered;
    forall g | 0 <= g < TOTAL_FG
      ensures Consistent(ViewOf(r, g))
    {
      assert Consistent(ViewOf(s, g));
      ReceiveConsistent(s, c, p, g, ViewOf(r, g));
    }
  }

  lemma {:induction false} ReceiveAllKeeps(s: State, c: nat, ps: seq<Pkt>)
    requires Shape(s) && Core(s) && IsCpu(s, c) && forall p :: p in ps ==> p.fg < TOTAL_FG
    ensures Core(ReceiveAll(s, c, ps)) && SameControl(s, ReceiveAll(s, c, ps))
  {
    if ps != [] {
      ReceiveAllKeeps(s, c, ps[..|ps| - 1]);
      ReceiveKeeps(ReceiveAll(s, c, ps[..|ps| - 1]), c, ps[|ps| - 1]);
    }
  }

  // ----- processing -----

  lemma ProcessQueues(s: State, c: nat, d: nat, g: nat)
    requires Shape(s) && IsCpu(s, c) && d < NETHDEV && g < TOTAL_FG
    requires PacketsOk(s) && s.rx[c][d] != [] && OwnedBy(s, s.rx[c][d][0], c, d)
    ensures var p, f := s.rx[c][d][0], First(ProcessQueue(s, c, d), g);
            First(s, g) == (if g == p.fg then [p] else []) + f
  {
    var r, q := ProcessQueue(s, c, d), s.rx[c][d];
    OfGroupHead(q, g);
    if s.fgs[g].cur == c && g / ETH_MAX_NUM_FG == d && !s.fgs[g].inTransition {
      assert RxOf(s, c, g) == q && RxOf(r, c, g) == q[1..];
    } else {
      assert First(r, g) == First(s, g);
    }
  }

  lemma ProcessConsistent(s: State, c: nat, d: nat, g: nat, w: View)
    requires Shape(s) && IsCpu(s, c) && d < NETHDEV && g < TOTAL_FG
    requires PacketsOk(s) && s.rx[c][d] != [] && OwnedBy(s, s.rx[c][d][0], c, d)
    requires Consistent(ViewOf(s, g)) && w == ViewOf(ProcessQueue(s, c, d), g)
    ensures Consistent(w)
  {
    var v, p := ViewOf(s, g), s.rx[c][d][0];
    ProcessQueues(s, c, d, g);
    DeliveredSnoc(s.hist.delivered, Delivery(c, p, c), g);
    if g == p.fg {
      assert v.first[0] == p && v.first[1..] == w.first;
      DeliverFirst(v, w);
    } else {
      assert w == v;
    }
  }

  lemma ProcessLocated(s: State, c: nat, d: nat)
    requires Inv(s) && IsCpu(s, c) && d < NETHDEV && PacketsOk(s) && s.rx[c][d] != []
    ensures Located(ProcessQueue(s, c, d)) && GroupsOk(ProcessQueue(s, c, d))
  {
    var r, q := ProcessQueue(s, c, d), s.rx[c][d];
    forall g | 0 <= g < TOTAL_FG ensures GroupOk(r, r.fgs[g]) { assert GroupOk(s, s.fgs[g]); }
    assert forall p :: p in q[1..] ==> p in q;
  }

  lemma ProcessShape(s: State, c: nat, d: nat)
    requires Shape(s) && IsCpu(s, c) && d < NETHDEV && PacketsOk(s)
    ensures Shape(ProcessQueue(s, c, d))
  {}

  lemma ProcessViews(s: State, c: nat, d: nat, r: State)
    requires Inv(s) && IsCpu(s, c) && d < NETHDEV && PacketsOk(s) && s.rx[c][d] != []
    requires r == ProcessQueue(s, c, d) && Shape(r) && OwnedBy(s, s.rx[c][d][0], c, d)
    ensures forall g :: 0 <= g < TOTAL_FG ==> Consistent(ViewOf(r, g))
  {
    forall g | 0 <= g < TOTAL_FG
      ensures Consistent(ViewOf(r, g))
    {
      assert Consistent(ViewOf(s, g));
      ProcessConsistent(s, c, d, g, ViewOf(r, g));
    }
  }

  lemma ProcessByOwner(s: State, c: nat, d: nat)
    requires Shape(s) && DeliveredByOwner(s) && IsCpu(s, c) && d < NETHDEV && PacketsOk(s)
    requires s.rx[c][d] != [] ==> OwnedBy(s, s.rx[c][d][0], c, d)
    ensures DeliveredByOwner(ProcessQueue(s, c, d))
  {}

  lemma ProcessKeeps(s: State, c: nat, d: nat)
    requires Inv(s) && IsCpu(s, c) && d < NETHDEV && PacketsOk(s)
    ensures Inv(ProcessQueue(s, c, d))
  {
    var r, q := ProcessQueue(s, c, d), s.rx[c][d];
    ProcessShape(s, c, d);
    if q != [] {
      assert q[0] in q && OwnedBy(s, q[0], c, d);
      ProcessByOwner(s, c, d);
      ProcessViews(s, c, d, r);
      ProcessLocated(s, c, d);
      ControlIsKept(s, r);
    }
  }
}
