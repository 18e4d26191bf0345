/** Flow groups and their migration between CPUs (core/ethfg.c), as a state machine.

    One step is one C function run to completion on one CPU.  The hardware may hand any
    packet to any CPU at any time, so every lag of the redirection table is covered.
    `hist` records what was observed; no step reads it. */
module FlowGroups {

  const ETH_MAX_NUM_FG: nat := 512
  const NETHDEV: nat := 16
  const TOTAL_FG: nat := 8192
  const ETH_RX_MAX_DEPTH: nat := 32768
  const NO_CPU: int := -1

  datatype Pkt = Pkt(id: nat, fg: nat)

  datatype Group = Group(inTransition: bool, cur: int, prev: int, target: int)

  /** `struct migration_info`, one per CPU.  `timerActive` is the hrtimer's own state. */
  datatype Migration = Migration(prevCpu: int, targetCpu: int, bitmap: set<nat>, timerActive: bool)

  datatype Delivery = Delivery(cpu: nat, pkt: Pkt, owner: int)

  /** Packets of a group accepted between two drains: by the owner or the previous CPU
      (`early`), and by the target CPU (`late`). */
  datatype Epoch = Epoch(early: seq<Pkt>, late: seq<Pkt>)

  datatype History = History(arrived: seq<Pkt>, lost: seq<Pkt>, delivered: seq<Delivery>,
                             epochs: seq<seq<Epoch>>, started: seq<nat>, drained: seq<nat>)

  /** The groups, and the per-CPU variables: the receive queue per device, the two hand-over
      queues, `migration_info`, and the cross-CPU calls that wait to run on the CPU.  A
      waiting drain is represented by the CPU whose `migration_info` it was given. */
  datatype State = State(fgs: seq<Group>,
                         rx: seq<seq<seq<Pkt>>>, remote: seq<seq<Pkt>>, local: seq<seq<Pkt>>,
                         mig: seq<Migration>, earlyCalls: seq<nat>, drainCalls: seq<multiset<int>>,
                         hist: History)

  /** The two places where the port departs from its evident intent: it tests the bitmap
      for emptiness where it has to be cleared, and it copies the timer along with the rest
      of `migration_info` to the target CPU. */
  datatype Port = Port(clearsBitmap: bool, copiesTimer: bool)

  const INTENDED := Port(true, false)
  const AS_WRITTEN := Port(false, true)

  datatype Event =
    | Arrive(cpu: nat, pkt: Pkt)
    | Process(cpu: nat, dev: nat)
    | Assign(cpu: nat, target: nat, groups: set<nat>)
    | TimerFires(cpu: nat)
    | RunEarly(cpu: nat, polled: seq<Pkt>)
    | RunDrain(cpu: nat, info: int)

  // ----- queues -----

  /** The packets of group `g`, in order. */
  function OfGroup(q: seq<Pkt>, g: nat): seq<Pkt> {
    if q == [] then [] else
      OfGroup(q[..|q| - 1], g) + (if q[|q| - 1].fg == g then [q[|q| - 1]] else [])
  }

  /** The packets of every other group, in order. */
  function NotOfGroup(q: seq<Pkt>, g: nat): seq<Pkt> {
    if q == [] then [] else
      NotOfGroup(q[..|q| - 1], g) + (if q[|q| - 1].fg == g then [] else [q[|q| - 1]])
  }

  function DeliveredTo(ds: seq<Delivery>, g: nat): seq<Pkt> {
    if ds == [] then [] else
      DeliveredTo(ds[..|ds| - 1], g) + (if ds[|ds| - 1].pkt.fg == g then [ds[|ds| - 1].pkt] else [])
  }

  function Flatten(es: seq<Epoch>): seq<Pkt> {
    if es == [] then [] else
      Flatten(es[..|es| - 1]) + es[|es| - 1].early + es[|es| - 1].late
  }

  // ----- shapes -----

  ghost predicate Shape(s: State) {
    && |s.fgs| == |s.hist.epochs| == TOTAL_FG
    && |s.remote| == |s.local| == |s.rx| == |s.mig|
    && |s.earlyCalls| == |s.drainCalls| == |s.hist.started| == |s.hist.drained| == |s.mig|
    && (forall g :: 0 <= g < TOTAL_FG ==> s.hist.epochs[g] != [])
    && (forall c :: 0 <= c < |s.rx| ==> |s.rx[c]| == NETHDEV)
  }

  predicate IsCpu(s: State, c: int) { 0 <= c < |s.mig| }

  function At(qs: seq<seq<Pkt>>, c: int): seq<Pkt> {
    if 0 <= c < |qs| then qs[c] else []
  }

  function Append(qs: seq<seq<Pkt>>, c: int, q: seq<Pkt>): (r: seq<seq<Pkt>>)
    ensures |r| == |qs|
  {
    if 0 <= c < |qs| then qs[c := qs[c] + q] else qs
  }

  // ----- receive path: eth_recv and eth_recv_handle_fg_transition -----

  function AddEarlyCall(calls: seq<nat>, c: int): (r: seq<nat>)
    ensures |r| == |calls|
  {
    if 0 <= c < |calls| then calls[c := calls[c] + 1] else calls
  }

  function AddDrainCall(calls: seq<multiset<int>>, c: int, info: int): (r: seq<multiset<int>>)
    ensures |r| == |calls|
  {
    if 0 <= c < |calls| then calls[c := calls[c] + multiset{info}] else calls
  }

  function Early(es: seq<Epoch>, p: Pkt): seq<Epoch>
    requires es != []
  {
    es[|es| - 1 := es[|es| - 1].(early := es[|es| - 1].early + [p])]
  }

  function Late(es: seq<Epoch>, p: Pkt): seq<Epoch>
    requires es != []
  {
    es[|es| - 1 := es[|es| - 1].(late := es[|es| - 1].late + [p])]
  }

  function NoteArrival(h: History, p: Pkt): History { h.(arrived := h.arrived + [p]) }

  function NoteLoss(h: History, p: Pkt): History { NoteArrival(h, p).(lost := h.lost + [p]) }

  function NoteEarly(h: History, p: Pkt): History
    requires p.fg < |h.epochs| && h.epochs[p.fg] != []
  {
    NoteArrival(h, p).(epochs := h.epochs[p.fg := Early(h.epochs[p.fg], p)])
  }

  function NoteLate(h: History, p: Pkt): History
    requires p.fg < |h.epochs| && h.epochs[p.fg] != []
  {
    NoteArrival(h, p).(epochs := h.epochs[p.fg := Late(h.epochs[p.fg], p)])
  }

  /** `eth_recv`, on CPU `c`, of a packet from the hardware. */
  function Receive(s: State, c: nat, p: Pkt): (r: State)
    requires Shape(s) && IsCpu(s, c) && p.fg < TOTAL_FG
    ensures Shape(r)
  {
    var fg := s.fgs[p.fg];
    var d := p.fg / ETH_MAX_NUM_FG;
    if !fg.inTransition && fg.cur == c then
      if |s.rx[c][d]| >= ETH_RX_MAX_DEPTH then s.(hist := NoteLoss(s.hist, p))
      else s.(rx := s.rx[c := s.rx[c][d := s.rx[c][d] + [p]]], hist := NoteEarly(s.hist, p))
    else if fg.inTransition && fg.prev == c then
      s.(remote := Append(s.remote, fg.target, [p]), hist := NoteEarly(s.hist, p))
    else if fg.inTransition && fg.target == c then
      s.(local := Append(s.local, c, [p]), hist := NoteLate(s.hist, p),
         earlyCalls := if s.local[c] == [] then AddEarlyCall(s.earlyCalls, s.mig[c].prevCpu) else s.earlyCalls)
    else
      s.(hist := NoteLoss(s.hist, p))
  }

  function ReceiveAll(s: State, c: nat, ps: seq<Pkt>): (r: State)
    requires Shape(s) && IsCpu(s, c) && forall p :: p in ps ==> p.fg < TOTAL_FG
    ensures Shape(r) && |r.mig| == |s.mig|
  {
    if ps == [] then s
    else Receive(ReceiveAll(s, c, ps[..|ps| - 1]), c, ps[|ps| - 1])
  }

  // ----- eth_process_recv_queue -----

  function ProcessQueue(s: State, c: nat, d: nat): State
    requires Shape(s) && IsCpu(s, c) && d < NETHDEV && PacketsOk(s)
  {
    var q := s.rx[c][d];
    if q == [] then s
    else
      s.(rx := s.rx[c := s.rx[c][d := q[1..]]],
         hist := s.hist.(delivered := s.hist.delivered + [Delivery(c, q[0], s.fgs[q[0].fg].cur)]))
  }

  // ----- eth_fg_assign_to_cpu -----

  /** `eth_fg_assign_single_to_cpu`, with `migrate_pkts_to_remote`, on CPU `p`. */
  function AssignSingle(s: State, p: nat, t: nat, g: nat): (r: State)
    requires Shape(s) && IsCpu(s, p) && IsCpu(s, t) && g < TOTAL_FG
    ensures Shape(r) && r.mig == s.mig && r.earlyCalls == s.earlyCalls && r.drainCalls == s.drainCalls
    ensures r.local == s.local && r.hist == s.hist
  {
    var fg := s.fgs[g];
    var d := g / ETH_MAX_NUM_FG;
    if fg.cur == t then s
    else if fg.cur == NO_CPU then s.(fgs := s.fgs[g := fg.(cur := t)])
    else
      s.(fgs := s.fgs[g := Group(true, NO_CPU, fg.cur, t)],
         rx := s.rx[p := s.rx[p][d := NotOfGroup(s.rx[p][d], g)]],
         remote := Append(s.remote, t, OfGroup(s.rx[p][d], g)))
  }

  /** The state after the groups below `i` have been handled. */
  function AssignUpTo(s: State, p: nat, t: nat, gs: set<nat>, i: nat): (r: State)
    requires Shape(s) && IsCpu(s, p) && IsCpu(s, t) && i <= TOTAL_FG
    ensures Shape(r) && r.mig == s.mig && r.earlyCalls == s.earlyCalls && r.drainCalls == s.drainCalls
    ensures r.local == s.local && r.hist == s.hist
  {
    if i == 0 then s
    else
      var r := AssignUpTo(s, p, t, gs, i - 1);
      if i - 1 in gs then AssignSingle(r, p, t, i - 1) else r
  }

  /** The groups below `i` for which `eth_fg_assign_single_to_cpu` returns 1. */
  function Moving(fgs: seq<Group>, t: nat, gs: set<nat>, i: nat): set<nat>
    requires i <= |fgs|
  {
    set g | g in gs && g < i && fgs[g].cur != t && fgs[g].cur != NO_CPU
  }

  function StartMigration(port: Port, s: State, p: nat, t: nat, moved: set<nat>): (r: State)
    requires Shape(s) && IsCpu(s, p) && IsCpu(s, t)
    ensures Shape(r)
  {
    var bitmap := if port.clearsBitmap then moved else s.mig[p].bitmap + moved;
    if moved == {} then s.(mig := s.mig[p := s.mig[p].(bitmap := bitmap)])
    else
      var info := Migration(p, t, bitmap, true);
      var copy := if port.copiesTimer then info else info.(timerActive := s.mig[t].timerActive);
      s.(mig := s.mig[p := info][t := copy],
         hist := s.hist.(started := s.hist.started[p := s.hist.started[p] + 1]))
  }

  function AssignToCpu(port: Port, s: State, p: nat, t: nat, gs: set<nat>): State
    requires Shape(s) && IsCpu(s, p) && IsCpu(s, t)
  {
    StartMigration(port, AssignUpTo(s, p, t, gs, TOTAL_FG), p, t, Moving(s.fgs, t, gs, TOTAL_FG))
  }

  // ----- transition_handler_prev and early_transition_handler_prev -----

  function StopTimer(s: State, p: nat): (r: State)
    requires Shape(s) && IsCpu(s, p)
    ensures Shape(r)
  {
    s.(mig := s.mig[p := s.mig[p].(timerActive := false)])
  }

  function TransitionPrev(s: State, p: nat): State
    requires Shape(s) && IsCpu(s, p)
  {
    StopTimer(s, p).(drainCalls := AddDrainCall(s.drainCalls, s.mig[p].targetCpu, p))
  }

  function EarlyTransitionPrev(s: State, p: nat, polled: seq<Pkt>): State
    requires Shape(s) && IsCpu(s, p) && s.earlyCalls[p] > 0
    requires forall x :: x in polled ==> x.fg < TOTAL_FG
  {
    var s1 := s.(earlyCalls := s.earlyCalls[p := s.earlyCalls[p] - 1]);
    if !s.mig[p].timerActive then s1
    else
      var s2 := ReceiveAll(StopTimer(s1, p), p, polled);
      s2.(drainCalls := AddDrainCall(s2.drainCalls, s2.mig[p].targetCpu, p))
  }

  // ----- transition_handler_target -----

  function Settle(fg: Group): Group { Group(false, fg.target, NO_CPU, NO_CPU) }

  function SettleAll(fgs: seq<Group>, bitmap: set<nat>): (r: seq<Group>)
    ensures |r| == |fgs|
    ensures forall g :: 0 <= g < |fgs| ==> r[g] == if g in bitmap then Settle(fgs[g]) else fgs[g]
  {
    seq(|fgs|, g requires 0 <= g < |fgs| => if g in bitmap then Settle(fgs[g]) else fgs[g])
  }

  function DeliverAll(q: seq<Pkt>, c: nat, fgs: seq<Group>): (r: seq<Delivery>)
    requires forall p :: p in q ==> p.fg < |fgs|
    ensures |r| == |q|
    ensures forall i :: 0 <= i < |q| ==> r[i] == Delivery(c, q[i], fgs[q[i].fg].cur)
  {
    seq(|q|, i requires 0 <= i < |q| => Delivery(c, q[i], fgs[q[i].fg].cur))
  }

  function NewEpochs(es: seq<seq<Epoch>>, bitmap: set<nat>): (r: seq<seq<Epoch>>)
    ensures |r| == |es|
    ensures forall g :: 0 <= g < |es| ==> r[g] == if g in bitmap then es[g] + [Epoch([], [])] else es[g]
  {
    seq(|es|, g requires 0 <= g < |es| => if g in bitmap then es[g] + [Epoch([], [])] else es[g])
  }

  function EndMigration(mig: seq<Migration>, c: int): (r: seq<Migration>)
    requires 0 <= c < |mig|
    ensures |r| == |mig|
  {
    mig[c := mig[c].(prevCpu := NO_CPU)]
  }

  function TransitionTarget(s: State, t: nat, info: int): State
    requires Shape(s) && IsCpu(s, t) && IsCpu(s, info) && PacketsOk(s)
  {
    var bitmap := s.mig[info].bitmap;
    var fgs := SettleAll(s.fgs, bitmap);
    State(fgs, s.rx, s.remote[t := []], s.local[t := []],
          EndMigration(EndMigration(s.mig, t), info), s.earlyCalls,
          s.drainCalls[t := s.drainCalls[t] - multiset{info}],
          s.hist.(delivered := s.hist.delivered + DeliverAll(s.remote[t] + s.local[t], t, fgs),
                  epochs := NewEpochs(s.hist.epochs, bitmap),
                  drained := s.hist.drained[info := s.hist.drained[info] + 1]))
  }

  // ----- the machine -----

  /** Every queued packet names an existing group. */
  ghost predicate PacketsOk(s: State)
    requires Shape(s)
  {
    forall c :: 0 <= c < |s.mig| ==>
      && (forall p :: p in s.remote[c] ==> p.fg < TOTAL_FG)
      && (forall p :: p in s.local[c] ==> p.fg < TOTAL_FG)
      && (forall d, p :: 0 <= d < NETHDEV && p in s.rx[c][d] ==> p.fg < TOTAL_FG)
  }

  /** What has to hold for an event to be able to happen.  For `Assign` these are the
      conditions that core/ethfg.c checks at lines 136, 144, 238 and 239. */
  ghost predicate Enabled(s: State, e: Event)
    requires Shape(s)
  {
    match e
    case Arrive(c, p) => IsCpu(s, c) && p.fg < TOTAL_FG
    case Process(c, d) => IsCpu(s, c) && d < NETHDEV
    case Assign(p, t, gs) =>
      && IsCpu(s, p) && IsCpu(s, t) && s.mig[p].prevCpu == NO_CPU && s.mig[t].prevCpu == NO_CPU
      && forall g :: g in gs ==> g < TOTAL_FG && !s.fgs[g].inTransition && s.fgs[g].cur in {p, t, NO_CPU}
    case TimerFires(p) => IsCpu(s, p) && s.mig[p].timerActive && s.mig[p].prevCpu == p
    case RunEarly(p, ps) => IsCpu(s, p) && s.earlyCalls[p] > 0 && forall x :: x in ps ==> x.fg < TOTAL_FG
    case RunDrain(t, info) => IsCpu(s, t) && IsCpu(s, info) && info in s.drainCalls[t]
  }

  function Step(port: Port, s: State, e: Event): State
    requires Shape(s) && PacketsOk(s) && Enabled(s, e)
  {
    match e
    case Arrive(c, p) => Receive(s, c, p)
    case Process(c, d) => ProcessQueue(s, c, d)
    case Assign(p, t, gs) => AssignToCpu(port, s, p, t, gs)
    case TimerFires(p) => TransitionPrev(s, p)
    case RunEarly(p, ps) => EarlyTransitionPrev(s, p, ps)
    case RunDrain(t, info) => TransitionTarget(s, t, info)
  }

  function Init(n: nat): (s: State)
    ensures Shape(s) && PacketsOk(s)
  {
    State(seq(TOTAL_FG, g => Group(false, NO_CPU, NO_CPU, NO_CPU)),
          seq(n, c => seq(NETHDEV, d => [])), seq(n, c => []), seq(n, c => []),
          seq(n, c => Migration(NO_CPU, NO_CPU, {}, false)), seq(n, c => 0), seq(n, c => multiset{}),
          History([], [], [], seq(TOTAL_FG, g => [Epoch([], [])]), seq(n, c => 0), seq(n, c => 0)))
  }

  /** `s` is reached from `n` idle CPUs and unassigned groups by the events `es`. */
  ghost predicate Run(port: Port, n: nat, es: seq<Event>, s: State) {
    if es == [] then s == Init(n)
    else exists r :: Run(port, n, es[..|es| - 1], r) && Shape(r) && PacketsOk(r)
                     && Enabled(r, es[|es| - 1]) && s == Step(port, r, es[|es| - 1])
  }
}
