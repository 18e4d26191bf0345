/** The semaphore between software agents and firmware (ixgbe/ixgbe_common.c), as the single
    register accesses of any number of agents in any order.  Polling limits are left open: a
    loop may give up at any round. */
module Semaphore {

  /** Firmware owns the five documented semaphores through the bits 5 above them. */
  const FW_SHIFT: nat := 5

  datatype Task = Acquire(mask: set<nat>) | Release(mask: set<nat>)

  /** What follows once `ixgbe_release_eeprom_semaphore` is done. */
  datatype Then = Retry | Finish | Unlocked

  /** The register access an agent makes next. */
  datatype Pc =
    | Idle
    | Poll(task: Task)
    | ForceRead(task: Task)
    | ForceWrite(task: Task)
    | LastTry(task: Task)
    | RequestRead(task: Task)
    | RequestWrite(task: Task, smbiRead: bool)
    | RequestCheck(task: Task)
    | ReadGssr(task: Task)
    | WriteGssr(task: Task, seen: set<nat>)
    | DropRead(task: Task, next: Then)
    | DropWrite(task: Task, next: Then)

  /** SWSM with the firmware's own request bit, GSSR as the set of its 1 bits, and what each
      agent and the firmware hold.  `own` and `fw` are read by no agent. */
  datatype State = State(smbi: bool, swesmbi: bool, fwesmbi: bool, gssr: set<nat>,
                         pc: seq<Pc>, own: seq<set<nat>>, fw: set<nat>)

  datatype Event =
    | Start(a: nat, task: Task)
    | Go(a: nat, giveUp: bool)
    | FwTake
    | FwSet(b: nat)
    | FwClear(b: nat)
    | FwDrop

  function FwMask(mask: set<nat>): set<nat> { set b | b in mask :: b + FW_SHIFT }

  function At(s: State, a: nat, pc: Pc): State
    requires a < |s.pc|
  {
    s.(pc := s.pc[a := pc])
  }

  /** What happens after `ixgbe_get_eeprom_semaphore` fails: `ixgbe_acquire_swfw_sync` returns,
      `ixgbe_release_swfw_sync` does not look. */
  function Failed(task: Task): Pc { if task.Acquire? then Idle else ReadGssr(task) }

  /** One register access of agent `a`.  Reading SWSM returns SMBI and sets it. */
  function Access(s: State, a: nat, giveUp: bool): State
    requires a < |s.pc| == |s.own|
  {
    var r := s.(smbi := true);
    match s.pc[a]
    case Idle => s
    case Poll(t) => if !s.smbi then At(r, a, RequestRead(t)) else if giveUp then At(r, a, ForceRead(t)) else r
    case ForceRead(t) => At(r, a, ForceWrite(t))
    case ForceWrite(t) => At(s.(smbi := false, swesmbi := false), a, LastTry(t))
    case LastTry(t) => if !s.smbi then At(r, a, RequestRead(t)) else At(r, a, Failed(t))
    case RequestRead(t) => At(r, a, RequestWrite(t, s.smbi))
    case RequestWrite(t, v) => At(s.(smbi := v, swesmbi := !s.fwesmbi), a, RequestCheck(t))
    case RequestCheck(t) =>
      if s.swesmbi then At(r, a, ReadGssr(t))
      else if giveUp then At(r, a, DropRead(t, if t.Acquire? then Finish else Unlocked))
      else At(r, a, RequestRead(t))
    case ReadGssr(t) =>
      if t.Release? || s.gssr * (t.mask + FwMask(t.mask)) == {} then At(s, a, WriteGssr(t, s.gssr))
      else At(s, a, DropRead(t, Retry))
    case WriteGssr(t, seen) =>
      var own := if t.Acquire? then s.own[a] + t.mask else s.own[a] - t.mask;
      At(s.(gssr := if t.Acquire? then seen + t.mask else seen - t.mask, own := s.own[a := own]), a, DropRead(t, Finish))
    case DropRead(t, next) => At(r, a, DropWrite(t, next))
    case DropWrite(t, next) =>
      At(s.(smbi := false, swesmbi := false), a,
         match next
         case Retry => if giveUp then Idle else Poll(t)
         case Finish => Idle
         case Unlocked => ReadGssr(t))
  }

  /** An agent gives up only what it holds; firmware keeps to the protocol. */
  predicate Enabled(s: State, e: Event) {
    match e
    case Start(a, t) => a < |s.pc| == |s.own| && s.pc[a].Idle? && (t.Release? ==> t.mask <= s.own[a])
    case Go(a, _) => a < |s.pc| == |s.own|
    case FwTake => !s.swesmbi && !s.fwesmbi
    case FwSet(b) => s.fwesmbi && b < FW_SHIFT && b !in s.gssr && b + FW_SHIFT !in s.gssr
    case FwClear(b) => s.fwesmbi && b in s.fw
    case FwDrop => s.fwesmbi
  }

  function Step(s: State, e: Event): State
    requires Enabled(s, e)
  {
    match e
    case Start(a, t) => At(s, a, Poll(t))
    case Go(a, giveUp) => Access(s, a, giveUp)
    case FwTake => s.(fwesmbi := true)
    case FwSet(b) => s.(gssr := s.gssr + {b + FW_SHIFT}, fw := s.fw + {b})
    case FwClear(b) => s.(gssr := s.gssr - {b + FW_SHIFT}, fw := s.fw - {b})
    case FwDrop => s.(fwesmbi := false)
  }

  /** One way to lose the lock: the SMBI loop times out, which clears SMBI whoever holds it. */
  predicate TimesOut(s: State, e: Event) {
    e.Go? && e.giveUp && e.a < |s.pc| && s.pc[e.a].Poll? && s.smbi
  }

  /** The other: a release goes on although its SWESMBI loop timed out. */
  predicate GoesOnUnlocked(s: State, e: Event) {
    e.Go? && e.giveUp && e.a < |s.pc| && s.pc[e.a].RequestCheck? && s.pc[e.a].task.Release? && !s.swesmbi
  }

  /** Which of the two may happen in a run. */
  datatype Losses = Losses(timeouts: bool, unlocked: bool)

  const CLEAN := Losses(false, false)

  predicate Permitted(m: Losses, s: State, e: Event) {
    (TimesOut(s, e) ==> m.timeouts) && (GoesOnUnlocked(s, e) ==> m.unlocked)
  }

  ghost predicate Sized(s: State) { |s.pc| == |s.own| }

  /** `s` is reached from `s0` by `es`, and the lock is lost in no way but those of `m`. */
  ghost predicate PermittedRun(m: Losses, s0: State, es: seq<Event>, s: State) {
    if es == [] then s == s0
    else exists r :: PermittedRun(m, s0, es[..|es| - 1], r) && Sized(r) && Permitted(m, r, es[|es| - 1])
                     && Enabled(r, es[|es| - 1]) && s == Step(r, es[|es| - 1])
  }

  function Init(n: nat): State {
    State(false, false, false, {}, seq(n, i => Idle), seq(n, i => {}), {})
  }

  // ----- the invariant -----

  predicate Holding(pc: Pc) {
    pc.RequestRead? || pc.RequestWrite? || pc.RequestCheck? || pc.ReadGssr? || pc.WriteGssr? || pc.DropRead? || pc.DropWrite?
  }

  predicate Inside(pc: Pc) { pc.ReadGssr? || pc.WriteGssr? }

  /** What agent `a` may rely on where it stands. */
  ghost predicate Sound(s: State, a: nat)
    requires a < |s.pc| == |s.own|
  {
    var pc := s.pc[a];
    && !pc.ForceRead? && !pc.ForceWrite? && !pc.LastTry?
    && (Holding(pc) ==> s.smbi) && (Inside(pc) ==> s.swesmbi)
    && (pc.RequestWrite? ==> pc.smbiRead)
    && (pc.WriteGssr? ==> pc.seen == s.gssr)
    && (pc.WriteGssr? && pc.task.Acquire? ==> s.gssr * (pc.task.mask + FwMask(pc.task.mask)) == {})
    && ((pc.DropRead? || pc.DropWrite?) ==> !pc.next.Unlocked?)
    && (!pc.Idle? && pc.task.Release? && !pc.DropRead? && !pc.DropWrite? ==> pc.task.mask <= s.own[a])
    && ((pc.DropRead? || pc.DropWrite?) && pc.next.Retry? ==> pc.task.Acquire?)
  }

  /** At most one agent holds the lock, and never together with firmware. */
  ghost predicate Locked(s: State) {
    && |s.pc| == |s.own| && !(s.swesmbi && s.fwesmbi)
    && (forall a :: 0 <= a < |s.pc| ==> Sound(s, a))
    && forall a, b :: 0 <= a < b < |s.pc| ==> !(Holding(s.pc[a]) && Holding(s.pc[b]))
  }

  /** Each bit of GSSR has one owner, and each owner's bits are set. */
  ghost predicate Owned(s: State) {
    && (forall a, x :: 0 <= a < |s.own| && x in s.own[a] ==> x in s.gssr)
    && (forall b :: b in s.fw ==> b + FW_SHIFT in s.gssr)
    && (forall x :: x in s.gssr ==> (exists a :: 0 <= a < |s.own| && x in s.own[a]) || x - FW_SHIFT in s.fw)
    && (forall a, b :: 0 <= a < b < |s.own| ==> s.own[a] !! s.own[b])
    && forall a, x :: 0 <= a < |s.own| && x in s.own[a] ==> x !in s.fw && x - FW_SHIFT !in s.fw
  }

  ghost predicate Inv(s: State) { Locked(s) && Owned(s) }

  lemma InitInv(n: nat)
    ensures Inv(Init(n))
  {}

  // ----- each step keeps it -----

  /** Only the registers that `a` writes while it holds the lock can matter to others. */
  lemma AgentStep(s: State, a: nat, giveUp: bool, r: State)
    requires Locked(s) && a < |s.pc| && Permitted(CLEAN, s, Go(a, giveUp)) && r == Access(s, a, giveUp)
    ensures Locked(r)
  {
    assert Sound(s, a);
    Proceeds(s, a, giveUp, r);
    forall b | 0 <= b < |r.pc| ensures Sound(r, b) {
      assert Sound(s, b);
      if b != a { Undisturbed(s, a, b, giveUp, r); }
    }
    forall b | 0 <= b < |r.pc| && b != a ensures !(Holding(r.pc[a]) && Holding(r.pc[b])) {
      assert Sound(s, b);
    }
  }

  lemma LockedStep(s: State, e: Event, r: State)
    requires Inv(s) && Enabled(s, e) && Permitted(CLEAN, s, e) && r == Step(s, e)
    ensures Locked(r)
  {
    if e.Go? {
      AgentStep(s, e.a, e.giveUp, r);
    } else {
      forall b | 0 <= b < |r.pc| ensures Sound(r, b) { assert Sound(s, b); }
    }
  }

  lemma Proceeds(s: State, a: nat, giveUp: bool, r: State)
    requires a < |s.pc| && Locked(s) && Permitted(CLEAN, s, Go(a, giveUp)) && r == Access(s, a, giveUp)
    ensures Sound(r, a) && !(r.swesmbi && r.fwesmbi)
    ensures Holding(r.pc[a]) && !Holding(s.pc[a]) ==> !s.smbi
  {
    assert Sound(s, a);
  }

  lemma Undisturbed(s: State, a: nat, b: nat, giveUp: bool, r: State)
    requires a < |s.pc| && b < |s.pc| && a != b && Locked(s) && r == Access(s, a, giveUp)
    ensures Sound(r, b)
  {
    assert Sound(s, a) && Sound(s, b);
  }

  /** GSSR changes only where `own` or `fw` does, by the same bits. */
  lemma OwnedStep(s: State, e: Event, r: State)
    requires Inv(s) && Enabled(s, e) && r == Step(s, e)
    ensures Owned(r)
  {
    match e
    case Go(a, giveUp) =>
      assert Sound(s, a);
      if s.pc[a].WriteGssr? {
        var t := s.pc[a].task;
        if t.Acquire? { GainsBits(s, a, t.mask, r); } else { LosesBits(s, a, t.mask, r); }
      }
    case Start(a, t) =>
    case FwTake =>
    case FwSet(b) => FirmwareSets(s, b, r);
    case FwClear(b) => FirmwareClears(s, b, r);
    case FwDrop =>
  }

  lemma GainsBits(s: State, a: nat, mask: set<nat>, r: State)
    requires Owned(s) && a < |s.own| && s.gssr * (mask + FwMask(mask)) == {}
    requires r.gssr == s.gssr + mask && r.own == s.own[a := s.own[a] + mask] && r.fw == s.fw
    ensures Owned(r)
  {
    forall x | x in mask ensures x !in s.gssr && x + FW_SHIFT !in s.gssr && x !in s.fw && x - FW_SHIFT !in s.fw {
      var m := mask + FwMask(mask);
      assert x in m && x + FW_SHIFT in m;
      assert forall y :: y in s.gssr && y in m ==> y in s.gssr * m;
    }
    forall x | x in r.gssr ensures (exists b :: 0 <= b < |r.own| && x in r.own[b]) || x - FW_SHIFT in r.fw {
      if x in mask {
        assert x in r.own[a];
      } else if x - FW_SHIFT !in s.fw {
        var b :| 0 <= b < |s.own| && x in s.own[b];
        assert x in r.own[b];
      }
    }
  }

  lemma LosesBits(s: State, a: nat, mask: set<nat>, r: State)
    requires Owned(s) && a < |s.own| && mask <= s.own[a]
    requires r.gssr == s.gssr - mask && r.own == s.own[a := s.own[a] - mask] && r.fw == s.fw
    ensures Owned(r)
  {
    forall b, x | 0 <= b < |r.own| && x in r.own[b] ensures x in r.gssr {
      assert b != a ==> s.own[a] !! s.own[b];
    }
    forall b | b in s.fw ensures b + FW_SHIFT in r.gssr {
      var x := b + FW_SHIFT;
      assert x in s.own[a] ==> x - FW_SHIFT !in s.fw;
    }
    forall x | x in r.gssr ensures (exists b :: 0 <= b < |r.own| && x in r.own[b]) || x - FW_SHIFT in r.fw {
      if x - FW_SHIFT !in s.fw {
        var b :| 0 <= b < |s.own| && x in s.own[b];
        assert x in r.own[b];
      }
    }
  }

  lemma FirmwareSets(s: State, b: nat, r: State)
    requires Owned(s) && b !in s.gssr && b + FW_SHIFT !in s.gssr
    requires r.gssr == s.gssr + {b + FW_SHIFT} && r.own == s.own && r.fw == s.fw + {b}
    ensures Owned(r)
  {
    forall a, x | 0 <= a < |r.own| && x in r.own[a] ensures x in r.gssr && x !in r.fw && x - FW_SHIFT !in r.fw {
      assert x in s.own[a] && x in s.gssr;
    }
    forall x | x in r.gssr ensures (exists a :: 0 <= a < |r.own| && x in r.own[a]) || x - FW_SHIFT in r.fw {
      if x != b + FW_SHIFT { assert x in s.gssr; }
    }
  }

  lemma FirmwareClears(s: State, b: nat, r: State)
    requires Owned(s) && b in s.fw
    requires r.gssr == s.gssr - {b + FW_SHIFT} && r.own == s.own && r.fw == s.fw - {b}
    ensures Owned(r)
  {
    forall a, x | 0 <= a < |s.own| && x in s.own[a] ensures x != b + FW_SHIFT {
      assert x - FW_SHIFT !in s.fw;
    }
  }

  /** In every run that loses the lock in neither way: no two agents hold the same bit, no agent
      holds a bit that firmware holds, and GSSR shows exactly what is held. */
  lemma {:induction false} MutualExclusion(n: nat, es: seq<Event>, s: State)
    requires PermittedRun(CLEAN, Init(n), es, s)
    ensures Inv(s)
    ensures forall a, b :: 0 <= a < b < |s.own| ==> s.own[a] !! s.own[b]
    ensures forall a :: 0 <= a < |s.own| ==> s.own[a] !! s.fw
    decreases |es|
  {
    if es == [] {
      InitInv(n);
    } else {
      var e := es[|es| - 1];
      var r :| PermittedRun(CLEAN, Init(n), es[..|es| - 1], r) && Sized(r) && Permitted(CLEAN, r, e)
               && Enabled(r, e) && s == Step(r, e);
      MutualExclusion(n, es[..|es| - 1], r);
      LockedStep(r, e, s);
      OwnedStep(r, e, s);
    }
  }

  /** While agents keep to the five documented semaphores, the firmware bit of a held semaphore
      is clear. */
  lemma FirmwareBitClear(s: State, a: nat, b: nat)
    requires Inv(s) && a < |s.own| && b in s.own[a]
    requires forall c, x :: 0 <= c < |s.own| && x in s.own[c] ==> x < 5
    ensures b + 5 !in s.gssr
  {}

  // ----- the two ways to lose the lock -----

  lemma Extend(m: Losses, s0: State, es: seq<Event>, r: State, e: Event)
    requires PermittedRun(m, s0, es, r) && Sized(r) && Permitted(m, r, e) && Enabled(r, e)
    ensures PermittedRun(m, s0, es + [e], Step(r, e))
  {
    assert (es + [e])[..|es|] == es && (es + [e])[|es|] == e;
  }

  /** `k` accesses of agent `a`. */
  function Goes(a: nat, k: nat): seq<Event> { seq(k, i => Go(a, false)) }

  function Accesses(s: State, a: nat, k: nat): State
    requires a < |s.pc| == |s.own|
    ensures |Accesses(s, a, k).pc| == |Accesses(s, a, k).own| == |s.pc|
  {
    if k == 0 then s else Access(Accesses(s, a, k - 1), a, false)
  }

  lemma {:induction false} ExtendGoes(m: Losses, s0: State, es: seq<Event>, r: State, a: nat, k: nat)
    requires PermittedRun(m, s0, es, r) && a < |r.pc| == |r.own|
    ensures PermittedRun(m, s0, es + Goes(a, k), Accesses(r, a, k))
  {
    if k == 0 {
      assert es + Goes(a, 0) == es;
    } else {
      ExtendGoes(m, s0, es, r, a, k - 1);
      Extend(m, s0, es + Goes(a, k - 1), Accesses(r, a, k - 1), Go(a, false));
      assert es + Goes(a, k - 1) + [Go(a, false)] == es + Goes(a, k);
    }
  }

  /** An undisturbed agent reaches the point where it is about to write GSSR. */
  lemma Approaches(s: State, a: nat, t: Task)
    requires a < |s.pc| == |s.own| && !s.smbi && !s.swesmbi && !s.fwesmbi && s.pc[a] == Poll(t)
    requires t.Release? || s.gssr * (t.mask + FwMask(t.mask)) == {}
    ensures Accesses(s, a, 5) == s.(smbi := true, swesmbi := true, pc := s.pc[a := WriteGssr(t, s.gssr)])
  {
    var s1 := s.(smbi := true, pc := s.pc[a := RequestRead(t)]);
    var s2 := s.(smbi := true, pc := s.pc[a := RequestWrite(t, true)]);
    var s3 := s.(smbi := true, swesmbi := true, pc := s.pc[a := RequestCheck(t)]);
    var s4 := s.(smbi := true, swesmbi := true, pc := s.pc[a := ReadGssr(t)]);
    assert Accesses(s, a, 0) == s;
    assert Access(s, a, false) == s1 == Accesses(s, a, 1);
    assert Access(s1, a, false) == s2 == Accesses(s, a, 2);
    assert Access(s2, a, false) == s3 == Accesses(s, a, 3);
    assert Access(s3, a, false) == s4 == Accesses(s, a, 4);
    assert Access(s4, a, false) == Accesses(s, a, 5);
  }

  /** From the point where it is about to write GSSR: the write, and the lock is let go. */
  lemma Completes(s: State, a: nat, t: Task, seen: set<nat>)
    requires a < |s.pc| == |s.own| && s.pc[a] == WriteGssr(t, seen)
    ensures Accesses(s, a, 3) ==
            s.(smbi := false, swesmbi := false, pc := s.pc[a := Idle],
               gssr := if t.Acquire? then seen + t.mask else seen - t.mask,
               own := s.own[a := if t.Acquire? then s.own[a] + t.mask else s.own[a] - t.mask])
  {
    var w := Access(s, a, false);
    var r := w.(smbi := true, pc := s.pc[a := DropWrite(t, Finish)]);
    assert Accesses(s, a, 0) == s;
    assert w == Accesses(s, a, 1);
    assert Access(w, a, false) == r == Accesses(s, a, 2);
    assert Access(r, a, false) == Accesses(s, a, 3);
  }

  /** The SMBI timeout path alone: agent 1 clears the lock that agent 0 holds, and both acquire the
      same semaphore. */
  lemma TimeoutBreaksExclusion(n: nat, x: nat) returns (es: seq<Event>, s: State)
    requires n >= 2
    ensures PermittedRun(Losses(true, false), Init(n), es, s) && |s.own| == n && x in s.own[0] && x in s.own[1]
  {
    var m := Losses(true, false);
    var es0, s0 := FirstEnters(m, n, Acquire({x}));
    var es1, s1 := SecondForces(m, n, es0, s0, Acquire({x}));
    es, s := BothWrite(m, Init(n), es1, s1, Acquire({x}), x);
  }

  /** Agent 0 holds the lock and is about to write GSSR. */
  lemma FirstEnters(m: Losses, n: nat, t: Task) returns (es: seq<Event>, s: State)
    requires n >= 2 && t.Acquire?
    ensures PermittedRun(m, Init(n), es, s) && |s.pc| == |s.own| == n && s.pc[0] == WriteGssr(t, {}) && s.pc[1].Idle?
    ensures s.smbi && s.swesmbi && !s.fwesmbi && s.gssr == {}
  {
    var s0 := Init(n);
    assert PermittedRun(m, s0, [], s0);
    Extend(m, s0, [], s0, Start(0, t));
    var s1 := At(s0, 0, Poll(t));
    Approaches(s1, 0, t);
    ExtendGoes(m, s0, [] + [Start(0, t)], s1, 0, 5);
    es, s := [] + [Start(0, t)] + Goes(0, 5), Accesses(s1, 0, 5);
  }

  /** Agent 1 starts, its wait for SMBI times out, and it clears the lock. */
  lemma SecondForces(m: Losses, n: nat, es0: seq<Event>, s0: State, t: Task) returns (es: seq<Event>, s: State)
    requires n >= 2 && m.timeouts && PermittedRun(m, Init(n), es0, s0) && |s0.pc| == |s0.own| == n && s0.pc[0] == WriteGssr(t, {}) && s0.pc[1].Idle?
    requires t.Acquire? && s0.smbi && !s0.fwesmbi && s0.gssr == {}
    ensures PermittedRun(m, Init(n), es, s) && |s.pc| == |s.own| == n && s.pc[0] == WriteGssr(t, {}) && s.pc[1] == RequestRead(t)
    ensures s.smbi && !s.fwesmbi && s.gssr == {}
  {
    Extend(m, Init(n), es0, s0, Start(1, t));
    var s1 := At(s0, 1, Poll(t));
    Extend(m, Init(n), es0 + [Start(1, t)], s1, Go(1, true));
    var es2, s2 := es0 + [Start(1, t)] + [Go(1, true)], At(s1, 1, ForceRead(t));
    assert s2 == Access(s1, 1, true);
    ForcesIn(s2, t);
    ExtendGoes(m, Init(n), es2, s2, 1, 3);
    es, s := es2 + Goes(1, 3), Accesses(s2, 1, 3);
  }

  lemma ForcesIn(s: State, t: Task)
    requires |s.pc| == |s.own| >= 2 && s.pc[1] == ForceRead(t)
    ensures Accesses(s, 1, 3) == s.(smbi := true, swesmbi := false, pc := s.pc[1 := RequestRead(t)])
  {
    var s1 := s.(smbi := true, pc := s.pc[1 := ForceWrite(t)]);
    var s2 := s.(smbi := false, swesmbi := false, pc := s.pc[1 := LastTry(t)]);
    assert Accesses(s, 1, 0) == s;
    assert Access(s, 1, false) == s1 == Accesses(s, 1, 1);
    assert Access(s1, 1, false) == s2 == Accesses(s, 1, 2);
    assert Access(s2, 1, false) == Accesses(s, 1, 3);
  }

  lemma BothWrite(m: Losses, s0: State, es0: seq<Event>, s: State, t: Task, x: nat) returns (es: seq<Event>, r: State)
    requires PermittedRun(m, s0, es0, s) && |s.pc| == |s.own| >= 2 && t == Acquire({x}) && s.gssr == {} && !s.fwesmbi && s.smbi
    requires s.pc[0] == WriteGssr(t, {}) && s.pc[1] == RequestRead(t)
    ensures PermittedRun(m, s0, es, r) && |r.own| == |s.own| && x in r.own[0] && x in r.own[1]
  {
    var s1 := s.(swesmbi := true, pc := s.pc[1 := WriteGssr(t, {})]);
    EntersFromRequest(s, 1, t);
    ExtendGoes(m, s0, es0, s, 1, 4);
    Completes(s1, 0, t, {});
    ExtendGoes(m, s0, es0 + Goes(1, 4), s1, 0, 3);
    var s2 := Accesses(s1, 0, 3);
    Completes(s2, 1, t, {});
    ExtendGoes(m, s0, es0 + Goes(1, 4) + Goes(0, 3), s2, 1, 3);
    es, r := es0 + Goes(1, 4) + Goes(0, 3) + Goes(1, 3), Accesses(s2, 1, 3);
  }

  lemma EntersFromRequest(s: State, a: nat, t: Task)
    requires a < |s.pc| == |s.own| && s.smbi && !s.fwesmbi && s.pc[a] == RequestRead(t)
    requires t.Release? || s.gssr * (t.mask + FwMask(t.mask)) == {}
    ensures Accesses(s, a, 4) == s.(swesmbi := true, pc := s.pc[a := WriteGssr(t, s.gssr)])
  {
    var s1 := s.(pc := s.pc[a := RequestWrite(t, true)]);
    var s2 := s.(swesmbi := true, pc := s.pc[a := RequestCheck(t)]);
    var s3 := s.(swesmbi := true, pc := s.pc[a := ReadGssr(t)]);
    assert Accesses(s, a, 0) == s;
    assert Access(s, a, false) == s1 == Accesses(s, a, 1);
    assert Access(s1, a, false) == s2 == Accesses(s, a, 2);
    assert Access(s2, a, false) == s3 == Accesses(s, a, 3);
    assert Access(s3, a, false) == Accesses(s, a, 4);
  }

  /** Nobody is using the lock. */
  predicate Free(s: State) { |s.pc| == |s.own| && !s.smbi && !s.swesmbi && !s.fwesmbi }

  /** An undisturbed `ixgbe_acquire_swfw_sync`. */
  lemma Acquires(m: Losses, s0: State, es: seq<Event>, s: State, a: nat, mask: set<nat>) returns (es': seq<Event>, r: State)
    requires PermittedRun(m, s0, es, s) && Free(s) && a < |s.pc| && s.pc[a].Idle? && s.gssr * (mask + FwMask(mask)) == {}
    ensures PermittedRun(m, s0, es', r) && r == s.(gssr := s.gssr + mask, own := s.own[a := s.own[a] + mask])
  {
    var t := Acquire(mask);
    var s1 := At(s, a, Poll(t));
    AcquireStates(s, a, t, s1);
    Extend(m, s0, es, s, Start(a, t));
    ExtendGoes(m, s0, es + [Start(a, t)], s1, a, 5);
    ExtendGoes(m, s0, es + [Start(a, t)] + Goes(a, 5), Accesses(s1, a, 5), a, 3);
    es', r := es + [Start(a, t)] + Goes(a, 5) + Goes(a, 3), Accesses(Accesses(s1, a, 5), a, 3);
  }

  lemma AcquireStates(s: State, a: nat, t: Task, s1: State)
    requires Free(s) && a < |s.pc| && s.pc[a].Idle? && t.Acquire? && s.gssr * (t.mask + FwMask(t.mask)) == {}
    requires s1 == At(s, a, Poll(t))
    ensures Accesses(Accesses(s1, a, 5), a, 3) == s.(gssr := s.gssr + t.mask, own := s.own[a := s.own[a] + t.mask])
  {
    Approaches(s1, a, t);
    var s2 := Accesses(s1, a, 5);
    Completes(s2, a, t, s.gssr);
    assert s1.pc[a := WriteGssr(t, s.gssr)][a := Idle] == s.pc;
  }

  /** A release whose SWESMBI loop times out stands before its write to GSSR, without the lock. */
  lemma ReleasesUnlocked(m: Losses, s0: State, es: seq<Event>, s: State, a: nat, mask: set<nat>) returns (es': seq<Event>, r: State)
    requires m.unlocked && PermittedRun(m, s0, es, s) && Free(s) && a < |s.pc| && s.pc[a].Idle? && mask <= s.own[a]
    ensures PermittedRun(m, s0, es', r) && r == s.(pc := s.pc[a := WriteGssr(Release(mask), s.gssr)])
  {
    var t := Release(mask);
    var s1 := s.(fwesmbi := true);
    var s2 := At(s1, a, Poll(t));
    var s3 := s2.(smbi := true, swesmbi := false, pc := s.pc[a := RequestCheck(t)]);
    var s4 := s3.(pc := s.pc[a := DropRead(t, Unlocked)]);
    Extend(m, s0, es, s, FwTake);
    Extend(m, s0, es + [FwTake], s1, Start(a, t));
    NotGranted(s2, a, t);
    assert Accesses(s2, a, 3) == s3;
    ExtendGoes(m, s0, es + [FwTake] + [Start(a, t)], s2, a, 3);
    es', r := GivesUp(m, s0, es + [FwTake] + [Start(a, t)] + Goes(a, 3), s3, a, t, s4);
  }

  lemma GivesUp(m: Losses, s0: State, es: seq<Event>, s: State, a: nat, t: Task, w: State) returns (es': seq<Event>, r: State)
    requires m.unlocked && PermittedRun(m, s0, es, s) && a < |s.pc| == |s.own| && t.Release? && s.pc[a] == RequestCheck(t)
    requires s.fwesmbi && !s.swesmbi && s.smbi && w == s.(pc := s.pc[a := DropRead(t, Unlocked)])
    ensures PermittedRun(m, s0, es', r)
    ensures r == s.(smbi := false, swesmbi := false, fwesmbi := false, pc := s.pc[a := WriteGssr(t, s.gssr)])
  {
    Extend(m, s0, es, s, Go(a, true));
    assert w == Access(s, a, true);
    GoesOn(w, a, t);
    ExtendGoes(m, s0, es + [Go(a, true)], w, a, 3);
    Extend(m, s0, es + [Go(a, true)] + Goes(a, 3), Accesses(w, a, 3), FwDrop);
    es', r := es + [Go(a, true)] + Goes(a, 3) + [FwDrop], Accesses(w, a, 3).(fwesmbi := false);
  }

  lemma NotGranted(s: State, a: nat, t: Task)
    requires a < |s.pc| == |s.own| && !s.smbi && s.fwesmbi && s.pc[a] == Poll(t)
    ensures Accesses(s, a, 3) == s.(smbi := true, swesmbi := false, pc := s.pc[a := RequestCheck(t)])
  {
    var s1 := s.(smbi := true, pc := s.pc[a := RequestRead(t)]);
    var s2 := s.(smbi := true, pc := s.pc[a := RequestWrite(t, true)]);
    assert Accesses(s, a, 0) == s;
    assert Access(s, a, false) == s1 == Accesses(s, a, 1);
    assert Access(s1, a, false) == s2 == Accesses(s, a, 2);
    assert Access(s2, a, false) == Accesses(s, a, 3);
  }

  lemma GoesOn(s: State, a: nat, t: Task)
    requires a < |s.pc| == |s.own| && t.Release? && s.pc[a] == DropRead(t, Unlocked)
    ensures Accesses(s, a, 3) == s.(smbi := false, swesmbi := false, pc := s.pc[a := WriteGssr(t, s.gssr)])
  {
    var s1 := s.(smbi := true, pc := s.pc[a := DropWrite(t, Unlocked)]);
    var s2 := s.(smbi := false, swesmbi := false, pc := s.pc[a := ReadGssr(t)]);
    assert Accesses(s, a, 0) == s;
    assert Access(s, a, false) == s1 == Accesses(s, a, 1);
    assert Access(s1, a, false) == s2 == Accesses(s, a, 2);
    assert Access(s2, a, false) == Accesses(s, a, 3);
  }

  /** The unlocked release alone: agent 0 writes GSSR back without the bit that agent 1 set
      meanwhile, and then acquires the semaphore that agent 1 holds.  SMBI never times out. */
  lemma UnlockedReleaseBreaksExclusion(n: nat, x: nat, y: nat) returns (es: seq<Event>, s: State)
    requires n >= 2 && x != y && y != x + FW_SHIFT
    ensures PermittedRun(Losses(false, true), Init(n), es, s) && |s.own| == n && x in s.own[0] && x in s.own[1]
  {
    var m, s0 := Losses(false, true), Init(n);
    assert PermittedRun(m, s0, [], s0);
    var es1, s1 := Acquires(m, s0, [], s0, 0, {y});
    var es2, s2 := ReleasesUnlocked(m, s0, es1, s1, 0, {y});
    var es3, s3 := Acquires(m, s0, es2, s2, 1, {x});
    Completes(s3, 0, Release({y}), s1.gssr);
    ExtendGoes(m, s0, es3, s3, 0, 3);
    var s4 := Accesses(s3, 0, 3);
    assert s4.gssr == {};
    es, s := Acquires(m, s0, es3 + Goes(0, 3), s4, 0, {x});
  }

  // ----- and nothing else loses it -----

  lemma {:induction false} Weaken(m: Losses, w: Losses, s0: State, es: seq<Event>, s: State)
    requires PermittedRun(m, s0, es, s) && (m.timeouts ==> w.timeouts) && (m.unlocked ==> w.unlocked)
    ensures PermittedRun(w, s0, es, s)
    decreases |es|
  {
    if es != [] {
      var e := es[|es| - 1];
      var r :| PermittedRun(m, s0, es[..|es| - 1], r) && Sized(r) && Permitted(m, r, e) && Enabled(r, e) && s == Step(r, e);
      Weaken(m, w, s0, es[..|es| - 1], r);
    }
  }

  /** No two agents hold the same semaphore. */
  ghost predicate Exclusive(s: State) { forall a, b :: 0 <= a < b < |s.own| ==> s.own[a] !! s.own[b] }

  lemma Shared(s: State, x: nat)
    requires |s.own| >= 2 && x in s.own[0] && x in s.own[1]
    ensures !Exclusive(s)
  {
    assert x in s.own[0] * s.own[1];
  }

  /** Of all runs in which the lock may be lost in the ways of `m`, every one keeps exclusion if and
      only if these are none. */
  lemma ExclusionIff(n: nat, m: Losses)
    requires n >= 2
    ensures (forall es, s :: PermittedRun(m, Init(n), es, s) ==> Exclusive(s)) <==> m == CLEAN
  {
    if m == CLEAN {
      forall es, s | PermittedRun(m, Init(n), es, s) ensures Exclusive(s) {
        MutualExclusion(n, es, s);
      }
    } else {
      var es, s := Breaks(n, m);
      assert PermittedRun(m, Init(n), es, s) && !Exclusive(s);
    }
  }

  lemma Breaks(n: nat, m: Losses) returns (es: seq<Event>, s: State)
    requires n >= 2 && m != CLEAN
    ensures PermittedRun(m, Init(n), es, s) && !Exclusive(s)
  {
    if m.timeouts {
      es, s := TimeoutBreaksExclusion(n, 0);
      Weaken(Losses(true, false), m, Init(n), es, s);
    } else {
      assert m == Losses(false, true);
      es, s := UnlockedReleaseBreaksExclusion(n, 0, 1);
    }
    Shared(s, 0);
  }

  // ----- an acquire keeps trying -----

  /** An undisturbed look at a semaphore that is taken: the lock is let go, and the agent polls
      again. */
  lemma LooksAgain(s: State, a: nat, mask: set<nat>)
    requires Free(s) && a < |s.pc| && s.pc[a] == Poll(Acquire(mask)) && s.gssr * (mask + FwMask(mask)) != {}
    ensures Accesses(s, a, 7) == s
  {
    var t := Acquire(mask);
    var s4 := s.(smbi := true, swesmbi := true, pc := s.pc[a := ReadGssr(t)]);
    var s5 := s.(smbi := true, swesmbi := true, pc := s.pc[a := DropRead(t, Retry)]);
    var s6 := s.(smbi := true, swesmbi := true, pc := s.pc[a := DropWrite(t, Retry)]);
    Granted(s, a, t);
    assert Access(s4, a, false) == s5 == Accesses(s, a, 5);
    assert Access(s5, a, false) == s6 == Accesses(s, a, 6);
    assert s.pc[a := Poll(t)] == s.pc;
    assert Access(s6, a, false) == s == Accesses(s, a, 7);
  }

  lemma Granted(s: State, a: nat, t: Task)
    requires Free(s) && a < |s.pc| && s.pc[a] == Poll(t)
    ensures Accesses(s, a, 4) == s.(smbi := true, swesmbi := true, pc := s.pc[a := ReadGssr(t)])
  {
    var s1 := s.(smbi := true, pc := s.pc[a := RequestRead(t)]);
    var s2 := s.(smbi := true, pc := s.pc[a := RequestWrite(t, true)]);
    var s3 := s.(smbi := true, swesmbi := true, pc := s.pc[a := RequestCheck(t)]);
    assert Accesses(s, a, 0) == s;
    assert Access(s, a, false) == s1 == Accesses(s, a, 1);
    assert Access(s1, a, false) == s2 == Accesses(s, a, 2);
    assert Access(s2, a, false) == s3 == Accesses(s, a, 3);
    assert Access(s3, a, false) == Accesses(s, a, 4);
  }

  /** `k` rounds, each of `n` accesses. */
  function Rounds(a: nat, n: nat, k: nat): seq<Event> { if k == 0 then [] else Rounds(a, n, k - 1) + Goes(a, n) }

  /** A round that ends where it began can be made any number of times. */
  lemma {:induction false} GoesRound(s0: State, es: seq<Event>, s: State, a: nat, n: nat, k: nat)
    requires PermittedRun(CLEAN, s0, es, s) && a < |s.pc| == |s.own| && Accesses(s, a, n) == s
    ensures PermittedRun(CLEAN, s0, es + Rounds(a, n, k), s)
    decreases k
  {
    if k == 0 {
      assert es + [] == es;
    } else {
      GoesRound(s0, es, s, a, n, k - 1);
      ExtendGoes(CLEAN, s0, es + Rounds(a, n, k - 1), s, a, n);
      assert es + Rounds(a, n, k - 1) + Goes(a, n) == es + Rounds(a, n, k);
    }
  }

  lemma KeepsLooking(s0: State, es: seq<Event>, s: State, a: nat, mask: set<nat>, k: nat)
    requires PermittedRun(CLEAN, s0, es, s) && Free(s) && a < |s.pc| && s.pc[a] == Poll(Acquire(mask))
    requires s.gssr * (mask + FwMask(mask)) != {}
    ensures PermittedRun(CLEAN, s0, es + Rounds(a, 7, k), s)
  {
    LooksAgain(s, a, mask);
    GoesRound(s0, es, s, a, 7, k);
  }

  /** An undisturbed task of agent `a`, from `Poll` on: eight accesses, after which it is done. */
  lemma Undergoes(s: State, a: nat, t: Task)
    requires Free(s) && a < |s.pc| && s.pc[a] == Poll(t) && (t.Acquire? ==> s.gssr * (t.mask + FwMask(t.mask)) == {})
    ensures Accesses(Accesses(s, a, 5), a, 3) ==
            s.(pc := s.pc[a := Idle], gssr := if t.Acquire? then s.gssr + t.mask else s.gssr - t.mask,
               own := s.own[a := if t.Acquire? then s.own[a] + t.mask else s.own[a] - t.mask])
  {
    Approaches(s, a, t);
    Completes(Accesses(s, a, 5), a, t, s.gssr);
  }

  lemma Performs(s0: State, es: seq<Event>, s: State, a: nat, t: Task) returns (r: State)
    requires PermittedRun(CLEAN, s0, es, s)
    requires Free(s) && a < |s.pc| && s.pc[a] == Poll(t) && (t.Acquire? ==> s.gssr * (t.mask + FwMask(t.mask)) == {})
    ensures PermittedRun(CLEAN, s0, es + Goes(a, 5) + Goes(a, 3), r)
    ensures r == s.(pc := s.pc[a := Idle], gssr := if t.Acquire? then s.gssr + t.mask else s.gssr - t.mask,
                    own := s.own[a := if t.Acquire? then s.own[a] + t.mask else s.own[a] - t.mask])
  {
    Undergoes(s, a, t);
    ExtendGoes(CLEAN, s0, es, s, a, 5);
    ExtendGoes(CLEAN, s0, es + Goes(a, 5), Accesses(s, a, 5), a, 3);
    r := Accesses(Accesses(s, a, 5), a, 3);
  }

  /** Agent 1 finds the semaphore taken, however often it looks, and has it soon after agent 0
      releases it: in all of this it starts once and gives up nowhere. */
  lemma WaiterAcquires(n: nat, x: nat, k: nat) returns (es: seq<Event>, s: State)
    requires n >= 2
    ensures PermittedRun(CLEAN, Init(n), es, s) && |s.own| == n && x in s.own[1] && x !in s.own[0]
    ensures es == [Start(0, Acquire({x}))] + Goes(0, 5) + Goes(0, 3) + [Start(1, Acquire({x}))] + Rounds(1, 7, k)
                  + [Start(0, Release({x}))] + Goes(0, 5) + Goes(0, 3) + Goes(1, 5) + Goes(1, 3)
  {
    var es0, s0 := FirstHolds(n, x);
    var es1, s1 := Waits(Init(n), es0, s0, x, k);
    es, s := SecondHolds(Init(n), es1, s1, x);
  }

  lemma FirstHolds(n: nat, x: nat) returns (es: seq<Event>, s: State)
    requires n >= 2
    ensures PermittedRun(CLEAN, Init(n), es, s) && es == [Start(0, Acquire({x}))] + Goes(0, 5) + Goes(0, 3)
    ensures Free(s) && |s.pc| == n && s.pc[0].Idle? && s.pc[1].Idle? && s.gssr == {x} && s.own[0] == {x} && s.own[1] == {}
  {
    var s0, t := Init(n), Acquire({x});
    assert PermittedRun(CLEAN, s0, [], s0) && [] + [Start(0, t)] == [Start(0, t)];
    Extend(CLEAN, s0, [], s0, Start(0, t));
    s := Performs(s0, [Start(0, t)], At(s0, 0, Poll(t)), 0, t);
    es := [Start(0, t)] + Goes(0, 5) + Goes(0, 3);
  }

  lemma SecondHolds(s0: State, es: seq<Event>, s: State, x: nat) returns (es': seq<Event>, r: State)
    requires PermittedRun(CLEAN, s0, es, s) && Free(s) && |s.pc| >= 2 && s.gssr == {x} && s.own[0] == {x}
    requires s.pc[0] == Poll(Release({x})) && s.pc[1] == Poll(Acquire({x}))
    ensures es' == es + Goes(0, 5) + Goes(0, 3) + Goes(1, 5) + Goes(1, 3) && PermittedRun(CLEAN, s0, es', r)
    ensures |r.own| == |s.own| && x in r.own[1] && x !in r.own[0]
  {
    var s1 := Performs(s0, es, s, 0, Release({x}));
    assert s1.gssr == {};
    r := Performs(s0, es + Goes(0, 5) + Goes(0, 3), s1, 1, Acquire({x}));
    es' := es + Goes(0, 5) + Goes(0, 3) + Goes(1, 5) + Goes(1, 3);
  }

  lemma Waits(s0: State, es: seq<Event>, s: State, x: nat, k: nat) returns (es': seq<Event>, r: State)
    requires PermittedRun(CLEAN, s0, es, s) && Free(s) && |s.pc| >= 2 && s.pc[0].Idle? && s.pc[1].Idle?
    requires s.gssr == {x} && s.own[0] == {x}
    ensures es' == es + [Start(1, Acquire({x}))] + Rounds(1, 7, k) + [Start(0, Release({x}))] && PermittedRun(CLEAN, s0, es', r)
    ensures r == s.(pc := s.pc[1 := Poll(Acquire({x}))][0 := Poll(Release({x}))])
  {
    Extend(CLEAN, s0, es, s, Start(1, Acquire({x})));
    var s1, es1 := At(s, 1, Poll(Acquire({x}))), es + [Start(1, Acquire({x}))];
    assert x in s1.gssr * ({x} + FwMask({x}));
    KeepsLooking(s0, es1, s1, 1, {x}, k);
    Extend(CLEAN, s0, es1 + Rounds(1, 7, k), s1, Start(0, Release({x})));
    es', r := es1 + Rounds(1, 7, k) + [Start(0, Release({x}))], At(s1, 0, Poll(Release({x})));
  }

  /** Where the request is refused: firmware has the lock, and the agent will ask again. */
  ghost predicate Refused(s: State, a: nat, t: Task) {
    a < |s.pc| == |s.own| && s.smbi && !s.swesmbi && s.fwesmbi && s.pc[a] == RequestRead(t)
  }

  lemma AsksAgain(s: State, a: nat, t: Task)
    requires Refused(s, a, t)
    ensures Accesses(s, a, 3) == s
  {
    var s1 := s.(pc := s.pc[a := RequestWrite(t, true)]);
    var s2 := s.(pc := s.pc[a := RequestCheck(t)]);
    assert Accesses(s, a, 0) == s;
    assert Access(s, a, false) == s1 == Accesses(s, a, 1);
    assert Access(s1, a, false) == s2 == Accesses(s, a, 2);
    assert s.pc[a := RequestRead(t)] == s.pc;
    assert Access(s2, a, false) == s == Accesses(s, a, 3);
  }

  lemma KeepsAsking(s0: State, es: seq<Event>, s: State, a: nat, t: Task, k: nat)
    requires PermittedRun(CLEAN, s0, es, s) && Refused(s, a, t)
    ensures PermittedRun(CLEAN, s0, es + Rounds(a, 3, k), s)
  {
    AsksAgain(s, a, t);
    GoesRound(s0, es, s, a, 3, k);
  }

  /** Once firmware has let go, the next request is granted. */
  lemma AsksAndEnters(s: State, a: nat, t: Task)
    requires a < |s.pc| == |s.own| && s.smbi && !s.swesmbi && !s.fwesmbi && s.pc[a] == RequestRead(t)
    requires t.Release? || s.gssr * (t.mask + FwMask(t.mask)) == {}
    ensures Accesses(s, a, 4) == s.(swesmbi := true, pc := s.pc[a := WriteGssr(t, s.gssr)])
  {
    var s1 := s.(pc := s.pc[a := RequestWrite(t, true)]);
    var s2 := s.(swesmbi := true, pc := s.pc[a := RequestCheck(t)]);
    var s3 := s.(swesmbi := true, pc := s.pc[a := ReadGssr(t)]);
    assert Accesses(s, a, 0) == s;
    assert Access(s, a, false) == s1 == Accesses(s, a, 1);
    assert Access(s1, a, false) == s2 == Accesses(s, a, 2);
    assert Access(s2, a, false) == s3 == Accesses(s, a, 3);
    assert Access(s3, a, false) == Accesses(s, a, 4);
  }

  /** An agent that meets firmware asks until it lets go, however often, and then has its bit: it
      starts once and gives up nowhere. */
  lemma AskerAcquires(n: nat, x: nat, k: nat) returns (es: seq<Event>, s: State)
    requires n >= 1
    ensures PermittedRun(CLEAN, Init(n), es, s) && |s.own| == n && s.own[0] == {x} && s.pc[0].Idle?
    ensures es == [FwTake] + [Start(0, Acquire({x}))] + Goes(0, 1) + Rounds(0, 3, k) + [FwDrop] + Goes(0, 4) + Goes(0, 3)
  {
    var es0, s0 := AsksFirmware(n, Acquire({x}));
    KeepsAsking(Init(n), es0, s0, 0, Acquire({x}), k);
    var es1, s1 := es0 + Rounds(0, 3, k) + [FwDrop], s0.(fwesmbi := false);
    Extend(CLEAN, Init(n), es0 + Rounds(0, 3, k), s0, FwDrop);
    AsksAndEnters(s1, 0, Acquire({x}));
    ExtendGoes(CLEAN, Init(n), es1, s1, 0, 4);
    Completes(Accesses(s1, 0, 4), 0, Acquire({x}), {});
    ExtendGoes(CLEAN, Init(n), es1 + Goes(0, 4), Accesses(s1, 0, 4), 0, 3);
    es, s := es1 + Goes(0, 4) + Goes(0, 3), Accesses(Accesses(s1, 0, 4), 0, 3);
    assert {} + {x} == {x};
  }

  lemma AsksFirmware(n: nat, t: Task) returns (es: seq<Event>, s: State)
    requires n >= 1 && t.Acquire?
    ensures PermittedRun(CLEAN, Init(n), es, s) && es == [FwTake] + [Start(0, t)] + Goes(0, 1)
    ensures Refused(s, 0, t) && |s.own| == n && s.own[0] == {} && s.gssr == {}
  {
    var s2 := FirmwareThenStart(n, t);
    ExtendGoes(CLEAN, Init(n), [FwTake] + [Start(0, t)], s2, 0, 1);
    es, s := [FwTake] + [Start(0, t)] + Goes(0, 1), Accesses(s2, 0, 1);
    Enters(s2, 0, t);
  }

  lemma FirmwareThenStart(n: nat, t: Task) returns (s: State)
    requires n >= 1 && t.Acquire?
    ensures PermittedRun(CLEAN, Init(n), [FwTake] + [Start(0, t)], s)
    ensures s == At(Init(n).(fwesmbi := true), 0, Poll(t))
  {
    var s0 := Init(n);
    assert PermittedRun(CLEAN, s0, [], s0) && [] + [FwTake] == [FwTake];
    Extend(CLEAN, s0, [], s0, FwTake);
    var s1 := s0.(fwesmbi := true);
    Extend(CLEAN, s0, [FwTake], s1, Start(0, t));
    s := At(s1, 0, Poll(t));
  }

  lemma Enters(s: State, a: nat, t: Task)
    requires a < |s.pc| == |s.own| && !s.smbi && s.pc[a] == Poll(t)
    ensures Accesses(s, a, 1) == s.(smbi := true, pc := s.pc[a := RequestRead(t)])
  {
    assert Accesses(s, a, 0) == s;
    assert Access(s, a, false) == s.(smbi := true, pc := s.pc[a := RequestRead(t)]);
  }

  /** Only a release goes on without the lock. */
  ghost predicate UnlockedReleases(s: State) {
    forall a :: 0 <= a < |s.pc| && (s.pc[a].DropRead? || s.pc[a].DropWrite?) && s.pc[a].next.Unlocked? ==> s.pc[a].task.Release?
  }

  lemma {:induction false} RunUnlocked(m: Losses, n: nat, es: seq<Event>, s: State)
    requires PermittedRun(m, Init(n), es, s)
    ensures UnlockedReleases(s)
    decreases |es|
  {
    if es != [] {
      var e := es[|es| - 1];
      var r :| PermittedRun(m, Init(n), es[..|es| - 1], r) && Sized(r) && Permitted(m, r, e) && Enabled(r, e) && s == Step(r, e);
      RunUnlocked(m, n, es[..|es| - 1], r);
      if e.Go? { AccessUnlocked(r, e.a, e.giveUp, s); }
    }
  }

  lemma AccessUnlocked(s: State, a: nat, giveUp: bool, r: State)
    requires UnlockedReleases(s) && a < |s.pc| == |s.own| && r == Access(s, a, giveUp)
    ensures UnlockedReleases(r)
  {
    OneMoves(s, a, giveUp);
    forall b | 0 <= b < |r.pc| && (r.pc[b].DropRead? || r.pc[b].DropWrite?) && r.pc[b].next.Unlocked?
      ensures r.pc[b].task.Release?
    {
      if b == a { NextUnlocked(s, a, giveUp); } else { assert s.pc[b] == r.pc[b]; }
    }
  }

  lemma OneMoves(s: State, a: nat, giveUp: bool)
    requires a < |s.pc| == |s.own|
    ensures Access(s, a, giveUp).pc == s.pc[a := Access(s, a, giveUp).pc[a]]
  {}

  lemma NextUnlocked(s: State, a: nat, giveUp: bool)
    requires a < |s.pc| == |s.own|
    requires (s.pc[a].DropRead? || s.pc[a].DropWrite?) && s.pc[a].next.Unlocked? ==> s.pc[a].task.Release?
    ensures var pc := Access(s, a, giveUp).pc[a]; (pc.DropRead? || pc.DropWrite?) && pc.next.Unlocked? ==> pc.task.Release?
  {}

  /** In every run, with losses of any kind: an acquire looks at GSSR only after it has seen its
      request granted, and what it holds changes only when it writes GSSR. */
  lemma AcquireLooksInside(m: Losses, n: nat, es: seq<Event>, s: State, a: nat, giveUp: bool)
    requires PermittedRun(m, Init(n), es, s) && a < |s.pc| == |s.own| && !s.pc[a].Idle? && s.pc[a].task.Acquire?
    ensures var r := Access(s, a, giveUp);
            && (r.pc[a].ReadGssr? ==> s.pc[a].RequestCheck? && s.swesmbi)
            && (r.pc[a].WriteGssr? ==> s.pc[a].ReadGssr? && s.gssr * s.pc[a].task.mask == {})
            && (r.own != s.own || r.gssr != s.gssr ==> s.pc[a].WriteGssr?)
  {
    RunUnlocked(m, n, es, s);
    var mask := s.pc[a].task.mask;
    assert s.gssr * (mask + FwMask(mask)) == {} ==> s.gssr * mask == {} by {
      forall x | x in s.gssr * mask ensures x in s.gssr * (mask + FwMask(mask)) {}
    }
  }

  /** Agent `a` starts nothing new and gives up nowhere. */
  predicate Patient(e: Event, a: nat) { !(e.Start? && e.a == a) && !(e.Go? && e.a == a && e.giveUp) }

  /** Where an agent that acquires `mask` may stand while it gives up nowhere: it ends, or is about
      to end, only with its bits. */
  ghost predicate Acquiring(s: State, a: nat, mask: set<nat>) {
    && a < |s.pc| == |s.own|
    && var pc := s.pc[a];
       if pc.Idle? then mask <= s.own[a]
       else
         && pc.task == Acquire(mask) && !pc.ForceRead? && !pc.ForceWrite? && !pc.LastTry?
         && (pc.DropRead? || pc.DropWrite? ==> pc.next.Retry? || (pc.next.Finish? && mask <= s.own[a]))
  }

  lemma AcquiringStep(s: State, e: Event, a: nat, mask: set<nat>)
    requires Acquiring(s, a, mask) && Sized(s) && Enabled(s, e) && Patient(e, a)
    ensures Acquiring(Step(s, e), a, mask)
  {
    if e.Go? && e.a == a { AcquiringGo(s, a, mask); } else { OthersKeep(s, e, a); }
  }

  lemma AcquiringGo(s: State, a: nat, mask: set<nat>)
    requires Acquiring(s, a, mask)
    ensures Acquiring(Access(s, a, false), a, mask)
  {}

  /** What an agent is doing and what it holds changes by its own accesses only. */
  lemma OthersKeep(s: State, e: Event, a: nat)
    requires a < |s.pc| == |s.own| && Enabled(s, e) && !(e.Start? && e.a == a) && !(e.Go? && e.a == a)
    ensures var r := Step(s, e); |r.pc| == |r.own| == |s.pc| && r.pc[a] == s.pc[a] && r.own[a] == s.own[a]
  {}

  /** Whatever other agents and firmware do, with or without losses of the lock: an acquire that
      gives up nowhere ends only with its bits. */
  lemma {:induction false} AcquireEnds(m: Losses, s0: State, es: seq<Event>, s: State, a: nat, mask: set<nat>)
    requires a < |s0.pc| == |s0.own| && s0.pc[a] == Poll(Acquire(mask)) && PermittedRun(m, s0, es, s)
    requires forall k :: 0 <= k < |es| ==> Patient(es[k], a)
    ensures Acquiring(s, a, mask)
    ensures s.pc[a].Idle? ==> mask <= s.own[a]
    decreases |es|
  {
    if es != [] {
      var e := es[|es| - 1];
      var r :| PermittedRun(m, s0, es[..|es| - 1], r) && Sized(r) && Permitted(m, r, e) && Enabled(r, e) && s == Step(r, e);
      AcquireEnds(m, s0, es[..|es| - 1], r, a, mask);
      AcquiringStep(r, e, a, mask);
    }
  }

  /** Where an agent that releases `mask` may stand: it ends, or is about to, only without its bits. */
  ghost predicate Releasing(s: State, a: nat, mask: set<nat>) {
    && a < |s.pc| == |s.own|
    && var pc := s.pc[a];
       if pc.Idle? then s.own[a] !! mask
       else
         && pc.task == Release(mask)
         && (pc.DropRead? || pc.DropWrite? ==> pc.next.Unlocked? || (pc.next.Finish? && s.own[a] !! mask))
  }

  lemma ReleasingStep(s: State, e: Event, a: nat, mask: set<nat>)
    requires Releasing(s, a, mask) && Sized(s) && Enabled(s, e) && !(e.Start? && e.a == a)
    ensures Releasing(Step(s, e), a, mask)
  {
    if e.Go? && e.a == a { ReleasingGo(s, a, e.giveUp, mask); } else { OthersKeep(s, e, a); }
  }

  lemma ReleasingGo(s: State, a: nat, giveUp: bool, mask: set<nat>)
    requires Releasing(s, a, mask)
    ensures Releasing(Access(s, a, giveUp), a, mask)
  {}

  /** A release ends only without its bits, whether or not it gives up in its loops. */
  lemma {:induction false} ReleaseEnds(m: Losses, s0: State, es: seq<Event>, s: State, a: nat, mask: set<nat>)
    requires a < |s0.pc| == |s0.own| && s0.pc[a] == Poll(Release(mask)) && PermittedRun(m, s0, es, s)
    requires forall k :: 0 <= k < |es| ==> !(es[k].Start? && es[k].a == a)
    ensures Releasing(s, a, mask)
    ensures s.pc[a].Idle? ==> s.own[a] !! mask
    decreases |es|
  {
    if es != [] {
      var e := es[|es| - 1];
      var r :| PermittedRun(m, s0, es[..|es| - 1], r) && Sized(r) && Permitted(m, r, e) && Enabled(r, e) && s == Step(r, e);
      ReleaseEnds(m, s0, es[..|es| - 1], r, a, mask);
      ReleasingStep(r, e, a, mask);
    }
  }
}
