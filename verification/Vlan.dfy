/** The VLAN filter tables (ixgbe/ixgbe_common.c): VLVF and VLVFB say which pools use a VLAN,
    VFTA which VLANs are used at all.  Together they refine a set of (VLAN, pool) pairs. */
module Vlan {

  const VIEN: nat := 0x8000_0000
  const ENTRIES: nat := 64
  const VFT_SIZE: nat := 128
  const MAX_VLAN: nat := 4095

  datatype Result = Ok | ErrParam | ErrNoSpace

  /** The 128 VFTA registers, the 64 VLVF registers, and two VLVFB registers for each of those.
      A register that is used bit by bit is the set of its 1 bits. */
  datatype Tables = Tables(vfta: seq<set<nat>>, vlvf: seq<nat>, vlvfb: seq<set<nat>>)

  ghost predicate Sized(t: Tables) { |t.vlvf| == ENTRIES && |t.vlvfb| == 2 * ENTRIES && |t.vfta| == VFT_SIZE }

  /** Bits 5 to 11 of a VLAN choose the VFTA register, bits 0 to 4 the bit in it. */
  function Register(vlan: nat): (r: nat)
    ensures r < VFT_SIZE
  {
    vlan / 32 % 128
  }

  function Target(vlan: nat): nat { vlan % 32 }

  /** The 128 registers of 32 bits are one bit string, in which each VLAN has its own number. */
  lemma VlanIsBit(vlan: nat)
    requires vlan <= MAX_VLAN
    ensures 32 * Register(vlan) + Target(vlan) == vlan && Target(vlan) < 32 && Register(vlan) < 128
  {}

  /** And so are the pool bits of a slot, in two registers. */
  lemma PoolIsBit(k: nat, p: nat)
    requires k < ENTRIES && p < 64
    ensures 32 * Half(k, p) + Bit(p) == 64 * k + p && Bit(p) < 32 && Half(k, p) < 2 * ENTRIES
  {}

  lemma VlansApart(v: nat, w: nat)
    requires v <= MAX_VLAN && w <= MAX_VLAN && Register(v) == Register(w) && Target(v) == Target(w)
    ensures v == w
  {}

  predicate VftaBit(t: Tables, vlan: nat)
    requires |t.vfta| == VFT_SIZE
  {
    Target(vlan) in t.vfta[Register(vlan)]
  }

  /** The bit of pool `p`, and the VLVFB register of slot `k` that holds it. */
  function Bit(p: nat): nat { p % 32 }

  function Half(k: nat, p: nat): nat { if p < 32 then 2 * k else 2 * k + 1 }

  predicate PoolBit(t: Tables, k: nat, p: nat)
    requires k < ENTRIES && |t.vlvfb| == 2 * ENTRIES && p < 64
  {
    Bit(p) in t.vlvfb[Half(k, p)]
  }

  /** Some slot gives the VLAN to the pool. */
  ghost predicate Member(t: Tables, vlan: nat, p: nat)
    requires Sized(t) && p < 64
  {
    exists k :: 0 <= k < ENTRIES && t.vlvf[k] == VIEN + vlan && PoolBit(t, k, p)
  }

  ghost predicate Unused(t: Tables, k: nat)
    requires Sized(t) && k < ENTRIES
  {
    t.vlvfb[2 * k] == {} && t.vlvfb[2 * k + 1] == {}
  }

  /** Registers are 32 bits wide. */
  ghost predicate Wide(t: Tables) { forall j, b :: 0 <= j < |t.vlvfb| && b in t.vlvfb[j] ==> b < 32 }

  /** One slot for each VLAN in use, and empty slots without pools. */
  ghost predicate SlotsGood(t: Tables) {
    && Sized(t) && Wide(t)
    && (forall k :: 0 <= k < ENTRIES ==> (t.vlvf[k] == 0 <==> Unused(t, k)))
    && (forall k :: 0 <= k < ENTRIES && t.vlvf[k] != 0 ==> VIEN <= t.vlvf[k] <= VIEN + MAX_VLAN)
    && (forall k :: 0 <= k < ENTRIES && t.vlvf[k] != 0 ==> (k == 0 <==> t.vlvf[k] == VIEN))
    && forall k, l :: 0 <= k < l < ENTRIES && t.vlvf[k] != 0 ==> t.vlvf[k] != t.vlvf[l]
  }

  ghost predicate HasSlot(t: Tables, v: nat)
    requires Sized(t)
  {
    exists k :: 0 <= k < ENTRIES && t.vlvf[k] == VIEN + v
  }

  /** And VFTA to match. */
  ghost predicate Good(t: Tables) {
    SlotsGood(t) && forall v: nat :: v <= MAX_VLAN ==> (VftaBit(t, v) <==> HasSlot(t, v))
  }

  // ----- ixgbe_find_vlvf_slot -----

  /** The VLAN that a VLVF register names. */
  function Tag(bits: nat): nat { bits % 4096 }

  lemma TagOfEntry(v: nat)
    requires v <= MAX_VLAN
    ensures Tag(VIEN + v) == v && Tag(0) == 0 && (VIEN + v) / 0x8000_0000 == 1 && (VIEN + v) % 0x8000_0000 == v
  {}

  /** The first slot from `k` on that names the VLAN, and the first empty one. */
  function Match(vlvf: seq<nat>, vlan: nat, k: nat): (j: nat)
    requires k <= |vlvf|
    ensures k <= j <= |vlvf| && (j < |vlvf| ==> Tag(vlvf[j]) == vlan)
    ensures forall i :: k <= i < j ==> Tag(vlvf[i]) != vlan
    decreases |vlvf| - k
  {
    if k == |vlvf| || Tag(vlvf[k]) == vlan then k else Match(vlvf, vlan, k + 1)
  }

  function Empty(vlvf: seq<nat>, k: nat): (j: nat)
    requires k <= |vlvf|
    ensures k <= j <= |vlvf| && (j < |vlvf| ==> vlvf[j] == 0)
    ensures forall i :: k <= i < j ==> vlvf[i] != 0
    decreases |vlvf| - k
  {
    if k == |vlvf| || vlvf[k] == 0 then k else Empty(vlvf, k + 1)
  }

  /** The slot for a VLAN, or ENTRIES when there is no space. */
  function Slot(vlvf: seq<nat>, vlan: nat): (k: nat)
    requires |vlvf| == ENTRIES
    ensures k <= ENTRIES
  {
    if vlan == 0 then 0 else if Match(vlvf, vlan, 1) < ENTRIES then Match(vlvf, vlan, 1) else Empty(vlvf, 1)
  }

  /** A slot is this VLAN's own, or free when it has none. */
  ghost predicate RightSlot(t: Tables, vlan: nat, k: nat)
    requires Sized(t)
  {
    && k < ENTRIES && (k == 0 <==> vlan == 0) && vlan <= MAX_VLAN
    && (t.vlvf[k] == VIEN + vlan || (t.vlvf[k] == 0 && !HasSlot(t, vlan)))
  }

  lemma TagIsEntry(t: Tables, k: nat, vlan: nat)
    requires SlotsGood(t) && k < ENTRIES && 0 < vlan <= MAX_VLAN
    ensures Tag(t.vlvf[k]) == vlan <==> t.vlvf[k] == VIEN + vlan
  {
    if t.vlvf[k] != 0 { TagOfEntry(t.vlvf[k] - VIEN); }
  }

  lemma SlotIsRight(t: Tables, vlan: nat)
    requires SlotsGood(t) && vlan <= MAX_VLAN
    ensures Slot(t.vlvf, vlan) < ENTRIES ==> RightSlot(t, vlan, Slot(t.vlvf, vlan))
    ensures Slot(t.vlvf, vlan) == ENTRIES <==>
            vlan != 0 && (forall k :: 1 <= k < ENTRIES ==> t.vlvf[k] != 0 && t.vlvf[k] != VIEN + vlan)
  {
    if vlan != 0 {
      forall k | 0 <= k < ENTRIES ensures Tag(t.vlvf[k]) == vlan <==> t.vlvf[k] == VIEN + vlan {
        TagIsEntry(t, k, vlan);
      }
      assert t.vlvf[0] != VIEN + vlan;
    } else if t.vlvf[0] == 0 {
      assert !HasSlot(t, 0);
    }
  }

  // ----- ixgbe_set_vlvf_generic and ixgbe_set_vfta_generic -----

  function Changed(w: set<nat>, b: nat, on: bool): set<nat> { if on then w + {b} else w - {b} }

  /** `bits` of the code: what decides whether slot `k` stays in use. */
  function LeftBits(t: Tables, k: nat, p: nat, on: bool): set<nat>
    requires k < ENTRIES && |t.vlvfb| == 2 * ENTRIES && p < 64
  {
    var w := Changed(t.vlvfb[Half(k, p)], Bit(p), on);
    if on then w else w + t.vlvfb[if p < 32 then 2 * k + 1 else 2 * k]
  }

  /** VLVFB and VLVF after the pool bit was set or cleared in slot `k`. */
  function Written(t: Tables, k: nat, vlan: nat, p: nat, on: bool): (r: Tables)
    requires Sized(t) && k < ENTRIES && p < 64
    ensures Sized(r) && r.vfta == t.vfta
  {
    t.(vlvfb := t.vlvfb[Half(k, p) := Changed(t.vlvfb[Half(k, p)], Bit(p), on)],
       vlvf := t.vlvf[k := if LeftBits(t, k, p, on) != {} then VIEN + vlan else 0])
  }

  function VftaSet(t: Tables, vlan: nat, on: bool): (r: Tables)
    requires Sized(t)
    ensures Sized(r) && r.vlvf == t.vlvf && r.vlvfb == t.vlvfb
  {
    t.(vfta := t.vfta[Register(vlan) := Changed(t.vfta[Register(vlan)], Target(vlan), on)])
  }

  /** `ixgbe_set_vfta_generic`. */
  function SetVfta(t: Tables, vt: bool, vlan: nat, p: nat, on: bool): (Result, Tables)
    requires Sized(t) && p < 64
  {
    if vlan > MAX_VLAN then (ErrParam, t)
    else if !vt then (Ok, VftaSet(t, vlan, on))
    else
      var k := Slot(t.vlvf, vlan);
      if k == ENTRIES then (ErrNoSpace, t)
      else
        var r := Written(t, k, vlan, p, on);
        (Ok, if on || LeftBits(t, k, p, on) == {} then VftaSet(r, vlan, on) else r)
  }

  // ----- one slot changes -----

  lemma PoolBitsAfter(t: Tables, k: nat, vlan: nat, p: nat, on: bool, r: Tables, l: nat, q: nat)
    requires Sized(t) && k < ENTRIES && p < 64 && r == Written(t, k, vlan, p, on) && l < ENTRIES && q < 64
    ensures PoolBit(r, l, q) == if l == k && q == p then on else PoolBit(t, l, q)
  {}

  /** `bits` is empty exactly when no pool is left in the slot. */
  lemma LeftBitsMean(t: Tables, k: nat, vlan: nat, p: nat, on: bool, r: Tables)
    requires Sized(t) && k < ENTRIES && p < 64 && r == Written(t, k, vlan, p, on)
    ensures LeftBits(t, k, p, on) == {} <==> Unused(r, k)
    ensures on ==> LeftBits(t, k, p, on) != {}
    ensures forall l :: 0 <= l < ENTRIES && l != k ==> (Unused(r, l) <==> Unused(t, l))
  {
    if on { assert Bit(p) in LeftBits(t, k, p, on); }
  }

  /** The slot rules survive. */
  lemma SlotsAfter(t: Tables, k: nat, vlan: nat, p: nat, on: bool, r: Tables)
    requires SlotsGood(t) && RightSlot(t, vlan, k) && p < 64 && r == Written(t, k, vlan, p, on)
    ensures SlotsGood(r)
  {
    LeftBitsMean(t, k, vlan, p, on, r);
  }

  /** Only slot `k` can name the VLAN. */
  lemma OnlySlot(t: Tables, vlan: nat, k: nat, r: Tables)
    requires SlotsGood(t) && RightSlot(t, vlan, k) && Sized(r)
    requires forall l :: 0 <= l < ENTRIES && l != k ==> r.vlvf[l] == t.vlvf[l]
    ensures forall l :: 0 <= l < ENTRIES && l != k ==> r.vlvf[l] != VIEN + vlan && t.vlvf[l] != VIEN + vlan
  {
    forall l | 0 <= l < ENTRIES && l != k ensures t.vlvf[l] != VIEN + vlan {
      if t.vlvf[k] == VIEN + vlan {
        assert if k < l then t.vlvf[k] != t.vlvf[l] else t.vlvf[l] != 0 ==> t.vlvf[l] != t.vlvf[k];
      }
    }
  }

  /** Exactly the one pair is added or removed. */
  lemma MemberAfter(t: Tables, k: nat, vlan: nat, p: nat, on: bool, r: Tables, v: nat, q: nat)
    requires SlotsGood(t) && RightSlot(t, vlan, k) && p < 64 && v <= MAX_VLAN && q < 64
    requires r == Written(t, k, vlan, p, on)
    ensures Member(r, v, q) <==> if v == vlan && q == p then on else Member(t, v, q)
  {
    LeftBitsMean(t, k, vlan, p, on, r);
    OnlySlot(t, vlan, k, r);
    PoolBitsAfter(t, k, vlan, p, on, r, k, q);
    forall l | 0 <= l < ENTRIES && l != k ensures r.vlvf[l] == t.vlvf[l] && PoolBit(r, l, q) == PoolBit(t, l, q) {
      PoolBitsAfter(t, k, vlan, p, on, r, l, q);
    }
    if v == vlan {
      assert Member(t, v, q) <==> t.vlvf[k] == VIEN + vlan && PoolBit(t, k, q);
      assert Member(r, v, q) <==> r.vlvf[k] == VIEN + vlan && PoolBit(r, k, q);
    } else if Member(t, v, q) {
      var l :| 0 <= l < ENTRIES && t.vlvf[l] == VIEN + v && PoolBit(t, l, q);
      assert l != k && r.vlvf[l] == VIEN + v && PoolBit(r, l, q);
    }
  }

  lemma SlotAfter(t: Tables, k: nat, vlan: nat, p: nat, on: bool, r: Tables, v: nat)
    requires SlotsGood(t) && RightSlot(t, vlan, k) && p < 64 && v <= MAX_VLAN && r == Written(t, k, vlan, p, on)
    ensures HasSlot(r, v) <==> if v == vlan then LeftBits(t, k, p, on) != {} else HasSlot(t, v)
  {
    OnlySlot(t, vlan, k, r);
    if v == vlan {
      assert r.vlvf[k] == if LeftBits(t, k, p, on) != {} then VIEN + vlan else 0;
    } else if HasSlot(t, v) {
      var l :| 0 <= l < ENTRIES && t.vlvf[l] == VIEN + v;
      assert l != k && r.vlvf[l] == VIEN + v;
    }
  }

  lemma VftaAfter(t: Tables, vlan: nat, on: bool, v: nat)
    requires Sized(t) && vlan <= MAX_VLAN && v <= MAX_VLAN
    ensures VftaBit(VftaSet(t, vlan, on), v) == if v == vlan then on else VftaBit(t, v)
  {
    if Register(v) == Register(vlan) && Target(v) == Target(vlan) { VlansApart(v, vlan); }
  }

  /** The slot part and the filter part of a successful call. */
  lemma SuccessGood(t: Tables, k: nat, vlan: nat, p: nat, on: bool, w: Tables, r: Tables)
    requires Good(t) && RightSlot(t, vlan, k) && p < 64 && w == Written(t, k, vlan, p, on)
    requires r == if on || LeftBits(t, k, p, on) == {} then VftaSet(w, vlan, on) else w
    ensures Good(r)
  {
    SlotsAfter(t, k, vlan, p, on, w);
    LeftBitsMean(t, k, vlan, p, on, w);
    SameSlots(w, r);
    forall v: nat | v <= MAX_VLAN ensures VftaBit(r, v) <==> HasSlot(r, v) {
      SlotAfter(t, k, vlan, p, on, w, v);
      VftaAfter(w, vlan, on, v);
      assert VftaBit(t, v) <==> HasSlot(t, v);
      assert VftaBit(w, v) == VftaBit(t, v);
      if v == vlan && !on && LeftBits(t, k, p, on) != {} { StillUsed(t, k, vlan, p, w); }
    }
  }

  lemma SameSlots(w: Tables, r: Tables)
    requires Sized(w) && Sized(r) && w.vlvf == r.vlvf && w.vlvfb == r.vlvfb
    ensures SlotsGood(w) == SlotsGood(r) && forall v :: HasSlot(w, v) == HasSlot(r, v)
    ensures forall v, q :: 0 <= q < 64 ==> Member(w, v, q) == Member(r, v, q)
  {
    assert forall k :: 0 <= k < ENTRIES ==> Unused(w, k) == Unused(r, k);
    forall v, q: nat | q < 64 ensures Member(w, v, q) == Member(r, v, q) {
      assert forall k :: 0 <= k < ENTRIES ==> PoolBit(w, k, q) == PoolBit(r, k, q);
    }
  }

  /** Clearing a pool leaves bits only in a slot that was in use. */
  lemma StillUsed(t: Tables, k: nat, vlan: nat, p: nat, w: Tables)
    requires SlotsGood(t) && RightSlot(t, vlan, k) && p < 64 && w == Written(t, k, vlan, p, false)
    requires LeftBits(t, k, p, false) != {}
    ensures HasSlot(t, vlan)
  {
    assert !Unused(t, k);
  }

  /** With VT mode on, the tables stay consistent and change by exactly one (VLAN, pool) pair;
      a failure changes nothing, and space runs out exactly when all slots but the first are
      taken by other VLANs. */
  lemma SetVftaRefines(t: Tables, vlan: nat, p: nat, on: bool, res: Result, r: Tables)
    requires Good(t) && p < 64 && (res, r) == SetVfta(t, true, vlan, p, on)
    ensures res == ErrParam <==> vlan > MAX_VLAN
    ensures res == ErrNoSpace <==>
            0 < vlan <= MAX_VLAN && forall k :: 1 <= k < ENTRIES ==> t.vlvf[k] != 0 && t.vlvf[k] != VIEN + vlan
    ensures res != Ok ==> r == t
    ensures Good(r)
    ensures res == Ok ==> forall v: nat, q: nat :: v <= MAX_VLAN && q < 64 ==>
                            (Member(r, v, q) <==> if v == vlan && q == p then on else Member(t, v, q))
  {
    if vlan <= MAX_VLAN {
      SlotIsRight(t, vlan);
      var k := Slot(t.vlvf, vlan);
      if k < ENTRIES {
        var w := Written(t, k, vlan, p, on);
        SuccessGood(t, k, vlan, p, on, w, r);
        SameSlots(w, r);
        forall v: nat, q: nat | v <= MAX_VLAN && q < 64
          ensures Member(r, v, q) <==> if v == vlan && q == p then on else Member(t, v, q)
        {
          MemberAfter(t, k, vlan, p, on, w, v, q);
        }
      }
    }
  }

  /** Without VT mode the filter alone is a set of VLANs. */
  lemma FilterOnly(t: Tables, vlan: nat, p: nat, on: bool, v: nat)
    requires Sized(t) && p < 64 && vlan <= MAX_VLAN && v <= MAX_VLAN
    ensures var (res, r) := SetVfta(t, false, vlan, p, on);
            res == Ok && r.vlvf == t.vlvf && r.vlvfb == t.vlvfb && VftaBit(r, v) == if v == vlan then on else VftaBit(t, v)
  {
    VftaAfter(t, vlan, on, v);
  }

  /** A VLAN passes the filter exactly while some pool uses it. */
  lemma FilterMeansUsed(t: Tables, v: nat)
    requires Good(t) && v <= MAX_VLAN
    ensures VftaBit(t, v) <==> exists q: nat :: q < 64 && Member(t, v, q)
  {
    if VftaBit(t, v) {
      var k :| 0 <= k < ENTRIES && t.vlvf[k] == VIEN + v;
      assert !Unused(t, k);
      var j :| 2 * k <= j <= 2 * k + 1 && t.vlvfb[j] != {};
      var b :| b in t.vlvfb[j];
      var q := if j == 2 * k then b else b + 32;
      assert PoolBit(t, k, q) && Member(t, v, q);
    }
  }

  // ----- every sequence of calls -----

  datatype Call = Call(vlan: nat, pool: nat, on: bool)

  /** The tables after `calls`, and the set of pairs that the successful calls describe. */
  ghost function After(t: Tables, calls: seq<Call>): (r: Tables)
    requires Good(t) && forall i :: 0 <= i < |calls| ==> calls[i].pool < 64
    ensures Good(r)
  {
    if calls == [] then t
    else
      var r, c := After(t, calls[..|calls| - 1]), calls[|calls| - 1];
      var (res, s) := SetVfta(r, true, c.vlan, c.pool, c.on);
      SetVftaRefines(r, c.vlan, c.pool, c.on, res, s);
      s
  }

  ghost function Pairs(t: Tables, calls: seq<Call>): set<(nat, nat)>
    requires Good(t) && forall i :: 0 <= i < |calls| ==> calls[i].pool < 64
  {
    if calls == [] then {}
    else
      var r, c, s := After(t, calls[..|calls| - 1]), calls[|calls| - 1], Pairs(t, calls[..|calls| - 1]);
      if SetVfta(r, true, c.vlan, c.pool, c.on).0 != Ok then s
      else if c.on then s + {(c.vlan, c.pool)} else s - {(c.vlan, c.pool)}
  }

  /** From cleared tables, every sequence of calls keeps the tables equal to the set of pairs. */
  lemma {:induction false} TablesAreTheSet(t: Tables, calls: seq<Call>, v: nat, q: nat)
    requires Good(t) && (forall k :: 0 <= k < ENTRIES ==> t.vlvf[k] == 0)
    requires (forall i :: 0 <= i < |calls| ==> calls[i].pool < 64) && v <= MAX_VLAN && q < 64
    ensures Member(After(t, calls), v, q) <==> (v, q) in Pairs(t, calls)
    decreases |calls|
  {
    if calls == [] {
      assert After(t, calls) == t;
    } else {
      TablesAreTheSet(t, calls[..|calls| - 1], v, q);
      var r, c := After(t, calls[..|calls| - 1]), calls[|calls| - 1];
      var (res, s) := SetVfta(r, true, c.vlan, c.pool, c.on);
      SetVftaRefines(r, c.vlan, c.pool, c.on, res, s);
    }
  }

  // ----- the registers -----

  class Device {
    const vt: bool
    var vfta: seq<set<nat>>
    var vlvf: seq<nat>
    var vlvfb: seq<set<nat>>

    ghost function Now(): Tables
      reads this
    {
      Tables(vfta, vlvf, vlvfb)
    }

    /** `ixgbe_find_vlvf_slot`; ENTRIES stands for IXGBE_ERR_NO_SPACE. */
    method FindSlot(vlan: nat) returns (k: nat)
      requires Sized(Now())
      ensures k == Slot(vlvf, vlan)
    {
      if vlan == 0 {
        return 0;
      }
      var firstEmpty := 0;
      k := 1;
      while k < ENTRIES
        invariant 1 <= k <= ENTRIES && Match(vlvf, vlan, 1) == Match(vlvf, vlan, k)
        invariant if firstEmpty == 0 then Empty(vlvf, 1) == Empty(vlvf, k) else Empty(vlvf, 1) == firstEmpty
      {
        var bits := vlvf[k];
        if bits == 0 && firstEmpty == 0 {
          firstEmpty := k;
        } else if Tag(bits) == vlan {
          return;
        }
        k := k + 1;
      }
      if firstEmpty != 0 {
        k := firstEmpty;
      }
    }

    /** `ixgbe_set_vfta_generic`. */
    method Set(vlan: nat, vind: nat, on: bool) returns (res: Result)
      requires Sized(Now()) && vind < 64
      modifies this
      ensures (res, Now()) == SetVfta(old(Now()), vt, vlan, vind, on)
    {
      if vlan > MAX_VLAN {
        return ErrParam;
      }
      var regindex, bitindex, changed := Register(vlan), Target(vlan), false;
      var word := vfta[regindex];
      if on {
        if bitindex !in word {
          word := word + {bitindex};
          changed := true;
        }
      } else if bitindex in word {
        word := word - {bitindex};
        changed := true;
      }
      assert word == Changed(vfta[regindex], bitindex, on) && (!changed ==> vfta == vfta[regindex := word]);
      if vt {
        res, changed := SetVlvf(vlan, vind, on, changed);
        if res != Ok {
          return;
        }
      }
      if changed {
        vfta := vfta[regindex := word];
      }
      res := Ok;
    }

    /** `ixgbe_set_vlvf_generic`, in VT mode. */
    method SetVlvf(vlan: nat, vind: nat, on: bool, vftaChanged: bool) returns (res: Result, changed: bool)
      requires Sized(Now()) && vind < 64 && vlan <= MAX_VLAN
      modifies `vlvf, `vlvfb
      ensures var k := Slot(old(vlvf), vlan);
              if k == ENTRIES then res == ErrNoSpace && Now() == old(Now())
              else && res == Ok && Now() == Written(old(Now()), k, vlan, vind, on)
                   && changed == (vftaChanged && (on || LeftBits(old(Now()), k, vind, on) == {}))
    {
      changed := vftaChanged;
      var k := FindSlot(vlan);
      if k == ENTRIES {
        return ErrNoSpace, changed;
      }
      var half := if vind < 32 then 2 * k else 2 * k + 1;
      var bits := vlvfb[half];
      if on {
        bits := bits + {Bit(vind)};
        vlvfb := vlvfb[half := bits];
      } else {
        bits := bits - {Bit(vind)};
        vlvfb := vlvfb[half := bits];
        bits := bits + vlvfb[if vind < 32 then 2 * k + 1 else 2 * k];
      }
      if bits != {} {
        vlvf := vlvf[k := VIEN + vlan];
        if !on {
          changed := false;
        }
      } else {
        vlvf := vlvf[k := 0];
      }
      res := Ok;
    }

    /** `ixgbe_clear_vfta_generic`. */
    method Clear()
      requires Sized(Now())
      modifies this
      ensures Good(Now()) && forall k :: 0 <= k < ENTRIES ==> vlvf[k] == 0
    {
      var offset := 0;
      while offset < VFT_SIZE
        invariant 0 <= offset <= VFT_SIZE && Sized(Now()) && forall x :: 0 <= x < offset ==> vfta[x] == {}
      {
        vfta := vfta[offset := {}];
        offset := offset + 1;
      }
      offset := 0;
      while offset < ENTRIES
        invariant 0 <= offset <= ENTRIES && Sized(Now()) && forall x :: 0 <= x < VFT_SIZE ==> vfta[x] == {}
        invariant forall l :: 0 <= l < offset ==> vlvf[l] == 0
        invariant forall j :: 0 <= j < 2 * offset ==> vlvfb[j] == {}
      {
        vlvf := vlvf[offset := 0];
        vlvfb := vlvfb[2 * offset := {}];
        vlvfb := vlvfb[2 * offset + 1 := {}];
        offset := offset + 1;
      }
    }
  }
}
