/** The RSS redirection table: 128 one-byte entries in 32 registers (ixgbe/ixgbe.c and
    ixgbe/ixgbe_rxtx.c). */
module Reta {
  import opened Arithmetic

  const ENTRIES: nat := 128

  /** A byte as the set of its 1 bits, and a 16-bit value as two bytes. */
  type Byte = set<nat>

  datatype Value = Value(low: Byte, high: Byte)

  /** Four entries, the first one in the lowest byte. */
  type Reg = r: seq<Byte> | |r| == 4 witness [{}, {}, {}, {}]

  /** `struct rte_eth_rss_reta`: the two halves of the mask, and the entries. */
  datatype Conf = Conf(maskLo: set<nat>, maskHi: set<nat>, reta: seq<Value>)

  predicate Masked(c: Conf, e: nat) { if e < 64 then e in c.maskLo else e - 64 in c.maskHi }

  /** The 128 mask bits, `mask_hi` above `mask_lo`. */
  function MaskBits(c: Conf): set<nat> { c.maskLo + set b | b in c.maskHi :: b + 64 }

  /** Entry `e` is masked by bit `e` of the 128. */
  lemma MaskedIsBit(c: Conf, e: nat)
    requires e < ENTRIES && forall b :: b in c.maskLo ==> b < 64
    ensures Masked(c, e) <==> e in MaskBits(c)
  {
    if e >= 64 { assert e == (e - 64) + 64; }
  }

  function Entry(regs: seq<Reg>, e: nat): Byte
    requires |regs| == 32 && e < ENTRIES
  {
    regs[e / 4][e % 4]
  }

  // ----- one register -----

  /** The mask and the values of the four entries from `i` on. */
  function Mask(c: Conf, i: nat): (m: seq<bool>)
    ensures |m| == 4 && forall j :: 0 <= j < 4 ==> m[j] == Masked(c, i + j)
  {
    [Masked(c, i), Masked(c, i + 1), Masked(c, i + 2), Masked(c, i + 3)]
  }

  function Vals(c: Conf, i: nat): (v: seq<Value>)
    requires |c.reta| == ENTRIES && i + 4 <= ENTRIES
    ensures |v| == 4
  {
    c.reta[i..i + 4]
  }

  /** `reta |= value << 8 * j`. */
  function Shift(r: Reg, j: nat, v: Value): Reg
    requires j < 4
  {
    var s := r[j := r[j] + v.low];
    if j < 3 then s[j + 1 := s[j + 1] + v.high] else s
  }

  const ALL: seq<bool> := [true, true, true, true]
  const NONE: seq<bool> := [false, false, false, false]

  /** The loop over the four entries of a register, before entry `j`. */
  function Merged(m: seq<bool>, v: seq<Value>, before: Reg, j: nat): Reg
    requires |m| == |v| == 4 && j <= 4
  {
    if j == 0 then if m == ALL then [{}, {}, {}, {}] else before
    else
      var r := Merged(m, v, before, j - 1);
      if !m[j - 1] then r
      else Shift(if m == ALL then r else r[j - 1 := {}], j - 1, v[j - 1])
  }

  /** What the entry before `k`, if it has been written, adds to entry `k`. */
  function Spilled(m: seq<bool>, v: seq<Value>, k: nat, j: nat): Byte
    requires |m| == |v| == 4 && k < 4 && j <= 4
  {
    if 0 < k <= j && m[k - 1] then v[k - 1].high else {}
  }

  /** Each entry before `j`, with what spilled into it: it is cleared just before it is written
      unless the whole register is built up from zero. */
  lemma {:induction false} MergedIs(m: seq<bool>, v: seq<Value>, before: Reg, j: nat)
    requires |m| == |v| == 4 && j <= 4
    ensures forall k :: 0 <= k < 4 ==>
              Merged(m, v, before, j)[k] ==
              if k < j && m[k] then v[k].low + (if m == ALL then Spilled(m, v, k, j) else {})
              else (if m == ALL then {} else before[k]) + Spilled(m, v, k, j)
  {
    if j > 0 {
      MergedIs(m, v, before, j - 1);
    }
  }

  // ----- ixgbe_dev_rss_reta_update and ixgbe_dev_rss_reta_query -----

  function Updated(regs: seq<Reg>, c: Conf): (r: seq<Reg>)
    requires |regs| == 32 && |c.reta| == ENTRIES
    ensures |r| == 32
  {
    seq(32, n requires 0 <= n < 32 => if Mask(c, 4 * n) == NONE then regs[n] else Merged(Mask(c, 4 * n), Vals(c, 4 * n), regs[n], 4))
  }

  function Queried(regs: seq<Reg>, c: Conf): (r: Conf)
    requires |regs| == 32 && |c.reta| == ENTRIES
    ensures |r.reta| == ENTRIES && r.maskLo == c.maskLo && r.maskHi == c.maskHi
  {
    c.(reta := seq(ENTRIES, e requires 0 <= e < ENTRIES => if Masked(c, e) then Value(Entry(regs, e), {}) else c.reta[e]))
  }

  ghost predicate AllFit(c: Conf)
    requires |c.reta| == ENTRIES
  {
    forall e :: 0 <= e < ENTRIES && Masked(c, e) ==> c.reta[e].high == {}
  }

  /** The whole register of entry `e` is masked, so that its old contents are not read. */
  predicate Rebuilt(c: Conf, e: nat) { Mask(c, e / 4 * 4) == ALL }

  /** The high bits of the masked entry before `e` in the same register. */
  function Spill(c: Conf, e: nat): Byte
    requires |c.reta| == ENTRIES && e < ENTRIES
  {
    if e % 4 != 0 && Masked(c, e - 1) && (!Masked(c, e) || Rebuilt(c, e)) then c.reta[e - 1].high else {}
  }

  function Wanted(regs: seq<Reg>, c: Conf, e: nat): Byte
    requires |regs| == 32 && |c.reta| == ENTRIES && e < ENTRIES
  {
    if Masked(c, e) then c.reta[e].low else Entry(regs, e)
  }

  /** What an update makes of each entry, for every table and mask. */
  lemma UpdateEntry(regs: seq<Reg>, c: Conf, e: nat)
    requires |regs| == 32 && |c.reta| == ENTRIES && e < ENTRIES
    ensures Entry(Updated(regs, c), e) == Wanted(regs, c, e) + Spill(c, e)
  {
    var n, k := e / 4, e % 4;
    assert e == 4 * n + k;
    var m, v := Mask(c, 4 * n), Vals(c, 4 * n);
    assert m[k] == Masked(c, e) && v[k] == c.reta[e];
    if k > 0 {
      assert m[k - 1] == Masked(c, e - 1) && v[k - 1] == c.reta[e - 1];
    }
    MergedIs(m, v, regs[n], 4);
  }

  /** The high bits of a masked entry are shifted out, or cleared when the next entry is written,
      or belong into the next entry anyway. */
  predicate Harmless(regs: seq<Reg>, c: Conf, e: nat)
    requires |regs| == 32 && |c.reta| == ENTRIES && e < ENTRIES
  {
    Masked(c, e) && e % 4 != 3 ==>
      if !Masked(c, e + 1) then c.reta[e].high <= Entry(regs, e + 1)
      else Rebuilt(c, e) ==> c.reta[e].high <= c.reta[e + 1].low
  }

  lemma HarmlessMeans(regs: seq<Reg>, c: Conf, e: nat)
    requires |regs| == 32 && |c.reta| == ENTRIES && e + 1 < ENTRIES && e % 4 != 3
    ensures Harmless(regs, c, e) <==> Wanted(regs, c, e + 1) + Spill(c, e + 1) == Wanted(regs, c, e + 1)
  {
    assert (e + 1) / 4 == e / 4;
    var w, x := Wanted(regs, c, e + 1), Spill(c, e + 1);
    assert w + x == w <==> x <= w by {
      assert x <= w + x;
    }
  }

  ghost predicate Exact(regs: seq<Reg>, c: Conf, e: nat)
    requires |regs| == 32 && |c.reta| == ENTRIES && e < ENTRIES
  {
    Entry(Updated(regs, c), e) == Wanted(regs, c, e)
  }

  /** The update changes exactly the masked entries, to the low bytes of their values, if and only
      if all high bits are harmless. */
  lemma UpdateExact(regs: seq<Reg>, c: Conf)
    requires |regs| == 32 && |c.reta| == ENTRIES
    ensures (forall e :: 0 <= e < ENTRIES ==> Exact(regs, c, e)) <==> (forall e :: 0 <= e < ENTRIES ==> Harmless(regs, c, e))
  {
    if forall e :: 0 <= e < ENTRIES ==> Exact(regs, c, e) {
      forall e | 0 <= e < ENTRIES ensures Harmless(regs, c, e) {
        if e % 4 != 3 {
          assert Exact(regs, c, e + 1);
          UpdateEntry(regs, c, e + 1);
          HarmlessMeans(regs, c, e);
        }
      }
    }
    if forall e :: 0 <= e < ENTRIES ==> Harmless(regs, c, e) {
      forall e | 0 <= e < ENTRIES ensures Exact(regs, c, e) {
        UpdateEntry(regs, c, e);
        if e % 4 != 0 {
          assert Harmless(regs, c, e - 1);
          HarmlessMeans(regs, c, e - 1);
        }
      }
    }
  }

  /** A query with the same mask returns what was written if and only if every masked value fits
      a byte. */
  lemma RoundTrip(regs: seq<Reg>, c: Conf)
    requires |regs| == 32 && |c.reta| == ENTRIES
    ensures Queried(Updated(regs, c), c) == c <==> AllFit(c)
  {
    var q := Queried(Updated(regs, c), c);
    if AllFit(c) {
      forall e | 0 <= e < ENTRIES ensures q.reta[e] == c.reta[e] {
        UpdateEntry(regs, c, e);
      }
    } else {
      var e :| 0 <= e < ENTRIES && Masked(c, e) && c.reta[e].high != {};
      assert q.reta[e].high == {};
    }
  }

  // ----- the initial fill -----

  /** The low byte of a number. */
  function LowByte(n: nat): Byte { set b: nat | b < 8 && n / Pow2(b) % 2 == 1 }

  /** The number that the lowest `k` bits of a byte stand for. */
  function Weight(b: Byte, k: nat): nat {
    if k == 0 then 0 else Weight(b, k - 1) + if k - 1 in b then Pow2(k - 1) else 0
  }

  lemma {:induction false} WeightIs(n: nat, k: nat)
    requires k <= 8
    ensures Weight(LowByte(n), k) == n % Pow2(k)
    decreases k
  {
    if k > 0 {
      WeightIs(n, k - 1);
      NextBit(n, Pow2(k - 1), n / Pow2(k - 1) % 2);
    }
  }

  lemma NextBit(n: nat, d: nat, bit: nat)
    requires d > 0 && bit == n / d % 2
    ensures n % (2 * d) == n % d + if bit == 1 then d else 0
  {
    Halves(n, d);
    var h := n / (2 * d);
    assert n == n / d * d + n % d && n / d == 2 * h + bit;
    Distribute(2 * h, bit, d);
    Doubled(h, d);
    Division(n, h, n % d + (if bit == 1 then d else 0), 2 * d);
  }

  lemma LowByteIs(n: nat)
    ensures (forall b :: b in LowByte(n) ==> b < 8) && Weight(LowByte(n), 8) == n % 256
  {
    WeightIs(n, 8);
    assert Pow2(4) == 16 && Pow2(8) == 256;
  }

  /** The queue that entry `i` names at first; with no queues the counter is never reset. */
  function Queue(i: nat, queues: nat): nat { if queues == 0 then i else i % queues }

  lemma QueueNext(i: nat, queues: nat)
    ensures Queue(i + 1, queues) == if Queue(i, queues) + 1 == queues then 0 else Queue(i, queues) + 1
  {
    if queues > 0 { RemainderNext(i, i / queues, i % queues, queues); }
  }

  lemma RemainderNext(i: nat, q: nat, r: nat, d: nat)
    requires r < d && i == q * d + r
    ensures (i + 1) % d == if r + 1 == d then 0 else r + 1
  {
    Times(q, d);
    if r + 1 == d {
      Division(i + 1, q + 1, 0, d);
    } else {
      Division(i + 1, q, r + 1, d);
    }
  }

  class Device {
    var regs: seq<Reg>

    /** `ixgbe_dev_rss_reta_update`. */
    method Update(c: Conf)
      requires |regs| == 32 && |c.reta| == ENTRIES
      modifies this
      ensures regs == Updated(old(regs), c)
    {
      var i := 0;
      while i < ENTRIES
        invariant 0 <= i <= ENTRIES && i % 4 == 0 && |regs| == 32
        invariant forall n :: 0 <= n < i / 4 ==> regs[n] == Updated(old(regs), c)[n]
        invariant forall n :: i / 4 <= n < 32 ==> regs[n] == old(regs)[n]
      {
        UpdateReg(c, i);
        i := i + 4;
      }
    }

    /** One round: the four entries from `i` on. */
    method UpdateReg(c: Conf, i: nat)
      requires |regs| == 32 && |c.reta| == ENTRIES && i + 4 <= ENTRIES && i % 4 == 0
      modifies this
      ensures regs == old(regs)[i / 4 := Updated(old(regs), c)[i / 4]]
    {
      var n := i / 4;
      assert i == 4 * n;
      var mask := Mask(c, i);
      if mask != NONE {
        var reta: Reg := if mask == ALL then [{}, {}, {}, {}] else regs[n];
        var j := 0;
        while j < 4
          invariant 0 <= j <= 4 && reta == Merged(mask, Vals(c, i), regs[n], j)
        {
          if mask[j] {
            if mask != ALL {
              reta := reta[j := {}];
            }
            assert Vals(c, i)[j] == c.reta[i + j];
            reta := Shift(reta, j, c.reta[i + j]);
          }
          j := j + 1;
        }
        regs := regs[n := reta];
      }
    }

    /** `ixgbe_dev_rss_reta_query`. */
    method Query(c: Conf) returns (r: Conf)
      requires |regs| == 32 && |c.reta| == ENTRIES
      ensures r == Queried(regs, c)
    {
      var reta := c.reta;
      var i := 0;
      while i < ENTRIES
        invariant 0 <= i <= ENTRIES && i % 4 == 0 && |reta| == ENTRIES
        invariant forall e :: 0 <= e < i ==> reta[e] == Queried(regs, c).reta[e]
        invariant forall e :: i <= e < ENTRIES ==> reta[e] == c.reta[e]
      {
        var j := 0;
        while j < 4
          invariant 0 <= j <= 4 && |reta| == ENTRIES
          invariant forall e :: 0 <= e < i + j ==> reta[e] == Queried(regs, c).reta[e]
          invariant forall e :: i + j <= e < ENTRIES ==> reta[e] == c.reta[e]
        {
          if Masked(c, i + j) {
            assert (i + j) / 4 == i / 4 && (i + j) % 4 == j;
            reta := reta[i + j := Value(regs[i / 4][j], {})];
          }
          j := j + 1;
        }
        i := i + 4;
      }
      r := c.(reta := reta);
    }

    /** The redirection table part of `ixgbe_rss_configure`: a shift register of the last four
        queue numbers is stored, most significant byte first, after every fourth entry. */
    method Fill(queues: nat)
      requires |regs| == 32
      modifies this
      ensures |regs| == 32
      ensures forall e :: 0 <= e < 128 ==> Entry(regs, e) == LowByte(if queues == 0 then e else e % queues)
    {
      var reta: Reg := [{}, {}, {}, {}];
      var i, j := 0, 0;
      while i < ENTRIES
        invariant 0 <= i <= ENTRIES && |regs| == 32 && j <= i
        invariant (if j == queues then 0 else j) == Queue(i, queues)
        invariant forall k :: 0 <= k < 4 && i + k >= 4 ==> reta[k] == LowByte(Queue(i + k - 4, queues))
        invariant forall n :: 0 <= n < i / 4 ==> Filled(regs[n], n, queues)
      {
        if j == queues {
          j := 0;
        }
        QueueNext(i, queues);
        reta := reta[1..] + [LowByte(j)];
        if i % 4 == 3 {
          RegFilled(reta, i, queues);
          regs := regs[i / 4 := reta];
        }
        i, j := i + 1, j + 1;
      }
      forall e | 0 <= e < ENTRIES ensures Entry(regs, e) == LowByte(Queue(e, queues)) {
        assert Filled(regs[e / 4], e / 4, queues) && e == 4 * (e / 4) + e % 4;
      }
    }
  }

  ghost predicate Filled(r: Reg, n: nat, queues: nat) {
    forall k :: 0 <= k < 4 ==> r[k] == LowByte(Queue(4 * n + k, queues))
  }

  lemma RegFilled(reta: Reg, i: nat, queues: nat)
    requires i % 4 == 3 && forall k :: 0 <= k < 4 ==> reta[k] == LowByte(Queue(i + 1 + k - 4, queues))
    ensures Filled(reta, i / 4, queues)
  {
    assert i == 4 * (i / 4) + 3;
  }
}
