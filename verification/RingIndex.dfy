/** The descriptor rings of ixgbe/ixgbe_rxtx.c: 16-bit counters that wrap, cut to a slot by the
    ring length, and the entries in the order in which they are used. */
module RingIndex {
  import opened Arithmetic

  const U16: nat := 65536
  const NULL: nat := 0

  ghost predicate PowerOfTwo(len: nat) { exists b: nat :: Pow2(b) == len }

  /** Ring lengths are powers of two up to 4096; masking with `len - 1` is then `% len`. */
  ghost predicate Length(len: nat) { 0 < len <= 4096 && PowerOfTwo(len) }

  /** `(n) & (len - 1)`, the remainder by `len`. */
  function Slot(n: nat, len: nat): (i: nat)
    requires len > 0
    ensures i < len
  {
    if n < len then n else Slot(n - len, len)
  }

  /** The remainder by 2^16, which is what a 16-bit counter keeps. */
  function Wrap(n: int): (r: nat)
    ensures r < U16
    decreases if n < 0 then U16 - n else n
  {
    if n < 0 then Wrap(n + U16) else if n < U16 then n else Wrap(n - U16)
  }

  lemma WrapNear(n: int)
    requires n + U16 >= 0 && n < 2 * U16
    ensures Wrap(n) == if n < 0 then n + U16 else if n < U16 then n else n - U16
  {
    if n < 0 {
      assert Wrap(n) == Wrap(n + U16);
    } else if n >= U16 {
      assert Wrap(n) == Wrap(n - U16);
    }
  }

  lemma {:induction false} WrapTwice(n: nat)
    ensures Wrap(Wrap(n) + 1) == Wrap(n + 1)
  {
    if n >= U16 { WrapTwice(n - U16); }
  }

  /** How far `tail` is ahead of `head`. */
  function Ahead(head: nat, tail: nat): nat { Wrap(tail - head) }

  lemma AheadMoves(head: nat, tail: nat, m: nat)
    requires head < U16 && tail < U16 && m < U16
    ensures m <= Ahead(head, tail) ==> Ahead(Wrap(head + m), tail) == Ahead(head, tail) - m
    ensures Ahead(head, tail) + m < U16 ==> Ahead(head, Wrap(tail + m)) == Ahead(head, tail) + m
    ensures Ahead(head, tail) + m < U16 ==> Wrap(tail + m - head) == Ahead(head, tail) + m
    ensures m <= Ahead(head, tail) ==> (Wrap(head + m) == tail <==> m == Ahead(head, tail))
  {
    WrapNear(tail - head);
    WrapNear(head + m);
    WrapNear(tail + m);
    WrapNear(tail - Wrap(head + m));
    WrapNear(Wrap(tail + m) - head);
    WrapNear(tail + m - head);
  }

  /** What is left of `len` descriptors. */
  lemma LeftOver(head: nat, tail: nat, len: nat)
    requires head < U16 && tail < U16 && len < U16 && Ahead(head, tail) <= len
    ensures Wrap(len + head - tail) == len - Ahead(head, tail)
  {
    WrapNear(tail - head);
    WrapNear(len + head - tail);
  }

  /** Both are the remainders that the code computes. */
  lemma {:induction false} WrapIsMod(n: nat)
    ensures Wrap(n) == n % U16
  {
    if n >= U16 { WrapIsMod(n - U16); }
  }

  lemma {:induction false} SlotIsMod(n: nat, len: nat)
    requires len > 0
    ensures Slot(n, len) == n % len
  {
    if n >= len {
      SlotIsMod(n - len, len);
      ModMinus(n, len);
    }
  }

  lemma ModMinus(n: nat, len: nat)
    requires 0 < len <= n
    ensures n % len == (n - len) % len
  {
    var q, r := (n - len) / len, (n - len) % len;
    Times(q, len);
    assert n == (q + 1) * len + r;
    Division(n, q + 1, r, len);
  }

  lemma {:induction false} Pow2Plus(a: nat, b: nat)
    ensures Pow2(a + b) == Pow2(a) * Pow2(b)
  {
    if a > 0 {
      Pow2Plus(a - 1, b);
      Double(Pow2(a - 1), Pow2(b));
    }
  }

  lemma Double(x: int, y: int)
    ensures 2 * (x * y) == (2 * x) * y
  {}

  lemma {:induction false} Pow2Grows(b: nat)
    ensures Pow2(b) > b
  {
    if b > 0 { Pow2Grows(b - 1); }
  }

  lemma Pow2Sixteen()
    ensures Pow2(16) == U16
  {
    assert Pow2(4) == 16;
    Pow2Plus(4, 4);
    Pow2Plus(8, 8);
  }

  lemma {:induction false} Pow2Big(b: nat)
    requires b >= 16
    ensures Pow2(b) >= U16
  {
    Pow2Sixteen();
    if b > 16 { Pow2Big(b - 1); }
  }

  lemma Divides(len: nat) returns (q: nat)
    requires Length(len)
    ensures U16 == q * len
  {
    var b: nat :| Pow2(b) == len;
    Pow2Sixteen();
    if b > 16 {
      Pow2Big(b);
    }
    Pow2Plus(16 - b, b);
    q := Pow2(16 - b);
  }

  lemma {:induction false} SlotSkips(n: nat, q: nat, len: nat)
    requires len > 0
    ensures q * len >= 0 && Slot(n + q * len, len) == Slot(n, len)
    decreases q
  {
    if q > 0 {
      Times(q - 1, len);
      SlotSkips(n, q - 1, len);
      assert n + q * len - len == n + (q - 1) * len && n + (q - 1) * len >= 0;
    }
  }

  /** Wrapping an index does not change its slot. */
  lemma {:induction false} SlotWraps(n: nat, k: nat, len: nat)
    requires Length(len)
    ensures Slot(Wrap(n) + k, len) == Slot(n + k, len)
    decreases n
  {
    if n >= U16 {
      var q := Divides(len);
      SlotWraps(n - U16, k, len);
      SlotSkips(n - U16 + k, q, len);
    }
  }

  /** Fewer than `len` indices in a row use different slots. */
  lemma {:induction false} SlotsDiffer(n: nat, j: nat, k: nat, len: nat)
    requires j < k < len
    ensures Slot(n + j, len) != Slot(n + k, len)
    decreases n
  {
    if n >= len {
      SlotsDiffer(n - len, j, k, len);
    }
  }

  lemma SlotOnce(n: nat, len: nat)
    requires len > 0
    ensures Slot(n + len, len) == Slot(n, len)
  {}

  // ----- the entries -----

  /** `head`, `tail` and the mbuf of each ring entry; the descriptors from `head` up to `tail` are
      with the hardware. */
  datatype Ring = Ring(len: nat, entries: seq<nat>, head: nat, tail: nat)

  ghost predicate Sized(r: Ring) { Length(r.len) && |r.entries| == r.len && r.head < U16 && r.tail < U16 }

  /** The entries in the order in which the ring uses them, from `head` once around. */
  function Lap(r: Ring): (w: seq<nat>)
    requires r.len > 0 && |r.entries| == r.len
    ensures |w| == r.len
  {
    seq(r.len, k requires 0 <= k < r.len => r.entries[Slot(r.head + k, r.len)])
  }

  lemma LapWrite(r: Ring, k: nat, v: nat, s: Ring)
    requires Sized(r) && k < r.len && s == r.(entries := r.entries[Slot(r.head + k, r.len) := v])
    ensures Lap(s) == Lap(r)[k := v]
  {
    forall j | 0 <= j < r.len ensures Lap(s)[j] == Lap(r)[k := v][j] {
      if j < k { SlotsDiffer(r.head, j, k, r.len); }
      if j > k { SlotsDiffer(r.head, k, j, r.len); }
    }
  }

  /** Moving `head` turns the lap. */
  lemma LapMove(r: Ring, m: nat, s: Ring)
    requires Sized(r) && m <= r.len && s == r.(head := Wrap(r.head + m))
    ensures Lap(s) == Lap(r)[m..] + Lap(r)[..m]
  {
    forall k | 0 <= k < r.len ensures Lap(s)[k] == (Lap(r)[m..] + Lap(r)[..m])[k] {
      SlotWraps(r.head + m, k, r.len);
      if m + k >= r.len { SlotOnce(r.head + (m + k - r.len), r.len); }
    }
  }
}
