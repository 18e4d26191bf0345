/** The flow director hashes: the unrolled hash of ixgbe/ixgbe_82599.c against the generic one of
    ixgbe/ixgbe_fdir.c, for every input and every pair of keys; and the reversed port masks.
    Words are read from the least significant bit. */
module AtrHash {
  import opened Arithmetic
  import opened Words

  function Shr(w: Word, n: nat): (r: Word)
    ensures forall i :: 0 <= i < 32 ==> r[i] == (i + n < 32 && w[i + n])
  {
    seq(32, i requires 0 <= i < 32 => i + n < 32 && w[i + n])
  }

  function Shl(w: Word, n: nat): (r: Word)
    ensures forall i :: 0 <= i < 32 ==> r[i] == (i >= n && w[i - n])
  {
    seq(32, i requires 0 <= i < 32 => i >= n && w[i - n])
  }

  /** The bits from `from` up to `to`. */
  function Field(w: Word, from: nat, to: nat): (r: Word)
    ensures forall i :: 0 <= i < 32 ==> r[i] == (from <= i < to && w[i])
  {
    seq(32, i requires 0 <= i < 32 => from <= i < to && w[i])
  }

  function Or(a: Word, b: Word): (r: Word)
    ensures forall i :: 0 <= i < 32 ==> r[i] == (a[i] || b[i])
  {
    seq(32, i requires 0 <= i < 32 => a[i] || b[i])
  }

  function And(a: Word, b: Word): (r: Word)
    ensures forall i :: 0 <= i < 32 ==> r[i] == (a[i] && b[i])
  {
    seq(32, i requires 0 <= i < 32 => a[i] && b[i])
  }

  /** Network to host byte order: byte `k` becomes byte `3 - k`. */
  function Ntohl(w: Word): Word { seq(32, i requires 0 <= i < 32 => w[24 - i / 8 * 8 + i % 8]) }

  // ----- the operations as C has them, on numbers -----

  /** `w >> n`. */
  lemma ShrValue(w: Word, n: nat)
    requires n <= 32
    ensures Value(Shr(w, n)) == Value(w) / Pow2(n)
  {
    SplitValue(w, n);
    var zeros := Falses(n);
    assert Shr(w, n) == w[n..] + zeros;
    PadValue(w[n..], zeros);
  }

  /** Quotient and remainder by `2^n` are the upper and the lower bits. */
  lemma SplitValue(w: seq<bool>, n: nat)
    requires n <= |w|
    ensures Value(w) / Pow2(n) == Value(w[n..]) && Value(w) % Pow2(n) == Value(w[..n])
  {
    assert w == w[..n] + w[n..];
    ValueConcat(w[..n], w[n..]);
    ValueBelow(w[..n]);
    Quotient(Value(w), Value(w[n..]), Value(w[..n]), Pow2(n));
  }

  lemma Quotient(v: nat, q: nat, r: nat, d: nat)
    requires r < d && v == r + d * q
    ensures v / d == q && v % d == r
  {
    Division(v, q, r, d);
  }

  lemma PadValue(w: seq<bool>, zeros: seq<bool>)
    requires forall i :: 0 <= i < |zeros| ==> !zeros[i]
    ensures Value(w + zeros) == Value(w)
  {
    ValueConcat(w, zeros);
    ValueNone(zeros);
  }

  /** `w << n`: what is shifted out is lost. */
  lemma ShlValue(w: Word, n: nat)
    requires n <= 32
    ensures Value(Shl(w, n)) == Pow2(n) * Value(w[..32 - n])
  {
    var zeros := Falses(n);
    assert Shl(w, n) == zeros + w[..32 - n];
    ValueConcat(zeros, w[..32 - n]);
    ValueNone(zeros);
  }

  /** `w & (2^n - 1)`. */
  lemma FieldValue(w: Word, n: nat)
    requires n <= 32
    ensures Value(Field(w, 0, n)) == Value(w[..n]) == Value(w) % Pow2(n)
  {
    SplitValue(w, n);
    var zeros := Falses(32 - n);
    assert Field(w, 0, n) == w[..n] + zeros;
    PadValue(w[..n], zeros);
  }

  function Falses(n: nat): (s: seq<bool>)
    ensures |s| == n && forall i :: 0 <= i < n ==> !s[i]
  {
    seq(n, i => false)
  }

  /** `ntohl`: the byte that is first in memory becomes the most significant. */
  lemma NtohlValue(w: Word)
    ensures Value(Ntohl(w)) == 0x100_0000 * Value(w[..8]) + 0x1_0000 * Value(w[8..16]) + 0x100 * Value(w[16..24]) + Value(w[24..])
  {
    assert Ntohl(w) == w[24..] + (w[16..24] + (w[8..16] + w[..8]));
    ValueConcat(w[24..], w[16..24] + (w[8..16] + w[..8]));
    ValueConcat(w[16..24], w[8..16] + w[..8]);
    ValueConcat(w[8..16], w[..8]);
    assert Pow2(4) == 16 && Pow2(8) == 256;
  }

  // ----- the hash term by term -----

  function Lo0(common: Word): Word { Or(Shr(common, 16), Shl(common, 16)) }

  function Lo(flow: Word, common: Word): Word { Xor(Lo0(common), Xor(flow, Shl(flow, 16))) }

  function Hi(flow: Word, common: Word): Word { Xor(common, Xor(flow, Shr(flow, 16))) }

  function When(c: bool, w: Word): Word { if c then w else ZERO }

  /** What key bits `n` and `n + 16` contribute. */
  function Term(key: Word, lo: Word, hi: Word, n: nat): Word
    requires n < 16
  {
    Xor(When(key[n], Shr(lo, n)), When(key[n + 16], Shr(hi, n)))
  }

  /** The contributions of the key bits below `n`; bit 0 of the stream does not see the VLAN. */
  function Sum(key: Word, flow: Word, common: Word, n: nat): Word
    requires 0 < n <= 16
  {
    if n == 1 then Term(key, Lo0(common), Hi(flow, common), 0)
    else Xor(Sum(key, flow, common, n - 1), Term(key, Lo(flow, common), Hi(flow, common), n - 1))
  }

  function Hash(key: Word, flow: Word, common: Word): Word { Sum(key, flow, common, 16) }

  /** The exclusive or of dwords 1 to `i - 1`. */
  function Stream(d: seq<Word>, i: nat): Word
    requires i <= |d|
  {
    if i <= 1 then ZERO else Xor(Stream(d, i - 1), d[i - 1])
  }

  function HashOf(key: Word, d: seq<Word>): Word
    requires |d| == 11
  {
    Hash(key, Ntohl(d[0]), Ntohl(Stream(d, 11)))
  }

  // ----- the generic hash -----

  /** `^=`, if the key bit is set. */
  method AddWhen(hash: Word, c: bool, w: Word) returns (r: Word)
    ensures r == Xor(hash, When(c, w))
  {
    r := hash;
    XorZero(hash);
    if c {
      r := Xor(r, w);
    }
  }

  /** The terms from `i` to 15, added downwards after the first one. */
  function Down(key: Word, flow: Word, common: Word, i: nat): Word
    requires 0 < i <= 16
    decreases 16 - i
  {
    if i == 16 then Sum(key, flow, common, 1)
    else Xor(Down(key, flow, common, i + 1), Term(key, Lo(flow, common), Hi(flow, common), i))
  }

  lemma Regroup(a: Word, b: Word, c: Word, d: Word)
    ensures Xor(Xor(Xor(a, b), c), d) == Xor(Xor(a, Xor(c, b)), d)
    ensures Xor(Xor(a, b), b) == a
  {
    var x, y, z := Xor(Xor(Xor(a, b), c), d), Xor(Xor(a, Xor(c, b)), d), Xor(Xor(a, b), b);
    assert forall i :: 0 <= i < 32 ==> x[i] == y[i];
    assert forall i :: 0 <= i < 32 ==> z[i] == a[i];
  }

  /** Adding the terms downwards or upwards is the same. */
  lemma {:induction false} DownIsUp(key: Word, flow: Word, common: Word, i: nat)
    requires 0 < i <= 16
    ensures Xor(Xor(Down(key, flow, common, i), Sum(key, flow, common, i)), Sum(key, flow, common, 1)) == Hash(key, flow, common)
    decreases 16 - i
  {
    var f, s := Sum(key, flow, common, 1), Sum(key, flow, common, i);
    if i == 16 {
      XorSwap(f, s);
      Regroup(s, f, f, f);
    } else {
      DownIsUp(key, flow, common, i + 1);
      Regroup(Down(key, flow, common, i + 1), Term(key, Lo(flow, common), Hi(flow, common), i), s, f);
    }
  }

  lemma DownToOne(key: Word, flow: Word, common: Word)
    ensures Down(key, flow, common, 1) == Hash(key, flow, common)
  {
    DownIsUp(key, flow, common, 1);
    var f := Sum(key, flow, common, 1);
    Regroup(Down(key, flow, common, 1), f, f, f);
  }

  /** `ixgbe_atr_compute_hash_82599`. */
  method ComputeHash(d: seq<Word>, key: Word) returns (hash: Word)
    requires |d| == 11
    ensures hash == HashOf(key, d)
  {
    var common := CommonDword(d);
    hash := KeyTerms(key, Ntohl(d[0]), Ntohl(common));
  }

  /** The terms of the key bits. */
  method KeyTerms(key: Word, flow: Word, c: Word) returns (hash: Word)
    ensures hash == Hash(key, flow, c)
  {
    var lo := Or(Shr(c, 16), Shl(c, 16));
    var hi := Xor(c, Xor(flow, Shr(flow, 16)));
    hash := ZERO;
    hash := AddWhen(hash, key[0], lo);
    hash := AddWhen(hash, key[16], hi);
    FirstTerm(key, lo, hi, hash);
    lo := Xor(lo, Xor(flow, Shl(flow, 16)));
    var i := 15;
    while i != 0
      invariant 0 <= i <= 15 && hash == Down(key, flow, c, i + 1)
    {
      XorShift(hash, When(key[i], Shr(lo, i)), When(key[i + 16], Shr(hi, i)));
      hash := AddWhen(hash, key[i], Shr(lo, i));
      hash := AddWhen(hash, key[i + 16], Shr(hi, i));
      i := i - 1;
    }
    DownToOne(key, flow, c);
  }

  lemma FirstTerm(key: Word, lo: Word, hi: Word, hash: Word)
    requires hash == Xor(Xor(ZERO, When(key[0], lo)), When(key[16], hi))
    ensures hash == Term(key, lo, hi, 0)
  {
    XorZero(When(key[0], lo));
    assert Shr(lo, 0) == lo && Shr(hi, 0) == hi;
  }

  /** The loop that joins dwords 10 to 1, two at a time. */
  method CommonDword(d: seq<Word>) returns (common: Word)
    requires |d| == 11
    ensures common == Stream(d, 11)
  {
    common := ZERO;
    XorZero(Stream(d, 11));
    var i := 10;
    while i != 0
      invariant 0 <= i <= 10 && i % 2 == 0 && Xor(common, Stream(d, i + 1)) == Stream(d, 11)
    {
      TwoMore(common, Stream(d, i - 1), d[i], d[i - 1]);
      common := Xor(common, Xor(d[i], d[i - 1]));
      i := i - 2;
    }
    XorZero(common);
  }

  lemma TwoMore(c: Word, s: Word, x: Word, y: Word)
    ensures Xor(Xor(c, Xor(x, y)), s) == Xor(c, Xor(Xor(s, y), x))
  {
    var a, b := Xor(Xor(c, Xor(x, y)), s), Xor(c, Xor(Xor(s, y), x));
    assert forall i :: 0 <= i < 32 ==> a[i] == b[i];
  }

  // ----- the unrolled hash -----

  datatype Acc = Acc(common: Word, bucket: Word, sig: Word)

  /** One half of an iteration: `down` and `up` are the same word, shifted for either field. */
  function Half(a: Acc, inB: bool, inS: bool, down: Word, up: Word): Acc {
    if inB && inS then a.(common := Xor(a.common, down))
    else if inB then a.(bucket := Xor(a.bucket, down))
    else if inS then a.(sig := Xor(a.sig, up))
    else a
  }

  /** IXGBE_COMPUTE_SIG_HASH_ITERATION, for keys `b` and `s`. */
  function Iteration(b: Word, s: Word, lo: Word, hi: Word, a: Acc, n: nat): Acc
    requires n < 16
  {
    Half(Half(a, b[n], s[n], Shr(lo, n), Shl(lo, 16 - n)), b[n + 16], s[n + 16], Shr(hi, n), Shl(hi, 16 - n))
  }

  /** The three accumulators stand for the two hashes: the signature in its upper half. */
  ghost predicate Stands(a: Acc, h: Word, g: Word) {
    Xor(a.bucket, a.common) == h && forall i :: 16 <= i < 32 ==> (a.sig[i] != a.common[i - 16]) == g[i - 16]
  }

  lemma HalfStands(a: Acc, h: Word, g: Word, inB: bool, inS: bool, down: Word, up: Word)
    requires Stands(a, h, g) && forall i :: 16 <= i < 32 ==> up[i] == down[i - 16]
    ensures Stands(Half(a, inB, inS, down, up), Xor(h, When(inB, down)), Xor(g, When(inS, down)))
  {
    var r := Half(a, inB, inS, down, up);
    var x, y := Xor(r.bucket, r.common), Xor(h, When(inB, down));
    assert forall i :: 0 <= i < 32 ==> x[i] == y[i];
  }

  lemma IterationStands(b: Word, s: Word, lo: Word, hi: Word, a: Acc, n: nat, h: Word, g: Word)
    requires n < 16 && Stands(a, h, g)
    ensures Stands(Iteration(b, s, lo, hi, a, n), Xor(h, Term(b, lo, hi, n)), Xor(g, Term(s, lo, hi, n)))
  {
    var r := Half(a, b[n], s[n], Shr(lo, n), Shl(lo, 16 - n));
    HalfStands(a, h, g, b[n], s[n], Shr(lo, n), Shl(lo, 16 - n));
    HalfStands(r, Xor(h, When(b[n], Shr(lo, n))), Xor(g, When(s[n], Shr(lo, n))), b[n + 16], s[n + 16], Shr(hi, n), Shl(hi, 16 - n));
    XorShift(h, When(b[n], Shr(lo, n)), When(b[n + 16], Shr(hi, n)));
    XorShift(g, When(s[n], Shr(lo, n)), When(s[n + 16], Shr(hi, n)));
  }

  /** Two fields of 15 bits. */
  function Packed(h: Word, g: Word): Word { Xor(Field(Shl(g, 16), 16, 31), Field(h, 0, 15)) }

  lemma Combine(a: Acc, h: Word, g: Word)
    requires Stands(a, h, g)
    ensures Xor(Field(Xor(a.sig, Shl(a.common, 16)), 16, 31), Field(Xor(a.bucket, a.common), 0, 15)) == Packed(h, g)
  {
    assert Field(Xor(a.sig, Shl(a.common, 16)), 16, 31) == Field(Shl(g, 16), 16, 31);
  }

  /** `ixgbe_atr_compute_sig_hash_82599`, unrolled, for any two keys: two generic hashes, each
      masked to 15 bits and packed. */
  method ComputeSigHash(b: Word, s: Word, input: Word, common: Word) returns (hash: Word)
    ensures hash == Packed(Hash(b, Ntohl(input), Ntohl(common)), Hash(s, Ntohl(input), Ntohl(common)))
  {
    var flow := Ntohl(input);
    var hi := Ntohl(common);
    ghost var c := hi;
    var lo := Or(Shr(hi, 16), Shl(hi, 16));
    hi := Xor(hi, Xor(flow, Shr(flow, 16)));
    var a := Acc(ZERO, ZERO, ZERO);
    a := Round(b, s, lo, hi, a, 0, ZERO, ZERO);
    XorZero(Term(b, lo, hi, 0));
    XorZero(Term(s, lo, hi, 0));
    lo := Xor(lo, Xor(flow, Shl(flow, 16)));
    a := FiveRounds(b, s, lo, hi, a, 1, flow, c);
    a := FiveRounds(b, s, lo, hi, a, 6, flow, c);
    a := FiveRounds(b, s, lo, hi, a, 11, flow, c);
    Combine(a, Hash(b, flow, c), Hash(s, flow, c));
    hash := Xor(Field(Xor(a.sig, Shl(a.common, 16)), 16, 31), Field(Xor(a.bucket, a.common), 0, 15));
  }

  /** Five of the fifteen iterations that follow the first. */
  method FiveRounds(b: Word, s: Word, lo: Word, hi: Word, a: Acc, n: nat, ghost flow: Word, ghost c: Word) returns (r: Acc)
    requires 0 < n <= 11 && lo == Lo(flow, c) && hi == Hi(flow, c)
    requires Stands(a, Sum(b, flow, c, n), Sum(s, flow, c, n))
    ensures Stands(r, Sum(b, flow, c, n + 5), Sum(s, flow, c, n + 5))
  {
    r := Round(b, s, lo, hi, a, n, Sum(b, flow, c, n), Sum(s, flow, c, n));
    r := Round(b, s, lo, hi, r, n + 1, Sum(b, flow, c, n + 1), Sum(s, flow, c, n + 1));
    r := Round(b, s, lo, hi, r, n + 2, Sum(b, flow, c, n + 2), Sum(s, flow, c, n + 2));
    r := Round(b, s, lo, hi, r, n + 3, Sum(b, flow, c, n + 3), Sum(s, flow, c, n + 3));
    r := Round(b, s, lo, hi, r, n + 4, Sum(b, flow, c, n + 4), Sum(s, flow, c, n + 4));
  }

  /** The macro. */
  method Round(b: Word, s: Word, lo: Word, hi: Word, a: Acc, n: nat, ghost h: Word, ghost g: Word) returns (r: Acc)
    requires n < 16 && Stands(a, h, g)
    ensures r == Iteration(b, s, lo, hi, a, n)
    ensures Stands(r, Xor(h, Term(b, lo, hi, n)), Xor(g, Term(s, lo, hi, n)))
  {
    IterationStands(b, s, lo, hi, a, n, h, g);
    r := a;
    if b[n] && s[n] {
      r := r.(common := Xor(r.common, Shr(lo, n)));
    } else if b[n] {
      r := r.(bucket := Xor(r.bucket, Shr(lo, n)));
    } else if s[n] {
      r := r.(sig := Xor(r.sig, Shl(lo, 16 - n)));
    }
    if b[n + 16] && s[n + 16] {
      r := r.(common := Xor(r.common, Shr(hi, n)));
    } else if b[n + 16] {
      r := r.(bucket := Xor(r.bucket, Shr(hi, n)));
    } else if s[n + 16] {
      r := r.(sig := Xor(r.sig, Shl(hi, 16 - n)));
    }
  }

  // ----- the masked forms -----

  datatype Pballoc = K64 | K128 | K256

  function SigBits(p: Pballoc): nat { match p case K256 => 15 case K128 => 14 case K64 => 13 }

  function PerfectBits(p: Pballoc): nat { match p case K256 => 13 case K128 => 12 case K64 => 11 }

  /** `atr_compute_sig_hash_82599` of ixgbe/ixgbe_fdir.c. */
  method SigHash(d: seq<Word>, p: Pballoc, b: Word, s: Word) returns (r: Word)
    requires |d| == 11
    ensures r == Or(Shl(HashOf(s, d), 16), Field(HashOf(b, d), 0, SigBits(p)))
    ensures r[16..] == HashOf(s, d)[..16]
    ensures Value(r[..16]) == Value(HashOf(b, d)) % match p case K256 => 0x8000 case K128 => 0x4000 case K64 => 0x2000
  {
    var bucket := ComputeHash(d, b);
    bucket := Field(bucket, 0, SigBits(p));
    var sig := ComputeHash(d, s);
    r := Or(Shl(sig, 16), bucket);
    HalvesOf(sig, HashOf(b, d), SigBits(p), r);
    Powers();
  }

  lemma Powers()
    ensures Pow2(11) == 0x800 && Pow2(12) == 0x1000 && Pow2(13) == 0x2000 && Pow2(14) == 0x4000 && Pow2(15) == 0x8000
  {
    assert Pow2(5) == 32 && Pow2(10) == 1024;
  }

  lemma HalvesOf(sig: Word, w: Word, n: nat, r: Word)
    requires n <= 16 && r == Or(Shl(sig, 16), Field(w, 0, n))
    ensures r[16..] == sig[..16] && Value(r[..16]) == Value(w) % Pow2(n)
  {
    FieldValue(w, n);
    var zeros := Falses(16 - n);
    assert r[..16] == w[..n] + zeros;
    ValueConcat(w[..n], zeros);
    ValueNone(zeros);
  }

  /** In the 256K form, the two drivers' hashes agree on both 15-bit fields. */
  lemma SigFormsAgree(h: Word, g: Word, r: Word)
    requires r == Or(Shl(g, 16), Field(h, 0, SigBits(K256)))
    ensures Packed(h, g) == Or(Field(r, 16, 31), Field(r, 0, 15))
  {
    var p, q := Packed(h, g), Or(Field(r, 16, 31), Field(r, 0, 15));
    assert forall i :: 0 <= i < 32 ==> p[i] == q[i];
  }

  /** `atr_compute_perfect_hash_82599` of ixgbe/ixgbe_fdir.c. */
  method PerfectHash(d: seq<Word>, p: Pballoc, b: Word) returns (r: Word)
    requires |d| == 11
    ensures r == Field(HashOf(b, d), 0, PerfectBits(p))
    ensures Value(r) == Value(HashOf(b, d)) % match p case K256 => 0x2000 case K128 => 0x1000 case K64 => 0x800
  {
    r := ComputeHash(d, b);
    FieldValue(r, PerfectBits(p));
    Powers();
    r := Field(r, 0, PerfectBits(p));
  }

  function Masked(d: seq<Word>, m: seq<Word>): (r: seq<Word>)
    requires |d| == |m| == 11
    ensures |r| == 11
  {
    seq(11, i requires 0 <= i < 11 => And(d[i], m[i]))
  }

  lemma MaskedBit(d: seq<Word>, m: seq<Word>, i: nat, b: nat)
    requires |d| == |m| == 11 && i < 11 && b < 32
    ensures Masked(d, m)[i][b] <==> d[i][b] && m[i][b]
  {
    assert Masked(d, m)[i] == And(d[i], m[i]);
  }

  /** `ixgbe_atr_compute_perfect_hash_82599`: the input is masked in place, and its last two
      bytes become the hash of the masked input, cut to the 13 bits of the 256K form. */
  method PerfectHashInPlace(input: array<Word>, mask: array<Word>, b: Word)
    requires input.Length == mask.Length == 11 && input != mask
    modifies input
    ensures var d := Masked(old(input[..]), mask[..]);
            && input[..10] == d[..10]
            && input[10] == Or(Field(d[10], 0, 16), Shl(Field(HashOf(b, d), 0, PerfectBits(K256)), 16))
  {
    ghost var d := Masked(input[..], mask[..]);
    MaskAll(input, mask);
    assert input[0] == d[0] && input[10] == d[10];
    var flow := Ntohl(input[0]);
    var hi := JoinAll(input, d);
    var hash := BucketHash(b, flow, Ntohl(hi));
    input[10] := Or(Field(input[10], 0, 16), Shl(Field(hash, 0, 13), 16));
  }

  /** The unrolled bucket hash. */
  method BucketHash(b: Word, flow: Word, c: Word) returns (hash: Word)
    ensures hash == Hash(b, flow, c)
  {
    var lo := Or(Shr(c, 16), Shl(c, 16));
    var hi := Xor(c, Xor(flow, Shr(flow, 16)));
    hash := ZERO;
    hash := AddWhen(hash, b[0], lo);
    hash := AddWhen(hash, b[16], hi);
    FirstTerm(b, lo, hi, hash);
    lo := Xor(lo, Xor(flow, Shl(flow, 16)));
    hash := FiveTerms(b, lo, hi, hash, 1, flow, c);
    hash := FiveTerms(b, lo, hi, hash, 6, flow, c);
    hash := FiveTerms(b, lo, hi, hash, 11, flow, c);
  }

  method MaskAll(input: array<Word>, mask: array<Word>)
    requires input.Length == mask.Length == 11 && input != mask
    modifies input
    ensures input[..] == Masked(old(input[..]), mask[..])
  {
    var i := 0;
    while i < 11
      invariant 0 <= i <= 11
      invariant forall k :: 0 <= k < i ==> input[k] == And(old(input[k]), mask[k])
      invariant forall k :: i <= k < 11 ==> input[k] == old(input[k])
    {
      input[i] := And(input[i], mask[i]);
      i := i + 1;
    }
  }

  method JoinAll(input: array<Word>, ghost d: seq<Word>) returns (w: Word)
    requires input.Length == 11 && input[..] == d
    ensures w == Stream(d, 11)
  {
    w := input[1];
    XorZero(w);
    var i := 2;
    while i < 11
      invariant 2 <= i <= 11 && w == Stream(d, i)
    {
      w := Xor(w, input[i]);
      i := i + 1;
    }
  }

  /** IXGBE_COMPUTE_BKT_HASH_ITERATION, five times. */
  method FiveTerms(b: Word, lo: Word, hi: Word, hash: Word, n: nat, ghost flow: Word, ghost c: Word) returns (r: Word)
    requires 0 < n <= 11 && lo == Lo(flow, c) && hi == Hi(flow, c) && hash == Sum(b, flow, c, n)
    ensures r == Sum(b, flow, c, n + 5)
  {
    r := hash;
    var i := n;
    while i < n + 5
      invariant n <= i <= n + 5 && r == Sum(b, flow, c, i)
    {
      XorShift(r, When(b[i], Shr(lo, i)), When(b[i + 16], Shr(hi, i)));
      r := AddWhen(r, b[i], Shr(lo, i));
      r := AddWhen(r, b[i + 16], Shr(hi, i));
      i := i + 1;
    }
  }

  // ----- reversed port masks -----

  function Rest(i: nat, n: nat): nat { if i < n then i else i - n }

  /** Bit `i` lies in the lower of two neighbouring blocks of `k` bits: the masks 0x55555555,
      0x33333333, 0x0F0F0F0F and 0x00FF00FF. */
  predicate IsEven(i: nat, k: nat) {
    var r8 := Rest(i, 16);
    var r4 := Rest(r8, 8);
    var r2 := Rest(r4, 4);
    if k == 8 then r8 < 8 else if k == 4 then r4 < 4 else if k == 2 then r2 < 2 else Rest(r2, 2) < 1
  }

  function Evens(m: Word, k: nat): (r: Word)
    ensures forall i :: 0 <= i < 32 ==> r[i] == (IsEven(i, k) && m[i])
  {
    seq(32, i requires 0 <= i < 32 => IsEven(i, k) && m[i])
  }

  function Odds(m: Word, k: nat): (r: Word)
    ensures forall i :: 0 <= i < 32 ==> r[i] == (!IsEven(i, k) && m[i])
  {
    seq(32, i requires 0 <= i < 32 => !IsEven(i, k) && m[i])
  }

  /** Each block of `k` bits changes places with its neighbour, by masks and shifts. */
  function Swap(m: Word, k: nat): Word {
    Or(Shl(Evens(m, k), k), Shr(Odds(m, k), k))
  }

  function Partner(i: nat, k: nat): int {
    if IsEven(i, k) then i + k else i - k
  }

  lemma Neighbours(i: nat, k: nat)
    requires (k == 1 || k == 2 || k == 4 || k == 8) && i < 32
    ensures 0 <= Partner(i, k) < 32
    ensures i >= k ==> IsEven(i - k, k) == !IsEven(i, k)
    ensures i + k < 32 ==> IsEven(i + k, k) == !IsEven(i, k)
  {}

  lemma SwapAt(m: Word, k: nat, i: nat)
    requires (k == 1 || k == 2 || k == 4 || k == 8) && i < 32
    ensures 0 <= Partner(i, k) < 32 && Swap(m, k)[i] == m[Partner(i, k)]
  {
    Neighbours(i, k);
    var lower, upper := Evens(m, k), Odds(m, k);
    assert Swap(m, k)[i] == ((i >= k && lower[i - k]) || (i + k < 32 && upper[i + k]));
  }

  /** Changing places at every scale reverses each half. */
  lemma FourPartners(i: nat) returns (a: nat, b: nat, c: nat)
    requires i < 32
    ensures a == Partner(i, 8) < 32 && b == Partner(a, 4) < 32 && c == Partner(b, 2) < 32
    ensures Partner(c, 1) == if i < 16 then 15 - i else 47 - i
  {
    a := Partner(i, 8);
    b := Partner(a, 4);
    c := Partner(b, 2);
  }

  lemma FourSwaps(m: Word, i: nat)
    requires i < 32
    ensures Swap(Swap(Swap(Swap(m, 1), 2), 4), 8)[i] == m[if i < 16 then 15 - i else 47 - i]
  {
    var a, b, c := FourPartners(i);
    SwapAt(Swap(Swap(Swap(m, 1), 2), 4), 8, i);
    SwapAt(Swap(Swap(m, 1), 2), 4, a);
    SwapAt(Swap(m, 1), 2, b);
    SwapAt(m, 1, c);
  }

  /** `reverse_fdir_bitmasks`, and `ixgbe_get_fdirtcpm_82599` with the ports in host order. */
  method ReverseMasks(hi: Word, lo: Word) returns (r: Word)
    ensures r == Reversed(hi, lo)
  {
    r := Or(Shl(hi, 16), Field(lo, 0, 16));
    ghost var m := r;
    r := Swap(r, 1);
    r := Swap(r, 2);
    r := Swap(r, 4);
    r := Swap(r, 8);
    forall i | 0 <= i < 32 ensures r[i] == m[if i < 16 then 15 - i else 47 - i] {
      FourSwaps(m, i);
    }
    SwapsReverse(hi, lo, m, r);
  }

  lemma SwapsReverse(hi: Word, lo: Word, m: Word, r: Word)
    requires m == Or(Shl(hi, 16), Field(lo, 0, 16))
    requires forall i :: 0 <= i < 32 ==> r[i] == m[if i < 16 then 15 - i else 47 - i]
    ensures r == Reversed(hi, lo)
  {
    forall i | 0 <= i < 32 ensures r[i] == Reversed(hi, lo)[i] {
      HalvesAt(hi, lo, if i < 16 then 15 - i else 47 - i);
    }
  }

  lemma HalvesAt(hi: Word, lo: Word, i: nat)
    requires i < 32
    ensures Or(Shl(hi, 16), Field(lo, 0, 16))[i] == if i < 16 then lo[i] else hi[i - 16]
  {}

  /** Both 16-bit halves, each from its last bit to its first. */
  function Reversed(hi: Word, lo: Word): Word {
    seq(32, i requires 0 <= i < 32 => if i < 16 then lo[15 - i] else hi[31 - i])
  }

  /** Read from the other end, each half is the mask that it was made of. */
  lemma ReversedSpells(hi: Word, lo: Word)
    ensures Number(Reversed(hi, lo)[..16]) == Value(lo[..16]) && Number(Reversed(hi, lo)[16..]) == Value(hi[..16])
  {
    var r := Reversed(hi, lo);
    OtherEnd(lo[..16], r[..16]);
    OtherEnd(hi[..16], r[16..]);
  }

  /** Reversing twice gives the masks back. */
  lemma ReversedTwice(hi: Word, lo: Word)
    ensures var r := Reversed(hi, lo);
            Reversed(Shr(r, 16), r)[..16] == lo[..16] && Reversed(Shr(r, 16), r)[16..] == hi[..16]
  {}
}
