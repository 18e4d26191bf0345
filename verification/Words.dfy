/** 32-bit words as their bits, for hashes that are sums of shifted words. */
module Words {
  import opened Arithmetic

  type Word = w: seq<bool> | |w| == 32
    witness [false, false, false, false, false, false, false, false, false, false, false, false, false, false, false, false,
             false, false, false, false, false, false, false, false, false, false, false, false, false, false, false, false]

  const ZERO: Word :=
    [false, false, false, false, false, false, false, false, false, false, false, false, false, false, false, false,
     false, false, false, false, false, false, false, false, false, false, false, false, false, false, false, false]

  function Xor(a: Word, b: Word): (r: Word)
    ensures forall i :: 0 <= i < 32 ==> r[i] == (a[i] != b[i])
  {
    seq(32, i requires 0 <= i < 32 => a[i] != b[i])
  }

  lemma XorSwap(a: Word, b: Word)
    ensures Xor(a, b) == Xor(b, a)
  {}

  lemma XorShift(a: Word, b: Word, c: Word)
    ensures Xor(Xor(a, b), c) == Xor(a, Xor(b, c))
  {
    assert forall i :: 0 <= i < 32 ==> Xor(Xor(a, b), c)[i] == Xor(a, Xor(b, c))[i];
  }

  lemma XorZero(a: Word)
    ensures Xor(a, ZERO) == a && Xor(ZERO, a) == a
  {}

  /** The exclusive or of some bits. */
  function Parity(s: seq<bool>): bool {
    if s == [] then false else Parity(s[..|s| - 1]) != s[|s| - 1]
  }

  lemma ParitySnoc(s: seq<bool>, x: bool)
    ensures Parity(s + [x]) == (Parity(s) != x)
  {
    assert (s + [x])[..|s + [x]| - 1] == s;
  }

  lemma {:induction false} ParityConcat(a: seq<bool>, b: seq<bool>)
    ensures Parity(a + b) == (Parity(a) != Parity(b))
    decreases |b|
  {
    if b == [] {
      assert a + b == a;
    } else {
      var c, x := b[..|b| - 1], b[|b| - 1];
      ParityConcat(a, c);
      assert a + b == (a + c) + [x] && b == c + [x];
      ParitySnoc(a + c, x);
      ParitySnoc(c, x);
    }
  }

  lemma {:induction false} ParityXor(a: seq<bool>, b: seq<bool>, c: seq<bool>)
    requires |a| == |b| == |c| && forall i :: 0 <= i < |c| ==> c[i] == (a[i] != b[i])
    ensures Parity(c) == (Parity(a) != Parity(b))
    decreases |c|
  {
    if c != [] {
      ParityXor(a[..|a| - 1], b[..|b| - 1], c[..|c| - 1]);
    }
  }

  lemma {:induction false} ParityNone(s: seq<bool>)
    requires forall i :: 0 <= i < |s| ==> !s[i]
    ensures !Parity(s)
    decreases |s|
  {
    if s != [] {
      ParityNone(s[..|s| - 1]);
    }
  }

  // ----- bits as numbers -----

  /** The number that bits spell, the most significant first. */
  function Number(s: seq<bool>): nat {
    if s == [] then 0 else 2 * Number(s[..|s| - 1]) + if s[|s| - 1] then 1 else 0
  }

  lemma NumberSnoc(s: seq<bool>, x: bool)
    ensures Number(s + [x]) == 2 * Number(s) + if x then 1 else 0
  {
    assert (s + [x])[..|s + [x]| - 1] == s;
  }

  lemma {:induction false} NumberConcat(a: seq<bool>, b: seq<bool>)
    ensures Number(a + b) == Pow2(|b|) * Number(a) + Number(b)
    decreases |b|
  {
    if b == [] {
      assert a + b == a;
    } else {
      var c, x := b[..|b| - 1], b[|b| - 1];
      NumberConcat(a, c);
      assert a + b == (a + c) + [x] && b == c + [x];
      NumberStep(a, c, x);
    }
  }

  lemma NumberStep(a: seq<bool>, c: seq<bool>, x: bool)
    requires Number(a + c) == Pow2(|c|) * Number(a) + Number(c)
    ensures Number((a + c) + [x]) == Pow2(|c| + 1) * Number(a) + Number(c + [x])
  {
    NumberSnoc(a + c, x);
    NumberSnoc(c, x);
    Doubled(Pow2(|c|), Number(a));
  }

  /** The number that bits spell, the least significant first. */
  function Value(s: seq<bool>): nat {
    if s == [] then 0 else (if s[0] then 1 else 0) + 2 * Value(s[1..])
  }

  lemma {:induction false} ValueConcat(a: seq<bool>, b: seq<bool>)
    ensures Value(a + b) == Value(a) + Pow2(|a|) * Value(b)
    decreases |a|
  {
    if a == [] {
      assert a + b == b;
    } else {
      ValueConcat(a[1..], b);
      assert (a + b)[1..] == a[1..] + b;
      Doubled(Pow2(|a| - 1), Value(b));
    }
  }

  lemma {:induction false} OtherEnd(s: seq<bool>, t: seq<bool>)
    requires |s| == |t| && forall i :: 0 <= i < |t| ==> t[i] == s[|s| - 1 - i]
    ensures Number(t) == Value(s)
    decreases |s|
  {
    if s != [] { OtherEnd(s[1..], t[..|t| - 1]); }
  }

  lemma {:induction false} ValueBelow(s: seq<bool>)
    ensures Value(s) < Pow2(|s|)
    decreases |s|
  {
    if s != [] { ValueBelow(s[1..]); }
  }

  lemma {:induction false} ValueNone(s: seq<bool>)
    requires forall i :: 0 <= i < |s| ==> !s[i]
    ensures Value(s) == 0
    decreases |s|
  {
    if s != [] { ValueNone(s[1..]); }
  }
}
