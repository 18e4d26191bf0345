/** The generic flow director hash, bit by bit: each of its 16 low bits is an exclusive or of
    products of stream bits and key bits, as the algorithm is described in ixgbe/ixgbe_fdir.c. */
module AtrStream {
  import opened Words
  import opened AtrHash

  // ----- products of words -----

  /** The exclusive or of the products of their bits. */
  function Dot(w: Word, k: Word): bool { Parity(And(w, k)) }

  lemma DotXor(u: Word, v: Word, k: Word)
    ensures Dot(Xor(u, v), k) == (Dot(u, k) != Dot(v, k))
  {
    ParityXor(And(u, k), And(v, k), And(Xor(u, v), k));
  }

  lemma DotZero(k: Word)
    ensures !Dot(ZERO, k)
  {
    ParityNone(And(ZERO, k));
  }

  /** The key bits that bit `b` of the hash takes of a stream dword: K[n + 16] down to K[n + 1],
      read as a 16-bit string, has key bit `n + 16 - b` at place `b`. */
  function KeyAt(key: Word, b: nat): Word
    requires b < 16
  {
    seq(32, j requires 0 <= j < 32 => key[if j + 16 - b < 32 then j + 16 - b else j - 16 - b])
  }

  /** The two key words for the dword of flow type, pool and VLAN, which stands where the stream
      wraps: it is added to both halves, and bit 0 of the key does not see it. */
  function KeyUp(key: Word, b: nat): Word
    requires b < 16
  {
    seq(32, j requires 0 <= j < 32 => j > b && key[j - b])
  }

  function KeyBack(key: Word, b: nat): Word
    requires b < 16
  {
    seq(32, j requires 0 <= j < 32 => j + 16 - b < 32 && key[j + 16 - b])
  }

  // ----- the hash by key bits -----

  /** What key bits `n` and `n + 16` add to bit `b`. */
  function LowPart(key: Word, flow: Word, c: Word, b: nat, n: nat): bool
    requires b < 16 && n < 16
  {
    key[n] && (if n == 0 then Lo0(c) else Lo(flow, c))[n + b]
  }

  function HighPart(key: Word, flow: Word, c: Word, b: nat, n: nat): bool
    requires b < 16 && n < 16
  {
    key[n + 16] && Hi(flow, c)[n + b]
  }

  function Lows(key: Word, flow: Word, c: Word, b: nat, n: nat): seq<bool>
    requires b < 16 && n <= 16
  {
    seq(n, i requires 0 <= i < n => LowPart(key, flow, c, b, i))
  }

  function Highs(key: Word, flow: Word, c: Word, b: nat, n: nat): seq<bool>
    requires b < 16 && n <= 16
  {
    seq(n, i requires 0 <= i < n => HighPart(key, flow, c, b, i))
  }

  lemma TermBit(key: Word, lo: Word, hi: Word, n: nat, b: nat)
    requires n < 16 && b < 16
    ensures Term(key, lo, hi, n)[b] == ((key[n] && lo[n + b]) != (key[n + 16] && hi[n + b]))
  {
    assert Shr(lo, n)[b] == lo[n + b] && Shr(hi, n)[b] == hi[n + b];
  }

  lemma LowsNext(key: Word, flow: Word, c: Word, b: nat, n: nat)
    requires 0 < n <= 16 && b < 16
    ensures Parity(Lows(key, flow, c, b, n)) == (Parity(Lows(key, flow, c, b, n - 1)) != LowPart(key, flow, c, b, n - 1))
  {
    ParitySnoc(Lows(key, flow, c, b, n - 1), LowPart(key, flow, c, b, n - 1));
    assert Lows(key, flow, c, b, n) == Lows(key, flow, c, b, n - 1) + [LowPart(key, flow, c, b, n - 1)];
  }

  lemma HighsNext(key: Word, flow: Word, c: Word, b: nat, n: nat)
    requires 0 < n <= 16 && b < 16
    ensures Parity(Highs(key, flow, c, b, n)) == (Parity(Highs(key, flow, c, b, n - 1)) != HighPart(key, flow, c, b, n - 1))
  {
    ParitySnoc(Highs(key, flow, c, b, n - 1), HighPart(key, flow, c, b, n - 1));
    assert Highs(key, flow, c, b, n) == Highs(key, flow, c, b, n - 1) + [HighPart(key, flow, c, b, n - 1)];
  }

  function Added(key: Word, flow: Word, c: Word, n: nat): Word
    requires n < 16
  {
    Term(key, if n == 0 then Lo0(c) else Lo(flow, c), Hi(flow, c), n)
  }

  lemma TermParts(key: Word, flow: Word, c: Word, b: nat, n: nat)
    requires b < 16 && n < 16
    ensures Added(key, flow, c, n)[b] == (LowPart(key, flow, c, b, n) != HighPart(key, flow, c, b, n))
  {
    TermBit(key, if n == 0 then Lo0(c) else Lo(flow, c), Hi(flow, c), n, b);
  }

  lemma XorBit(x: Word, y: Word, b: nat)
    requires b < 32
    ensures Xor(x, y)[b] == (x[b] != y[b])
  {}

  /** What the first `n` key bits of one half add to bit `b`. */
  function LowSum(key: Word, flow: Word, c: Word, b: nat, n: nat): bool
    requires b < 16 && n <= 16
  {
    n > 0 && LowSum(key, flow, c, b, n - 1) != LowPart(key, flow, c, b, n - 1)
  }

  function HighSum(key: Word, flow: Word, c: Word, b: nat, n: nat): bool
    requires b < 16 && n <= 16
  {
    n > 0 && HighSum(key, flow, c, b, n - 1) != HighPart(key, flow, c, b, n - 1)
  }

  lemma {:induction false} LowParity(key: Word, flow: Word, c: Word, b: nat, n: nat)
    requires n <= 16 && b < 16
    ensures Parity(Lows(key, flow, c, b, n)) == LowSum(key, flow, c, b, n)
    decreases n
  {
    if n > 0 {
      LowParity(key, flow, c, b, n - 1);
      LowsNext(key, flow, c, b, n);
    }
  }

  lemma {:induction false} HighParity(key: Word, flow: Word, c: Word, b: nat, n: nat)
    requires n <= 16 && b < 16
    ensures Parity(Highs(key, flow, c, b, n)) == HighSum(key, flow, c, b, n)
    decreases n
  {
    if n > 0 {
      HighParity(key, flow, c, b, n - 1);
      HighsNext(key, flow, c, b, n);
    }
  }

  lemma {:induction false} SumBit(key: Word, flow: Word, c: Word, n: nat, b: nat)
    requires 0 < n <= 16 && b < 16
    ensures Sum(key, flow, c, n)[b] == (LowSum(key, flow, c, b, n) != HighSum(key, flow, c, b, n))
    decreases n
  {
    TermParts(key, flow, c, b, n - 1);
    if n > 1 {
      SumBit(key, flow, c, n - 1, b);
      XorBit(Sum(key, flow, c, n - 1), Added(key, flow, c, n - 1), b);
    }
  }

  lemma SumParity(key: Word, flow: Word, c: Word, n: nat, b: nat)
    requires 0 < n <= 16 && b < 16
    ensures Sum(key, flow, c, n)[b] == (Parity(Lows(key, flow, c, b, n)) != Parity(Highs(key, flow, c, b, n)))
  {
    SumBit(key, flow, c, n, b);
    LowParity(key, flow, c, b, n);
    HighParity(key, flow, c, b, n);
  }

  // ----- the hash by stream bits -----

  /** Key bit `i` meets the common dword at `i + b + 16`, around the end. */
  function Common(key: Word, c: Word, b: nat): (s: seq<bool>)
    requires b < 16
    ensures |s| == 32
  {
    seq(32, i requires 0 <= i < 32 => key[i] && c[if i + b + 16 < 32 then i + b + 16 else i + b - 16])
  }

  function Up(key: Word, flow: Word, b: nat): (s: seq<bool>)
    requires b < 16
    ensures |s| == 32
  {
    seq(32, i requires 0 <= i < 32 => key[i] && i > 0 && i + b < 32 && flow[i + b])
  }

  function Back(key: Word, flow: Word, b: nat): (s: seq<bool>)
    requires b < 16
    ensures |s| == 32
  {
    seq(32, i requires 0 <= i < 32 => key[i] && i + b >= 16 && flow[i + b - 16])
  }

  /** The sums over the low and the high key bits, taken apart by dwords. */
  lemma Apart(key: Word, flow: Word, c: Word, b: nat, all: seq<bool>)
    requires b < 16 && all == Lows(key, flow, c, b, 16) + Highs(key, flow, c, b, 16)
    ensures |all| == 32
    ensures forall i :: 0 <= i < 32 ==> all[i] == (Common(key, c, b)[i] != (Up(key, flow, b)[i] != Back(key, flow, b)[i]))
  {
    forall i | 0 <= i < 32 ensures all[i] == (Common(key, c, b)[i] != (Up(key, flow, b)[i] != Back(key, flow, b)[i])) {
      if i < 16 {
        LowBit(flow, c, i + b);
      } else {
        HighBit(flow, c, i - 16 + b);
      }
    }
  }

  lemma LowBit(flow: Word, c: Word, p: nat)
    requires p < 32
    ensures Lo0(c)[p] == c[if p < 16 then p + 16 else p - 16]
    ensures Lo(flow, c)[p] == (Lo0(c)[p] != (flow[p] != (p >= 16 && flow[p - 16])))
  {}

  lemma HighBit(flow: Word, c: Word, p: nat)
    requires p < 32
    ensures Hi(flow, c)[p] == (c[p] != (flow[p] != (p + 16 < 32 && flow[p + 16])))
  {}

  /** Turning a sequence, or moving it among zeros, keeps its parity. */
  lemma Turned(s: seq<bool>, t: seq<bool>, k: nat)
    requires k <= |s| && t == s[k..] + s[..k]
    ensures Parity(t) == Parity(s)
  {
    ParityConcat(s[k..], s[..k]);
    ParityConcat(s[..k], s[k..]);
    assert s == s[..k] + s[k..];
  }

  lemma Moved(s: seq<bool>, t: seq<bool>, a: nat, b: nat, n: nat)
    requires a + n <= |s| && b + n <= |t| && s[a..a + n] == t[b..b + n]
    requires forall i :: 0 <= i < |s| && !(a <= i < a + n) ==> !s[i]
    requires forall i :: 0 <= i < |t| && !(b <= i < b + n) ==> !t[i]
    ensures Parity(s) == Parity(t)
  {
    Inside(s, a, n);
    Inside(t, b, n);
  }

  lemma Inside(s: seq<bool>, a: nat, n: nat)
    requires a + n <= |s| && forall i :: 0 <= i < |s| && !(a <= i < a + n) ==> !s[i]
    ensures Parity(s) == Parity(s[a..a + n])
  {
    assert s == s[..a] + (s[a..a + n] + s[a + n..]);
    ParityConcat(s[..a], s[a..a + n] + s[a + n..]);
    ParityConcat(s[a..a + n], s[a + n..]);
    ParityNone(s[..a]);
    ParityNone(s[a + n..]);
  }

  lemma CommonDot(key: Word, c: Word, b: nat)
    requires b < 16
    ensures Parity(Common(key, c, b)) == Dot(c, KeyAt(key, b))
  {
    Turned(And(c, KeyAt(key, b)), Common(key, c, b), b + 16);
  }

  lemma UpDot(key: Word, flow: Word, b: nat)
    requires b < 16
    ensures Parity(Up(key, flow, b)) == Dot(flow, KeyUp(key, b))
  {
    Moved(Up(key, flow, b), And(flow, KeyUp(key, b)), 1, b + 1, 31 - b);
  }

  lemma BackDot(key: Word, flow: Word, b: nat)
    requires b < 16
    ensures Parity(Back(key, flow, b)) == Dot(flow, KeyBack(key, b))
  {
    Moved(Back(key, flow, b), And(flow, KeyBack(key, b)), 16 - b, 0, 16 + b);
  }

  lemma HashBit(key: Word, flow: Word, c: Word, b: nat)
    requires b < 16
    ensures Hash(key, flow, c)[b] == (Dot(c, KeyAt(key, b)) != (Dot(flow, KeyUp(key, b)) != Dot(flow, KeyBack(key, b))))
  {
    var lows, highs := Lows(key, flow, c, b, 16), Highs(key, flow, c, b, 16);
    SumParity(key, flow, c, 16, b);
    ParityConcat(lows, highs);
    Apart(key, flow, c, b, lows + highs);
    var both := seq(32, i requires 0 <= i < 32 => Up(key, flow, b)[i] != Back(key, flow, b)[i]);
    ParityXor(Up(key, flow, b), Back(key, flow, b), both);
    ParityXor(Common(key, c, b), both, lows + highs);
    CommonDot(key, c, b);
    UpDot(key, flow, b);
    BackDot(key, flow, b);
  }

  // ----- the whole stream -----

  /** The sum over the bits of dwords 1 to `i - 1`. */
  function StreamDot(d: seq<Word>, k: Word, i: nat): bool
    requires i <= |d|
  {
    i > 1 && StreamDot(d, k, i - 1) != Dot(Ntohl(d[i - 1]), k)
  }

  lemma NtohlXor(u: Word, v: Word)
    ensures Ntohl(Xor(u, v)) == Xor(Ntohl(u), Ntohl(v))
  {}

  lemma {:induction false} StreamBits(d: seq<Word>, k: Word, i: nat)
    requires i <= |d|
    ensures Dot(Ntohl(Stream(d, i)), k) == StreamDot(d, k, i)
  {
    if i <= 1 {
      assert Ntohl(ZERO) == ZERO;
      DotZero(k);
    } else {
      StreamBits(d, k, i - 1);
      NtohlXor(Stream(d, i - 1), d[i - 1]);
      DotXor(Ntohl(Stream(d, i - 1)), Ntohl(d[i - 1]), k);
    }
  }

  /** For every input and key, bit `b` of the hash is the exclusive or, over the bits of the ten
      dwords of addresses and ports, of S[n] and K[n + 16] at place `b`, and of the products that
      belong to the dword of flow type, pool and VLAN. */
  lemma HashByDefinition(key: Word, d: seq<Word>, b: nat)
    requires |d| == 11 && b < 16
    ensures HashOf(key, d)[b] == (StreamDot(d, KeyAt(key, b), 11) !=
                                  (Dot(Ntohl(d[0]), KeyUp(key, b)) != Dot(Ntohl(d[0]), KeyBack(key, b))))
  {
    HashBit(key, Ntohl(d[0]), Ntohl(Stream(d, 11)), b);
    StreamBits(d, KeyAt(key, b), 11);
  }
}
