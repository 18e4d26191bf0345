/** The Toeplitz hash of core/toeplitz.c: the table of byte results agrees with the bit-serial
    hash for messages of every length, and both directions of a flow hash alike.
    Words are read from the most significant bit. */
module Toeplitz {
  import opened Arithmetic
  import opened Words

  const SEEDS: nat := 2
  const NBBY: nat := 8

  // ----- bits of bytes -----

  /** Bit `b` of a byte, counted from the most significant. */
  predicate BitOf(val: nat, b: nat)
    requires b < NBBY
  {
    val / Pow2(NBBY - b - 1) % 2 == 1
  }

  // ----- the key -----

  /** The key repeats its two seed bytes for ever. */
  predicate KeyBit(seeds: seq<nat>, t: nat)
    requires |seeds| == SEEDS
  {
    BitOf(seeds[t / NBBY % SEEDS], t % NBBY)
  }

  /** The 32 key bits from `t` on. */
  function Window(seeds: seq<nat>, t: nat): Word
    requires |seeds| == SEEDS
  {
    seq(32, j requires 0 <= j < 32 => KeyBit(seeds, t + j))
  }

  lemma KeyBitPeriod(seeds: seq<nat>, t: nat, p: nat)
    requires |seeds| == SEEDS
    ensures KeyBit(seeds, p * NBBY + t) == KeyBit(seeds, p % SEEDS * NBBY + t)
  {
    var q := p / SEEDS;
    assert p == SEEDS * q + p % SEEDS;
    assert p * NBBY + t == 16 * q + (p % SEEDS * NBBY + t);
    Shift16(q, p % SEEDS * NBBY + t);
  }

  lemma Shift16(q: nat, u: nat)
    ensures (16 * q + u) / NBBY % SEEDS == u / NBBY % SEEDS && (16 * q + u) % NBBY == u % NBBY
  {}

  /** Windows repeat every two bytes. */
  lemma WindowPeriod(seeds: seq<nat>, p: nat, b: nat)
    requires |seeds| == SEEDS && b < NBBY
    ensures Window(seeds, p * NBBY + b) == Window(seeds, p % SEEDS * NBBY + b)
  {
    var v, w := Window(seeds, p * NBBY + b), Window(seeds, p % SEEDS * NBBY + b);
    forall j | 0 <= j < 32 ensures v[j] == w[j] {
      KeyBitPeriod(seeds, b + j, p);
    }
  }

  /** The window slides by one bit. */
  lemma WindowSlides(seeds: seq<nat>, t: nat)
    requires |seeds| == SEEDS
    ensures Window(seeds, t + 1) == Window(seeds, t)[1..] + [KeyBit(seeds, t + 32)]
  {}

  // ----- the bit-serial hash -----

  function Bits(val: nat): (s: seq<bool>)
    ensures |s| == NBBY
  {
    seq(NBBY, b requires 0 <= b < NBBY => BitOf(val, b))
  }

  function AllBits(msg: seq<nat>): seq<bool> {
    if msg == [] then [] else AllBits(msg[..|msg| - 1]) + Bits(msg[|msg| - 1])
  }

  /** The key's window after `n` bits of input: it moves on by one key bit after each. */
  function Sliding(seeds: seq<nat>, n: nat): Word
    requires |seeds| == SEEDS
  {
    if n == 0 then Window(seeds, 0) else Sliding(seeds, n - 1)[1..] + [KeyBit(seeds, n + 31)]
  }

  /** For each 1 bit of the input the window that stands there is added. */
  function Serial(seeds: seq<nat>, bits: seq<bool>): Word
    requires |seeds| == SEEDS
  {
    if bits == [] then ZERO
    else
      var r := Serial(seeds, bits[..|bits| - 1]);
      if bits[|bits| - 1] then Xor(r, Sliding(seeds, |bits| - 1)) else r
  }

  lemma {:induction false} SlidingIsWindow(seeds: seq<nat>, n: nat)
    requires |seeds| == SEEDS
    ensures Sliding(seeds, n) == Window(seeds, n)
  {
    if n > 0 {
      SlidingIsWindow(seeds, n - 1);
      WindowSlides(seeds, n - 1);
    }
  }

  // ----- what the bits stand for -----

  lemma BitsAt(val: nat, b: nat)
    requires b <= NBBY && val < 256
    ensures Number(Bits(val)[..b]) == val / Pow2(NBBY - b)
  {
    if b == 0 {
      Division(val, 0, val, Pow2(NBBY));
    } else {
      BitsAt(val, b - 1);
      assert Bits(val)[..b] == Bits(val)[..b - 1] + [BitOf(val, b - 1)];
      NumberSnoc(Bits(val)[..b - 1], BitOf(val, b - 1));
      Halves(val, Pow2(NBBY - b));
    }
  }

  /** The bits of a byte spell the byte, the most significant first. */
  lemma BitsSpell(val: nat)
    requires val < 256
    ensures Number(Bits(val)) == val
  {
    BitsAt(val, NBBY);
    assert Bits(val)[..NBBY] == Bits(val);
  }

  /** The key bits of byte `j`. */
  function KeyBits(seeds: seq<nat>, j: nat): seq<bool>
    requires |seeds| == SEEDS
  {
    seq(NBBY, b requires 0 <= b < NBBY => KeyBit(seeds, j * NBBY + b))
  }

  /** The key is the seed bytes in turn, each spelled from its most significant bit. */
  lemma KeySpells(seeds: seq<nat>, j: nat)
    requires |seeds| == SEEDS && forall k :: 0 <= k < SEEDS ==> seeds[k] < 256
    ensures Number(KeyBits(seeds, j)) == seeds[j % SEEDS]
  {
    var bits, val := KeyBits(seeds, j), seeds[j % SEEDS];
    forall b | 0 <= b < NBBY ensures bits[b] == Bits(val)[b] {
      Division(j * NBBY + b, j, b, NBBY);
      assert KeyBit(seeds, j * NBBY + b) == BitOf(val, b);
    }
    assert bits == Bits(val);
    BitsSpell(val);
  }

  /** The number that bytes spell in network order. */
  function BigEndian(msg: seq<nat>): nat {
    if msg == [] then 0 else 256 * BigEndian(msg[..|msg| - 1]) + msg[|msg| - 1]
  }

  /** The bits of a message spell it in network order: this is what the serial hash reads. */
  lemma {:induction false} MessageSpells(msg: seq<nat>)
    requires forall k :: 0 <= k < |msg| ==> msg[k] < 256
    ensures Number(AllBits(msg)) == BigEndian(msg)
    decreases |msg|
  {
    if msg != [] {
      MessageSpells(msg[..|msg| - 1]);
      BitsSpell(msg[|msg| - 1]);
      NumberConcat(AllBits(msg[..|msg| - 1]), Bits(msg[|msg| - 1]));
      assert Pow2(4) == 16 && Pow2(NBBY) == 256;
    }
  }

  // ----- the table -----

  /** `cache[i][val]`, after the first `b` bits of `val`. */
  function Entry(seeds: seq<nat>, i: nat, val: nat, b: nat): Word
    requires |seeds| == SEEDS && b <= NBBY
  {
    if b == 0 then ZERO
    else
      var r := Entry(seeds, i, val, b - 1);
      if BitOf(val, b - 1) then Xor(r, Window(seeds, i * NBBY + b - 1)) else r
  }

  /** The bytes of a message, each looked up in the table of its parity. */
  function Fast(seeds: seq<nat>, msg: seq<nat>): Word
    requires |seeds| == SEEDS
  {
    if msg == [] then ZERO
    else Xor(Fast(seeds, msg[..|msg| - 1]), Entry(seeds, (|msg| - 1) % SEEDS, msg[|msg| - 1], NBBY))
  }

  lemma SerialNext(seeds: seq<nat>, bits: seq<bool>, x: bool)
    requires |seeds| == SEEDS
    ensures Serial(seeds, bits + [x]) ==
            if x then Xor(Serial(seeds, bits), Window(seeds, |bits|)) else Serial(seeds, bits)
  {
    var longer := bits + [x];
    assert longer[..|longer| - 1] == bits && longer[|longer| - 1] == x;
    SlidingIsWindow(seeds, |bits|);
  }

  /** One more bit of a byte, in both hashes. */
  lemma ByteBit(seeds: seq<nat>, r: Word, p: nat, val: nat, b: nat)
    requires |seeds| == SEEDS && b < NBBY
    ensures var e, w := Entry(seeds, p % SEEDS, val, b), Window(seeds, p * NBBY + b);
            (if BitOf(val, b) then Xor(Xor(r, e), w) else Xor(r, e)) == Xor(r, Entry(seeds, p % SEEDS, val, b + 1))
  {
    WindowPeriod(seeds, p, b);
    XorShift(r, Entry(seeds, p % SEEDS, val, b), Window(seeds, p * NBBY + b));
  }

  lemma SerialBit(seeds: seq<nat>, shorter: seq<bool>, r: Word, p: nat, val: nat, b: nat)
    requires |seeds| == SEEDS && b < NBBY && |shorter| == p * NBBY + b
    requires Serial(seeds, shorter) == Xor(r, Entry(seeds, p % SEEDS, val, b))
    ensures Serial(seeds, shorter + [BitOf(val, b)]) == Xor(r, Entry(seeds, p % SEEDS, val, b + 1))
  {
    SerialNext(seeds, shorter, BitOf(val, b));
    ByteBit(seeds, r, p, val, b);
  }

  lemma BitsSnoc(before: seq<bool>, val: nat, b: nat)
    requires b < NBBY
    ensures before + Bits(val)[..b + 1] == (before + Bits(val)[..b]) + [BitOf(val, b)]
  {}

  lemma {:induction false} SerialByte(seeds: seq<nat>, before: seq<bool>, p: nat, val: nat, b: nat)
    requires |seeds| == SEEDS && |before| == p * NBBY && b <= NBBY
    ensures Serial(seeds, before + Bits(val)[..b]) == Xor(Serial(seeds, before), Entry(seeds, p % SEEDS, val, b))
    decreases b
  {
    if b == 0 {
      assert before + Bits(val)[..0] == before;
      XorZero(Serial(seeds, before));
    } else {
      SerialByte(seeds, before, p, val, b - 1);
      BitsSnoc(before, val, b - 1);
      SerialBit(seeds, before + Bits(val)[..b - 1], Serial(seeds, before), p, val, b - 1);
    }
  }

  /** For every message, the table hash is the bit-serial hash. */
  lemma {:induction false} FastIsSerial(seeds: seq<nat>, msg: seq<nat>)
    requires |seeds| == SEEDS
    ensures |AllBits(msg)| == |msg| * NBBY
    ensures Serial(seeds, AllBits(msg)) == Fast(seeds, msg)
    decreases |msg|
  {
    if msg != [] {
      var init, last, p := msg[..|msg| - 1], msg[|msg| - 1], |msg| - 1;
      FastIsSerial(seeds, init);
      SerialByte(seeds, AllBits(init), p, last, NBBY);
      assert Bits(last)[..NBBY] == Bits(last);
    }
  }

  // ----- toeplitz_rawhash_addrport -----

  /** The message that the hash is taken of: addresses and ports as they lie in memory. */
  function Message(faddr: nat, laddr: nat, fport: nat, lport: nat): seq<nat> {
    [faddr % 256, faddr / 0x100 % 256, faddr / 0x1_0000 % 256, faddr / 0x100_0000 % 256,
     laddr % 256, laddr / 0x100 % 256, laddr / 0x1_0000 % 256, laddr / 0x100_0000 % 256,
     fport % 256, fport / 0x100 % 256, lport % 256, lport / 0x100 % 256]
  }

  /** The number that bytes spell in memory, the lowest first. */
  function LittleEndian(m: seq<nat>): nat { if m == [] then 0 else m[0] + 256 * LittleEndian(m[1..]) }

  /** The message is the bytes of the four fields, as a little-endian machine stores them: twelve
      bytes from which each field can be read back. */
  lemma MessageReads(faddr: nat, laddr: nat, fport: nat, lport: nat)
    requires faddr < 0x1_0000_0000 && laddr < 0x1_0000_0000 && fport < 0x1_0000 && lport < 0x1_0000
    ensures var m := Message(faddr, laddr, fport, lport);
            && |m| == 12 && (forall k :: 0 <= k < 12 ==> m[k] < 256)
            && LittleEndian(m[..4]) == faddr && LittleEndian(m[4..8]) == laddr
            && LittleEndian(m[8..10]) == fport && LittleEndian(m[10..]) == lport
  {
    var m := Message(faddr, laddr, fport, lport);
    FieldReads(m, 0, faddr);
    FieldReads(m, 4, laddr);
    PortReads(m, 8, fport);
    PortReads(m, 10, lport);
    assert m[0..4] == m[..4] && m[10..12] == m[10..];
  }

  lemma FieldReads(m: seq<nat>, i: nat, x: nat)
    requires i + 4 <= |m| && x < 0x1_0000_0000
    requires m[i] == x % 256 && m[i + 1] == x / 0x100 % 256 && m[i + 2] == x / 0x1_0000 % 256 && m[i + 3] == x / 0x100_0000 % 256
    ensures LittleEndian(m[i..i + 4]) == x
  {
    FourBytes(m, i);
    Bytes(x);
  }

  lemma PortReads(m: seq<nat>, i: nat, x: nat)
    requires i + 2 <= |m| && x < 0x1_0000 && m[i] == x % 256 && m[i + 1] == x / 0x100 % 256
    ensures LittleEndian(m[i..i + 2]) == x
  {
    TwoBytes(m, i);
  }

  lemma TwoBytes(m: seq<nat>, i: nat)
    requires i + 2 <= |m|
    ensures LittleEndian(m[i..i + 2]) == m[i] + 256 * m[i + 1]
  {
    assert m[i..i + 2][1..] == [m[i + 1]] && [m[i + 1]][1..] == [];
    assert LittleEndian([m[i + 1]]) == m[i + 1];
  }

  lemma FourBytes(m: seq<nat>, i: nat)
    requires i + 4 <= |m|
    ensures LittleEndian(m[i..i + 4]) == m[i] + 256 * (m[i + 1] + 256 * (m[i + 2] + 256 * m[i + 3]))
  {
    TwoBytes(m, i + 2);
    assert m[i..i + 4][1..] == m[i + 1..i + 4] && m[i + 1..i + 4][1..] == m[i + 2..i + 4];
    assert LittleEndian(m[i + 1..i + 4]) == m[i + 1] + 256 * LittleEndian(m[i + 2..i + 4]);
  }

  lemma Bytes(n: nat)
    requires n < 0x1_0000_0000
    ensures n % 256 + 256 * (n / 0x100 % 256 + 256 * (n / 0x1_0000 % 256 + 256 * (n / 0x100_0000 % 256))) == n
  {}

  /** The table entry of each byte. */
  function Entries(seeds: seq<nat>, m: seq<nat>): (e: seq<Word>)
    requires |seeds| == SEEDS
    ensures |e| == |m|
  {
    seq(|m|, k requires 0 <= k < |m| => Entry(seeds, k % SEEDS, m[k], NBBY))
  }

  /** The order in which the code adds twelve entries: the even places, then the odd ones. */
  function CodeOrder(e: seq<Word>): Word
    requires |e| == 12
  {
    var even := Xor(Xor(Xor(Xor(Xor(e[0], e[2]), e[4]), e[6]), e[8]), e[10]);
    Xor(Xor(Xor(Xor(Xor(Xor(even, e[1]), e[3]), e[5]), e[7]), e[9]), e[11])
  }

  function Raw(seeds: seq<nat>, faddr: nat, laddr: nat, fport: nat, lport: nat): Word
    requires |seeds| == SEEDS
  {
    CodeOrder(Entries(seeds, Message(faddr, laddr, fport, lport)))
  }

  /** Addresses exchanged, and ports exchanged. */
  function Swapped<T>(m: seq<T>): seq<T>
    requires |m| == 12
  {
    m[4..8] + m[..4] + m[10..] + m[8..10]
  }

  lemma CodeOrderSwaps(e: seq<Word>, f: seq<Word>)
    requires |e| == 12 && f == Swapped(e)
    ensures CodeOrder(e) == CodeOrder(f)
  {
    var a, b := CodeOrder(e), CodeOrder(f);
    forall i | 0 <= i < 32 ensures a[i] == b[i] {}
  }

  /** Both directions of a flow get the same hash. */
  lemma Symmetric(seeds: seq<nat>, faddr: nat, laddr: nat, fport: nat, lport: nat)
    requires |seeds| == SEEDS
    ensures Raw(seeds, faddr, laddr, fport, lport) == Raw(seeds, laddr, faddr, lport, fport)
  {
    var m := Message(faddr, laddr, fport, lport);
    MessageSwap(faddr, laddr, fport, lport);
    EntriesSwap(seeds, m);
    CodeOrderSwaps(Entries(seeds, m), Swapped(Entries(seeds, m)));
  }

  lemma MessageSwap(faddr: nat, laddr: nat, fport: nat, lport: nat)
    ensures Message(laddr, faddr, lport, fport) == Swapped(Message(faddr, laddr, fport, lport))
  {
    var m, n := Message(faddr, laddr, fport, lport), Message(laddr, faddr, lport, fport);
    assert m[..4] == n[4..8] && m[4..8] == n[..4] && m[8..10] == n[10..] && m[10..] == n[8..10];
    assert n == n[..4] + n[4..8] + n[8..10] + n[10..];
  }

  lemma EntriesSwap(seeds: seq<nat>, m: seq<nat>)
    requires |seeds| == SEEDS && |m| == 12
    ensures Entries(seeds, Swapped(m)) == Swapped(Entries(seeds, m))
  {}

  function Chain(e: seq<Word>, n: nat): Word
    requires n <= |e|
  {
    if n == 0 then ZERO else Xor(Chain(e, n - 1), e[n - 1])
  }

  /** The order in which the entries are added does not matter. */
  lemma CodeOrderIsChain(e: seq<Word>)
    requires |e| == 12
    ensures CodeOrder(e) == Chain(e, 12)
  {
    var a, b := CodeOrder(e), Chain(e, 12);
    forall i | 0 <= i < 32 ensures a[i] == b[i] {
      var x := Column(e, i);
      ChainBit(e, 12, i);
      assert x[..12] == x;
      ParityOfTwelve(x);
      CodeOrderBit(e, i);
    }
  }

  /** Bit `i` of every word. */
  function Column(e: seq<Word>, i: nat): (x: seq<bool>)
    requires i < 32
    ensures |x| == |e| && forall k :: 0 <= k < |e| ==> x[k] == e[k][i]
  {
    seq(|e|, k requires 0 <= k < |e| => e[k][i])
  }

  lemma {:induction false} ChainBit(e: seq<Word>, n: nat, i: nat)
    requires n <= |e| && i < 32
    ensures Chain(e, n)[i] == Parity(Column(e, i)[..n])
  {
    if n > 0 {
      ChainBit(e, n - 1, i);
      assert Column(e, i)[..n] == Column(e, i)[..n - 1] + [e[n - 1][i]];
      ParitySnoc(Column(e, i)[..n - 1], e[n - 1][i]);
    }
  }

  /** The parity of the even places and of the odd ones. */
  lemma ParityOfTwelve(x: seq<bool>)
    requires |x| == 12
    ensures Parity(x) == (((((((((((x[0] != x[2]) != x[4]) != x[6]) != x[8]) != x[10]) != x[1]) != x[3]) != x[5]) != x[7]) != x[9]) != x[11])
  {
    var a, b, c := [x[0], x[1], x[2], x[3]], [x[4], x[5], x[6], x[7]], [x[8], x[9], x[10], x[11]];
    assert x == a + b + c;
    ParityConcat(a + b, c);
    ParityConcat(a, b);
    ParityOfFour(a);
    ParityOfFour(b);
    ParityOfFour(c);
  }

  lemma ParityOfFour(x: seq<bool>)
    requires |x| == 4
    ensures Parity(x) == (((x[0] != x[1]) != x[2]) != x[3])
  {
    assert x == [x[0], x[1]] + [x[2], x[3]];
    ParityConcat([x[0], x[1]], [x[2], x[3]]);
    ParityOfTwo(x[0], x[1]);
    ParityOfTwo(x[2], x[3]);
  }

  lemma ParityOfTwo(a: bool, b: bool)
    ensures Parity([a, b]) == (a != b)
  {
    assert [a, b] == [a] + [b];
    ParitySnoc([a], b);
  }

  lemma CodeOrderBit(e: seq<Word>, i: nat)
    requires |e| == 12 && i < 32
    ensures CodeOrder(e)[i] == (((((((((((e[0][i] != e[2][i]) != e[4][i]) != e[6][i]) != e[8][i]) != e[10][i]) != e[1][i])
                                     != e[3][i]) != e[5][i]) != e[7][i]) != e[9][i]) != e[11][i])
  {}

  lemma {:induction false} ChainPrefix(e: seq<Word>, f: seq<Word>, n: nat)
    requires n <= |e| && n <= |f| && e[..n] == f[..n]
    ensures Chain(e, n) == Chain(f, n)
    decreases n
  {
    if n > 0 {
      assert e[..n][..n - 1] == e[..n - 1] && f[..n][..n - 1] == f[..n - 1] && e[..n][n - 1] == e[n - 1];
      ChainPrefix(e, f, n - 1);
    }
  }

  lemma {:induction false} FastIsChain(seeds: seq<nat>, m: seq<nat>)
    requires |seeds| == SEEDS
    ensures Fast(seeds, m) == Chain(Entries(seeds, m), |m|)
    decreases |m|
  {
    if m != [] {
      var e, f := Entries(seeds, m), Entries(seeds, m[..|m| - 1]);
      FastIsChain(seeds, m[..|m| - 1]);
      assert e[..|m| - 1] == f[..|m| - 1];
      ChainPrefix(e, f, |m| - 1);
    }
  }

  /** The twelve lookups are the bit-serial hash of the message. */
  lemma RawIsSerial(seeds: seq<nat>, faddr: nat, laddr: nat, fport: nat, lport: nat)
    requires |seeds| == SEEDS
    ensures Raw(seeds, faddr, laddr, fport, lport) == Serial(seeds, AllBits(Message(faddr, laddr, fport, lport)))
  {
    var m := Message(faddr, laddr, fport, lport);
    FastIsSerial(seeds, m);
    FastIsChain(seeds, m);
    CodeOrderIsChain(Entries(seeds, m));
  }

  // ----- filling the tables -----

  /** `toeplitz_get_key`. */
  method GetKey(key: array<nat>, seeds: seq<nat>)
    requires |seeds| == SEEDS
    modifies key
    ensures forall k :: 0 <= k < key.Length ==> key[k] == seeds[k % SEEDS]
  {
    var i := 0;
    while i < key.Length
      invariant 0 <= i <= key.Length && forall k :: 0 <= k < i ==> key[k] == seeds[k % SEEDS]
    {
      key[i] := seeds[i % SEEDS];
      i := i + 1;
    }
  }

  /** The 32-bit keys for one byte position, one for each bit. */
  method ByteKeys(keyStr: array<nat>, i: nat, seeds: seq<nat>) returns (key: seq<Word>)
    requires |seeds| == SEEDS && i < SEEDS && keyStr.Length == 6
    requires forall k :: 0 <= k < keyStr.Length ==> keyStr[k] == seeds[k % SEEDS]
    ensures |key| == NBBY && forall b :: 0 <= b < NBBY ==> key[b] == Window(seeds, i * NBBY + b)
  {
    key := seq(NBBY, b => ZERO);
    var b := 0;
    while b < NBBY
      invariant 0 <= b <= NBBY && |key| == NBBY
      invariant forall c :: 0 <= c < b ==> key[c] == Window(seeds, i * NBBY + c)
      invariant forall c :: b <= c < NBBY ==> key[c] == ZERO
    {
      var j := 0;
      while j < 32
        invariant 0 <= j <= 32 && |key| == NBBY
        invariant forall c :: 0 <= c < b ==> key[c] == Window(seeds, i * NBBY + c)
        invariant forall c :: b < c < NBBY ==> key[c] == ZERO
        invariant forall k :: 0 <= k < 32 ==> key[b][k] == (k < j && KeyBit(seeds, i * NBBY + b + k))
      {
        var bit := i * NBBY + b + j;
        if BitOf(keyStr[bit / NBBY], bit % NBBY) {
          key := key[b := key[b][j := true]];
        }
        j := j + 1;
      }
      assert key[b] == Window(seeds, i * NBBY + b);
      b := b + 1;
    }
  }

  /** `toeplitz_cache_create`. */
  method CacheCreate(cache: array2<Word>, keyStr: array<nat>, seeds: seq<nat>)
    requires |seeds| == SEEDS && cache.Length0 == SEEDS && cache.Length1 == 256 && keyStr.Length == 6
    requires forall k :: 0 <= k < keyStr.Length ==> keyStr[k] == seeds[k % SEEDS]
    modifies cache
    ensures forall i, v :: 0 <= i < SEEDS && 0 <= v < 256 ==> cache[i, v] == Entry(seeds, i, v, NBBY)
  {
    var i := 0;
    while i < SEEDS
      invariant 0 <= i <= SEEDS
      invariant forall k, v :: 0 <= k < i && 0 <= v < 256 ==> cache[k, v] == Entry(seeds, k, v, NBBY)
    {
      var key := ByteKeys(keyStr, i, seeds);
      var val := 0;
      while val < 256
        invariant 0 <= val <= 256
        invariant forall k, v :: 0 <= k < i && 0 <= v < 256 ==> cache[k, v] == Entry(seeds, k, v, NBBY)
        invariant forall v :: 0 <= v < val ==> cache[i, v] == Entry(seeds, i, v, NBBY)
      {
        var res := ByteResult(key, i, val, seeds);
        cache[i, val] := res;
        val := val + 1;
      }
      i := i + 1;
    }
  }

  /** The result for one byte value. */
  method ByteResult(key: seq<Word>, i: nat, val: nat, ghost seeds: seq<nat>) returns (res: Word)
    requires |seeds| == SEEDS && |key| == NBBY && forall b :: 0 <= b < NBBY ==> key[b] == Window(seeds, i * NBBY + b)
    ensures res == Entry(seeds, i, val, NBBY)
  {
    res := ZERO;
    var b := 0;
    while b < NBBY
      invariant 0 <= b <= NBBY && res == Entry(seeds, i, val, b)
    {
      if BitOf(val, b) {
        res := Xor(res, key[b]);
      }
      b := b + 1;
    }
  }
}
