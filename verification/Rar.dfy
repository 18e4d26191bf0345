/** Receive address registers and their pools (ixgbe/ixgbe_common.c). */
module Rar {

  /** One receive address register: RAL, the address part of RAH, its valid bit and its other
      bits, and the pools in MPSAR_LO and MPSAR_HI. */
  datatype Entry = Entry(low: nat, high: nat, valid: bool, rest: nat, pools: set<nat>)

  datatype Table = Table(entries: seq<Entry>, highwater: nat)

  /** A pool number, or IXGBE_CLEAR_VMDQ_ALL. */
  datatype Which = All | One(pool: nat)

  datatype Result = Ok | ErrInvalidArgument

  // ----- addresses -----

  type Mac = a: seq<nat> | |a| == 6 && forall i :: 0 <= i < 6 ==> a[i] < 256
    witness [0, 0, 0, 0, 0, 0]

  function Low(a: Mac): nat { a[0] + 0x100 * a[1] + 0x1_0000 * a[2] + 0x100_0000 * a[3] }

  function High(a: Mac): nat { a[4] + 0x100 * a[5] }

  /** The two register fields determine the address. */
  lemma AddressesDiffer(a: Mac, b: Mac)
    requires Low(a) == Low(b) && High(a) == High(b)
    ensures a == b
  {
    Digit(a[0], a[1] + 0x100 * (a[2] + 0x100 * a[3]), b[0], b[1] + 0x100 * (b[2] + 0x100 * b[3]));
    Digit(a[1], a[2] + 0x100 * a[3], b[1], b[2] + 0x100 * b[3]);
    Digit(a[2], a[3], b[2], b[3]);
    Digit(a[4], a[5], b[4], b[5]);
  }

  lemma Digit(x: nat, y: nat, u: nat, v: nat)
    requires x < 0x100 && u < 0x100 && x + 0x100 * y == u + 0x100 * v
    ensures x == u && y == v
  {}

  /** `v >> 8 * i`, cut to a byte. */
  function ByteOf(v: nat, i: nat): (b: nat)
    ensures b < 256
  {
    if i == 0 then v % 256 else ByteOf(v / 256, i - 1)
  }

  /** `ixgbe_get_mac_addr_generic`: what was stored in the two registers is read back, byte for
      byte, the first one from the lowest bits. */
  method GetMac(low: nat, high: nat, ghost a: Mac) returns (mac: seq<nat>)
    requires low == Low(a) && high % 0x1_0000 == High(a)
    ensures mac == a
  {
    mac := [];
    var i := 0;
    while i < 4
      invariant 0 <= i <= 4 && |mac| == i && forall k :: 0 <= k < i ==> mac[k] == ByteOf(low, k)
    {
      mac := mac + [ByteOf(low, i)];
      i := i + 1;
    }
    i := 0;
    while i < 2
      invariant 0 <= i <= 2 && |mac| == 4 + i
      invariant forall k :: 0 <= k < 4 ==> mac[k] == ByteOf(low, k)
      invariant forall k :: 0 <= k < i ==> mac[4 + k] == ByteOf(high, k)
    {
      mac := mac + [ByteOf(high, i)];
      i := i + 1;
    }
    BytesBack(a, high);
    assert forall k :: 0 <= k < 6 ==> mac[k] == if k < 4 then ByteOf(low, k) else ByteOf(high, k - 4);
    assert mac[4] == a[4] && mac[5] == a[5];
  }

  lemma BytesBack(a: Mac, high: nat)
    requires high % 0x1_0000 == High(a)
    ensures forall k :: 0 <= k < 4 ==> ByteOf(Low(a), k) == a[k]
    ensures forall k :: 0 <= k < 2 ==> ByteOf(high, k) == a[4 + k]
  {
    Lowest(Low(a), a[0], a[1] + 0x100 * (a[2] + 0x100 * a[3]), 1, 2, 3);
    Lowest(a[1] + 0x100 * (a[2] + 0x100 * a[3]), a[1], a[2] + 0x100 * a[3], 0, 1, 2);
    Lowest(a[2] + 0x100 * a[3], a[2], a[3], 0, 1, 0);
    Lowest(a[3], a[3], 0, 0, 0, 0);
    var q := high / 0x1_0000;
    Lowest(high, a[4], a[5] + 0x100 * q, 1, 1, 1);
    Lowest(a[5] + 0x100 * q, a[5], q, 0, 0, 0);
  }

  /** The byte `x` is the lowest of `v`, and the others are those of the rest. */
  lemma Lowest(v: nat, x: nat, y: nat, i: nat, j: nat, k: nat)
    requires x < 0x100 && v == x + 0x100 * y
    ensures ByteOf(v, 0) == x
    ensures i > 0 ==> ByteOf(v, i) == ByteOf(y, i - 1)
    ensures j > 0 ==> ByteOf(v, j) == ByteOf(y, j - 1)
    ensures k > 0 ==> ByteOf(v, k) == ByteOf(y, k - 1)
  {}

  predicate Holds(e: Entry, a: Mac) { e.low == Low(a) && e.high == High(a) }

  predicate Zero(e: Entry) { e.low == 0 && e.high == 0 }

  // ----- clearing -----

  /** `ixgbe_clear_vmdq_generic` and `ixgbe_clear_rar_generic` call each other. */
  function ClearVmdq(e: Entry, index: nat, w: Which): Entry
    decreases |e.pools|, 0
  {
    if e.pools == {} then e
    else
      var left := if w.All? then {} else e.pools - {w.pool};
      if left == {} && index != 0 then ClearRar(e.(pools := {}), index) else e.(pools := left)
  }

  function ClearRar(e: Entry, index: nat): Entry
    decreases |e.pools|, 1
  {
    ClearVmdq(e.(low := 0, high := 0, valid := false), index, All)
  }

  /** Clearing an address register leaves no pool, no address and no valid bit. */
  lemma ClearRarClears(e: Entry, index: nat)
    ensures ClearRar(e, index) == Entry(0, 0, false, e.rest, {})
  {
    var c := e.(low := 0, high := 0, valid := false);
    if e.pools != {} && index != 0 {
      assert ClearRar(c.(pools := {}), index) == c.(pools := {});
    }
  }

  /** Clearing pools leaves exactly the others, and clears the register with the last one. */
  lemma ClearVmdqClears(e: Entry, index: nat, w: Which)
    ensures var r := ClearVmdq(e, index, w);
            && r.pools == (if w.All? then {} else e.pools - {w.pool}) && r.rest == e.rest
            && (r == if index != 0 && e.pools != {} && r.pools == {} then Entry(0, 0, false, e.rest, {}) else e.(pools := r.pools))
  {
    if e.pools != {} && index != 0 {
      ClearRarClears(e.(pools := {}), index);
    }
  }

  // ----- ixgbe_set_vmdq_generic, ixgbe_set_rar_generic, ixgbe_insert_mac_addr_generic -----

  function SetVmdq(t: Table, i: nat, p: nat): Table {
    if i >= |t.entries| then t else t.(entries := t.entries[i := t.entries[i].(pools := t.entries[i].pools + {p})])
  }

  function SetRar(t: Table, i: nat, a: Mac, p: nat, enable: bool): Table {
    if i >= |t.entries| then t
    else
      var e := t.entries[i];
      t.(entries := t.entries[i := Entry(Low(a), High(a), enable, e.rest, e.pools + {p})])
  }

  /** The scan below `highwater`: where the address is, and the first register without a valid
      one.  The test for the address does not look at the valid bit, except in the register
      that becomes `empty`. */
  datatype Scan = Scan(at: nat, empty: int)

  function ScanFrom(t: Table, a: Mac, i: nat, empty: int): Scan
    requires i <= t.highwater <= |t.entries|
    decreases t.highwater - i
  {
    if i == t.highwater then Scan(i, empty)
    else if !t.entries[i].valid && empty < 0 then ScanFrom(t, a, i + 1, i)
    else if Holds(t.entries[i], a) then Scan(i, empty)
    else ScanFrom(t, a, i + 1, empty)
  }

  /** `ixgbe_insert_mac_addr_generic`: the table and the register that it reports. */
  function Insert(t: Table, a: Mac, p: nat): (Table, nat)
    requires t.highwater <= |t.entries|
  {
    var s := ScanFrom(t, a, 0, -1);
    var rar := if s.at < t.highwater then s.at else if s.empty >= 0 then s.empty else t.highwater;
    var r := if s.at < t.highwater then SetVmdq(t, rar, p)
             else if s.empty >= 0 then SetRar(t, rar, a, p, true)
             else SetRar(t, rar, a, p, true).(highwater := t.highwater + 1);
    (if rar == 0 && |r.entries| > 0 then r.(entries := r.entries[0 := ClearVmdq(r.entries[0], 0, One(0))]) else r, rar)
  }

  // ----- what is kept -----

  /** An address register is in use exactly while it is valid; one that is not holds nothing. */
  ghost predicate EntryGood(e: Entry, i: nat) {
    && (e.valid ==> !Zero(e)) && (!e.valid ==> Zero(e) && e.pools == {})
    && (i > 0 && e.valid ==> e.pools != {})
  }

  /** Valid addresses are distinct and below `highwater`. */
  ghost predicate EntriesGood(t: Table) {
    && (forall i :: 0 <= i < |t.entries| ==> EntryGood(t.entries[i], i))
    && (forall i :: t.highwater <= i < |t.entries| ==> !t.entries[i].valid)
    && forall i, j :: 0 <= i < j < |t.entries| && t.entries[i].valid && t.entries[j].valid ==>
         t.entries[i].low != t.entries[j].low || t.entries[i].high != t.entries[j].high
  }

  ghost predicate Good(t: Table) { t.highwater <= |t.entries| && EntriesGood(t) }

  /** The register that holds the address, if any. */
  ghost predicate Present(t: Table, a: Mac) {
    exists i :: 0 <= i < |t.entries| && t.entries[i].valid && Holds(t.entries[i], a)
  }

  /** No register is left for a new address. */
  ghost predicate Full(t: Table) { t.highwater == |t.entries| && forall i :: 0 <= i < |t.entries| ==> t.entries[i].valid }

  ghost predicate NonZero(a: Mac) { Low(a) != 0 || High(a) != 0 }

  lemma {:induction false} ScanFinds(t: Table, a: Mac, i: nat, empty: int)
    requires Good(t) && NonZero(a) && i <= t.highwater && (empty >= 0 ==> empty < i && !t.entries[empty].valid)
    requires forall k :: 0 <= k < (if empty < 0 then i else empty) ==> t.entries[k].valid
    requires forall k :: 0 <= k < i ==> !(t.entries[k].valid && Holds(t.entries[k], a))
    ensures var s := ScanFrom(t, a, i, empty);
            && s.at <= t.highwater && (s.empty >= 0 ==> s.empty < t.highwater && !t.entries[s.empty].valid)
            && (s.empty >= 0 ==> forall k :: 0 <= k < s.empty ==> t.entries[k].valid)
            && (s.at < t.highwater ==> t.entries[s.at].valid && Holds(t.entries[s.at], a))
            && (s.at == t.highwater ==> !Present(t, a) && (s.empty < 0 ==> forall k :: 0 <= k < t.highwater ==> t.entries[k].valid))
    decreases t.highwater - i
  {
    if i < t.highwater {
      assert EntryGood(t.entries[i], i);
      if !t.entries[i].valid && empty < 0 {
        ScanFinds(t, a, i + 1, i);
      } else if !Holds(t.entries[i], a) {
        ScanFinds(t, a, i + 1, empty);
      }
    }
  }

  /** Which register an insertion uses: its own, or else the first that is free. */
  lemma InsertUses(t: Table, a: Mac, p: nat)
    requires Good(t) && NonZero(a)
    ensures var (r, i) := Insert(t, a, p);
            if Present(t, a) then i < |t.entries| && t.entries[i].valid && Holds(t.entries[i], a)
            else if Full(t) then i == |t.entries|
            else i < |t.entries| && i <= t.highwater && !t.entries[i].valid && forall k :: 0 <= k < i ==> t.entries[k].valid
  {
    ScanFinds(t, a, 0, -1);
  }

  /** The register after an insertion that used register `i`. */
  function Used(e: Entry, a: Mac, p: nat, i: nat): Entry {
    Entry(Low(a), High(a), true, e.rest, if i == 0 then e.pools + {p} - {0} else e.pools + {p})
  }

  /** What an insertion changes: the one register, and `highwater` when it is a new one on top.
      A full table stays as it is, but `highwater` grows past its end. */
  lemma InsertChanges(t: Table, a: Mac, p: nat)
    requires Good(t) && NonZero(a)
    ensures var (r, i) := Insert(t, a, p);
            if !Present(t, a) && Full(t) && |t.entries| > 0 then i == |t.entries| && r == t.(highwater := t.highwater + 1)
            else |t.entries| > 0 ==>
              && i < |t.entries| && r.entries == t.entries[i := Used(t.entries[i], a, p, i)]
              && r.highwater == (if i == t.highwater then t.highwater + 1 else t.highwater)
  {
    ScanFinds(t, a, 0, -1);
    InsertUses(t, a, p);
    var (r, i) := Insert(t, a, p);
    if i < |t.entries| {
      var e := t.entries[i];
      ClearVmdqClears(Entry(Low(a), High(a), true, e.rest, e.pools + {p}), 0, One(0));
    }
  }

  /** Insertion keeps the valid addresses distinct and below `highwater` in any case.  `highwater`
      itself stays within the registers exactly when the address is there or there is a spare
      one; otherwise nothing else changes. */
  lemma InsertKeeps(t: Table, a: Mac, p: nat)
    requires Good(t) && NonZero(a) && |t.entries| > 0
    ensures var (r, i) := Insert(t, a, p);
            && EntriesGood(r) && (r.highwater <= |r.entries| <==> Present(t, a) || !Full(t))
            && (r.highwater > |r.entries| ==> r.entries == t.entries && i == |t.entries|)
  {
    var (r, i) := Insert(t, a, p);
    InsertChanges(t, a, p);
    InsertUses(t, a, p);
    if Present(t, a) || !Full(t) {
      UsedKeeps(t, a, p, i, r);
    }
  }

  lemma UsedKeeps(t: Table, a: Mac, p: nat, i: nat, r: Table)
    requires Good(t) && NonZero(a) && i < |t.entries| && i <= t.highwater
    requires (t.entries[i].valid && Holds(t.entries[i], a)) || (!t.entries[i].valid && !Present(t, a))
    requires r.entries == t.entries[i := Used(t.entries[i], a, p, i)]
    requires r.highwater == if i == t.highwater then t.highwater + 1 else t.highwater
    ensures Good(r) && Present(r, a)
  {
    forall k | 0 <= k < |r.entries| ensures EntryGood(r.entries[k], k) {
      assert EntryGood(t.entries[k], k);
      if k == i && i > 0 { assert p in r.entries[i].pools; }
    }
    assert r.entries[i].valid && Holds(r.entries[i], a);
    forall j | 0 <= j < |r.entries| && j != i && r.entries[j].valid ensures !Holds(r.entries[j], a) {
      if t.entries[i].valid { assert if i < j then t.entries[i].low != t.entries[j].low || t.entries[i].high != t.entries[j].high
                                     else t.entries[j].low != t.entries[i].low || t.entries[j].high != t.entries[i].high; }
    }
  }

  /** Only one register holds an address. */
  lemma SameRegister(t: Table, a: Mac, i: nat, j: nat)
    requires Good(t) && i < |t.entries| && j < |t.entries|
    requires t.entries[i].valid && Holds(t.entries[i], a) && t.entries[j].valid && Holds(t.entries[j], a)
    ensures i == j
  {}

  /** Inserting an address again only adds its pool. */
  lemma InsertAgain(t: Table, a: Mac, p: nat, q: nat)
    requires Good(t) && NonZero(a) && |t.entries| > 0 && (Present(t, a) || !Full(t))
    ensures var (r, i) := Insert(t, a, p);
            && i < |t.entries| && r.highwater <= |r.entries|
            && Insert(r, a, q) == (r.(entries := r.entries[i := Used(r.entries[i], a, q, i)]), i)
  {
    var (r, i) := Insert(t, a, p);
    InsertChanges(t, a, p);
    InsertUses(t, a, p);
    UsedKeeps(t, a, p, i, r);
    var (s, j) := Insert(r, a, q);
    InsertChanges(r, a, q);
    InsertUses(r, a, q);
    assert r.entries[i].valid && Holds(r.entries[i], a);
    SameRegister(r, a, i, j);
  }

  /** Different addresses get different registers. */
  lemma InsertApart(t: Table, a: Mac, b: Mac, p: nat, q: nat, r: Table, i: nat)
    requires Good(t) && NonZero(a) && NonZero(b) && a != b && |t.entries| > 0
    requires (r, i) == Insert(t, a, p) && (Present(t, a) || !Full(t)) && r.highwater <= |r.entries| && (Present(r, b) || !Full(r))
    ensures Insert(r, b, q).1 != i
  {
    InsertChanges(t, a, p);
    InsertUses(t, a, p);
    UsedKeeps(t, a, p, i, r);
    InsertUses(r, b, q);
    if Holds(r.entries[i], b) {
      AddressesDiffer(a, b);
    }
  }

  // ----- every sequence of calls -----

  datatype Call = CallInsert(a: Mac, p: nat) | CallClearRar(i: nat) | CallClearVmdq(i: nat, w: Which) | CallSetVmdq(i: nat, p: nat)

  /** Callers insert proper addresses while there is room, and give pools to valid registers. */
  ghost predicate Legal(t: Table, c: Call) {
    match c
    case CallInsert(a, p) => NonZero(a) && |t.entries| > 0 && (Present(t, a) || !Full(t))
    case CallClearRar(i) => true
    case CallClearVmdq(i, w) => true
    case CallSetVmdq(i, p) => i < |t.entries| ==> t.entries[i].valid
  }

  function Step(t: Table, c: Call): Table
    requires t.highwater <= |t.entries|
  {
    match c
    case CallInsert(a, p) => Insert(t, a, p).0
    case CallClearRar(i) => if i >= |t.entries| then t else t.(entries := t.entries[i := ClearRar(t.entries[i], i)])
    case CallClearVmdq(i, w) => if i >= |t.entries| then t else t.(entries := t.entries[i := ClearVmdq(t.entries[i], i, w)])
    case CallSetVmdq(i, p) => SetVmdq(t, i, p)
  }

  lemma StepKeeps(t: Table, c: Call)
    requires Good(t) && Legal(t, c)
    ensures Good(Step(t, c))
  {
    match c
    case CallInsert(a, p) => InsertKeeps(t, a, p);
    case CallClearRar(i) => if i < |t.entries| { ClearRarClears(t.entries[i], i); }
    case CallClearVmdq(i, w) =>
      if i < |t.entries| {
        ClearVmdqClears(t.entries[i], i, w);
        assert EntryGood(t.entries[i], i);
        var r := Step(t, c);
        forall k | 0 <= k < |r.entries| ensures EntryGood(r.entries[k], k) { assert EntryGood(t.entries[k], k); }
      }
    case CallSetVmdq(i, p) =>
      var r := Step(t, c);
      forall k | 0 <= k < |r.entries| ensures EntryGood(r.entries[k], k) {
        assert EntryGood(t.entries[k], k);
        if k == i { assert p in r.entries[k].pools; }
      }
  }

  ghost predicate Bounded(t: Table) { t.highwater <= |t.entries| }

  ghost predicate Run(n: nat, calls: seq<Call>, t: Table) {
    if calls == [] then t == Table(seq(n, i => Entry(0, 0, false, 0, {})), 0)
    else exists r :: Run(n, calls[..|calls| - 1], r) && Bounded(r) && Legal(r, calls[|calls| - 1]) && t == Step(r, calls[|calls| - 1])
  }

  /** Every such sequence of calls, from cleared registers: valid addresses stay distinct, and a
      register above 0 is valid exactly while some pool uses it. */
  lemma {:induction false} RunKeeps(n: nat, calls: seq<Call>, t: Table)
    requires Run(n, calls, t)
    ensures Good(t) && forall i :: 0 < i < |t.entries| ==> (t.entries[i].valid <==> t.entries[i].pools != {})
    decreases |calls|
  {
    if calls != [] {
      var r :| Run(n, calls[..|calls| - 1], r) && Bounded(r) && Legal(r, calls[|calls| - 1]) && t == Step(r, calls[|calls| - 1]);
      RunKeeps(n, calls[..|calls| - 1], r);
      StepKeeps(r, calls[|calls| - 1]);
    }
    forall i | 0 < i < |t.entries| ensures t.entries[i].valid <==> t.entries[i].pools != {} {
      assert EntryGood(t.entries[i], i);
    }
  }

  // ----- the registers -----

  class Device {
    var entries: seq<Entry>
    var highwater: nat

    ghost function Now(): Table
      reads this
    {
      Table(entries, highwater)
    }

    /** `ixgbe_set_vmdq_generic`. */
    method SetPool(rar: nat, vmdq: nat) returns (res: Result)
      modifies `entries
      ensures Now() == SetVmdq(old(Now()), rar, vmdq) && (res == Ok <==> rar < |entries|)
    {
      if rar >= |entries| {
        return ErrInvalidArgument;
      }
      entries := entries[rar := entries[rar].(pools := entries[rar].pools + {vmdq})];
      res := Ok;
    }

    /** `ixgbe_clear_vmdq_generic`. */
    method ClearPools(rar: nat, w: Which) returns (res: Result)
      modifies `entries
      ensures Now() == (if rar < |old(entries)| then old(Now()).(entries := old(entries)[rar := ClearVmdq(old(entries)[rar], rar, w)])
                        else old(Now()))
      ensures res == Ok <==> rar < |entries|
      decreases if rar < |entries| then |entries[rar].pools| else 0, 0
    {
      if rar >= |entries| {
        return ErrInvalidArgument;
      }
      res := Ok;
      if entries[rar].pools == {} {
        return;
      }
      var left := if w.All? then {} else entries[rar].pools - {w.pool};
      ghost var e := entries[rar];
      entries := entries[rar := entries[rar].(pools := left)];
      if left == {} && rar != 0 {
        assert |e.pools| > 0;
        var r := ClearAddress(rar);
      }
    }

    /** `ixgbe_clear_rar_generic`. */
    method ClearAddress(index: nat) returns (res: Result)
      modifies `entries
      ensures Now() == (if index < |old(entries)| then old(Now()).(entries := old(entries)[index := ClearRar(old(entries)[index], index)])
                        else old(Now()))
      ensures res == Ok <==> index < |entries|
      decreases if index < |entries| then |entries[index].pools| else 0, 1
    {
      if index >= |entries| {
        return ErrInvalidArgument;
      }
      entries := entries[index := entries[index].(low := 0, high := 0, valid := false)];
      var r := ClearPools(index, All);
      res := Ok;
    }

    /** `ixgbe_set_rar_generic`. */
    method SetAddress(index: nat, a: Mac, vmdq: nat, enable: bool) returns (res: Result)
      modifies `entries
      ensures Now() == SetRar(old(Now()), index, a, vmdq, enable) && (res == Ok <==> index < |entries|)
    {
      if index >= |entries| {
        return ErrInvalidArgument;
      }
      var r := SetPool(index, vmdq);
      entries := entries[index := entries[index].(low := Low(a), high := High(a), valid := enable)];
      res := Ok;
    }

    /** `ixgbe_insert_mac_addr_generic`; the error of `ixgbe_set_rar` is not looked at. */
    method InsertAddress(a: Mac, vmdq: nat) returns (rar: nat)
      requires highwater <= |entries|
      modifies this
      ensures (Now(), rar) == Insert(old(Now()), a, vmdq)
    {
      var empty := -1;
      rar := 0;
      while rar < highwater
        invariant 0 <= rar <= highwater && ScanFrom(Now(), a, 0, -1) == ScanFrom(Now(), a, rar, empty)
        invariant empty < rar
      {
        if !entries[rar].valid && empty < 0 {
          empty := rar;
        } else if Holds(entries[rar], a) {
          break;
        }
        rar := rar + 1;
      }
      if rar < highwater {
        var r := SetPool(rar, vmdq);
      } else if empty >= 0 {
        rar := empty;
        var r := SetAddress(rar, a, vmdq, true);
      } else {
        var r := SetAddress(rar, a, vmdq, true);
        highwater := highwater + 1;
      }
      if rar == 0 {
        var r := ClearPools(rar, One(0));
      }
    }
  }
}
