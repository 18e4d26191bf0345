/** `tcp_process_refused_data` (net/tcp.c): data that the application refused is offered again,
    in parts of less than 64K, until the application refuses again or aborts. */
module RefusedData {
  import opened PbufHeap
  import opened PbufOps
  import opened PbufChains
  import opened PbufRuns
  import opened PbufMemory
  import opened PbufData

  /** What the receive callback does with a part. */
  datatype Reply = Takes(frees: bool) | Refuses | Aborts

  datatype TcpErr = Done | InProgress | Abrt

  /** How many of the answers, from the first one on, take their part. */
  ghost function Taking(replies: seq<Reply>): nat {
    if replies == [] || !replies[0].Takes? then 0 else 1 + Taking(replies[1..])
  }

  lemma {:induction false} TakingAt(replies: seq<Reply>, n: nat)
    requires n <= Taking(replies) && n < |replies|
    ensures replies[n].Takes? <==> n < Taking(replies)
  {
    if n > 0 { TakingAt(replies[1..], n - 1); }
  }

  function Flat(parts: seq<seq<Byte>>): seq<Byte> {
    if parts == [] then [] else Flat(parts[..|parts| - 1]) + parts[|parts| - 1]
  }

  /** Nothing outside links into any part of the chain, so nothing links into its front. */
  lemma UnsharedFront(h: Heap, p: Ptr, c: seq<Ptr>, k: nat)
    requires IsChain(h, p, c) && Unshared(h, c) && k <= |c|
    ensures Unshared(h, c[..k])
  {
    forall x | x in h && h[x].next in c[..k] ensures x in c[..k] {
      assert h[x].next in c;
      var j :| 0 <= j < |c| && c[j] == x;
      ChainNext(h, p, c, j);
    }
  }

  function AfterSplit(held: multiset<Ptr>, c: seq<Ptr>, k: nat): multiset<Ptr> {
    if k < |c| then held + multiset{c[k]} else held
  }

  /** The two parts after `pbuf_split_64k`: chains of their own that nothing else links into. */
  lemma SplitGood(h: Heap, held: multiset<Ptr>, p: Ptr, c: seq<Ptr>, r: Heap, k: nat)
    requires Good(h, held) && c != [] && IsChain(h, p, c) && Unshared(h, c) && (r, k) == Split(h, c)
    ensures 0 < k <= |c| && Sum(h, c[..k]) < U16 && Good(r, AfterSplit(held, c, k))
  {
    SplitLength(h, p, c);
    UnsharedFront(h, p, c, k);
    if k < |c| {
      SplitKeeps(h, held, p, c, r, k);
    }
  }

  lemma SplitTwo(h: Heap, p: Ptr, c: seq<Ptr>, r: Heap, k: nat)
    requires WellFormed(h) && c != [] && IsChain(h, p, c) && Unshared(h, c) && (r, k) == Split(h, c) && 0 < k <= |c|
    ensures IsChain(r, p, c[..k]) && IsChain(r, Then(c, k), c[k..])
    ensures Unshared(r, c[..k]) && Unshared(r, c[k..])
  {
    if k < |c| {
      SplitChains(h, p, c, r, k);
      SplitFields(h, p, c, r, k);
      forall x | x in r && r[x].next in c ensures exists j :: 0 <= j < |c| - 1 && j != k - 1 && c[j] == x && c[j + 1] == r[x].next {
        assert x != c[k - 1] && h[x].next in c;
        var j :| 0 <= j < |c| && c[j] == x;
        ChainNext(h, p, c, j);
        assert c[j + 1] == r[x].next;
      }
      SideOf(r, c, k);
    } else {
      assert c[..k] == c && c[k..] == [];
    }
  }

  lemma SideOf(r: Heap, c: seq<Ptr>, k: nat)
    requires 0 < k < |c| && Distinct(c)
    requires forall x :: x in r && r[x].next in c ==>
               exists j :: 0 <= j < |c| - 1 && j != k - 1 && c[j] == x && c[j + 1] == r[x].next
    ensures Unshared(r, c[..k]) && Unshared(r, c[k..])
  {
    forall x | x in r && r[x].next in c[..k] ensures x in c[..k] {
      var i :| 0 <= i < k && c[i] == r[x].next;
      assert r[x].next in c;
      var j :| 0 <= j < |c| - 1 && j != k - 1 && c[j] == x && c[j + 1] == r[x].next;
      assert j + 1 == i && c[..k][j] == x;
    }
    forall x | x in r && r[x].next in c[k..] ensures x in c[k..] {
      var i :| 0 <= i < |c| - k && c[k..][i] == r[x].next;
      assert c[k + i] == r[x].next && r[x].next in c;
      var j :| 0 <= j < |c| - 1 && j != k - 1 && c[j] == x && c[j + 1] == r[x].next;
      assert j + 1 == k + i && c[k..][j - k] == x;
    }
  }

  lemma SplitBytes(h: Heap, p: Ptr, c: seq<Ptr>, r: Heap, k: nat)
    requires Readable(h, c) && c != [] && IsChain(h, p, c) && (r, k) == Split(h, c) && 0 < k <= |c|
    ensures Readable(r, c[..k]) && Readable(r, c[k..])
    ensures View(h, c) == View(r, c[..k]) + View(r, c[k..]) && |View(r, c[..k])| == Sum(h, c[..k])
    ensures k < |c| && h[p].fin ==> r[c[k]].fin
  {
    ViewSplit(h, c, k);
    if k < |c| {
      SplitFields(h, p, c, r, k);
    }
    ViewSame(h, r, c[..k]);
    ViewSame(h, r, c[k..]);
  }

  /** The application frees its part: the rest is as before. */
  lemma TakeGood(r: Heap, held: multiset<Ptr>, p: Ptr, front: seq<Ptr>, t: Ptr, rest: seq<Ptr>, s: Heap)
    requires Good(r, held) && p in held && IsChain(r, p, front) && IsChain(r, t, rest) && Unshared(r, rest)
    requires s == Release(r, p) && forall i :: 0 <= i < |rest| ==> rest[i] !in front
    ensures Good(s, held - multiset{p}) && IsChain(s, t, rest) && Unshared(s, rest)
    ensures Readable(s, rest) && View(s, rest) == View(r, rest) && (rest != [] ==> s[t].fin == r[t].fin)
  {
    ReleaseKeeps(r, held, p);
    RestStays(r, p, front, t, rest, s);
    ViewSame(r, s, rest);
  }

  lemma RestStays(r: Heap, p: Ptr, front: seq<Ptr>, t: Ptr, rest: seq<Ptr>, s: Heap)
    requires NULL !in r && IsChain(r, p, front) && IsChain(r, t, rest) && Unshared(r, rest)
    requires s == Release(r, p) && forall i :: 0 <= i < |rest| ==> rest[i] !in front
    ensures IsChain(s, t, rest) && Unshared(s, rest)
    ensures forall i :: 0 <= i < |rest| ==> rest[i] in s && s[rest[i]] == r[rest[i]]
  {
    ReleasesPrefix(r, p, front);
    forall x | x in front[..Sole(r, front)] ensures x in front {}
    forall i | 0 <= i < |rest| ensures rest[i] in s && s[rest[i]] == r[rest[i]] {
      assert rest[i] !in Elements(front[..Sole(r, front)]);
    }
  }

  /** The connection holds `cur`, the chain `rest` of what is left. */
  ghost predicate Holding(h: Heap, held: multiset<Ptr>, cur: Ptr, rest: seq<Ptr>) {
    Good(h, held) && IsChain(h, cur, rest) && (rest != [] ==> cur in held) && Unshared(h, rest)
  }

  /** What was given and what is left make up `want`. */
  ghost predicate Accounted(h: Heap, rest: seq<Ptr>, want: seq<Byte>, given: seq<seq<Byte>>) {
    Readable(h, rest) && want == Flat(given) + View(h, rest) && forall i :: 0 <= i < |given| ==> |given[i]| < U16
  }

  ghost predicate AnyFin(h: Heap, c: seq<Ptr>) { c != [] && (HasFin(h, c[0]) || AnyFin(h, c[1..])) }

  ghost predicate HasFin(h: Heap, x: Ptr) { x in h && h[x].fin }

  lemma {:induction false} AnyFinAt(h: Heap, c: seq<Ptr>) returns (i: nat)
    requires AnyFin(h, c)
    ensures i < |c| && HasFin(h, c[i])
  {
    if HasFin(h, c[0]) { return 0; }
    var j := AnyFinAt(h, c[1..]);
    return j + 1;
  }

  lemma {:induction false} FinAt(h: Heap, c: seq<Ptr>, i: nat)
    requires i < |c| && HasFin(h, c[i])
    ensures AnyFin(h, c)
  {
    if i > 0 { FinAt(h, c[1..], i - 1); }
  }

  /** The split makes no FIN of its own. */
  lemma SplitFin(h: Heap, p: Ptr, c: seq<Ptr>, r: Heap, k: nat)
    requires c != [] && IsChain(h, p, c) && (r, k) == Split(h, c) && 0 < k <= |c|
    ensures AnyFin(r, c[k..]) ==> AnyFin(h, c)
  {
    if AnyFin(r, c[k..]) {
      var i := AnyFinAt(r, c[k..]);
      SplitFields(h, p, c, r, k);
      assert c[k..][i] == c[k + i] && c[k + i] !in c[..k] && h[c[0]] == h[p];
      assert i == 0 ==> r[c[k]].fin == (h[c[k]].fin || h[p].fin);
      FinAt(h, c, if HasFin(h, c[k + i]) then k + i else 0);
    }
  }

  /** `refused_data` is cut in two. */
  lemma Offered(h: Heap, held: multiset<Ptr>, cur: Ptr, rest: seq<Ptr>, r: Heap, k: nat)
    requires Holding(h, held, cur, rest) && rest != [] && (r, k) == Split(h, rest)
    ensures 0 < k <= |rest| && Sum(h, rest[..k]) < U16 && IsChain(r, cur, rest[..k]) && cur in AfterSplit(held, rest, k)
    ensures Holding(r, AfterSplit(held, rest, k), Then(rest, k), rest[k..])
  {
    SplitGood(h, held, cur, rest, r, k);
    SplitTwo(h, cur, rest, r, k);
  }

  /** Giving the front leaves the account as it was. */
  lemma OfferedBytes(h: Heap, cur: Ptr, rest: seq<Ptr>, want: seq<Byte>, given: seq<seq<Byte>>, r: Heap, k: nat)
    requires Accounted(h, rest, want, given) && rest != [] && IsChain(h, cur, rest)
    requires (r, k) == Split(h, rest) && 0 < k <= |rest| && Sum(h, rest[..k]) < U16
    ensures Readable(r, rest[..k]) && Accounted(r, rest[k..], want, given + [View(r, rest[..k])])
    ensures k < |rest| && h[cur].fin ==> r[rest[k]].fin
  {
    SplitBytes(h, cur, rest, r, k);
    FlatNext(given, View(r, rest[..k]));
    Append(Flat(given), View(r, rest[..k]), View(r, rest[k..]));
  }

  lemma FlatNext(given: seq<seq<Byte>>, part: seq<Byte>)
    ensures Flat(given + [part]) == Flat(given) + part
  {
    assert (given + [part])[..|given|] == given;
  }

  lemma Taken(r: Heap, held: multiset<Ptr>, p: Ptr, front: seq<Ptr>, t: Ptr, rest: seq<Ptr>, s: Heap)
    requires Holding(r, held, t, rest) && p in held && p != t && IsChain(r, p, front) && s == Release(r, p)
    requires forall i :: 0 <= i < |rest| ==> rest[i] !in front
    ensures Holding(s, held - multiset{p}, t, rest) && Readable(r, rest)
    ensures Readable(s, rest) && View(s, rest) == View(r, rest) && (rest != [] ==> s[t].fin == r[t].fin)
  {
    TakeGood(r, held, p, front, t, rest, s);
  }

  /** The application refuses: the parts are joined again. */
  lemma Refused(h: Heap, held: multiset<Ptr>, p: Ptr, c: seq<Ptr>, r: Heap, k: nat)
    requires Holding(h, held, p, c) && c != [] && (r, k) == Split(h, c) && k < |c|
    ensures 0 < k && Joinable(r, p, c[..k], c[k], c[k..]) && c[k] in r && Last(c[..k]) in r
    ensures Cat(r, c[..k], c[k]) == h[c[k] := h[c[k]].(fin := h[c[k]].fin || h[p].fin)]
  {
    SplitGood(h, held, p, c, r, k);
    SplitTwo(h, p, c, r, k);
    SplitCatRoundTrip(h, p, c, r, k);
    assert Last(c[..k]) == c[k - 1] && c[k - 1] !in c[k..];
  }

  lemma RefusedSame(h: Heap, held: multiset<Ptr>, p: Ptr, c: seq<Ptr>, x: Ptr, fin: bool, s: Heap)
    requires Holding(h, held, p, c) && Readable(h, c) && x in h && s == h[x := h[x].(fin := fin)]
    ensures Good(s, held) && IsChain(s, p, c) && Readable(s, c) && View(s, c) == View(h, c)
  {
    FinKeeps(h, held, x, fin, s);
    ViewSame(h, s, c);
  }

  /** Whatever the application answers (there is an answer for each pbuf, and no more are asked
      for): what it was given followed by what is kept is what there was; it is given less than
      64K at a time, one part for each answer up to the one that ends the loop; and a FIN of the
      first pbuf, and none that was not there, is reported once all is taken. */
  method ProcessRefusedData(m: Memory, data: Ptr, replies: seq<Reply>, ghost held: multiset<Ptr>, ghost c: seq<Ptr>)
    returns (err: TcpErr, kept: Ptr, closed: bool, taken: nat, ghost given: seq<seq<Byte>>, ghost left: seq<Ptr>, ghost holds: multiset<Ptr>)
    requires Good(m.heap, held) && IsChain(m.heap, data, c) && Unshared(m.heap, c) && (c != [] ==> data in held)
    requires Readable(m.heap, c) && |c| <= |replies|
    modifies m
    ensures Good(m.heap, holds) && IsChain(m.heap, kept, left) && Readable(m.heap, left)
    ensures Flat(given) + View(m.heap, left) == View(old(m.heap), c)
    ensures forall i :: 0 <= i < |given| ==> |given[i]| < U16
    ensures err == Done ==> kept == NULL
    ensures closed ==> err == Done && AnyFin(old(m.heap), c)
    ensures taken <= Taking(replies) && |given| == if err == Abrt then taken + 1 else taken
    ensures err != Done ==> taken == Taking(replies) < |replies|
    ensures err != Done ==> replies[taken] == if err == Abrt then Aborts else Refuses
    ensures err == Done && c != [] && old(m.heap)[data].fin ==> closed
  {
    kept, given, closed, taken := data, [], false, 0;
    left, holds := c, held;
    ghost var want := View(m.heap, c);
    ghost var fin := c != [] && m.heap[data].fin;
    assert [] + want == want;
    while kept != NULL
      invariant Holding(m.heap, holds, kept, left) && Accounted(m.heap, left, want, given)
      invariant fin ==> if kept != NULL then m.heap[kept].fin else closed
      invariant (closed ==> kept == NULL && AnyFin(old(m.heap), c)) && (AnyFin(m.heap, left) ==> AnyFin(old(m.heap), c))
      invariant |given| == taken && taken + |left| <= |replies| && taken <= Taking(replies)
      decreases |left|
    {
      var flags := m.heap[kept].fin;
      assert flags ==> left[0] == kept && AnyFin(m.heap, left);
      var refused := kept;
      TakingAt(replies, taken);
      match replies[taken] {
        case Takes(frees) =>
          kept, given, left, holds := Take(m, refused, frees, left, holds, want, given);
          closed, taken := flags && kept == NULL, taken + 1;
        case Refuses =>
          Refuse(m, refused, left, holds);
          return InProgress, refused, false, taken, given, left, holds;
        case Aborts =>
          kept, given, left, holds := Take(m, refused, false, left, holds, want, given);
          return Abrt, kept, false, taken, given, left, holds;
      }
    }
    err := Done;
  }

  /** The application takes the part that `pbuf_split_64k` cuts off, and may free it. */
  method Take(m: Memory, refused: Ptr, frees: bool, ghost c: seq<Ptr>, ghost held: multiset<Ptr>,
              ghost want: seq<Byte>, ghost given: seq<seq<Byte>>)
    returns (rest: Ptr, ghost given': seq<seq<Byte>>, ghost left: seq<Ptr>, ghost holds: multiset<Ptr>)
    requires Holding(m.heap, held, refused, c) && c != [] && Accounted(m.heap, c, want, given)
    modifies m
    ensures Holding(m.heap, holds, rest, left) && Accounted(m.heap, left, want, given') && |left| < |c| && |given'| == |given| + 1
    ensures AnyFin(m.heap, left) ==> AnyFin(old(m.heap), c)
    ensures rest != NULL && old(m.heap)[refused].fin ==> m.heap[rest].fin
  {
    ghost var h := m.heap;
    rest := m.Split64k(refused, c);
    ghost var r, k := m.heap, Split(h, c).1;
    Offered(h, held, refused, c, r, k);
    OfferedBytes(h, refused, c, want, given, r, k);
    SplitFin(h, refused, c, r, k);
    left, holds, given' := c[k..], AfterSplit(held, c, k), given + [View(r, c[..k])];
    if frees {
      holds := FreesFront(m, refused, rest, c, k, holds);
    }
  }

  lemma ReleaseFin(r: Heap, p: Ptr, front: seq<Ptr>, rest: seq<Ptr>, s: Heap)
    requires NULL !in r && IsChain(r, p, front) && s == Release(r, p)
    ensures AnyFin(s, rest) ==> AnyFin(r, rest)
  {
    ReleasesPrefix(r, p, front);
    if AnyFin(s, rest) {
      var i := AnyFinAt(s, rest);
      FinAt(r, rest, i);
    }
  }

  method FreesFront(m: Memory, refused: Ptr, rest: Ptr, ghost c: seq<Ptr>, ghost k: nat, ghost held: multiset<Ptr>)
    returns (ghost holds: multiset<Ptr>)
    requires 0 < k <= |c| && Distinct(c) && refused == c[0] && Holding(m.heap, held, rest, c[k..]) && refused in held
    requires IsChain(m.heap, refused, c[..k]) && Readable(m.heap, c[k..])
    modifies m
    ensures Holding(m.heap, holds, rest, c[k..]) && Readable(m.heap, c[k..])
    ensures View(m.heap, c[k..]) == View(old(m.heap), c[k..]) && (AnyFin(m.heap, c[k..]) ==> AnyFin(old(m.heap), c[k..]))
    ensures rest != NULL ==> rest in m.heap && rest in old(m.heap) && m.heap[rest].fin == old(m.heap)[rest].fin
  {
    ghost var r := m.heap;
    assert forall j :: 0 <= j < |c[k..]| ==> c[k..][j] == c[k + j] && c[k..][j] !in c[..k];
    assert rest != refused by { if k < |c| { assert c[k..][0] == c[k]; } }
    Taken(r, held, refused, c[..k], rest, c[k..], Release(r, refused));
    ReleaseFin(r, refused, c[..k], c[k..], Release(r, refused));
    var gone := m.Free(refused, c[..k]);
    holds := held - multiset{refused};
  }

  /** The application refuses the part; it is joined with the rest again. */
  method Refuse(m: Memory, refused: Ptr, ghost c: seq<Ptr>, ghost held: multiset<Ptr>)
    requires Holding(m.heap, held, refused, c) && c != [] && Readable(m.heap, c)
    modifies m
    ensures Good(m.heap, held) && IsChain(m.heap, refused, c)
    ensures Readable(m.heap, c) && View(m.heap, c) == View(old(m.heap), c)
  {
    ghost var h := m.heap;
    var rest := m.Split64k(refused, c);
    if rest != NULL {
      ghost var k := Split(h, c).1;
      Refused(h, held, refused, c, m.heap, k);
      m.CatInto(refused, rest, c[..k], c[k..]);
      RefusedSame(h, held, refused, c, c[k], h[c[k]].fin || h[refused].fin, m.heap);
    }
  }
}
