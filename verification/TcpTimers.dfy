/** The timer loops of net/tcp.c: they start over whenever a callback changes the list under
    them, and still end and handle each PCB at most once per tick; and what becomes of that over
    many ticks, with the counter as declared. */
module TcpTimers {

  /** A PCB is named by its allocation: memory that is used again is a new PCB. */
  type Pcb = nat

  /** The tick counter, `last_timer` of every PCB that was ever allocated, and the active ones in
      the order in which the buckets list them. */
  datatype State = State(ctr: nat, last: map<Pcb, nat>, active: seq<Pcb>)

  /** What an application callback leaves behind, and `tcp_active_pcb_changed`. */
  datatype Reply = Reply(after: State, changed: bool)

  /** Lists hold existing PCBs, each once. */
  ghost predicate Good(s: State) {
    && (forall p :: p in s.active ==> p in s.last)
    && forall i, j :: 0 <= i < j < |s.active| ==> s.active[i] != s.active[j]
  }

  /** What code outside the loops keeps to.  It may free and allocate PCBs and move them between
      lists; `tcp_alloc` stamps new ones with the counter, and nothing but the loops writes the
      stamp of another. */
  ghost predicate Outside(s: State, t: State) {
    && Good(t) && t.ctr == s.ctr && s.last.Keys <= t.last.Keys
    && forall p :: p in t.last ==> t.last[p] == if p in s.last then s.last[p] else s.ctr
  }

  /** In a callback, the flag is raised when the active list changes. */
  ghost predicate Keeps(s: State, r: Reply) { Outside(s, r.after) && (!r.changed ==> r.after.active == s.active) }

  type Callback = (State, Pcb) -> Reply

  ghost predicate Proper(cb: Callback) { forall s, p :: Good(s) ==> Keeps(s, cb(s, p)) }

  /** PCBs that this tick has not handled. */
  function Pending(s: State): set<Pcb> { set p | p in s.last && s.last[p] != s.ctr }

  /** Callbacks cannot change which PCBs are still to be handled, as new ones are stamped. */
  lemma CallbackShrinks(s: State, r: Reply)
    requires Keeps(s, r)
    ensures Pending(r.after) == Pending(s)
  {}

  /** Handling a PCB stamps it. */
  function Stamped(s: State, p: Pcb): State { s.(last := s.last[p := s.ctr]) }

  function Without(q: seq<Pcb>, i: nat): seq<Pcb>
    requires i < |q|
  {
    q[..i] + q[i + 1..]
  }

  /** A PCB that timed out is unlinked and freed. */
  function Removed(s: State, i: nat): State
    requires i < |s.active|
  {
    s.(active := Without(s.active, i))
  }

  lemma RemovedGood(s: State, i: nat)
    requires Good(s) && i < |s.active|
    ensures Good(Removed(s, i))
  {
    var r := Removed(s, i);
    forall p | p in r.active ensures p in r.last {
      var j :| 0 <= j < |r.active| && r.active[j] == p;
      assert p == s.active[if j < i then j else j + 1];
    }
  }

  // ----- one tick -----

  ghost predicate Distinct(q: seq<Pcb>) { forall j, k :: 0 <= j < k < |q| ==> q[j] != q[k] }

  /** The counter is declared `bool`: adding one makes it true and leaves it so.  The intent is
      an 8-bit counter, as wide as `last_timer`. */
  datatype Port = INTENDED | AS_WRITTEN

  function NextTick(port: Port, ctr: nat): nat { if port.AS_WRITTEN? then 1 else (ctr + 1) % 256 }

  /** The stamps after the PCBs in `handled` were handled. */
  ghost predicate Stamps(s0: State, s: State, handled: seq<Pcb>) {
    && s0.last.Keys <= s.last.Keys
    && forall p :: p in s.last ==> s.last[p] == if p in s0.last && p !in handled then s0.last[p] else s.ctr
  }

  /** Of the PCBs that the walk comes to, exactly those that were due have been handled, once. */
  ghost predicate HandledDue(s0: State, ctr: nat, reached: set<Pcb>, handled: seq<Pcb>) {
    Distinct(handled) && forall p :: p in handled <==> p in reached && p in s0.last && s0.last[p] != ctr
  }

  /** All PCBs of `ps` were on the active list at the start, or a callback left them there. */
  ghost predicate OnList(s0: State, listed: set<Pcb>, ps: set<Pcb>) { forall p :: p in ps ==> p in s0.active || p in listed }

  /** A tick: `reached` are the PCBs that the walk came to, among them every PCB that is active at
      the end, unless a callback allocated it; `listed` are those that callbacks left on the list. */
  ghost predicate Ticked(port: Port, s0: State, s: State, listed: set<Pcb>, reached: set<Pcb>, handled: seq<Pcb>) {
    && Good(s) && s.ctr == NextTick(port, s0.ctr) && Stamps(s0, s, handled) && HandledDue(s0, s.ctr, reached, handled)
    && OnList(s0, listed, reached) && forall p :: p in s.active ==> p in reached || p !in s0.last
  }

  function Active(s: State): set<Pcb> { set p | p in s.active }

  /** Which PCBs have timed out, asked when they bear the stamp of the tick. */
  type Removes = (State, Pcb) -> bool

  /** The fast timer removes none. */
  function Never(s: State, p: Pcb): bool { false }

  /** `q` without the PCBs of `gone`, in order. */
  function Except(q: seq<Pcb>, gone: set<Pcb>): seq<Pcb> {
    if q == [] then [] else Except(q[..|q| - 1], gone) + if q[|q| - 1] in gone then [] else [q[|q| - 1]]
  }

  /** The state in which the callback of `p` runs: the PCB has left the list if and only if it has
      timed out. */
  function Left(removes: Removes, u: State, p: Pcb): State {
    if removes(u, p) then u.(active := Except(u.active, {p})) else u
  }

  lemma {:induction false} ExceptHas(q: seq<Pcb>, gone: set<Pcb>, x: Pcb)
    ensures x in Except(q, gone) <==> x in q && x !in gone
    decreases |q|
  {
    if q != [] {
      ExceptHas(q[..|q| - 1], gone, x);
      assert q == q[..|q| - 1] + [q[|q| - 1]];
    }
  }

  lemma {:induction false} ExceptTwice(q: seq<Pcb>, a: set<Pcb>, b: set<Pcb>)
    ensures Except(Except(q, a), b) == Except(q, a + b)
    decreases |q|
  {
    if q != [] {
      ExceptTwice(q[..|q| - 1], a, b);
      var e, x := Except(q[..|q| - 1], a), q[|q| - 1];
      if x !in a {
        assert (e + [x])[..|e + [x]| - 1] == e;
      } else {
        assert e + [] == e;
      }
    }
  }

  lemma {:induction false} ExceptNone(q: seq<Pcb>, gone: set<Pcb>)
    requires forall x :: x in q ==> x !in gone
    ensures Except(q, gone) == q
    decreases |q|
  {
    if q != [] {
      assert q == q[..|q| - 1] + [q[|q| - 1]];
      ExceptNone(q[..|q| - 1], gone);
    }
  }

  lemma {:induction false} ExceptAt(q: seq<Pcb>, i: nat)
    requires i < |q| && Distinct(q)
    ensures Except(q, {q[i]}) == Without(q, i)
    decreases |q|
  {
    var init, x := q[..|q| - 1], q[|q| - 1];
    if i == |q| - 1 {
      ExceptNone(init, {x});
    } else {
      ExceptAt(init, i);
      assert Without(init, i) + [x] == Without(q, i);
    }
  }

  /** From `s0` to `s` by handling the PCBs in order: each is on the list and gets its stamp, which
      gives a state of `asked`; it leaves the list if it has timed out; its callback runs.  Nothing
      else changes the state. */
  ghost predicate Trace(removes: Removes, s0: State, cb: Callback, asked: seq<State>, handled: seq<Pcb>, s: State) {
    |asked| == |handled| &&
    if asked == [] then s == s0
    else
      var u, p := asked[|asked| - 1], handled[|asked| - 1];
      && s == cb(Left(removes, u, p), p).after
      && exists v :: Trace(removes, s0, cb, asked[..|asked| - 1], handled[..|asked| - 1], v) && p in v.active && u == Stamped(v, p)
  }

  lemma TraceNext(removes: Removes, s0: State, cb: Callback, asked: seq<State>, handled: seq<Pcb>, s: State, p: Pcb, r: State)
    requires Trace(removes, s0, cb, asked, handled, s) && p in s.active && r == cb(Left(removes, Stamped(s, p), p), p).after
    ensures Trace(removes, s0, cb, asked + [Stamped(s, p)], handled + [p], r)
  {
    var us, ps := asked + [Stamped(s, p)], handled + [p];
    assert us[..|us| - 1] == asked && ps[..|us| - 1] == handled;
  }

  /** The PCBs that these callbacks left on the list. */
  ghost function Listed(removes: Removes, cb: Callback, asked: seq<State>, handled: seq<Pcb>): set<Pcb>
    requires |asked| == |handled|
  {
    if asked == [] then {}
    else
      var u, p := asked[|asked| - 1], handled[|asked| - 1];
      Listed(removes, cb, asked[..|asked| - 1], handled[..|asked| - 1]) + Active(cb(Left(removes, u, p), p).after)
  }

  /** The PCBs that had timed out when they were handled. */
  ghost function Gone(removes: Removes, asked: seq<State>, handled: seq<Pcb>): set<Pcb>
    requires |asked| == |handled|
  {
    if asked == [] then {}
    else
      var u, p := asked[|asked| - 1], handled[|asked| - 1];
      Gone(removes, asked[..|asked| - 1], handled[..|asked| - 1]) + if removes(u, p) then {p} else {}
  }

  lemma ListedNext(removes: Removes, cb: Callback, asked: seq<State>, handled: seq<Pcb>, u: State, p: Pcb)
    requires |asked| == |handled|
    ensures Listed(removes, cb, asked + [u], handled + [p]) ==
            Listed(removes, cb, asked, handled) + Active(cb(Left(removes, u, p), p).after)
    ensures Gone(removes, asked + [u], handled + [p]) == Gone(removes, asked, handled) + if removes(u, p) then {p} else {}
  {
    var us, ps := asked + [u], handled + [p];
    assert us[..|us| - 1] == asked && ps[..|us| - 1] == handled;
  }

  lemma {:induction false} NeverGone(asked: seq<State>, handled: seq<Pcb>)
    requires |asked| == |handled|
    ensures Gone(Never, asked, handled) == {}
    decreases |asked|
  {
    if asked != [] { NeverGone(asked[..|asked| - 1], handled[..|asked| - 1]); }
  }

  /** The loop stands at position `i`: the PCBs before it were reached or are new. */
  ghost predicate Walking(s0: State, s: State, i: nat, listed: set<Pcb>, reached: set<Pcb>, handled: seq<Pcb>) {
    && OnList(s0, listed, Active(s)) && OnList(s0, listed, reached)
    && Good(s) && i <= |s.active| && Stamps(s0, s, handled) && HandledDue(s0, s.ctr, reached, handled)
    && (forall p :: p in reached ==> p in s.last)
    && forall j :: 0 <= j < i ==> s.active[j] in reached || s.active[j] !in s0.last
  }

  /** The PCB at `i` bears the stamp of this tick. */
  lemma PassKeeps(s0: State, s: State, i: nat, listed: set<Pcb>, reached: set<Pcb>, handled: seq<Pcb>)
    requires Walking(s0, s, i, listed, reached, handled) && i < |s.active| && s.last[s.active[i]] == s.ctr
    ensures Walking(s0, s, i + 1, listed, reached + {s.active[i]}, handled)
  {}

  /** The PCB at `i` is handled, removed or not, and then the callback runs. */
  lemma HandleKeeps(s0: State, s: State, i: nat, listed: set<Pcb>, reached: set<Pcb>, handled: seq<Pcb>, removes: bool,
                    t: State, r: Reply)
    requires Walking(s0, s, i, listed, reached, handled) && i < |s.active| && s.last[s.active[i]] != s.ctr
    requires t == (if removes then Removed(Stamped(s, s.active[i]), i) else Stamped(s, s.active[i])) && Keeps(t, r)
    ensures Pending(r.after) == Pending(s) - {s.active[i]} && r.after.ctr == s.ctr
    ensures Walking(s0, r.after, if r.changed then 0 else if removes then i else i + 1,
                    listed + Active(r.after), reached + {s.active[i]}, handled + [s.active[i]])
  {
    var p := s.active[i];
    assert p in s0.last && p !in handled;
    HandleStamps(s0, s, p, handled, t, r.after);
    HandleDue(s0, s.ctr, p, reached, handled);
    if !r.changed {
      forall j | 0 <= j < (if removes then i else i + 1)
        ensures r.after.active[j] in reached + {p} || r.after.active[j] !in s0.last
      {
        assert r.after.active[j] == s.active[j];
      }
    }
  }

  lemma HandleStamps(s0: State, s: State, p: Pcb, handled: seq<Pcb>, t: State, u: State)
    requires Stamps(s0, s, handled) && p in s.last && t.last == s.last[p := s.ctr] && t.ctr == s.ctr && Outside(t, u)
    ensures Stamps(s0, u, handled + [p])
  {
    assert forall q :: q in handled + [p] <==> q in handled || q == p;
  }

  lemma HandleDue(s0: State, ctr: nat, p: Pcb, reached: set<Pcb>, handled: seq<Pcb>)
    requires HandledDue(s0, ctr, reached, handled) && p in s0.last && s0.last[p] != ctr && p !in handled
    ensures HandledDue(s0, ctr, reached + {p}, handled + [p])
  {
    assert forall q :: q in handled + [p] <==> q in handled || q == p;
  }

  /** No callback changes the active list. */
  ghost predicate Quiet(cb: Callback) { forall s, p :: !cb(s, p).changed }

  ghost predicate Waiting(active: seq<Pcb>, reached: set<Pcb>, rest: seq<Pcb>) {
    forall p :: p in active ==> p in reached || p in rest
  }

  /** The PCB at `i` is reached, and stays on the list or leaves it. */
  lemma Arrives(active: seq<Pcb>, reached: set<Pcb>, q: seq<Pcb>, i: nat)
    requires i < |q|
    ensures Waiting(active, reached, q[i..]) ==> Waiting(active, reached + {q[i]}, q[i + 1..])
    ensures Without(q, i)[i..] == q[i + 1..]
  {
    assert q[i..] == [q[i]] + q[i + 1..];
  }

  lemma Fewer(s: State, p: Pcb, t: State)
    requires p in Pending(s) && Pending(t) == Pending(s) - {p}
    ensures |Pending(t)| < |Pending(s)|
  {}

  /** What handling one PCB adds to the account of a tick. */
  lemma Accounts(removes: Removes, s1: State, cb: Callback, asked: seq<State>, handled: seq<Pcb>, s: State, p: Pcb, r: State)
    requires Trace(removes, s1, cb, asked, handled, s) && p in s.active && r == cb(Left(removes, Stamped(s, p), p), p).after
    ensures Trace(removes, s1, cb, asked + [Stamped(s, p)], handled + [p], r)
    ensures Listed(removes, cb, asked, handled) + Active(r) == Listed(removes, cb, asked + [Stamped(s, p)], handled + [p])
    ensures Gone(removes, asked + [Stamped(s, p)], handled + [p]) ==
            Gone(removes, asked, handled) + if removes(Stamped(s, p), p) then {p} else {}
  {
    TraceNext(removes, s1, cb, asked, handled, s, p, r);
    ListedNext(removes, cb, asked, handled, Stamped(s, p), p);
  }

  /** Callbacks that do not change the list leave on it what was there and has not timed out. */
  lemma QuietStays(removes: Removes, cb: Callback, active: seq<Pcb>, gone: set<Pcb>, s: State, p: Pcb, w: State)
    requires Quiet(cb) && Proper(cb) && s.active == Except(active, gone) && Good(w) && w == Left(removes, Stamped(s, p), p)
    ensures cb(w, p).after.active == Except(active, gone + if removes(Stamped(s, p), p) then {p} else {})
  {
    assert cb(w, p).after.active == w.active;
    ExceptTwice(active, gone, {p});
    assert gone + {} == gone;
  }

  lemma LeftIs(removes: Removes, s: State, i: nat, p: Pcb)
    requires Good(s) && i < |s.active| && p == s.active[i]
    ensures Left(removes, Stamped(s, p), p) ==
            if removes(Stamped(s, p), p) then Removed(Stamped(s, p), i) else Stamped(s, p)
  {
    ExceptAt(s.active, i);
  }

  /** What both loops keep: the walk, the account of the callbacks since `s1`, and that quiet
      callbacks leave nothing out. */
  ghost predicate Loop(removes: Removes, s0: State, s1: State, cb: Callback, s: State, i: nat, asked: seq<State>,
                       reached: set<Pcb>, handled: seq<Pcb>)
  {
    && Trace(removes, s1, cb, asked, handled, s) && s.ctr == s1.ctr
    && Walking(s0, s, i, Listed(removes, cb, asked, handled), reached, handled)
    && (Quiet(cb) ==>
          && Waiting(s0.active, reached, s.active[i..]) && Listed(removes, cb, asked, handled) <= Active(s0)
          && s.active == Except(s0.active, Gone(removes, asked, handled)))
  }

  lemma Starts(removes: Removes, port: Port, s0: State, cb: Callback, s1: State)
    requires Good(s0) && s1 == s0.(ctr := NextTick(port, s0.ctr))
    ensures Loop(removes, s0, s1, cb, s1, 0, [], {}, [])
  {
    ExceptNone(s0.active, {});
  }

  /** The PCB at `i` was handled already. */
  lemma Passes(removes: Removes, s0: State, s1: State, cb: Callback, s: State, i: nat, asked: seq<State>, reached: set<Pcb>,
               handled: seq<Pcb>)
    requires Loop(removes, s0, s1, cb, s, i, asked, reached, handled) && i < |s.active| && s.last[s.active[i]] == s.ctr
    ensures Loop(removes, s0, s1, cb, s, i + 1, asked, reached + {s.active[i]}, handled)
  {
    PassKeeps(s0, s, i, Listed(removes, cb, asked, handled), reached, handled);
    Arrives(s0.active, reached, s.active, i);
  }

  /** The PCB at `i` is handled, and its callback runs in state `w`. */
  lemma Handles(removes: Removes, s0: State, s1: State, cb: Callback, s: State, i: nat, asked: seq<State>, reached: set<Pcb>,
                handled: seq<Pcb>, p: Pcb, gone: bool, w: State, r: Reply)
    requires Loop(removes, s0, s1, cb, s, i, asked, reached, handled) && Proper(cb)
    requires i < |s.active| && p == s.active[i] && s.last[p] != s.ctr && gone == removes(Stamped(s, p), p)
    requires w == (if gone then Removed(Stamped(s, p), i) else Stamped(s, p)) && r == cb(w, p)
    ensures Loop(removes, s0, s1, cb, r.after, if r.changed then 0 else if gone then i else i + 1,
                 asked + [Stamped(s, p)], reached + {p}, handled + [p])
    ensures |Pending(r.after)| < |Pending(s)|
  {
    LeftIs(removes, s, i, p);
    if gone { RemovedGood(Stamped(s, p), i); }
    HandleKeeps(s0, s, i, Listed(removes, cb, asked, handled), reached, handled, gone, w, r);
    Fewer(s, p, r.after);
    Accounts(removes, s1, cb, asked, handled, s, p, r.after);
    Arrives(s0.active, reached, s.active, i);
    if Quiet(cb) {
      QuietStays(removes, cb, s0.active, Gone(removes, asked, handled), s, p, w);
      OnlyFirst(s0.active, Gone(removes, asked + [Stamped(s, p)], handled + [p]), r.after);
    }
  }

  lemma OnlyFirst(active: seq<Pcb>, gone: set<Pcb>, s: State)
    requires s.active == Except(active, gone)
    ensures Active(s) <= set p | p in active
  {
    forall p | p in s.active ensures p in active { ExceptHas(active, gone, p); }
  }

  lemma Ends(removes: Removes, port: Port, s0: State, s1: State, cb: Callback, s: State, i: nat, asked: seq<State>,
             reached: set<Pcb>, handled: seq<Pcb>)
    requires Loop(removes, s0, s1, cb, s, i, asked, reached, handled) && i == |s.active| && s1.ctr == NextTick(port, s0.ctr)
    ensures |asked| == |handled| && Ticked(port, s0, s, Listed(removes, cb, asked, handled), reached, handled)
    ensures Quiet(cb) ==> reached == Active(s0) && s.active == Except(s0.active, Gone(removes, asked, handled))
  {}

  /** `tcp_slowtmr`.  Whatever times out and whatever the callbacks do, the loop ends. */
  method SlowTimer(port: Port, s0: State, removes: Removes, cb: Callback)
    returns (s: State, ghost reached: set<Pcb>, handled: seq<Pcb>, ghost asked: seq<State>)
    requires Good(s0) && Proper(cb)
    ensures Trace(removes, s0.(ctr := NextTick(port, s0.ctr)), cb, asked, handled, s)
    ensures Ticked(port, s0, s, Listed(removes, cb, asked, handled), reached, handled)
    ensures Quiet(cb) ==> reached == Active(s0) && s.active == Except(s0.active, Gone(removes, asked, handled))
  {
    s, reached, handled, asked := s0.(ctr := NextTick(port, s0.ctr)), {}, [], [];
    ghost var s1 := s;
    Starts(removes, port, s0, cb, s1);
    var i := 0;
    while i < |s.active|
      invariant Loop(removes, s0, s1, cb, s, i, asked, reached, handled)
      decreases |Pending(s)|, |s.active| - i
    {
      var p := s.active[i];
      if s.last[p] == s.ctr {
        Passes(removes, s0, s1, cb, s, i, asked, reached, handled);
        reached, i := reached + {p}, i + 1;
        continue;
      }
      ghost var before := s;
      s := Stamped(s, p);
      var gone := removes(s, p);
      if gone {
        s := Removed(s, i);
      }
      var r := cb(s, p);
      Handles(removes, s0, s1, cb, before, i, asked, reached, handled, p, gone, s, r);
      asked, reached, handled := asked + [Stamped(before, p)], reached + {p}, handled + [p];
      s := r.after;
      i := if r.changed then 0 else if gone then i else i + 1;
    }
    Ends(removes, port, s0, s1, cb, s, i, asked, reached, handled);
  }

  /** `tcp_fasttmr`: PCBs are not removed, but the callbacks of refused data may change the list. */
  method FastTimer(port: Port, s0: State, cb: Callback)
    returns (s: State, ghost reached: set<Pcb>, handled: seq<Pcb>, ghost asked: seq<State>)
    requires Good(s0) && Proper(cb)
    ensures Trace(Never, s0.(ctr := NextTick(port, s0.ctr)), cb, asked, handled, s)
    ensures Ticked(port, s0, s, Listed(Never, cb, asked, handled), reached, handled)
    ensures Quiet(cb) ==> reached == Active(s0) && s.active == s0.active
  {
    s, reached, handled, asked := s0.(ctr := NextTick(port, s0.ctr)), {}, [], [];
    ghost var s1 := s;
    Starts(Never, port, s0, cb, s1);
    var i := 0;
    while i < |s.active|
      invariant Loop(Never, s0, s1, cb, s, i, asked, reached, handled)
      decreases |Pending(s)|, |s.active| - i
    {
      var p := s.active[i];
      if s.last[p] != s.ctr {
        ghost var before := s;
        s := Stamped(s, p);
        var r := cb(s, p);
        Handles(Never, s0, s1, cb, before, i, asked, reached, handled, p, false, s, r);
        asked, reached, handled := asked + [Stamped(before, p)], reached + {p}, handled + [p];
        s := r.after;
        i := if r.changed then 0 else i + 1;
      } else {
        Passes(Never, s0, s1, cb, s, i, asked, reached, handled);
        reached, i := reached + {p}, i + 1;
      }
    }
    Ends(Never, port, s0, s1, cb, s, i, asked, reached, handled);
    NeverGone(asked, handled);
    ExceptNone(s0.active, {});
  }

  /** A PCB that was due and is still active at the end of the tick has been handled. */
  lemma DueIsHandled(port: Port, s0: State, s: State, listed: set<Pcb>, reached: set<Pcb>, handled: seq<Pcb>, p: Pcb)
    requires Ticked(port, s0, s, listed, reached, handled) && p in s.active && p in s0.last && s0.last[p] != s.ctr
    ensures p in handled && s.last[p] == s.ctr
  {}

  // ----- many ticks -----

  /** Ticks of either timer, and whatever else runs between them. */
  datatype Event =
    | Tick(after: State, listed: set<Pcb>, reached: set<Pcb>, handled: seq<Pcb>)
    | Between(after: State)

  ghost predicate Legal(port: Port, s: State, e: Event) {
    match e
    case Tick(t, listed, reached, handled) => Ticked(port, s, t, listed, reached, handled)
    case Between(t) => Outside(s, t)
  }

  /** `s` is reached from `s0` by `es`. */
  ghost predicate Run(port: Port, s0: State, es: seq<Event>, s: State) {
    if es == [] then s == s0
    else exists r {:trigger Legal(port, r, es[|es| - 1])} :: Run(port, s0, es[..|es| - 1], r) && Legal(port, r, es[|es| - 1])
                                                        && s == es[|es| - 1].after
  }

  /** All that was handled, in order. */
  function Handled(es: seq<Event>): seq<Pcb> {
    if es == [] then []
    else Handled(es[..|es| - 1]) + (if es[|es| - 1].Tick? then es[|es| - 1].handled else [])
  }

  /** Some tick came to `p`. */
  ghost predicate Reached(es: seq<Event>, p: Pcb) {
    exists k :: 0 <= k < |es| && es[k].Tick? && p in es[k].reached
  }

  /** The PCBs that were allocated before the first tick. */
  ghost function Early(s0: State, es: seq<Event>): set<Pcb> {
    if es == [] then s0.last.Keys
    else if es[|es| - 1].Between? && forall k :: 0 <= k < |es| - 1 ==> es[k].Between? then es[|es| - 1].after.last.Keys
    else Early(s0, es[..|es| - 1])
  }

  ghost predicate Ticks(es: seq<Event>) { exists k :: 0 <= k < |es| && es[k].Tick? }

  /** What the code as written keeps: before the first tick all stamps are 0; from then on the
      counter is 1, and so is every stamp but those of early PCBs that have not been handled. */
  ghost predicate Written(s0: State, es: seq<Event>, s: State) {
    && Good(s) && Early(s0, es) <= s.last.Keys
    && s.ctr == (if Ticks(es) then 1 else 0)
    && (!Ticks(es) ==> Early(s0, es) == s.last.Keys)
    && (forall p :: p in s.last ==> s.last[p] == if p in Early(s0, es) && p !in Handled(es) then 0 else s.ctr)
    && Distinct(Handled(es))
    && forall p :: p in Handled(es) <==> p in Early(s0, es) && Reached(es, p)
  }

  lemma Last(es: seq<Event>)
    requires es != []
    ensures var init, e := es[..|es| - 1], es[|es| - 1];
            && (Ticks(es) <==> Ticks(init) || e.Tick?)
            && (forall p :: Reached(es, p) <==> Reached(init, p) || (e.Tick? && p in e.reached))
  {
    var init, e := es[..|es| - 1], es[|es| - 1];
    assert forall k :: 0 <= k < |init| ==> init[k] == es[k];
    forall p ensures Reached(es, p) <==> Reached(init, p) || (e.Tick? && p in e.reached) {
      if Reached(es, p) {
        var k :| 0 <= k < |es| && es[k].Tick? && p in es[k].reached;
        assert k < |init| ==> init[k].Tick? && p in init[k].reached;
      }
    }
    if Ticks(es) {
      var k :| 0 <= k < |es| && es[k].Tick?;
      assert k < |init| ==> init[k].Tick?;
    }
  }

  /** Who is early is settled by the first tick. */
  lemma EarlyNext(s0: State, es: seq<Event>)
    requires es != []
    ensures var init, e := es[..|es| - 1], es[|es| - 1];
            Early(s0, es) == if !Ticks(init) && e.Between? then e.after.last.Keys else Early(s0, init)
  {
    var init := es[..|es| - 1];
    assert forall k :: 0 <= k < |init| ==> init[k] == es[k];
  }

  lemma WrittenBetween(s0: State, es: seq<Event>, r: State, s: State)
    requires es != [] && es[|es| - 1] == Between(s) && Written(s0, es[..|es| - 1], r) && Outside(r, s)
    ensures Written(s0, es, s)
  {
    var init := es[..|es| - 1];
    Last(es);
    EarlyNext(s0, es);
    assert Handled(es) == Handled(init);
    if !Ticks(init) {
      forall p ensures !Reached(init, p) {}
      forall p | p in s.last ensures s.last[p] == 0 && p !in Handled(init) {}
    }
  }

  lemma WrittenTick(s0: State, es: seq<Event>, r: State, s: State, e: Event)
    requires es != [] && e == es[|es| - 1] && e.Tick? && e.after == s
    requires Written(s0, es[..|es| - 1], r) && Ticked(AS_WRITTEN, r, s, e.listed, e.reached, e.handled)
    ensures Written(s0, es, s)
  {
    var init := es[..|es| - 1];
    var h := Handled(init);
    Last(es);
    EarlyNext(s0, es);
    assert Handled(es) == h + e.handled;
    forall p ensures p in Handled(es) <==> p in h || p in e.handled {
      InConcat(h, e.handled, p);
    }
    forall p | p in e.handled ensures p !in h && p in Early(s0, init) && r.last[p] == 0 {}
    Joined(h, e.handled);
    forall p | p in s.last ensures s.last[p] == if p in Early(s0, es) && p !in Handled(es) then 0 else 1 {
      assert p in r.last && p !in e.handled ==> s.last[p] == r.last[p];
    }
    forall p | p in Early(s0, es) && Reached(es, p) ensures p in Handled(es) {
      if p in e.reached && p !in h { assert r.last[p] == 0; }
    }
  }

  lemma InConcat(a: seq<Pcb>, b: seq<Pcb>, p: Pcb)
    ensures p in a + b <==> p in a || p in b
  {}

  lemma Joined(a: seq<Pcb>, b: seq<Pcb>)
    requires Distinct(a) && Distinct(b) && forall p :: p in b ==> p !in a
    ensures Distinct(a + b)
  {
    forall j, k | 0 <= j < k < |a + b| ensures (a + b)[j] != (a + b)[k] {
      if j < |a| <= k {
        assert (a + b)[k] in b;
      }
    }
  }

  lemma {:induction false} RunWritten(s0: State, es: seq<Event>, s: State)
    requires Run(AS_WRITTEN, s0, es, s) && Good(s0) && s0.ctr == 0 && forall p :: p in s0.last ==> s0.last[p] == 0
    ensures Written(s0, es, s)
    decreases |es|
  {
    if es != [] {
      var r :| Run(AS_WRITTEN, s0, es[..|es| - 1], r) && Legal(AS_WRITTEN, r, es[|es| - 1]) && s == es[|es| - 1].after;
      RunWritten(s0, es[..|es| - 1], r);
      if es[|es| - 1].Tick? {
        WrittenTick(s0, es, r, s, es[|es| - 1]);
      } else {
        WrittenBetween(s0, es, r, s);
      }
    }
  }

  /** As written, over any number of ticks and whatever runs between them: a PCB is handled if and
      only if it was allocated before the first tick and some tick comes to it, and then once.  In
      particular no tick handles a PCB that was allocated after the first. */
  lemma HandledIff(s0: State, es: seq<Event>, s: State, p: Pcb)
    requires Run(AS_WRITTEN, s0, es, s) && Good(s0) && s0.ctr == 0 && forall q :: q in s0.last ==> s0.last[q] == 0
    ensures p in Handled(es) <==> p in Early(s0, es) && Reached(es, p)
    ensures Distinct(Handled(es))
  {
    RunWritten(s0, es, s);
  }

  /** With the 8-bit counter that is intended, a PCB that was handled in one tick, or allocated
      since, is due in the next one. */
  lemma DueNextTick(s0: State, s: State, listed: set<Pcb>, reached: set<Pcb>, handled: seq<Pcb>, t: State, p: Pcb)
    requires s0.ctr < 256 && Ticked(INTENDED, s0, s, listed, reached, handled) && Outside(s, t)
    requires p in t.last && (p in handled || p !in s.last)
    ensures p in Pending(t.(ctr := NextTick(INTENDED, t.ctr)))
  {}
}
