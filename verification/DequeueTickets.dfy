/** The optimistic dequeue protocol of ImplicitProducer (src/base/concurrentqueue.h,
    dequeue and dequeue_bulk): one producer, any number of consumers, every atomic load and
    read-modify-write a separate step. Indices are mathematical integers; CircularIndex
    relates them to the wrapping 64-bit ones.

    Each unit added to dequeueOptimisticCount is a ticket. `passed`, `claimed` and
    `reported` are auxiliary sets of tickets: those that passed the second check, those
    already turned into a head index, and those already given back through
    dequeueOvercommit. `log` records the successful headIndex.fetch_add operations. */
module DequeueTickets {
  import opened Common

  type Item(==, !new)
  type Tid = nat

  datatype Call = Single | Bulk(max: nat)

  datatype PC =
    | Idle
    | LoadedTail(call: Call, tail: nat)
    | LoadedOvercommit(call: Call, tail: nat, over: nat)
    | Optimistic(call: Call, want: nat, over: nat)              // first check passed
    | Ticketed(call: Call, first: nat, want: nat, over: nat)    // holds tickets first .. first + want
    | Reporting(first: nat, got: nat, lost: nat, claims: bool)  // gives back the lost tickets from first + got
    | Claiming(first: nat, got: nat)                            // about to advance headIndex by got

  datatype Claim = Claim(t: Tid, index: nat, count: nat)

  datatype State = State(
    items: seq<Item>,          // everything ever enqueued; tailIndex == |items|
    head: nat,                 // headIndex
    optimistic: nat,           // dequeueOptimisticCount
    overcommit: nat,           // dequeueOvercommit
    pc: seq<PC>,
    passed: set<nat>, claimed: set<nat>, reported: set<nat>,
    log: seq<Claim>,
    asked: seq<nat>,           // what each thread's latest call asked for at most
    got: seq<nat>)             // what it claimed

  // ---------------------------------------------------------------- the atomic steps

  datatype Action = Enqueue(x: Item) | Start(t: Tid, call: Call) | Proceed(t: Tid)

  ghost predicate Enabled(s: State, a: Action) {
    match a
    case Enqueue(_) => true
    case Start(t, _) => t < |s.pc| == |s.asked| == |s.got| && s.pc[t].Idle?
    case Proceed(t) => t < |s.pc| && !s.pc[t].Idle?
  }

  function Min(a: int, b: int): int { if a < b then a else b }

  /** n more for thread t. */
  function Credit(got: seq<nat>, t: Tid, n: nat): seq<nat> {
    seq(|got|, u requires 0 <= u < |got| => if u == t then got[u] + n else got[u])
  }

  function Pos(a: int): int { if a > 0 then a else 0 }

  ghost function Apply(s: State, a: Action): State
    requires Enabled(s, a)
  {
    match a
    case Enqueue(x) => s.(items := s.items + [x])
    case Start(t, call) =>
      s.(pc := s.pc[t := LoadedTail(call, |s.items|)], got := s.got[t := 0],
         asked := s.asked[t := if call.Bulk? then call.max else 1])
    case Proceed(t) => Run(s, t)
  }

  ghost function Run(s: State, t: Tid): State
    requires t < |s.pc| && !s.pc[t].Idle?
  {
    match s.pc[t]
    case LoadedTail(call, tail) => s.(pc := s.pc[t := LoadedOvercommit(call, tail, s.overcommit)])
    case LoadedOvercommit(call, tail, over) => s.(pc := s.pc[t := FirstCheck(call, tail, over, s.optimistic)])
    case Optimistic(call, want, over) =>
      s.(optimistic := s.optimistic + want, pc := s.pc[t := Ticketed(call, s.optimistic, want, over)])
    case Ticketed(call, first, want, over) =>
      var p := SecondCheck(call, first, want, over, |s.items|);
      s.(passed := s.passed + Interval(first, first + p.got), pc := s.pc[t := p])
    case Reporting(first, got, lost, claims) =>
      s.(overcommit := s.overcommit + lost,
         reported := s.reported + Interval(first + got, first + got + lost),
         pc := s.pc[t := if claims then Claiming(first, got) else Idle])
    case Claiming(first, got) =>
      s.(head := s.head + got, claimed := s.claimed + Interval(first, first + got),
         log := s.log + [Claim(t, s.head, got)], got := Credit(s.got, t, got), pc := s.pc[t := Idle])
  }

  /** The test before the optimistic fetch_add, on the values loaded so far. */
  function FirstCheck(call: Call, tail: nat, over: nat, optimistic: nat): PC {
    match call
    case Single => if optimistic - over < tail then Optimistic(call, 1, over) else Idle
    case Bulk(max) =>
      var desired := tail - (optimistic - over);
      if 0 < desired then Optimistic(call, Min(desired, max), over) else Idle
  }

  /** The test after the fetch_add, on the freshly loaded tail. */
  function SecondCheck(call: Call, first: nat, want: nat, over: nat, tail: nat): (p: PC)
    ensures p.Reporting? || p.Claiming?
    ensures call.Bulk? || want == 1 ==>
      && p.first == first && p.got == Min(want, Pos(tail - (first - over)))
      && (p.Claiming? ==> p.got == want)
      && (p.Reporting? ==> p.lost == want - p.got && (p.claims <==> p.got > 0))
  {
    match call
    case Single => if first - over < tail then Claiming(first, 1) else Reporting(first, 0, want, false)
    case Bulk(_) =>
      var actual := tail - (first - over);
      if 0 < actual then
        var got := Min(want, actual);
        if got < want then Reporting(first, got, want - got, true) else Claiming(first, got)
      else
        Reporting(first, 0, want, false)
  }

  // ---------------------------------------------------------------- runs

  ghost predicate Init(s: State) {
    && s.items == [] && s.head == s.optimistic == s.overcommit == 0
    && (forall t | 0 <= t < |s.pc| :: s.pc[t].Idle?)
    && s.passed == s.claimed == s.reported == {} && s.log == []
    && |s.asked| == |s.got| == |s.pc| && forall t | 0 <= t < |s.pc| :: s.asked[t] == s.got[t] == 0
  }

  ghost predicate Next(s: State, s': State) { exists a :: Enabled(s, a) && s' == Apply(s, a) }

  ghost predicate IsRun(run: seq<State>) {
    && |run| > 0 && Init(run[0])
    && forall i | 0 <= i < |run| - 1 :: Next(run[i], run[i + 1])
  }

  // ---------------------------------------------------------------- the invariant

  /** The tickets a thread still has to settle. */
  ghost function Tickets(p: PC): set<nat> {
    match p
    case Ticketed(_, first, want, _) => Interval(first, first + want)
    case Reporting(first, got, lost, _) => Interval(first, first + got + lost)
    case Claiming(first, got) => Interval(first, first + got)
    case _ => {}
  }

  ghost function Below(a: set<nat>, m: nat): set<nat> { set i | i in a && i < m }

  ghost predicate ThreadOk(s: State, p: PC) {
    && Tickets(p) !! s.claimed && Tickets(p) !! s.reported && Tickets(p) <= Interval(0, s.optimistic)
    && match p
       case LoadedOvercommit(_, _, over) => over <= |s.reported|
       case Optimistic(call, want, over) => over <= |s.reported| && (call.Single? ==> want == 1)
       case Ticketed(call, first, want, over) =>
         && Tickets(p) !! s.passed && over <= |Below(s.reported, first)| && (call.Single? ==> want == 1)
       case Reporting(first, got, lost, claims) =>
         && (!claims ==> got == 0)
         && Interval(first, first + got) <= s.passed && Interval(first + got, first + got + lost) !! s.passed
       case Claiming(_, _) => Tickets(p) <= s.passed
       case _ => true
  }

  ghost predicate Disjoint(pc: seq<PC>) {
    forall t, u | 0 <= t < u < |pc| :: Tickets(pc[t]) !! Tickets(pc[u])
  }

  /** A passed ticket leaves room: the tickets up to it, less those given back before it,
      fit below the tail. */
  ghost predicate Room(s: State, m: nat) { m + 1 - |Below(s.reported, m)| <= |s.items| }

  ghost predicate Sets(s: State) {
    && s.claimed <= s.passed <= Interval(0, s.optimistic) && s.reported <= Interval(0, s.optimistic)
    && s.passed !! s.reported
    && |s.claimed| == s.head && |s.reported| == s.overcommit
  }

  ghost predicate Settled(s: State, m: nat) {
    m in s.claimed || m in s.reported || exists t :: 0 <= t < |s.pc| && m in Tickets(s.pc[t])
  }

  ghost predicate LogOk(log: seq<Claim>, head: nat) {
    if log == [] then head == 0
    else
      var last := log[|log| - 1];
      last.index + last.count == head && LogOk(log[..|log| - 1], last.index)
  }

  ghost predicate Inv(s: State) {
    && Sets(s) && Disjoint(s.pc)
    && (forall t | 0 <= t < |s.pc| :: ThreadOk(s, s.pc[t]))
    && (forall m | m in s.passed :: Room(s, m))
    && (forall m | 0 <= m < s.optimistic :: Settled(s, m))
    && LogOk(s.log, s.head)
  }

  // ---------------------------------------------------------------- counting

  lemma UnionSize<T>(a: set<T>, b: set<T>)
    requires a !! b
    ensures |a + b| == |a| + |b|
  {
  }

  lemma {:induction false} MaxOf(a: set<nat>) returns (m: nat)
    requires a != {}
    ensures m in a && forall i | i in a :: i <= m
  {
    var x :| x in a;
    m := x;
    if a != {x} {
      var k := MaxOf(a - {x});
      assert forall i | i in a :: i == x || i in a - {x};
      if k > x { m := k; }
    }
  }

  /** The heart of the protocol: no more tickets pass than there are items. */
  lemma PassedFit(s: State)
    requires s.passed !! s.reported && forall m | m in s.passed :: Room(s, m)
    ensures |s.passed| <= |s.items|
  {
    if s.passed != {} {
      var m := MaxOf(s.passed);
      var gone := Below(s.reported, m);
      IntervalSize(0, m + 1);
      SubsetSize(s.passed, Interval(0, m + 1) - gone);
      assert gone <= Interval(0, m + 1);
      assert |Interval(0, m + 1) - gone| == m + 1 - |gone|;
      assert Room(s, m);
    }
  }

  // ---------------------------------------------------------------- every step keeps the invariant

  /** Moving thread t to p, with no shared ticket set changed. */
  lemma MoveInv(s: State, s': State, t: Tid)
    requires Inv(s) && t < |s.pc| && |s'.pc| == |s.pc| && s'.pc == s.pc[t := s'.pc[t]]
    requires s' == s.(pc := s'.pc, asked := s'.asked, got := s'.got)
    requires ThreadOk(s', s'.pc[t]) && Tickets(s'.pc[t]) == Tickets(s.pc[t])
    ensures Inv(s')
  {
    forall u | 0 <= u < |s'.pc|
      ensures ThreadOk(s', s'.pc[u])
    {
      if u != t { assert ThreadOk(s, s.pc[u]); }
    }
    forall m | 0 <= m < s'.optimistic
      ensures Settled(s', m)
    {
      assert Settled(s, m);
      if m !in s.claimed && m !in s.reported {
        var u :| 0 <= u < |s.pc| && m in Tickets(s.pc[u]);
        assert m in Tickets(s'.pc[u]);
      }
    }
  }

  lemma EnqueueInv(s: State, x: Item)
    requires Inv(s)
    ensures Inv(s.(items := s.items + [x]))
  {
    var s' := s.(items := s.items + [x]);
    forall u | 0 <= u < |s'.pc|
      ensures ThreadOk(s', s'.pc[u])
    {
      assert ThreadOk(s, s.pc[u]);
    }
    forall m | m in s'.passed
      ensures Room(s', m)
    {
      assert Room(s, m);
    }
    forall m | 0 <= m < s'.optimistic
      ensures Settled(s', m)
    {
      assert Settled(s, m);
    }
  }

  /** Taking tickets: they are new, and all reports seen so far lie below them. */
  lemma TicketInv(s: State, t: Tid)
    requires Inv(s) && t < |s.pc| && s.pc[t].Optimistic?
    ensures Inv(Run(s, t))
  {
    var s' := Run(s, t);
    var p := s'.pc[t];
    assert ThreadOk(s, s.pc[t]);
    assert Below(s.reported, s.optimistic) == s.reported;
    assert Tickets(p) == Interval(s.optimistic, s'.optimistic);
    assert ThreadOk(s', p);
    forall u | 0 <= u < |s'.pc| && u != t
      ensures ThreadOk(s', s'.pc[u]) && Tickets(s'.pc[u]) !! Tickets(p)
    {
      assert ThreadOk(s, s.pc[u]);
    }
    forall m | m in s'.passed
      ensures Room(s', m)
    {
      assert Room(s, m);
    }
    forall m | 0 <= m < s'.optimistic
      ensures Settled(s', m)
    {
      if m < s.optimistic {
        assert Settled(s, m);
        if m !in s.claimed && m !in s.reported {
          var u :| 0 <= u < |s.pc| && m in Tickets(s.pc[u]);
          assert m in Tickets(s'.pc[u]);
        }
      } else {
        assert m in Tickets(s'.pc[t]);
      }
    }
  }

  /** Tickets only move between a thread and the settled sets. */
  lemma StillSettled(s: State, s': State, t: Tid)
    requires t < |s.pc| && |s'.pc| == |s.pc| && s'.pc == s.pc[t := s'.pc[t]]
    requires s'.optimistic == s.optimistic && forall m | 0 <= m < s.optimistic :: Settled(s, m)
    requires s.claimed <= s'.claimed && s.reported <= s'.reported
    requires forall m | m in Tickets(s.pc[t]) :: m in Tickets(s'.pc[t]) || m in s'.claimed || m in s'.reported
    ensures forall m | 0 <= m < s'.optimistic :: Settled(s', m)
  {
    forall m | 0 <= m < s'.optimistic
      ensures Settled(s', m)
    {
      assert Settled(s, m);
      if m !in s'.claimed && m !in s'.reported {
        var u :| 0 <= u < |s.pc| && m in Tickets(s.pc[u]);
        assert m in Tickets(s'.pc[u]);
      }
    }
  }

  lemma RoomStays(s: State, s': State)
    requires s.reported <= s'.reported && s'.items == s.items && s'.passed == s.passed
    requires forall m | m in s.passed :: Room(s, m)
    ensures forall m | m in s'.passed :: Room(s', m)
  {
    forall m | m in s'.passed
      ensures Room(s', m)
    {
      assert Room(s, m);
      SubsetSize(Below(s.reported, m), Below(s'.reported, m));
    }
  }

  lemma CheckOwn(s: State, s': State, t: Tid)
    requires Sets(s) && t < |s.pc| && s.pc[t].Ticketed? && ThreadOk(s, s.pc[t]) && s' == Run(s, t)
    ensures Sets(s') && ThreadOk(s', s'.pc[t]) && Tickets(s'.pc[t]) == Tickets(s.pc[t])
    ensures s.passed <= s'.passed && forall m | m in s'.passed && m !in s.passed :: m in Tickets(s.pc[t])
  {
  }

  /** Every ticket that passes leaves room, because the overcommit it subtracts was reported
      by tickets below it. */
  lemma CheckRoom(s: State, s': State, t: Tid, m: nat)
    requires t < |s.pc| && s.pc[t].Ticketed? && ThreadOk(s, s.pc[t]) && s' == Run(s, t)
    requires m in s'.passed && m !in s.passed
    ensures Room(s', m)
  {
    var q := s.pc[t];
    assert m - q.over < |s.items|;
    SubsetSize(Below(s.reported, q.first), Below(s.reported, m));
  }

  lemma CheckOther(s: State, s': State, q: PC, p: PC)
    requires ThreadOk(s, p) && Tickets(p) !! Tickets(q) && s' == s.(pc := s'.pc, passed := s'.passed)
    requires s.passed <= s'.passed && forall m | m in s'.passed && m !in s.passed :: m in Tickets(q)
    ensures ThreadOk(s', p)
  {
  }

  lemma CheckInv(s: State, t: Tid)
    requires Inv(s) && t < |s.pc| && s.pc[t].Ticketed?
    ensures Inv(Run(s, t))
  {
    hide ThreadOk, Sets, Settled, Tickets, Interval, LogOk;
    var s' := Run(s, t);
    assert ThreadOk(s, s.pc[t]);
    CheckOwn(s, s', t);
    forall u | 0 <= u < |s'.pc| && u != t
      ensures ThreadOk(s', s'.pc[u])
    {
      assert ThreadOk(s, s.pc[u]) && Tickets(s.pc[u]) !! Tickets(s.pc[t]);
      CheckOther(s, s', s.pc[t], s.pc[u]);
    }
    forall m | m in s'.passed
      ensures Room(s', m)
    {
      if m in s.passed { assert Room(s, m); } else { CheckRoom(s, s', t, m); }
    }
    DisjointShrinks(s.pc, t, s'.pc[t]);
    StillSettled(s, s', t);
  }

  /** What the other threads know survives the return of some of q's tickets. */
  lemma ReportOther(s: State, s': State, q: PC, p: PC)
    requires ThreadOk(s, p) && Tickets(p) !! Tickets(q) && q.Reporting?
    requires s' == s.(pc := s'.pc, overcommit := s'.overcommit, reported := s'.reported)
    requires s'.reported == s.reported + Interval(q.first + q.got, q.first + q.got + q.lost)
    ensures ThreadOk(s', p)
  {
    SubsetSize(s.reported, s'.reported);
    if p.Ticketed? {
      SubsetSize(Below(s.reported, p.first), Below(s'.reported, p.first));
    }
    assert forall m | m in Interval(q.first + q.got, q.first + q.got + q.lost) :: m in Tickets(q);
  }

  lemma DisjointShrinks(pc: seq<PC>, t: Tid, p: PC)
    requires Disjoint(pc) && t < |pc| && Tickets(p) <= Tickets(pc[t])
    ensures Disjoint(pc[t := p])
  {
  }

  /** The tickets given back were not yet given back. */
  lemma ReportSets(s: State, s': State, t: Tid)
    requires Sets(s) && t < |s.pc| && s.pc[t].Reporting? && ThreadOk(s, s.pc[t]) && s' == Run(s, t)
    ensures Sets(s')
  {
    hide FirstCheck, SecondCheck, Credit;
    var q := s.pc[t];
    var back := Interval(q.first + q.got, q.first + q.got + q.lost);
    assert back <= Tickets(q);
    IntervalSize(q.first + q.got, q.first + q.got + q.lost);
    UnionSize(s.reported, back);
  }

  lemma ReportOwn(s: State, s': State, t: Tid)
    requires t < |s.pc| && s.pc[t].Reporting? && ThreadOk(s, s.pc[t]) && s' == Run(s, t)
    ensures ThreadOk(s', s'.pc[t]) && Tickets(s'.pc[t]) <= Tickets(s.pc[t])
    ensures forall m | m in Tickets(s.pc[t]) :: m in Tickets(s'.pc[t]) || m in s'.reported
  {
    hide FirstCheck, SecondCheck, Credit;
    var q := s.pc[t];
    var kept, back := Interval(q.first, q.first + q.got), Interval(q.first + q.got, q.first + q.got + q.lost);
    assert Tickets(q) == kept + back && kept !! back;
  }

  lemma ReportInv(s: State, t: Tid)
    requires Inv(s) && t < |s.pc| && s.pc[t].Reporting?
    ensures Inv(Run(s, t))
  {
    hide ThreadOk, Sets, Room, Settled, Tickets, Interval;
    var s' := Run(s, t);
    assert ThreadOk(s, s.pc[t]);
    ReportOwn(s, s', t);
    ReportSets(s, s', t);
    forall u | 0 <= u < |s'.pc| && u != t
      ensures ThreadOk(s', s'.pc[u])
    {
      assert ThreadOk(s, s.pc[u]) && Tickets(s.pc[u]) !! Tickets(s.pc[t]);
      ReportOther(s, s', s.pc[t], s.pc[u]);
    }
    DisjointShrinks(s.pc, t, s'.pc[t]);
    RoomStays(s, s');
    StillSettled(s, s', t);
  }

  lemma ClaimOwn(s: State, s': State, t: Tid)
    requires Sets(s) && t < |s.pc| && s.pc[t].Claiming? && ThreadOk(s, s.pc[t]) && s' == Run(s, t)
    requires LogOk(s.log, s.head)
    ensures Sets(s') && ThreadOk(s', s'.pc[t]) && Tickets(s'.pc[t]) == {}
    ensures s'.claimed == s.claimed + Tickets(s.pc[t]) && LogOk(s'.log, s'.head)
  {
    var q := s.pc[t];
    IntervalSize(q.first, q.first + q.got);
    UnionSize(s.claimed, Tickets(q));
    assert s'.log[..|s'.log| - 1] == s.log;
  }

  lemma ClaimOther(s: State, s': State, q: PC, p: PC)
    requires ThreadOk(s, p) && Tickets(p) !! Tickets(q) && s'.claimed == s.claimed + Tickets(q)
    requires s' == s.(pc := s'.pc, head := s'.head, log := s'.log, claimed := s'.claimed, got := s'.got)
    ensures ThreadOk(s', p)
  {
  }

  lemma ClaimInv(s: State, t: Tid)
    requires Inv(s) && t < |s.pc| && s.pc[t].Claiming?
    ensures Inv(Run(s, t))
  {
    hide ThreadOk, Sets, Room, Settled, Tickets, Interval, LogOk;
    var s' := Run(s, t);
    assert ThreadOk(s, s.pc[t]);
    ClaimOwn(s, s', t);
    forall u | 0 <= u < |s'.pc| && u != t
      ensures ThreadOk(s', s'.pc[u])
    {
      assert ThreadOk(s, s.pc[u]) && Tickets(s.pc[u]) !! Tickets(s.pc[t]);
      ClaimOther(s, s', s.pc[t], s.pc[u]);
    }
    DisjointShrinks(s.pc, t, s'.pc[t]);
    RoomStays(s, s');
    StillSettled(s, s', t);
  }

  /** Every atomic step of the producer and of every consumer keeps the invariant. */
  lemma StepKeepsInv(s: State, a: Action)
    requires Inv(s) && Enabled(s, a)
    ensures Inv(Apply(s, a))
  {
    match a
    case Enqueue(x) => EnqueueInv(s, x);
    case Start(t, call) => MoveInv(s, Apply(s, a), t);
    case Proceed(t) =>
      assert ThreadOk(s, s.pc[t]);
      match s.pc[t]
      case LoadedTail(_, _) => MoveInv(s, Apply(s, a), t);
      case LoadedOvercommit(_, _, _) => MoveInv(s, Apply(s, a), t);
      case Optimistic(_, _, _) => TicketInv(s, t);
      case Ticketed(_, _, _, _) => CheckInv(s, t);
      case Reporting(_, _, _, _) => ReportInv(s, t);
      case Claiming(_, _) => ClaimInv(s, t);
  }

  lemma {:induction false} RunInv(run: seq<State>, i: nat)
    requires IsRun(run) && i < |run|
    ensures Inv(run[i])
  {
    if i > 0 {
      RunInv(run, i - 1);
      assert Next(run[i - 1], run[i - 1 + 1]);
      var a :| Enabled(run[i - 1], a) && run[i] == Apply(run[i - 1], a);
      StepKeepsInv(run[i - 1], a);
    }
  }

  // ---------------------------------------------------------------- main results

  /** A consumer that passed the second check finds every index it takes below the tail, also
      when other consumers with later tickets got ahead of it. */
  lemma ClaimedIndexBelowTail(run: seq<State>, i: nat, t: Tid)
    requires IsRun(run) && i < |run| && t < |run[i].pc| && run[i].pc[t].Claiming?
    ensures run[i].head + run[i].pc[t].got <= |run[i].items|
  {
    RunInv(run, i);
    var s := run[i];
    var q := s.pc[t];
    assert ThreadOk(s, q);
    IntervalSize(q.first, q.first + q.got);
    SubsetSize(s.claimed + Tickets(q), s.passed);
    PassedFit(s);
  }

  ghost function Delivered(log: seq<Claim>, items: seq<Item>): seq<Item>
    requires forall k | 0 <= k < |log| :: log[k].index + log[k].count <= |items|
  {
    if log == [] then [] else
      var last := log[|log| - 1];
      Delivered(log[..|log| - 1], items) + items[last.index .. last.index + last.count]
  }

  lemma {:induction false} LogBounded(log: seq<Claim>, head: nat)
    requires LogOk(log, head)
    ensures forall k | 0 <= k < |log| :: log[k].index + log[k].count <= head
  {
    if log != [] {
      LogBounded(log[..|log| - 1], log[|log| - 1].index);
    }
  }

  lemma {:induction false} DeliveredPrefix(log: seq<Claim>, head: nat, items: seq<Item>)
    requires LogOk(log, head) && head <= |items|
    requires forall k | 0 <= k < |log| :: log[k].index + log[k].count <= |items|
    ensures Delivered(log, items) == items[..head]
  {
    if log != [] {
      var last := log[|log| - 1];
      DeliveredPrefix(log[..|log| - 1], last.index, items);
    }
  }

  /** Every index below the head has gone to exactly one consumer: the claims, in the order of
      their fetch_add on headIndex, spell out a prefix of what was enqueued. */
  lemma FifoDelivery(run: seq<State>, i: nat)
    requires IsRun(run) && i < |run|
    ensures run[i].head <= |run[i].items|
    ensures forall k | 0 <= k < |run[i].log| :: run[i].log[k].index + run[i].log[k].count <= |run[i].items|
    ensures Delivered(run[i].log, run[i].items) == run[i].items[..run[i].head]
  {
    RunInv(run, i);
    var s := run[i];
    SubsetSize(s.claimed, s.passed);
    PassedFit(s);
    LogBounded(s.log, s.head);
    DeliveredPrefix(s.log, s.head, s.items);
  }

  // ---------------------------------------------------------------- what one call takes

  /** What a call holds or is about to hold never exceeds what it asked for; only a finished call has
      claimed anything. */
  ghost predicate CallOk(p: PC, asked: nat, got: nat) {
    && got <= asked && (!p.Idle? ==> got == 0)
    && match p
       case LoadedTail(call, _) => asked == if call.Bulk? then call.max else 1
       case LoadedOvercommit(call, _, _) => asked == if call.Bulk? then call.max else 1
       case Optimistic(call, want, _) => want <= asked && (call.Single? ==> want == 1)
       case Ticketed(call, _, want, _) => want <= asked && (call.Single? ==> want == 1)
       case Reporting(_, n, lost, _) => n + lost <= asked
       case Claiming(_, n) => n <= asked
       case Idle => true
  }

  ghost predicate CallsOk(s: State) {
    && |s.asked| == |s.got| == |s.pc|
    && forall t | 0 <= t < |s.pc| :: CallOk(s.pc[t], s.asked[t], s.got[t])
  }

  lemma StepKeepsCalls(s: State, a: Action)
    requires CallsOk(s) && Enabled(s, a)
    ensures CallsOk(Apply(s, a))
  {
    hide Interval;
    match a
    case Enqueue(_) =>
    case Start(t, _) =>
    case Proceed(t) => assert CallOk(s.pc[t], s.asked[t], s.got[t]);
  }

  lemma {:induction false} RunCalls(run: seq<State>, i: nat)
    requires IsRun(run) && i < |run|
    ensures CallsOk(run[i])
  {
    hide Apply, Enabled, CallOk;
    if i == 0 {
      StartCalls(run[0]);
    } else {
      RunCalls(run, i - 1);
      assert Next(run[i - 1], run[i - 1 + 1]);
      var a :| Enabled(run[i - 1], a) && run[i] == Apply(run[i - 1], a);
      StepKeepsCalls(run[i - 1], a);
    }
  }

  lemma StartCalls(s: State)
    requires Init(s)
    ensures CallsOk(s)
  {
  }

  /** A call never takes more than it asked for: in every run, what it has claimed or is about to
      claim is at most the bulk maximum, or one element for a single dequeue. */
  lemma AtMostAsked(run: seq<State>, i: nat, t: Tid)
    requires IsRun(run) && i < |run| && t < |run[i].pc|
    ensures |run[i].asked| == |run[i].got| == |run[i].pc| && run[i].got[t] <= run[i].asked[t]
    ensures run[i].pc[t].Claiming? || run[i].pc[t].Reporting? ==> run[i].got[t] + run[i].pc[t].got <= run[i].asked[t]
  {
    RunCalls(run, i);
    assert CallOk(run[i].pc[t], run[i].asked[t], run[i].got[t]);
  }

  /** Up to n steps of thread t, until its call is over. */
  ghost function Steps(s: State, t: Tid, n: nat): (r: State)
    requires t < |s.pc|
    ensures |r.got| == |s.got|
    decreases n
  {
    if n == 0 || s.pc[t].Idle? then s else Steps(Run(s, t), t, n - 1)
  }

  lemma AloneSteps(s: State, t: Tid, call: Call)
    requires CallsOk(s) && t < |s.pc| && s.pc[t].Idle? && s.optimistic == s.head + s.overcommit
    requires s.head <= |s.items|
    ensures var max := if call.Bulk? then call.max else 1;
      var n := if max < |s.items| - s.head then max else |s.items| - s.head;
      var done := Steps(Apply(s, Start(t, call)), t, 5);
      && done.pc == s.pc && done.items == s.items && done.head == s.head + n && done.got[t] == n
      && done.log == s.log + (if s.head < |s.items| then [Claim(t, s.head, n)] else [])
      && done.optimistic == done.head + done.overcommit
  {
    hide Interval;
    var s1 := Apply(s, Start(t, call));
    var s2 := Run(s1, t);
    var s3 := Run(s2, t);
    if s.head < |s.items| {
      var s4 := Run(s3, t);
      var s5 := Run(s4, t);
      var s6 := Run(s5, t);
      assert Steps(s1, t, 5) == Steps(s2, t, 4) == Steps(s3, t, 3) == Steps(s4, t, 2) == Steps(s5, t, 1) == s6;
      assert s6.pc == s.pc;
    } else {
      assert Steps(s1, t, 5) == Steps(s2, t, 4) == Steps(s3, t, 3) == s3;
      assert s3.pc == s.pc;
    }
  }

  /** The tickets below m that some call has yet to settle. */
  ghost function HeldBelow(s: State, m: nat): set<nat> {
    set k | k in Interval(0, m) && exists u :: 0 <= u < |s.pc| && k in Tickets(s.pc[u])
  }

  lemma EveryTicket(s: State, m: nat)
    requires Inv(s) && m <= s.optimistic
    ensures m <= s.head + s.overcommit + |HeldBelow(s, m)|
  {
    hide LogOk, Disjoint, ThreadOk, Tickets;
    forall k | k in Interval(0, m)
      ensures k in s.claimed + s.reported + HeldBelow(s, m)
    {
      assert Settled(s, k);
    }
    IntervalSize(0, m);
    SubsetSize(Interval(0, m), s.claimed + s.reported + HeldBelow(s, m));
    SumSize(s.claimed, s.reported, HeldBelow(s, m));
  }

  lemma SumSize<T>(a: set<T>, b: set<T>, c: set<T>)
    ensures |a + b + c| <= |a| + |b| + |c|
  {
    assert |a + b| == |a| + |b| - |a * b|;
    assert |(a + b) + c| == |a + b| + |c| - |(a + b) * c|;
  }

  /** A dequeue gives up only if the elements it saw beyond the head were all spoken for: by tickets
      other calls still hold, or held when it read the overcommit and have given back since. */
  lemma GivesUpOnlyWhenSpokenFor(run: seq<State>, i: nat, t: Tid)
    requires IsRun(run) && i < |run| && t < |run[i].pc|
    ensures var s, p := run[i], run[i].pc[t];
      p.LoadedOvercommit? && Run(s, t).pc[t].Idle? ==>
        p.tail - s.head <= |HeldBelow(s, s.optimistic)| + s.overcommit - p.over
    ensures var s, p := run[i], run[i].pc[t];
      p.Ticketed? && p.want > 0 && Run(s, t).pc[t].got == 0 ==>
        |s.items| - s.head <= |HeldBelow(s, p.first)| + s.overcommit - p.over
  {
    hide HeldBelow, LogOk, Disjoint, Settled, Room, Interval;
    RunInv(run, i);
    var s, p := run[i], run[i].pc[t];
    assert ThreadOk(s, p);
    if p.LoadedOvercommit? { EveryTicket(s, s.optimistic); }
    if p.Ticketed? && p.want > 0 {
      TicketBelow(s, p);
      EveryTicket(s, p.first);
    }
  }

  lemma TicketBelow(s: State, p: PC)
    requires p.Ticketed? && p.want > 0 && Tickets(p) <= Interval(0, s.optimistic)
    ensures p.first < s.optimistic
  {
    assert p.first in Tickets(p);
  }

  /** Over-commitment is fully corrected: with no call in progress the counters agree, so the
      first check of the next dequeue succeeds exactly when the queue is not empty. */
  lemma QuiescentCounters(run: seq<State>, i: nat)
    requires IsRun(run) && i < |run|
    requires forall t | 0 <= t < |run[i].pc| :: run[i].pc[t].Idle?
    ensures run[i].optimistic == run[i].head + run[i].overcommit
    ensures FirstCheck(Single, |run[i].items|, run[i].overcommit, run[i].optimistic).Optimistic?
       <==> run[i].head < |run[i].items|
  {
    RunInv(run, i);
    var s := run[i];
    forall m | m in Interval(0, s.optimistic)
      ensures m in s.claimed + s.reported
    {
      assert Settled(s, m);
    }
    assert Interval(0, s.optimistic) == s.claimed + s.reported;
    UnionSize(s.claimed, s.reported);
    IntervalSize(0, s.optimistic);
  }

  /** With no other call in progress a dequeue takes what there is, up to what it asked for, from the
      head on; an empty queue leaves it empty-handed. */
  lemma AloneTakesAll(run: seq<State>, i: nat, t: Tid, call: Call)
    requires IsRun(run) && i < |run| && t < |run[i].pc| && forall u | 0 <= u < |run[i].pc| :: run[i].pc[u].Idle?
    ensures |run[i].asked| == |run[i].got| == |run[i].pc| && run[i].head <= |run[i].items|
    ensures var s, max := run[i], if call.Bulk? then call.max else 1;
      var n := if max < |s.items| - s.head then max else |s.items| - s.head;
      var done := Steps(Apply(s, Start(t, call)), t, 5);
      && done.pc == s.pc && done.items == s.items && done.head == s.head + n && done.got[t] == n
      && done.log == s.log + if s.head < |s.items| then [Claim(t, s.head, n)] else []
  {
    hide Steps, Apply, Init, Next, CallsOk;
    RunCalls(run, i);
    assert |run[i].asked| == |run[i].got| == |run[i].pc| by { SameSizes(run[i]); }
    FifoDelivery(run, i);
    QuiescentCounters(run, i);
    AloneSteps(run[i], t, call);
  }

  lemma SameSizes(s: State)
    requires CallsOk(s)
    ensures |s.asked| == |s.got| == |s.pc|
  {
  }
}

/** The wrapping comparison every index test of the queue goes through. */
module CircularIndex {

  const HALF: int := 0x8000_0000_0000_0000
  const WORD: int := 0x1_0000_0000_0000_0000

  /** circular_less_than on 64-bit unsigned words. */
  predicate CircularLess(a: nat, b: nat)
    requires a < WORD && b < WORD
  {
    (a - b) % WORD > HALF
  }

  /** On indices less than half the word apart it is the order of the unbounded indices. */
  lemma CircularLessIsLess(x: nat, y: nat)
    requires -HALF < x - y < HALF
    ensures CircularLess(x % WORD, y % WORD) <==> x < y
  {
    var d := x % WORD - y % WORD;
    assert x - y == d + (x / WORD - y / WORD) * WORD;
    var k := x / WORD - y / WORD;
    assert k == 0 || k == 1 || k == -1;
  }

  /** Exactly half a word apart neither index is below the other. */
  lemma HalfApart(x: nat)
    ensures !CircularLess(x % WORD, (x + HALF) % WORD) && !CircularLess((x + HALF) % WORD, x % WORD)
  {
  }
}
