/** The timer queue of src/net/TimerQueue.cpp: timers ordered by expiration in one set, known by
    (address, sequence number) in another, while callbacks of the running batch add and cancel. */
module TimerModel {

  import opened Common

  /** Addresses stay below the one used as the upper end of a search. */
  const ADDR_MAX: nat := 0xffff_ffff_ffff_ffff

  datatype Timer = Timer(when: int, repeat: bool, interval: nat, sequence: nat)
  datatype Entry = Entry(when: int, addr: nat)
  datatype TimerId = TimerId(addr: nat, sequence: nat)

  /** `heap` holds the live Timer objects, `pending` those whose addTimerInLoop is still queued,
      `firing` the batch handleInLoop is running, of which `next` callbacks have run. `deadline` is
      what the timerfd was last set to; `ran` records the callbacks run, by sequence number, and
      `times` and `periods` when each ran and the interval of its timer. */
  datatype State = State(
    heap: map<nat, Timer>, created: nat, pending: set<nat>,
    timers: set<Entry>, active: set<TimerId>, calling: bool, canceling: set<TimerId>,
    firing: seq<Entry>, next: nat, now: int, deadline: Option<int>,
    ran: seq<nat>, times: seq<int>, periods: seq<nat>)

  const START: State := State(map[], 0, {}, {}, {}, false, {}, [], 0, 0, None, [], [], [])

  // ---------------------------------------------------------------- order of entries

  predicate Less(e: Entry, f: Entry) { e.when < f.when || (e.when == f.when && e.addr < f.addr) }

  predicate IsLeast(e: Entry, s: set<Entry>) { e in s && forall f | f in s :: f == e || Less(e, f) }

  lemma {:induction false} LeastExists(s: set<Entry>)
    requires s != {}
    ensures exists e :: IsLeast(e, s)
    decreases |s|
  {
    var x :| x in s;
    if s == {x} {
      assert IsLeast(x, s);
    } else {
      var rest := s - {x};
      assert rest != {};
      LeastExists(rest);
      var y :| IsLeast(y, rest);
      var least := if Less(x, y) then x else y;
      forall f | f in s
        ensures f == least || Less(least, f)
      {
        if f != x { assert f in rest; }
      }
      assert IsLeast(least, s);
    }
  }

  ghost function Least(s: set<Entry>): (e: Entry)
    requires s != {}
    ensures IsLeast(e, s)
  {
    LeastExists(s);
    var e :| IsLeast(e, s);
    e
  }

  lemma LeastUnique(e: Entry, f: Entry, s: set<Entry>)
    requires IsLeast(e, s) && IsLeast(f, s)
    ensures e == f
  {
  }

  /** The entries in iteration order. */
  ghost function Sort(s: set<Entry>): (q: seq<Entry>)
    ensures forall e :: e in q <==> e in s
    decreases |s|
  {
    if s == {} then [] else [Least(s)] + Sort(s - {Least(s)})
  }

  ghost predicate Ordered(q: seq<Entry>) { forall i, j | 0 <= i < j < |q| :: Less(q[i], q[j]) }

  lemma {:induction false} SortOrdered(s: set<Entry>)
    ensures Ordered(Sort(s))
    decreases |s|
  {
    if s != {} {
      var e, rest := Least(s), s - {Least(s)};
      SortOrdered(rest);
      forall i, j | 0 <= i < j < |Sort(s)|
        ensures Less(Sort(s)[i], Sort(s)[j])
      {
        assert Sort(s)[j] == Sort(rest)[j - 1];
        assert Sort(rest)[j - 1] in Sort(rest);
        if i > 0 { assert Sort(s)[i] == Sort(rest)[i - 1]; }
      }
    }
  }

  // ---------------------------------------------------------------- operations

  function Addrs(q: seq<Entry>): set<nat> { set e | e in q :: e.addr }

  /** A timer waiting to expire: live, inserted, and not in the running batch. */
  predicate On(s: State, a: nat) { a in s.heap && a !in s.pending && a !in Addrs(s.firing) }

  function IdAt(s: State, a: nat): TimerId
    requires a in s.heap
  {
    TimerId(a, s.heap[a].sequence)
  }

  function EntryAt(s: State, a: nat): Entry
    requires a in s.heap
  {
    Entry(s.heap[a].when, a)
  }

  /** The Timer constructor: any free address, the next sequence number. */
  function New(s: State, a: nat, when: int, repeat: bool, interval: nat): State {
    s.(heap := s.heap[a := Timer(when, repeat, interval, s.created + 1)], created := s.created + 1,
       pending := s.pending + {a})
  }

  function Inserted(s: State, a: nat): State
    requires a in s.heap
  {
    s.(timers := s.timers + {EntryAt(s, a)}, active := s.active + {IdAt(s, a)})
  }

  /** insert reports a new earliest expiration. */
  predicate EarliestChanged(timers: set<Entry>, when: int) { forall e | e in timers :: when < e.when }

  function AddInLoop(s: State, a: nat): State
    requires a in s.heap
  {
    var t := Inserted(s, a).(pending := s.pending - {a});
    if EarliestChanged(s.timers, s.heap[a].when) then t.(deadline := Some(s.heap[a].when)) else t
  }

  function Cancel(s: State, id: TimerId): State {
    if id in s.active && id.addr in s.heap then
      s.(timers := s.timers - {EntryAt(s, id.addr)}, active := s.active - {id}, heap := s.heap - {id.addr})
    else if s.calling then s.(canceling := s.canceling + {id})
    else s
  }

  function Due(timers: set<Entry>, now: int): set<Entry> { set e | e in timers && e.when <= now }

  /** getExpired and the start of handleInLoop. */
  ghost function Begin(s: State, now: int): State {
    var due := Due(s.timers, now);
    s.(timers := s.timers - due, active := (set id | id in s.active && id.addr !in Addrs(Sort(due))),
       calling := true, canceling := {}, firing := Sort(due), next := 0, now := now)
  }

  function Fire(s: State): State
    requires s.next < |s.firing| && s.firing[s.next].addr in s.heap
  {
    var timer := s.heap[s.firing[s.next].addr];
    s.(next := s.next + 1, ran := s.ran + [timer.sequence], times := s.times + [s.now],
       periods := s.periods + [timer.interval])
  }

  /** reset for the first timer of the batch: re-arm it, or delete it. */
  function ResetOne(s: State): State
    requires s.firing != [] && s.firing[0].addr in s.heap
  {
    var a := s.firing[0].addr;
    var t := s.heap[a];
    var rest := s.(firing := s.firing[1..]);
    if t.repeat && IdAt(s, a) !in s.canceling then
      Inserted(rest.(heap := s.heap[a := t.(when := s.now + t.interval)]), a)
    else rest.(heap := s.heap - {a})
  }

  ghost predicate Live(s: State) {
    (forall i, j | 0 <= i < j < |s.firing| :: s.firing[i].addr != s.firing[j].addr)
    && forall i | 0 <= i < |s.firing| :: s.firing[i].addr in s.heap
  }

  lemma ResetOneLive(s: State)
    requires Live(s) && s.firing != []
    ensures Live(ResetOne(s))
  {
    var t := ResetOne(s);
    forall i | 0 <= i < |t.firing|
      ensures t.firing[i].addr in t.heap
    {
      assert t.firing[i] == s.firing[i + 1];
    }
  }

  ghost function ResetAll(s: State): State
    requires Live(s)
    decreases |s.firing|
  {
    if s.firing == [] then s
    else
      ResetOneLive(s);
      ResetAll(ResetOne(s))
  }

  /** Setting the timerfd to the earliest timer, if its expiration is a valid time. */
  ghost function Rearmed(s: State): State {
    if s.timers != {} && Least(s.timers).when > 0 then s.(deadline := Some(Least(s.timers).when)) else s
  }

  ghost function End(s: State): State
    requires Live(s)
  {
    Rearmed(ResetAll(s.(calling := false)).(next := 0))
  }

  // ---------------------------------------------------------------- runs

  datatype Op =
    | OpNew(addr: nat, when: int, repeat: bool, interval: nat)
    | OpAddInLoop(addr: nat)
    | OpCancel(id: TimerId)
    | OpBegin(now: int)
    | OpFire
    | OpEnd

  /** What can happen next: a new timer takes a free address, the clock is positive, and a batch
      runs all its callbacks before it ends. */
  ghost predicate Enabled(s: State, op: Op) {
    match op
    case OpNew(a, _, _, _) => a < ADDR_MAX && a !in s.heap
    case OpAddInLoop(a) => a in s.pending
    case OpCancel(_) => true
    case OpBegin(now) => !s.calling && now > 0
    case OpFire => s.calling && s.next < |s.firing|
    case OpEnd => s.calling && s.next == |s.firing|
  }

  ghost predicate Inv(s: State) {
    && SetsOk(s) && HeapOk(s) && RanOk(s)
    && (!s.calling ==> s.firing == []) && s.next <= |s.firing| && (s.calling ==> s.now > 0)
  }

  /** Both sets hold exactly the waiting timers. */
  ghost predicate SetsOk(s: State) {
    && (forall e | e in s.timers :: On(s, e.addr) && e == EntryAt(s, e.addr))
    && (forall a | On(s, a) :: EntryAt(s, a) in s.timers)
    && (forall id | id in s.active :: On(s, id.addr) && id == IdAt(s, id.addr))
    && (forall a | On(s, a) :: IdAt(s, a) in s.active)
  }

  /** Live timers have distinct sequence numbers; pending and firing timers are live and apart. */
  ghost predicate HeapOk(s: State) {
    && Live(s)
    && (forall a | a in s.heap :: a < ADDR_MAX && 0 < s.heap[a].sequence <= s.created)
    && (forall a, b | a in s.heap && b in s.heap && s.heap[a].sequence == s.heap[b].sequence :: a == b)
    && (forall a | a in s.pending :: a in s.heap && a !in Addrs(s.firing))
    && (forall i | 0 <= i < |s.firing| :: s.firing[i] == EntryAt(s, s.firing[i].addr) && s.firing[i].when <= s.now)
  }

  /** Sequence number q ran in the part of the batch that is done. */
  ghost predicate RanInBatch(s: State, a: nat) {
    exists i :: 0 <= i < s.next && i < |s.firing| && s.firing[i].addr == a
  }

  /** A timer that does not repeat has run only if it is in the done part of the batch. */
  ghost predicate RanOk(s: State) {
    && (forall q | q in s.ran :: q <= s.created)
    && (forall a | a in s.heap && !s.heap[a].repeat && s.heap[a].sequence in s.ran :: RanInBatch(s, a))
  }

  /** The timerfd is set no later than the earliest timer, so none is missed. */
  ghost predicate DeadlineOk(s: State) {
    forall e | e in s.timers :: s.deadline.Some? && s.deadline.value <= e.when
  }

  ghost function Step(s: State, op: Op): State
    requires Inv(s) && Enabled(s, op)
  {
    match op
    case OpNew(a, when, repeat, interval) => New(s, a, when, repeat, interval)
    case OpAddInLoop(a) => AddInLoop(s, a)
    case OpCancel(id) => Cancel(s, id)
    case OpBegin(now) => Begin(s, now)
    case OpFire => Fire(s)
    case OpEnd => End(s)
  }

  /** A change that keeps the batch and the record of runs, and every one-shot timer that stays. */
  lemma RanKept(s: State, t: State)
    requires RanOk(s) && t.firing == s.firing && t.next == s.next && t.ran == s.ran && t.created >= s.created
    requires forall a | a in t.heap :: (a in s.heap && t.heap[a] == s.heap[a]) || t.heap[a].sequence > s.created
    ensures RanOk(t)
  {
    forall a | a in t.heap && !t.heap[a].repeat && t.heap[a].sequence in t.ran
      ensures RanInBatch(t, a)
    {
      assert RanInBatch(s, a);
    }
  }

  lemma FiringLive(s: State, a: nat)
    requires Live(s) && a !in s.heap
    ensures a !in Addrs(s.firing)
  {
  }

  lemma NewSets(s: State, a: nat, when: int, repeat: bool, interval: nat)
    requires SetsOk(s) && a !in s.heap
    ensures SetsOk(New(s, a, when, repeat, interval))
  {
    hide Addrs;
    var t := New(s, a, when, repeat, interval);
    assert forall b :: On(t, b) <==> On(s, b);
  }

  lemma NewHeap(s: State, a: nat, when: int, repeat: bool, interval: nat)
    requires HeapOk(s) && a < ADDR_MAX && a !in s.heap
    ensures HeapOk(New(s, a, when, repeat, interval))
  {
    FiringLive(s, a);
    hide Addrs;
  }

  lemma NewInv(s: State, a: nat, when: int, repeat: bool, interval: nat)
    requires Inv(s) && a < ADDR_MAX && a !in s.heap
    ensures Inv(New(s, a, when, repeat, interval))
  {
    NewSets(s, a, when, repeat, interval);
    NewHeap(s, a, when, repeat, interval);
    hide SetsOk, HeapOk;
    RanKept(s, New(s, a, when, repeat, interval));
  }

  lemma AddSets(s: State, a: nat)
    requires SetsOk(s) && a in s.pending && a in s.heap && a !in Addrs(s.firing)
    ensures SetsOk(AddInLoop(s, a))
  {
    hide Addrs, EarliestChanged;
    var t := AddInLoop(s, a);
    assert forall b :: On(t, b) <==> On(s, b) || b == a;
  }

  lemma AddHeap(s: State, a: nat)
    requires HeapOk(s) && a in s.pending
    ensures HeapOk(AddInLoop(s, a))
  {
    hide Addrs, EarliestChanged;
  }

  lemma AddInv(s: State, a: nat)
    requires Inv(s) && a in s.pending
    ensures Inv(AddInLoop(s, a))
  {
    AddSets(s, a);
    AddHeap(s, a);
    hide SetsOk, HeapOk, EarliestChanged;
    assert a in s.heap by { assert HeapOk(s); }
    RanKept(s, AddInLoop(s, a));
  }

  lemma CancelSets(s: State, id: TimerId)
    requires SetsOk(s)
    ensures SetsOk(Cancel(s, id))
  {
    hide Addrs;
    var t := Cancel(s, id);
    assert forall b :: On(t, b) <==> On(s, b) && !(id in s.active && b == id.addr);
  }

  lemma CancelHeap(s: State, id: TimerId)
    requires HeapOk(s) && (id in s.active ==> On(s, id.addr))
    ensures HeapOk(Cancel(s, id))
  {
    assert forall i | 0 <= i < |s.firing| :: s.firing[i].addr in Addrs(s.firing);
    hide Addrs;
  }

  lemma CancelInv(s: State, id: TimerId)
    requires Inv(s)
    ensures Inv(Cancel(s, id))
  {
    CancelSets(s, id);
    CancelHeap(s, id);
    hide SetsOk, HeapOk;
    RanKept(s, Cancel(s, id));
  }

  lemma DueAddrs(s: State, now: int)
    requires SetsOk(s) && s.firing == []
    ensures forall a :: a in Addrs(Sort(Due(s.timers, now))) <==> On(s, a) && s.heap[a].when <= now
  {
    var due := Due(s.timers, now);
    forall a
      ensures a in Addrs(Sort(due)) <==> On(s, a) && s.heap[a].when <= now
    {
      if On(s, a) && s.heap[a].when <= now { assert EntryAt(s, a) in Sort(due); }
    }
  }

  lemma BeginSets(s: State, now: int)
    requires SetsOk(s) && s.firing == []
    ensures SetsOk(Begin(s, now))
  {
    var t := Begin(s, now);
    DueAddrs(s, now);
    assert Addrs([]) == {};
    hide Sort, Addrs;
    assert forall a :: On(t, a) <==> On(s, a) && s.heap[a].when > now;
  }

  lemma BeginHeap(s: State, now: int)
    requires SetsOk(s) && HeapOk(s) && s.firing == []
    ensures HeapOk(Begin(s, now))
  {
    BeginLive(s, now);
    DueAddrs(s, now);
    hide SetsOk, Sort, Addrs;
  }

  lemma BeginRan(s: State, now: int)
    requires RanOk(s) && s.firing == []
    ensures RanOk(Begin(s, now))
  {
    assert forall a :: !RanInBatch(s, a);
  }

  lemma BeginInv(s: State, now: int)
    requires Inv(s) && !s.calling && now > 0
    ensures Inv(Begin(s, now))
  {
    BeginSets(s, now);
    BeginHeap(s, now);
    BeginRan(s, now);
    hide SetsOk, HeapOk, RanOk;
  }

  lemma BeginLive(s: State, now: int)
    requires SetsOk(s) && s.firing == []
    ensures var t := Begin(s, now);
      && Live(t)
      && forall i | 0 <= i < |t.firing| :: t.firing[i] == EntryAt(t, t.firing[i].addr) && t.firing[i].when <= now
  {
    var due := Due(s.timers, now);
    var q := Sort(due);
    SortOrdered(due);
    assert forall i | 0 <= i < |q| :: q[i] in due;
    forall i, j | 0 <= i < j < |q|
      ensures q[i].addr != q[j].addr
    {
      assert Less(q[i], q[j]) && q[i] in due && q[j] in due;
    }
  }

  lemma FireInv(s: State)
    requires Inv(s) && s.calling && s.next < |s.firing|
    ensures Inv(Fire(s))
  {
    var t := Fire(s);
    var a := s.firing[s.next].addr;
    assert SetsOk(t) by {
      assert forall b :: On(t, b) <==> On(s, b);
      hide Addrs, HeapOk, RanOk;
    }
    assert HeapOk(t);
    hide SetsOk;
    forall b | b in t.heap && !t.heap[b].repeat && t.heap[b].sequence in t.ran
      ensures RanInBatch(t, b)
    {
      if s.heap[b].sequence in s.ran {
        assert RanInBatch(s, b);
      } else {
        assert b == a;
        assert t.firing[s.next].addr == a;
      }
    }
  }

  // ---------------------------------------------------------------- the end of a batch

  /** One-shot timers that have run are all in the batch being reset. */
  ghost predicate RanInFiring(s: State) {
    && (forall q | q in s.ran :: q <= s.created)
    && (forall a | a in s.heap && !s.heap[a].repeat && s.heap[a].sequence in s.ran :: a in Addrs(s.firing))
  }

  lemma FiringTail(q: seq<Entry>)
    requires q != [] && forall i, j | 0 <= i < j < |q| :: q[i].addr != q[j].addr
    ensures forall a :: a in Addrs(q[1..]) <==> a in Addrs(q) && a != q[0].addr
  {
    forall a
      ensures a in Addrs(q[1..]) <==> a in Addrs(q) && a != q[0].addr
    {
      if a in Addrs(q) && a != q[0].addr {
        var i :| 0 <= i < |q| && q[i].addr == a;
        assert q[i] == q[1..][i - 1];
      }
    }
  }

  lemma ResetOneSets(s: State)
    requires SetsOk(s) && Live(s) && s.firing != [] && s.firing[0].addr !in s.pending
    ensures SetsOk(ResetOne(s))
  {
    FiringTail(s.firing);
    assert s.firing[0].addr in Addrs(s.firing);
    hide Addrs, Live;
    var t, a := ResetOne(s), s.firing[0].addr;
    assert forall b :: On(t, b) <==> On(s, b) || (b == a && a in t.heap);
  }

  lemma ResetOneHeap(s: State)
    requires HeapOk(s) && s.firing != []
    ensures HeapOk(ResetOne(s))
  {
    ResetOneLive(s);
    FiringTail(s.firing);
    assert s.firing[0].addr in Addrs(s.firing);
    hide Addrs;
    var t := ResetOne(s);
    forall i | 0 <= i < |t.firing|
      ensures t.firing[i].addr in t.heap && t.firing[i] == EntryAt(t, t.firing[i].addr) && t.firing[i].when <= t.now
    {
      assert t.firing[i] == s.firing[i + 1];
    }
  }

  lemma ResetOneRan(s: State)
    requires RanInFiring(s) && Live(s) && s.firing != []
    ensures RanInFiring(ResetOne(s))
  {
    FiringTail(s.firing);
    hide Addrs;
  }

  ghost predicate Resetting(s: State) { SetsOk(s) && HeapOk(s) && RanInFiring(s) }

  lemma ResetOneKeeps(s: State)
    requires Resetting(s) && s.firing != []
    ensures Resetting(ResetOne(s))
  {
    assert s.firing[0].addr in Addrs(s.firing);
    ResetOneSets(s);
    ResetOneHeap(s);
    ResetOneRan(s);
  }

  lemma LiveOf(s: State)
    requires HeapOk(s)
    ensures Live(s)
  {
  }

  /** After the loop of reset both sets agree again and the batch is empty; a re-armed timer is
      due no earlier than the time of the batch. */
  lemma {:induction false} ResetAllKeeps(s: State)
    requires Resetting(s)
    ensures var t := ResetAll(s);
      && Resetting(t) && t.firing == [] && t.deadline == s.deadline && t.calling == s.calling
      && t.created == s.created && t.pending == s.pending && t.now == s.now
      && t.ran == s.ran && t.times == s.times && t.periods == s.periods
      && forall e | e in t.timers :: e in s.timers || e.when >= s.now
    decreases |s.firing|
  {
    hide SetsOk, HeapOk, RanInFiring;
    if s.firing != [] {
      LiveOf(s);
      ResetOneKeeps(s);
      ResetAllKeeps(ResetOne(s));
    }
  }

  lemma EndStarts(s: State)
    requires Inv(s)
    ensures Resetting(s.(calling := false))
  {
    var s1 := s.(calling := false);
    assert forall b :: On(s1, b) <==> On(s, b);
    forall a | a in s.heap && !s.heap[a].repeat && s.heap[a].sequence in s.ran
      ensures a in Addrs(s.firing)
    {
      assert RanInBatch(s, a);
    }
  }

  lemma EndInv(s: State)
    requires Inv(s) && s.calling && s.next == |s.firing|
    ensures Inv(End(s))
  {
    var s1 := s.(calling := false);
    EndStarts(s);
    ResetAllKeeps(s1);
    hide ResetAll;
    QuietInv(ResetAll(s1), End(s));
  }

  lemma QuietInv(s: State, t: State)
    requires Resetting(s) && s.firing == [] && !s.calling && t == s.(next := 0, deadline := t.deadline)
    ensures Inv(t)
  {
    assert forall b :: On(t, b) <==> On(s, b);
    assert Addrs([]) == {};
  }

  // ---------------------------------------------------------------- every run

  lemma StepInv(s: State, op: Op)
    requires Inv(s) && Enabled(s, op)
    ensures Inv(Step(s, op))
  {
    match op
    case OpNew(a, when, repeat, interval) => NewInv(s, a, when, repeat, interval);
    case OpAddInLoop(a) => AddInv(s, a);
    case OpCancel(id) => CancelInv(s, id);
    case OpBegin(now) => BeginInv(s, now);
    case OpFire => FireInv(s);
    case OpEnd => EndInv(s);
  }

  ghost predicate CanRun(s: State, ops: seq<Op>)
    requires Inv(s)
    decreases |ops|
  {
    ops == [] || (Enabled(s, ops[0]) && (StepInv(s, ops[0]); CanRun(Step(s, ops[0]), ops[1..])))
  }

  ghost function Exec(s: State, ops: seq<Op>): State
    requires Inv(s) && CanRun(s, ops)
    decreases |ops|
  {
    if ops == [] then s
    else
      StepInv(s, ops[0]);
      Exec(Step(s, ops[0]), ops[1..])
  }

  lemma StartInv()
    ensures Inv(START) && DeadlineOk(START)
  {
  }

  lemma EndDeadline(s: State)
    requires Inv(s) && s.calling && s.next == |s.firing| && DeadlineOk(s)
    ensures DeadlineOk(End(s))
  {
    EndStarts(s);
    ResetAllKeeps(s.(calling := false));
    hide ResetAll, Resetting, SetsOk, HeapOk, RanOk;
  }

  lemma StepDeadline(s: State, op: Op)
    requires Inv(s) && Enabled(s, op) && DeadlineOk(s)
    ensures DeadlineOk(Step(s, op))
  {
    if op.OpEnd? { EndDeadline(s); }
    hide End, SetsOk, RanOk;
  }

  /** In every run: the two sets hold exactly the waiting timers, and the timerfd is set no later
      than the earliest of them. */
  lemma {:induction false} RunInv(s: State, ops: seq<Op>)
    requires Inv(s) && DeadlineOk(s) && CanRun(s, ops)
    ensures Inv(Exec(s, ops)) && DeadlineOk(Exec(s, ops))
    decreases |ops|
  {
    if ops != [] {
      StepInv(s, ops[0]);
      StepDeadline(s, ops[0]);
      RunInv(Step(s, ops[0]), ops[1..]);
    }
  }

  /** The sizes the source asserts: one entry and one identifier per waiting timer. */
  lemma SameSize(s: State)
    requires Inv(s)
    ensures |s.timers| == |s.active|
    ensures forall e | e in s.timers :: IdAt(s, e.addr) in s.active
    ensures forall id | id in s.active :: EntryAt(s, id.addr) in s.timers
  {
    Paired(s.timers, s.active);
  }

  lemma {:induction false} Paired(timers: set<Entry>, active: set<TimerId>)
    requires forall e, f | e in timers && f in timers && e.addr == f.addr :: e == f
    requires forall x, y | x in active && y in active && x.addr == y.addr :: x == y
    requires forall e | e in timers :: exists x :: x in active && x.addr == e.addr
    requires forall x | x in active :: exists e :: e in timers && e.addr == x.addr
    ensures |timers| == |active|
    decreases |timers|
  {
    if timers == {} {
      assert active == {};
    } else {
      var e :| e in timers;
      var x :| x in active && x.addr == e.addr;
      Paired(timers - {e}, active - {x});
    }
  }

  // ---------------------------------------------------------------- cancellation

  /** The timer with sequence number q can never be armed again: it is gone, or in the running
      batch and going to be deleted by reset. */
  ghost predicate Dead(s: State, q: nat) {
    && q <= s.created
    && forall a | a in s.heap && s.heap[a].sequence == q ::
      a in Addrs(s.firing) && (IdAt(s, a) in s.canceling || !s.heap[a].repeat)
  }

  /** An identifier addTimer returned, now or long ago: if its timer lives, it lives at that address. */
  ghost predicate Issued(s: State, id: TimerId) {
    0 < id.sequence <= s.created && forall a | a in s.heap && s.heap[a].sequence == id.sequence :: a == id.addr
  }

  ghost predicate StillQueued(s: State, id: TimerId) {
    id.addr in s.pending && id.addr in s.heap && s.heap[id.addr].sequence == id.sequence
  }

  /** cancel takes effect exactly when the timer's own insertion is not still queued. */
  lemma CancelTakesEffect(s: State, id: TimerId)
    requires Inv(s) && Issued(s, id)
    ensures Dead(Cancel(s, id), id.sequence) <==> !StillQueued(s, id)
  {
    if id.addr in s.heap && s.heap[id.addr].sequence == id.sequence {
      if On(s, id.addr) {
        assert id == IdAt(s, id.addr) && id in s.active;
      } else if id.addr in Addrs(s.firing) {
        assert s.firing != [];
        assert !On(s, id.addr) && id !in s.active;
      } else {
        assert !On(s, id.addr) && id !in s.active;
      }
    }
  }

  /** A cancel that overtakes the queued insertion is lost: the timer is armed all the same. */
  lemma QueuedCancelIsLost(s: State, id: TimerId)
    requires Inv(s) && StillQueued(s, id)
    ensures var t := Cancel(s, id);
      id.addr in t.pending && id.addr in t.heap && id in AddInLoop(t, id.addr).active
  {
    assert !On(s, id.addr);
  }

  /** A stale identifier, whose address now belongs to another timer or to none, cancels nothing. */
  lemma StaleCancelsNothing(s: State, id: TimerId)
    requires Inv(s) && !(id.addr in s.heap && s.heap[id.addr].sequence == id.sequence)
    ensures var t := Cancel(s, id);
      && t == s.(canceling := t.canceling)
      && forall a | a in s.heap :: IdAt(s, a) in t.canceling <==> IdAt(s, a) in s.canceling
  {
    assert id !in s.active;
  }

  lemma {:induction false} ResetAllDead(s: State, q: nat)
    requires Resetting(s) && Dead(s, q)
    ensures Dead(ResetAll(s), q)
    decreases |s.firing|
  {
    if s.firing != [] {
      ResetOneKeeps(s);
      ResetOneDead(s, q);
      ResetAllDead(ResetOne(s), q);
    }
  }

  lemma ResetOneDead(s: State, q: nat)
    requires Resetting(s) && Dead(s, q) && s.firing != []
    ensures Dead(ResetOne(s), q)
  {
    FiringTail(s.firing);
    hide Addrs, SetsOk;
  }

  lemma EndDead(s: State, q: nat)
    requires Inv(s) && s.calling && Dead(s, q)
    ensures Dead(End(s), q)
  {
    var s1 := s.(calling := false);
    EndStarts(s);
    ResetAllDead(s1, q);
  }

  lemma BeginDead(s: State, now: int, q: nat)
    requires Inv(s) && !s.calling && Dead(s, q)
    ensures Dead(Begin(s, now), q)
  {
    assert Addrs([]) == {};
    hide SetsOk, HeapOk, RanOk;
  }

  lemma StepDead(s: State, op: Op, q: nat)
    requires Inv(s) && Enabled(s, op) && Dead(s, q)
    ensures Dead(Step(s, op), q)
  {
    hide End, Begin, EarliestChanged, SetsOk, RanOk;
    match op
    case OpEnd => EndDead(s, q);
    case OpBegin(now) => BeginDead(s, now, q);
    case _ => hide Addrs;
  }

  /** A cancelled timer is never re-armed: in every later state it is in neither set, and once the
      batch that was running has ended it is gone for good. */
  lemma {:induction false} NeverRearmed(s: State, ops: seq<Op>, q: nat)
    requires Inv(s) && CanRun(s, ops) && Dead(s, q)
    ensures var t := Exec(s, ops);
      && Dead(t, q)
      && (forall id | id in t.active :: id.sequence != q)
      && (forall e | e in t.timers :: e.addr in t.heap && t.heap[e.addr].sequence != q)
      && (!t.calling ==> forall a | a in t.heap :: t.heap[a].sequence != q)
    decreases |ops|
  {
    if ops == [] {
      assert Addrs([]) == {};
    } else {
      StepInv(s, ops[0]);
      StepDead(s, ops[0], q);
      hide Inv, Step, Dead, Enabled;
      NeverRearmed(Step(s, ops[0]), ops[1..], q);
    }
  }

  // ---------------------------------------------------------------- callbacks after a cancel

  /** The callback of timer q is still to come in the running batch. */
  ghost predicate WillRun(s: State, q: nat) {
    exists k :: s.next <= k < |s.firing| && RunsAt(s, k, q)
  }

  ghost predicate RunsAt(s: State, k: nat, q: nat) {
    k < |s.firing| && s.firing[k].addr in s.heap && s.heap[s.firing[k].addr].sequence == q
  }

  /** Callbacks of q that have run, and one more if it is still to come in this batch. */
  ghost function RunsOf(s: State, q: nat): nat { multiset(s.ran)[q] + if WillRun(s, q) then 1 else 0 }

  /** A change that keeps the batch and what is known of its timers. */
  lemma SameBatch(s: State, t: State, q: nat)
    requires t.firing == s.firing && t.next == s.next && t.ran == s.ran
    requires forall k: nat :: RunsAt(t, k, q) <==> RunsAt(s, k, q)
    ensures RunsOf(t, q) == RunsOf(s, q)
  {
    if WillRun(s, q) {
      var k: nat :| s.next <= k < |s.firing| && RunsAt(s, k, q);
      assert RunsAt(t, k, q);
    }
    if WillRun(t, q) {
      var k: nat :| t.next <= k < |t.firing| && RunsAt(t, k, q);
      assert RunsAt(s, k, q);
    }
  }

  lemma FireRuns(s: State, q: nat)
    requires Inv(s) && Enabled(s, OpFire)
    ensures RunsOf(Fire(s), q) == RunsOf(s, q)
  {
    hide SetsOk, RanOk;
    var t := Fire(s);
    assert forall k: nat :: RunsAt(t, k, q) <==> RunsAt(s, k, q);
    if RunsAt(s, s.next, q) {
      assert forall k: nat | s.next < k < |s.firing| :: !RunsAt(s, k, q);
    } else if WillRun(s, q) {
      var k: nat :| s.next <= k < |s.firing| && RunsAt(s, k, q);
      assert RunsAt(t, k, q);
    }
  }

  lemma BeginRuns(s: State, now: int, q: nat)
    requires Inv(s) && !s.calling && Dead(s, q)
    ensures RunsOf(Begin(s, now), q) == RunsOf(s, q)
  {
    hide SetsOk, RanOk;
    assert Addrs([]) == {};
    assert forall k: nat :: !RunsAt(Begin(s, now), k, q);
  }

  lemma EndRuns(s: State, q: nat)
    requires Inv(s) && Enabled(s, OpEnd)
    ensures RunsOf(End(s), q) == RunsOf(s, q)
  {
    EndStarts(s);
    ResetAllKeeps(s.(calling := false));
    hide ResetAll, Resetting, SetsOk, HeapOk, RanOk;
  }

  lemma CancelRuns(s: State, id: TimerId, q: nat)
    requires Inv(s)
    ensures RunsOf(Cancel(s, id), q) == RunsOf(s, q) && (WillRun(Cancel(s, id), q) <==> WillRun(s, q))
  {
    hide HeapOk, RanOk;
    var t := Cancel(s, id);
    assert id in s.active ==> id.addr !in Addrs(s.firing);
    forall k: nat
      ensures RunsAt(t, k, q) <==> RunsAt(s, k, q)
    {
      assert k < |s.firing| ==> s.firing[k].addr in Addrs(s.firing);
    }
    SameBatch(s, t, q);
  }

  /** No step adds to or takes from the callbacks of a timer that cannot be armed again. */
  lemma StepRuns(s: State, op: Op, q: nat)
    requires Inv(s) && Enabled(s, op) && Dead(s, q)
    ensures RunsOf(Step(s, op), q) == RunsOf(s, q)
  {
    hide RunsOf, SetsOk, RanOk, Begin, End, EarliestChanged;
    match op
    case OpBegin(now) => BeginRuns(s, now, q);
    case OpEnd => EndRuns(s, q);
    case OpFire => FireRuns(s, q);
    case OpCancel(id) => CancelRuns(s, id, q);
    case OpAddInLoop(_) => SameBatch(s, Step(s, op), q);
    case OpNew(_, _, _, _) => SameBatch(s, Step(s, op), q);
  }

  /** In every run from a state in which q is cancelled, its callback runs once more if it was
      still to come in the batch, and otherwise never. */
  lemma {:induction false} RunsConserved(s: State, ops: seq<Op>, q: nat)
    requires Inv(s) && CanRun(s, ops) && Dead(s, q)
    ensures RunsOf(Exec(s, ops), q) == RunsOf(s, q)
    decreases |ops|
  {
    hide Inv, Step, Dead, Enabled, RunsOf;
    if ops != [] {
      StepInv(s, ops[0]);
      StepDead(s, ops[0], q);
      StepRuns(s, ops[0], q);
      RunsConserved(Step(s, ops[0]), ops[1..], q);
    }
  }

  function Fires(n: nat): seq<Op> { if n == 0 then [] else [OpFire] + Fires(n - 1) }

  /** The batch can always be run on. */
  lemma {:induction false} FiresOn(s: State, n: nat, q: nat)
    requires Inv(s) && s.calling && s.next + n <= |s.firing|
    ensures CanRun(s, Fires(n))
    ensures var t := Exec(s, Fires(n));
      && Inv(t) && RunsOf(t, q) == RunsOf(s, q)
      && t == s.(next := s.next + n, ran := t.ran, times := t.times, periods := t.periods)
    decreases n
  {
    hide RunsOf, SetsOk, RanOk;
    if n > 0 {
      FireInv(s);
      FireRuns(s, q);
      assert Fires(n)[1..] == Fires(n - 1);
      FiresOn(Fire(s), n - 1, q);
    }
  }

  lemma {:induction false} ExecAppend(s: State, a: seq<Op>, b: seq<Op>)
    requires Inv(s) && CanRun(s, a) && Inv(Exec(s, a)) && CanRun(Exec(s, a), b)
    ensures CanRun(s, a + b) && Exec(s, a + b) == Exec(Exec(s, a), b)
    decreases |a|
  {
    hide Inv, Step, Enabled;
    if a == [] {
      assert a + b == b;
    } else {
      StepInv(s, a[0]);
      assert (a + b)[1..] == a[1..] + b;
      ExecAppend(Step(s, a[0]), a[1..], b);
    }
  }

  /** Some run from s calls back timer q once more. */
  ghost predicate MayRunAgain(s: State, q: nat)
    requires Inv(s)
  {
    exists ops :: CanRun(s, ops) && multiset(Exec(s, ops).ran)[q] > multiset(s.ran)[q]
  }

  lemma AgainLater(s: State, ops: seq<Op>, q: nat)
    requires Inv(s) && CanRun(s, ops) && Inv(Exec(s, ops)) && MayRunAgain(Exec(s, ops), q)
    requires multiset(Exec(s, ops).ran)[q] == multiset(s.ran)[q]
    ensures MayRunAgain(s, q)
  {
    var t := Exec(s, ops);
    var more :| CanRun(t, more) && multiset(Exec(t, more).ran)[q] > multiset(t.ran)[q];
    ExecAppend(s, ops, more);
  }

  lemma MayRunNow(s: State, q: nat)
    requires Inv(s) && s.calling && WillRun(s, q)
    ensures MayRunAgain(s, q)
  {
    FiresOn(s, |s.firing| - s.next, q);
    hide Inv;
  }

  lemma OneStep(s: State, op: Op)
    requires Inv(s) && Enabled(s, op)
    ensures CanRun(s, [op]) && Exec(s, [op]) == Step(s, op)
  {
    StepInv(s, op);
    assert [op][1..] == [];
  }

  /** Outside a batch a queued timer can be inserted and then expire. */
  lemma QueuedMayRun(s: State, id: TimerId)
    requires Inv(s) && !s.calling && StillQueued(s, id)
    ensures MayRunAgain(s, id.sequence)
  {
    var a := id.addr;
    var now := if s.heap[a].when > 0 then s.heap[a].when else 1;
    AddInv(s, a);
    var s1 := AddInLoop(s, a);
    assert On(s1, a) by { assert Addrs([]) == {}; }
    BeginInv(s1, now);
    var s2 := Begin(s1, now);
    DueAddrs(s1, now);
    assert a in Addrs(s2.firing);
    FiringWillRun(s2, a);
    MayRunNow(s2, id.sequence);
    hide SetsOk, HeapOk, RanOk, Begin, AddInLoop;
    OneStep(s1, OpBegin(now));
    AgainLater(s1, [OpBegin(now)], id.sequence);
    OneStep(s, OpAddInLoop(a));
    AgainLater(s, [OpAddInLoop(a)], id.sequence);
  }

  lemma FiringWillRun(s: State, a: nat)
    requires a in Addrs(s.firing) && a in s.heap && s.next == 0
    ensures WillRun(s, s.heap[a].sequence)
  {
    var e :| e in s.firing && e.addr == a;
    var k: nat :| k < |s.firing| && s.firing[k] == e;
    assert RunsAt(s, k, s.heap[a].sequence);
  }

  /** The loop of reset touches the timers of its batch only. */
  lemma {:induction false} ResetAllOthers(s: State, a: nat)
    requires Live(s) && a in s.heap && a !in Addrs(s.firing)
    ensures a in ResetAll(s).heap && ResetAll(s).heap[a] == s.heap[a]
    decreases |s.firing|
  {
    if s.firing != [] {
      FiringTail(s.firing);
      ResetOneLive(s);
      assert s.firing[0].addr in Addrs(s.firing);
      ResetAllOthers(ResetOne(s), a);
    }
  }

  lemma EndKeepsQueued(s: State, id: TimerId)
    requires Inv(s) && Enabled(s, OpEnd) && StillQueued(s, id)
    ensures StillQueued(End(s), id) && !End(s).calling && End(s).ran == s.ran
  {
    var s1 := s.(calling := false);
    EndStarts(s);
    ResetAllKeeps(s1);
    ResetAllOthers(s1, id.addr);
    hide ResetAll, Resetting, SetsOk, HeapOk, RanOk;
  }

  /** A timer whose insertion is still queued can always come to run. */
  lemma StillQueuedMayRun(s: State, id: TimerId)
    requires Inv(s) && StillQueued(s, id)
    ensures MayRunAgain(s, id.sequence)
  {
    if !s.calling {
      QueuedMayRun(s, id);
    } else {
      var q, n := id.sequence, |s.firing| - s.next;
      assert !WillRun(s, q) by { QueuedNotFiring(s, id); }
      FiresOn(s, n, q);
      var t := Exec(s, Fires(n));
      assert !WillRun(t, q);
      hide SetsOk, HeapOk, RanOk, WillRun;
      EndKeepsQueued(t, id);
      EndInv(t);
      QueuedMayRun(End(t), id);
      OneStep(t, OpEnd);
      AgainLater(t, [OpEnd], q);
      AgainLater(s, Fires(n), q);
    }
  }

  lemma QueuedNotFiring(s: State, id: TimerId)
    requires Inv(s) && StillQueued(s, id)
    ensures !WillRun(s, id.sequence)
  {
    hide SetsOk, RanOk;
    forall k: nat
      ensures !RunsAt(s, k, id.sequence)
    {
      assert k < |s.firing| ==> s.firing[k].addr in Addrs(s.firing);
    }
  }

  /** A cancel stops the callback exactly when it is not still to come in the running batch and
      the timer's own insertion is not still queued. */
  lemma CancelStopsCallback(s: State, id: TimerId)
    requires Inv(s) && Issued(s, id)
    ensures Inv(Cancel(s, id))
    ensures MayRunAgain(Cancel(s, id), id.sequence) <==> WillRun(s, id.sequence) || StillQueued(s, id)
  {
    var t, q := Cancel(s, id), id.sequence;
    CancelInv(s, id);
    CancelTakesEffect(s, id);
    CancelRuns(s, id, q);
    if StillQueued(s, id) {
      assert StillQueued(t, id) by { assert !On(s, id.addr); }
      StillQueuedMayRun(t, id);
    } else if WillRun(s, q) {
      MayRunNow(t, q);
    } else {
      NeverRunsAgain(t, q);
    }
  }

  lemma NeverRunsAgain(s: State, q: nat)
    requires Inv(s) && Dead(s, q) && !WillRun(s, q)
    ensures !MayRunAgain(s, q)
  {
    hide Inv, Dead;
    forall ops | CanRun(s, ops)
      ensures multiset(Exec(s, ops).ran)[q] <= multiset(s.ran)[q]
    {
      RunsConserved(s, ops, q);
    }
  }

  /** Whatever else happens, once the batch is over a cancelled timer has run exactly once more if
      its callback was still to come, and not at all otherwise. */
  lemma CancelledRunsOut(s: State, id: TimerId, ops: seq<Op>)
    requires Inv(s) && Issued(s, id) && !StillQueued(s, id) && Inv(Cancel(s, id)) && CanRun(Cancel(s, id), ops)
    requires Inv(Exec(Cancel(s, id), ops)) && !Exec(Cancel(s, id), ops).calling
    ensures multiset(Exec(Cancel(s, id), ops).ran)[id.sequence]
         == multiset(s.ran)[id.sequence] + if WillRun(s, id.sequence) then 1 else 0
  {
    CancelTakesEffect(s, id);
    CancelRuns(s, id, id.sequence);
    RunsConserved(Cancel(s, id), ops, id.sequence);
    hide SetsOk, HeapOk, RanOk;
  }

  // ---------------------------------------------------------------- expiry

  /** getExpired takes exactly the timers that are due, in order, out of both sets. */
  lemma ExpiresExactlyTheDue(s: State, now: int)
    requires Inv(s) && !s.calling && now > 0
    ensures var t := Begin(s, now);
      && Ordered(t.firing)
      && (forall e :: e in t.firing <==> e in s.timers && e.when <= now)
      && (forall e :: e in t.timers <==> e in s.timers && e.when > now)
      && (forall id :: id in t.active <==> id in s.active && s.heap[id.addr].when > now)
  {
    SortOrdered(Due(s.timers, now));
    DueAddrs(s, now);
    hide Addrs, Sort;
  }

  /** A callback runs only for a live timer that was due, and a one-shot timer runs once. */
  lemma FiresOnceWhenDue(s: State)
    requires Inv(s) && Enabled(s, OpFire)
    ensures var a := s.firing[s.next].addr;
      && a in s.heap && s.heap[a].when <= s.now
      && (!s.heap[a].repeat ==> s.heap[a].sequence !in s.ran)
  {
    var a := s.firing[s.next].addr;
    assert !RanInBatch(s, a);
  }
}

/** The queue as the loop thread works on it. */
module TimerQueue {
  import opened Common
  import opened TimerModel

  lemma LeastAlone()
    ensures forall x :: IsLeast(x, {x})
  {
  }

  lemma LeastWith(e: Entry, s: set<Entry>, f: Entry)
    requires IsLeast(e, s) && f !in s
    ensures IsLeast(if Less(f, e) then f else e, s + {f})
  {
  }

  /** begin() of the ordered set. */
  method First(timers: set<Entry>) returns (e: Entry)
    requires timers != {}
    ensures IsLeast(e, timers)
  {
    hide IsLeast;
    LeastAlone();
    e :| e in timers;
    var rest := timers - {e};
    ghost var seen := {e};
    while rest != {}
      invariant seen + rest == timers && seen !! rest && IsLeast(e, seen)
      decreases |rest|
    {
      var f :| f in rest;
      LeastWith(e, seen, f);
      if Less(f, e) { e := f; }
      rest, seen := rest - {f}, seen + {f};
    }
    assert seen == timers;
  }

  class TimerQueue {
    var heap: map<nat, Timer>
    var created: nat
    var pending: set<nat>
    var timers: set<Entry>
    var active: set<TimerId>
    var calling: bool
    var canceling: set<TimerId>
    var firing: seq<Entry>
    var next: nat
    var now: int
    var deadline: Option<int>
    ghost var ran: seq<nat>
    ghost var times: seq<int>
    ghost var periods: seq<nat>

    ghost function V(): State
      reads this
    {
      State(heap, created, pending, timers, active, calling, canceling, firing, next, now, deadline,
            ran, times, periods)
    }

    constructor ()
      ensures V() == START && Inv(V()) && DeadlineOk(V())
    {
      heap, created, pending, timers, active := map[], 0, {}, {}, {};
      calling, canceling, firing, next, now, deadline := false, {}, [], 0, 0, None;
      ran, times, periods := [], [], [];
    }

    /** addTimer: the Timer is allocated at once, its insertion is queued. */
    method AddTimer(a: nat, when: int, repeat: bool, interval: nat) returns (id: TimerId)
      requires Inv(V()) && a < ADDR_MAX && a !in heap
      modifies this`heap, this`created, this`pending
      ensures Inv(V()) && V() == New(old(V()), a, when, repeat, interval)
      ensures Issued(V(), id) && StillQueued(V(), id)
    {
      NewInv(V(), a, when, repeat, interval);
      created := created + 1;
      heap := heap[a := Timer(when, repeat, interval, created)];
      pending := pending + {a};
      id := TimerId(a, created);
    }

    method Insert(a: nat) returns (changed: bool)
      requires a in heap
      modifies this`timers, this`active
      ensures V() == Inserted(old(V()), a)
      ensures changed == EarliestChanged(old(timers), heap[a].when)
    {
      var when := heap[a].when;
      changed := timers == {};
      if timers != {} {
        var first := First(timers);
        changed := when < first.when;
      }
      timers := timers + {Entry(when, a)};
      active := active + {TimerId(a, heap[a].sequence)};
    }

    method AddTimerInLoop(a: nat)
      requires Inv(V()) && DeadlineOk(V()) && a in pending
      modifies this`timers, this`active, this`pending, this`deadline
      ensures Inv(V()) && DeadlineOk(V()) && V() == AddInLoop(old(V()), a)
    {
      AddInv(V(), a);
      StepDeadline(V(), OpAddInLoop(a));
      var changed := Insert(a);
      pending := pending - {a};
      if changed { deadline := Some(heap[a].when); }
    }

    method CancelInLoop(id: TimerId)
      requires Inv(V())
      modifies this`timers, this`active, this`heap, this`canceling
      ensures Inv(V()) && V() == Cancel(old(V()), id)
    {
      CancelInv(V(), id);
      if id in active {
        assert On(V(), id.addr);
        timers := timers - {Entry(heap[id.addr].when, id.addr)};
        heap := heap - {id.addr};
        active := active - {id};
      } else if calling {
        canceling := canceling + {id};
      }
    }

    /** getExpired: the entries below the sentry (now, greatest address), taken in order, out of
        both sets. */
    method GetExpired(at: int) returns (expired: seq<Entry>)
      requires Inv(V())
      modifies this`timers, this`active
      ensures expired == Sort(Due(old(timers), at))
      ensures timers == old(timers) - Due(old(timers), at)
      ensures active == set id | id in old(active) && id.addr !in Addrs(expired)
    {
      assert forall e | e in timers :: e.addr < ADDR_MAX by { hide RanOk; }
      assert forall e | e in timers :: e.addr in heap by { hide RanOk, HeapOk; }
      assert forall id | id in active :: id.addr in heap && heap[id.addr].sequence == id.sequence by {
        hide RanOk, HeapOk;
      }
      hide Inv;
      expired := TakeDue(at);
      EraseActive(expired);
    }

    method TakeDue(at: int) returns (expired: seq<Entry>)
      requires forall e | e in timers :: e.addr < ADDR_MAX
      modifies this`timers
      ensures expired == Sort(Due(old(timers), at))
      ensures timers == old(timers) - Due(old(timers), at)
    {
      hide Sort;
      ghost var due := Due(timers, at);
      expired := [];
      var more := true;
      while more
        invariant timers <= old(timers)
        invariant expired + Sort(Due(timers, at)) == Sort(due)
        invariant old(timers) - due <= timers
        invariant !more ==> Due(timers, at) == {}
        decreases more, |timers|
      {
        if timers == {} {
          more := false;
        } else {
          var first := First(timers);
          if Less(first, Entry(at, ADDR_MAX)) {
            NextDue(timers, first, at);
            expired, timers := expired + [first], timers - {first};
          } else {
            more := false;
          }
        }
      }
      SortEmpty();
      assert forall e | e in timers :: e in due ==> e in Due(timers, at);
    }

    method EraseActive(expired: seq<Entry>)
      requires forall e | e in expired :: e.addr in heap
      requires forall id | id in active :: id.addr in heap && heap[id.addr].sequence == id.sequence
      modifies this`active
      ensures active == set id | id in old(active) && id.addr !in Addrs(expired)
    {
      var i := 0;
      while i < |expired|
        invariant 0 <= i <= |expired|
        invariant active == set id | id in old(active) && id.addr !in Addrs(expired[..i])
      {
        var e := expired[i];
        AddrsSnoc(expired, i);
        active := active - {TimerId(e.addr, heap[e.addr].sequence)};
        i := i + 1;
      }
      assert expired[..i] == expired;
    }

    /** handleInLoop up to its first callback. */
    method BeginHandle(at: int)
      requires Inv(V()) && !calling && at > 0
      modifies this
      ensures Inv(V()) && V() == Begin(old(V()), at)
    {
      BeginInv(V(), at);
      hide HeapOk, RanOk, SetsOk;
      firing := GetExpired(at);
      calling, canceling, next, now := true, {}, 0, at;
    }

    /** One callback; what it adds and cancels are further calls on the queue. */
    method RunCallback()
      requires Inv(V()) && calling && next < |firing|
      modifies this`next, this`ran, this`times, this`periods
      ensures Inv(V()) && V() == Fire(old(V()))
    {
      FireInv(V());
      ghost var timer := heap[firing[next].addr];
      ran, times, periods := ran + [timer.sequence], times + [now], periods + [timer.interval];
      next := next + 1;
    }

    /** The end of handleInLoop. */
    method EndHandle()
      requires Inv(V()) && DeadlineOk(V()) && calling && next == |firing|
      modifies this
      ensures Inv(V()) && DeadlineOk(V()) && V() == End(old(V()))
    {
      hide SetsOk, HeapOk, RanOk, DeadlineOk, ResetAll, RanInFiring, Live;
      EndInv(V());
      StepDeadline(V(), OpEnd);
      EndStarts(V());
      LiveOf(V().(calling := false));
      calling := false;
      ResetBatch();
      next := 0;
      if timers != {} {
        var first := First(timers);
        LeastUnique(first, Least(timers), timers);
        if first.when > 0 { deadline := Some(first.when); }
      }
    }

    /** reset re-arms or deletes the timers of the batch. */
    method ResetBatch()
      requires Live(V())
      modifies this`heap, this`firing, this`timers, this`active
      ensures V() == ResetAll(old(V()))
    {
      hide ResetAll, Live;
      ghost var goal := ResetAll(V());
      while firing != []
        invariant Live(V()) && ResetAll(V()) == goal
        decreases |firing|
      {
        ghost var s := V();
        ResetAllStep(s);
        var a := firing[0].addr;
        var t := heap[a];
        firing := firing[1..];
        if t.repeat && TimerId(a, t.sequence) !in canceling {
          heap := heap[a := t.(when := now + t.interval)];
          var _ := Insert(a);
        } else {
          heap := heap - {a};
        }
        assert V() == ResetOne(s);
      }
      ResetAllDone(V());
    }
  }

  lemma SortEmpty()
    ensures Sort({}) == []
  {
  }

  lemma NextDue(timers: set<Entry>, first: Entry, at: int)
    requires IsLeast(first, timers) && Less(first, Entry(at, ADDR_MAX))
    ensures first in Due(timers, at)
    ensures Sort(Due(timers, at)) == [first] + Sort(Due(timers - {first}, at))
    ensures Due(timers - {first}, at) == Due(timers, at) - {first}
  {
    var due := Due(timers, at);
    assert IsLeast(first, due);
    LeastUnique(first, Least(due), due);
    assert Due(timers - {first}, at) == due - {first};
  }

  lemma AddrsSnoc(q: seq<Entry>, i: nat)
    requires i < |q|
    ensures Addrs(q[..i + 1]) == Addrs(q[..i]) + {q[i].addr}
  {
    assert q[..i + 1] == q[..i] + [q[i]];
  }

  lemma ResetAllStep(s: State)
    requires Live(s) && s.firing != []
    ensures s.firing[0].addr in s.heap && Live(ResetOne(s)) && ResetAll(s) == ResetAll(ResetOne(s))
  {
    ResetOneLive(s);
  }

  lemma ResetAllDone(s: State)
    requires Live(s) && s.firing == []
    ensures ResetAll(s) == s
  {
  }
}
