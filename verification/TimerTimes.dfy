/** When timers run: what reset makes of a batch, how far apart the callbacks of a repeating timer
    are, and that a timer runs as it was asked for. */
module TimerTimes {
  import opened Common
  import opened TimerModel

  // ---------------------------------------------------------------- what reset makes of a batch

  /** The timer is re-armed: it repeats and nobody cancelled it during the batch. */
  predicate Rearms(s: State, a: nat)
    requires a in s.heap
  {
    s.heap[a].repeat && IdAt(s, a) !in s.canceling
  }

  /** What reset makes of the timer at a: one of the batch is due an interval after the time of the
      batch, or gone; any other is as it was. */
  ghost predicate ResetAt(s: State, t: State, a: nat)
    requires a in s.heap
  {
    if a !in Addrs(s.firing) then a in t.heap && t.heap[a] == s.heap[a]
    else if Rearms(s, a) then a in t.heap && t.heap[a] == s.heap[a].(when := s.now + s.heap[a].interval)
    else a !in t.heap
  }

  lemma {:induction false} ResetAllAt(s: State, a: nat)
    requires Live(s) && a in s.heap
    ensures ResetAt(s, ResetAll(s), a)
    decreases |s.firing|
  {
    if s.firing == [] {
      assert Addrs([]) == {};
    } else {
      FiringTail(s.firing);
      ResetOneLive(s);
      var t, first := ResetOne(s), s.firing[0].addr;
      assert first in Addrs(s.firing);
      if a == first && !Rearms(s, a) {
        ResetAllGone(t, a);
      } else {
        ResetAllAt(t, a);
      }
    }
  }

  lemma {:induction false} ResetAllGone(s: State, a: nat)
    requires Live(s) && a !in s.heap
    ensures a !in ResetAll(s).heap
    decreases |s.firing|
  {
    if s.firing != [] {
      ResetOneLive(s);
      ResetAllGone(ResetOne(s), a);
    }
  }

  lemma EndHeap(s: State, a: nat)
    requires Inv(s) && Enabled(s, OpEnd)
    ensures a in s.heap ==> ResetAt(s, End(s), a)
    ensures a !in s.heap ==> a !in End(s).heap
  {
    hide SetsOk, RanOk, HeapOk, ResetAll, Live;
    var s1 := s.(calling := false);
    SameLive(s);
    LiveOf(s1);
    if a in s.heap { ResetAllAt(s1, a); } else { ResetAllGone(s1, a); }
  }

  lemma SameLive(s: State)
    requires HeapOk(s)
    ensures HeapOk(s.(calling := false))
  {
  }

  lemma EndQuiet(s: State)
    requires Inv(s) && Enabled(s, OpEnd)
    ensures Inv(End(s)) && End(s).firing == [] && End(s).pending == s.pending && End(s).now == s.now
    ensures End(s).ran == s.ran && End(s).times == s.times && End(s).periods == s.periods
    ensures End(s).created == s.created && End(s).next == 0
  {
    EndStarts(s);
    ResetAllKeeps(s.(calling := false));
    EndInv(s);
    hide ResetAll, Resetting, SetsOk, HeapOk, RanOk;
  }

  lemma Waiting(t: State, a: nat)
    requires Inv(t) && t.firing == [] && a in t.heap && a !in t.pending
    ensures EntryAt(t, a) in t.timers && IdAt(t, a) in t.active
  {
    hide HeapOk, RanOk;
    assert Addrs([]) == {};
    assert On(t, a);
  }

  /** At the end of a batch its repeating timers that nobody cancelled are waiting again, due an
      interval after the batch; its other timers are gone; every other timer is unchanged. */
  lemma EndRearms(s: State, a: nat)
    requires Inv(s) && Enabled(s, OpEnd)
    ensures a in s.heap ==> ResetAt(s, End(s), a)
    ensures a !in s.heap ==> a !in End(s).heap
    ensures a in s.heap && a in Addrs(s.firing) && Rearms(s, a) ==>
      Entry(s.now + s.heap[a].interval, a) in End(s).timers && IdAt(s, a) in End(s).active
  {
    hide End, SetsOk, RanOk;
    EndHeap(s, a);
    EndQuiet(s);
    if a in s.heap && a in Addrs(s.firing) && Rearms(s, a) {
      FiringNotPending(s, a);
      Waiting(End(s), a);
    }
  }

  lemma FiringNotPending(s: State, a: nat)
    requires Inv(s)
    ensures a in Addrs(s.firing) ==> a !in s.pending
  {
  }

  /** The timerfd is set exactly to the earliest waiting timer when a batch ends. */
  lemma EndSetsDeadline(s: State)
    requires Inv(s) && Enabled(s, OpEnd)
    ensures var t := End(s);
      t.timers != {} && (forall e | e in t.timers :: e.when > 0) ==>
        && t.deadline.Some? && (exists e :: e in t.timers && e.when == t.deadline.value)
        && (forall e | e in t.timers :: t.deadline.value <= e.when)
  {
    hide ResetAll, SetsOk, HeapOk, RanOk, RanInFiring;
    EndStarts(s);
    ResetAllKeeps(s.(calling := false));
  }

  /** Adding a timer sets the timerfd to it exactly when it is earlier than all others. */
  lemma AddSetsDeadline(s: State, a: nat)
    requires Inv(s) && a in s.pending && a in s.heap
    ensures AddInLoop(s, a).deadline
         == if forall e | e in s.timers :: s.heap[a].when < e.when then Some(s.heap[a].when) else s.deadline
  {
  }

  // ---------------------------------------------------------------- the distance of callbacks

  ghost predicate TimesOk(s: State) {
    && |s.times| == |s.periods| == |s.ran|
    && (forall i, j | 0 <= i < j < |s.ran| && s.ran[i] == s.ran[j] :: s.times[i] + s.periods[j] <= s.times[j])
    && (forall k | 0 <= k < s.next && k < |s.firing| && s.firing[k].addr in s.heap ::
      s.heap[s.firing[k].addr].sequence in s.ran)
    && (forall a, i | a in s.heap && 0 <= i < |s.ran| && s.ran[i] == s.heap[a].sequence :: RanBefore(s, a, i))
  }

  /** A timer that has run: in this batch, no later than now; or before, and it is due an interval later. */
  ghost predicate RanBefore(s: State, a: nat, i: nat)
    requires a in s.heap && i < |s.times|
  {
    if RanInBatch(s, a) then s.times[i] <= s.now else s.times[i] + s.heap[a].interval <= s.heap[a].when
  }

  lemma NewTimes(s: State, a: nat, when: int, repeat: bool, interval: nat)
    requires Inv(s) && TimesOk(s) && a !in s.heap
    ensures TimesOk(New(s, a, when, repeat, interval))
  {
    hide SetsOk;
    var t := New(s, a, when, repeat, interval);
    forall b, i | b in t.heap && 0 <= i < |t.ran| && t.ran[i] == t.heap[b].sequence
      ensures RanBefore(t, b, i)
    {
      assert t.ran[i] in s.ran;
      assert b != a && RanBefore(s, b, i);
      SameInBatch(s, t, b);
    }
    forall k | 0 <= k < t.next && k < |t.firing| && t.firing[k].addr in t.heap
      ensures t.heap[t.firing[k].addr].sequence in t.ran
    {
      assert s.firing[k].addr in s.heap;
    }
  }

  lemma SameInBatch(s: State, t: State, b: nat)
    requires t.firing == s.firing && t.next == s.next
    ensures RanInBatch(t, b) <==> RanInBatch(s, b)
  {
    if RanInBatch(s, b) {
      var i :| 0 <= i < s.next && i < |s.firing| && s.firing[i].addr == b;
      assert t.firing[i].addr == b;
    }
    if RanInBatch(t, b) {
      var i :| 0 <= i < t.next && i < |t.firing| && t.firing[i].addr == b;
      assert s.firing[i].addr == b;
    }
  }

  /** Steps that only take timers away or move them between sets. */
  lemma SmallerTimes(s: State, t: State)
    requires TimesOk(s) && t.firing == s.firing && t.next == s.next && t.now == s.now
    requires t.ran == s.ran && t.times == s.times && t.periods == s.periods
    requires forall a | a in t.heap :: a in s.heap && t.heap[a] == s.heap[a]
    ensures TimesOk(t)
  {
    forall b, i | b in t.heap && 0 <= i < |t.ran| && t.ran[i] == t.heap[b].sequence
      ensures RanBefore(t, b, i)
    {
      assert RanBefore(s, b, i);
      SameInBatch(s, t, b);
    }
  }

  lemma BeginTimes(s: State, now: int)
    requires Inv(s) && TimesOk(s) && !s.calling
    ensures TimesOk(Begin(s, now))
  {
    hide SetsOk, HeapOk, RanOk, Sort;
    var t := Begin(s, now);
    forall b, i | b in t.heap && 0 <= i < |t.ran| && t.ran[i] == t.heap[b].sequence
      ensures RanBefore(t, b, i)
    {
      assert RanBefore(s, b, i);
    }
  }

  lemma FireTimes(s: State)
    requires Inv(s) && TimesOk(s) && Enabled(s, OpFire)
    ensures TimesOk(Fire(s))
  {
    hide SetsOk, RanOk;
    var t, a, n := Fire(s), s.firing[s.next].addr, |s.ran|;
    assert !RanInBatch(s, a);
    assert RanInBatch(t, a) by { assert t.firing[s.next].addr == a; }
    forall b | b in s.heap && b != a
      ensures RanInBatch(t, b) <==> RanInBatch(s, b)
    {
      FireInBatch(s, b);
    }
    forall i | 0 <= i < n && s.ran[i] == s.heap[a].sequence
      ensures s.times[i] + s.heap[a].interval <= s.now
    {
      assert RanBefore(s, a, i);
    }
    forall b, i | b in t.heap && 0 <= i < |t.ran| && t.ran[i] == t.heap[b].sequence
      ensures RanBefore(t, b, i)
    {
      if i < n { assert RanBefore(s, b, i); }
    }
    assert forall q | q in s.ran :: q in t.ran;
    assert t.ran[n] == s.heap[a].sequence;
  }

  lemma FireInBatch(s: State, b: nat)
    requires Inv(s) && Enabled(s, OpFire) && b != s.firing[s.next].addr
    ensures RanInBatch(Fire(s), b) <==> RanInBatch(s, b)
  {
    var t := Fire(s);
    if RanInBatch(s, b) {
      var i :| 0 <= i < s.next && i < |s.firing| && s.firing[i].addr == b;
      assert t.firing[i].addr == b;
    }
    if RanInBatch(t, b) {
      var i :| 0 <= i < t.next && i < |t.firing| && t.firing[i].addr == b;
      assert s.firing[i].addr == b && i != s.next;
    }
  }

  lemma EndTimes(s: State)
    requires Inv(s) && TimesOk(s) && Enabled(s, OpEnd)
    ensures TimesOk(End(s))
  {
    hide End, SetsOk, RanOk;
    var t := End(s);
    EndQuiet(s);
    forall b, i | b in t.heap && 0 <= i < |t.ran| && t.ran[i] == t.heap[b].sequence
      ensures RanBefore(t, b, i)
    {
      EndHeap(s, b);
      assert b in s.heap && t.heap[b].sequence == s.heap[b].sequence;
      assert RanBefore(s, b, i);
      FiringDone(s, b);
    }
  }

  lemma FiringDone(s: State, b: nat)
    requires Enabled(s, OpEnd)
    ensures b in Addrs(s.firing) <==> RanInBatch(s, b)
  {
    if b in Addrs(s.firing) {
      var k :| 0 <= k < |s.firing| && s.firing[k].addr == b;
    }
  }

  lemma StepTimes(s: State, op: Op)
    requires Inv(s) && TimesOk(s) && Enabled(s, op)
    ensures TimesOk(Step(s, op))
  {
    hide TimesOk, Begin, End, Fire, SetsOk, RanOk;
    match op
    case OpNew(a, when, repeat, interval) => NewTimes(s, a, when, repeat, interval);
    case OpAddInLoop(_) => SmallerTimes(s, Step(s, op));
    case OpCancel(_) => SmallerTimes(s, Step(s, op));
    case OpBegin(now) => BeginTimes(s, now);
    case OpFire => FireTimes(s);
    case OpEnd => EndTimes(s);
  }

  lemma {:induction false} RunTimes(s: State, ops: seq<Op>)
    requires Inv(s) && TimesOk(s) && CanRun(s, ops)
    ensures TimesOk(Exec(s, ops))
    decreases |ops|
  {
    hide Inv, TimesOk, Step, Enabled;
    if ops != [] {
      StepInv(s, ops[0]);
      StepTimes(s, ops[0]);
      RunTimes(Step(s, ops[0]), ops[1..]);
    }
  }

  /** In every run two callbacks of one timer are at least its interval apart. */
  lemma CallbacksSpaced(ops: seq<Op>, i: nat, j: nat)
    requires Inv(START) && CanRun(START, ops)
    requires var t := Exec(START, ops); i < j < |t.ran| && t.ran[i] == t.ran[j]
    ensures var t := Exec(START, ops);
      |t.times| == |t.periods| == |t.ran| && t.times[i] + t.periods[j] <= t.times[j]
  {
    RunTimes(START, ops);
  }

  // ---------------------------------------------------------------- a timer is kept as asked

  /** The repeating timer q lives at a, and nobody has cancelled it in the running batch. */
  ghost predicate Kept(s: State, a: nat, q: nat, interval: nat) {
    && a in s.heap && s.heap[a].sequence == q && s.heap[a].repeat && s.heap[a].interval == interval
    && (a in Addrs(s.firing) ==> TimerId(a, q) !in s.canceling)
  }

  lemma StepKept(s: State, op: Op, a: nat, q: nat, interval: nat)
    requires Inv(s) && Enabled(s, op) && Kept(s, a, q, interval) && op != OpCancel(TimerId(a, q))
    ensures Kept(Step(s, op), a, q, interval)
  {
    hide RanOk, End, Sort;
    match op
    case OpEnd =>
      EndHeap(s, a);
      EndQuiet(s);
      hide SetsOk, HeapOk;
      assert Addrs([]) == {};
    case OpCancel(id) =>
      assert id in s.active ==> id == IdAt(s, id.addr);
    case _ =>
  }

  /** A repeating timer that nobody cancels is never lost: after every run it is queued for
      insertion, waiting in both sets, or in the running batch. */
  lemma {:induction false} UncancelledStays(s: State, ops: seq<Op>, a: nat, q: nat, interval: nat)
    requires Inv(s) && CanRun(s, ops) && Kept(s, a, q, interval) && OpCancel(TimerId(a, q)) !in ops
    ensures var t := Exec(s, ops);
      && Kept(t, a, q, interval)
      && (a in t.pending || a in Addrs(t.firing) || (EntryAt(t, a) in t.timers && TimerId(a, q) in t.active))
    decreases |ops|
  {
    if ops == [] {
      assert On(s, a) || a in s.pending || a in Addrs(s.firing);
    } else {
      StepInv(s, ops[0]);
      StepKept(s, ops[0], a, q, interval);
      hide Inv, Step, Enabled, Kept;
      UncancelledStays(Step(s, ops[0]), ops[1..], a, q, interval);
    }
  }

  /** The timer q has not run, and if it lives it is as it was asked for. */
  ghost predicate AsAsked(s: State, a: nat, timer: Timer) {
    && timer.sequence <= s.created
    && (forall b | b in s.heap && s.heap[b].sequence == timer.sequence :: b == a && s.heap[b] == timer)
  }

  lemma StepAsAsked(s: State, op: Op, a: nat, timer: Timer)
    requires Inv(s) && TimesOk(s) && Enabled(s, op) && AsAsked(s, a, timer) && timer.sequence !in s.ran
    ensures AsAsked(Step(s, op), a, timer)
  {
    hide SetsOk, RanOk, End, Sort;
    match op
    case OpEnd =>
      EndQuiet(s);
      forall b | b in End(s).heap && End(s).heap[b].sequence == timer.sequence
        ensures b == a && End(s).heap[b] == timer
      {
        EndHeap(s, b);
        NotFired(s, b);
      }
    case _ =>
  }

  /** At the end of a batch every timer of the batch has run. */
  lemma NotFired(s: State, b: nat)
    requires Inv(s) && TimesOk(s) && Enabled(s, OpEnd) && b in s.heap && s.heap[b].sequence !in s.ran
    ensures b !in Addrs(s.firing)
  {
    hide SetsOk, RanOk;
    FiringDone(s, b);
  }

  /** Until its first callback a timer stays as it was asked for, so that callback comes no earlier
      than the time asked for. */
  lemma {:induction false} FirstRunNotEarly(s: State, ops: seq<Op>, a: nat, timer: Timer)
    requires Inv(s) && TimesOk(s) && CanRun(s, ops) && AsAsked(s, a, timer)
    requires timer.sequence !in Exec(s, ops).ran
    ensures AsAsked(Exec(s, ops), a, timer)
    ensures var t := Exec(s, ops);
      Inv(t) && Enabled(t, OpFire) && t.heap[t.firing[t.next].addr].sequence == timer.sequence ==> t.now >= timer.when
    decreases |ops|
  {
    if ops == [] {
      hide SetsOk, RanOk;
    } else {
      StepInv(s, ops[0]);
      StepTimes(s, ops[0]);
      RanGrows(s, ops);
      StepAsAsked(s, ops[0], a, timer);
      hide Inv, Step, Enabled, TimesOk, AsAsked;
      FirstRunNotEarly(Step(s, ops[0]), ops[1..], a, timer);
    }
  }

  lemma {:induction false} RanGrows(s: State, ops: seq<Op>)
    requires Inv(s) && CanRun(s, ops)
    ensures s.ran <= Exec(s, ops).ran
    decreases |ops|
  {
    if ops != [] {
      StepInv(s, ops[0]);
      StepRan(s, ops[0]);
      hide Inv, Step, Enabled;
      RanGrows(Step(s, ops[0]), ops[1..]);
    }
  }

  lemma StepRan(s: State, op: Op)
    requires Inv(s) && Enabled(s, op)
    ensures s.ran <= Step(s, op).ran
  {
    hide SetsOk, RanOk, HeapOk, End, Begin;
    if op.OpEnd? { EndQuiet(s); }
    if op.OpBegin? { BeginRan(s, op.now); }
  }

  lemma BeginRan(s: State, now: int)
    ensures Begin(s, now).ran == s.ran
  {
  }

  /** A timer just made is as asked for, with a sequence number no callback has had. */
  lemma NewAsAsked(s: State, a: nat, when: int, repeat: bool, interval: nat)
    requires Inv(s) && Enabled(s, OpNew(a, when, repeat, interval))
    ensures var timer := Timer(when, repeat, interval, s.created + 1);
      AsAsked(New(s, a, when, repeat, interval), a, timer) && timer.sequence !in s.ran
  {
    hide SetsOk;
  }
}
