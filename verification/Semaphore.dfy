/** LightweightSemaphore (src/base/lightweightsemaphore.h) and the queue that pairs its tokens
    with items (src/base/blockingconcurrentqueue.h), as a state machine over any number of
    threads. Every load, fetch_add, fetch_sub, CAS and kernel operation is one step, in a
    sequentially consistent interleaving; spinning may go on for any number of rounds. */
module Semaphore {

  type Tid = nat

  /** Try: tryWait / tryWaitMany. Wait: before the fetch_sub of wait / waitMany.
      Finish: one token held, greedily trying for the rest of a waitMany. */
  datatype Mode = Try | Wait(timeoutZero: bool) | Finish

  datatype PC =
    | Idle
    | Pushed(n: nat)                               // items enqueued, about to fetch_add m_count
    | Releasing(left: nat)                         // about to post the kernel semaphore
    | Load(max: nat, mode: Mode)                   // about to load m_count
    | Cas(max: nat, mode: Mode, seen: int)         // about to CAS m_count from seen
    | Sub(max: nat, timeoutZero: bool)             // about to fetch_sub m_count
    | Blocked(max: nat)                            // in the kernel wait
    | TimedOut(max: nat)                           // about to load m_count to undo or to be served
    | TimedLoaded(max: nat, seen: int)             // about to try_wait or to CAS m_count up again
    | Redeem(k: nat)                               // holds k tokens, about to take k items

  datatype State = State(
    count: int,           // m_count
    kernel: nat,          // value of the kernel semaphore
    pc: seq<PC>,
    initial: nat,
    signalled: nat,       // sum of the counts given to signal
    acquired: nat,        // tokens handed to waiters
    enqueued: nat,        // items put into the inner queue
    dequeued: nat,        // items taken out of it
    asked: seq<nat>,      // what each thread's latest dequeue asked for at most
    got: seq<nat>)        // the tokens it got so far

  // ---------------------------------------------------------------- the atomic steps

  datatype Action =
    | Enqueue(n: nat)                    // enqueue / enqueue_bulk, the inner enqueue
    | Dequeue(max: nat, mode: Mode)      // a dequeue starts on the semaphore
    | Proceed                            // the next operation of the running call
    | GiveUp                             // a spin budget runs out, or a kernel wait times out
    | Take(j: nat)                       // the inner try_dequeue yields j items

  ghost predicate Enabled(s: State, t: Tid, a: Action) {
    t < |s.pc| == |s.asked| == |s.got| &&
    match a
    case Enqueue(n) => s.pc[t].Idle?
    case Dequeue(max, mode) => s.pc[t].Idle? && !mode.Finish? && (mode.Wait? ==> max > 0)
    case Proceed => !s.pc[t].Idle? && !s.pc[t].Redeem? && (s.pc[t].Blocked? ==> s.kernel > 0)
    case GiveUp => (s.pc[t].Load? && s.pc[t].mode.Wait?) || s.pc[t].Blocked?
    case Take(j) => s.pc[t].Redeem? && j <= s.pc[t].k && s.dequeued + j <= s.enqueued
  }

  function Min(a: int, b: int): int { if a < b then a else b }
  function Pos(x: int): nat { if x > 0 then x else 0 }

  /** What tryWaitMany leaves of a positive count. */
  function Left(seen: int, max: nat): int { if seen > max then seen - max else 0 }

  function Redeeming(k: nat): PC { if k == 0 then Idle else Redeem(k) }

  /** One token in hand: a waitMany goes on for more. */
  function GotOne(max: nat): PC { if max > 1 then Load(max - 1, Finish) else Redeem(1) }

  ghost function Apply(s: State, t: Tid, a: Action): State
    requires Enabled(s, t, a)
  {
    match a
    case Enqueue(n) => s.(enqueued := s.enqueued + n, pc := s.pc[t := Pushed(n)])
    case Dequeue(max, mode) => s.(pc := s.pc[t := Load(max, mode)], asked := s.asked[t := max], got := s.got[t := 0])
    case Take(j) => s.(dequeued := s.dequeued + j, pc := s.pc[t := Redeeming(s.pc[t].k - j)])
    case GiveUp =>
      (match s.pc[t]
       case Load(max, mode) => s.(pc := s.pc[t := Sub(max, mode.timeoutZero)])
       case Blocked(max) => s.(pc := s.pc[t := TimedOut(max)]))
    case Proceed => Run(s, t)
  }

  /** Thread t acquires k tokens. */
  function Gained(s: State, t: Tid, k: nat): State
    requires t < |s.got|
  {
    s.(acquired := s.acquired + k, got := s.got[t := s.got[t] + k])
  }

  ghost function Run(s: State, t: Tid): State
    requires Enabled(s, t, Proceed)
  {
    match s.pc[t]
    case Pushed(n) =>
      var toRelease := Min(-s.count, n);
      s.(count := s.count + n, signalled := s.signalled + n,
         pc := s.pc[t := if toRelease > 0 then Releasing(toRelease) else Idle])
    case Releasing(left) =>
      s.(kernel := s.kernel + 1, pc := s.pc[t := if left > 1 then Releasing(left - 1) else Idle])
    case Load(max, mode) =>
      if s.count > 0 then s.(pc := s.pc[t := Cas(max, mode, s.count)])
      else
        (match mode
         case Try => s.(pc := s.pc[t := Idle])
         case Wait(z) => s
         case Finish => s.(pc := s.pc[t := Redeem(1)]))
    case Cas(max, mode, seen) =>
      if s.count == seen then
        var got := seen - Left(seen, max);
        Gained(s, t, Pos(got)).(count := Left(seen, max),
           pc := s.pc[t := Redeeming(Pos(got) + (if mode.Finish? then 1 else 0))])
      else s.(pc := s.pc[t := Load(max, mode)])
    case Sub(max, zero) =>
      if s.count > 0 then
        Gained(s, t, 1).(count := s.count - 1, pc := s.pc[t := GotOne(max)])
      else
        s.(count := s.count - 1, pc := s.pc[t := if zero then TimedOut(max) else Blocked(max)])
    case Blocked(max) =>
      Gained(s, t, 1).(kernel := s.kernel - 1, pc := s.pc[t := GotOne(max)])
    case TimedOut(max) => s.(pc := s.pc[t := TimedLoaded(max, s.count)])
    case TimedLoaded(max, seen) =>
      if seen >= 0 then
        if s.kernel > 0 then
          Gained(s, t, 1).(kernel := s.kernel - 1, pc := s.pc[t := GotOne(max)])
        else s.(pc := s.pc[t := TimedOut(max)])
      else if s.count == seen then
        s.(count := s.count + 1, pc := s.pc[t := Idle])
      else
        s.(pc := s.pc[t := TimedOut(max)])
  }

  // ---------------------------------------------------------------- runs

  ghost predicate Init(s: State) {
    && s.count == s.initial == s.enqueued && s.kernel == 0
    && s.signalled == s.acquired == s.dequeued == 0 && |s.asked| == |s.got| == |s.pc|
    && (forall t | 0 <= t < |s.pc| :: s.got[t] == s.asked[t] == 0)
    && forall t | 0 <= t < |s.pc| :: s.pc[t].Idle?
  }

  ghost predicate Next(s: State, s': State) { exists t, a :: Enabled(s, t, a) && s' == Apply(s, t, a) }

  ghost predicate IsRun(run: seq<State>) {
    && |run| > 0 && Init(run[0])
    && forall i | 0 <= i < |run| - 1 :: Next(run[i], run[i + 1])
  }

  // ---------------------------------------------------------------- the invariant

  /** Threads that have lowered the count and wait for a kernel token or to undo it. */
  function Waits(p: PC): nat { if p.Blocked? || p.TimedOut? || p.TimedLoaded? then 1 else 0 }

  /** Kernel posts a half-done signal still owes. */
  function Owes(p: PC): nat { if p.Releasing? then p.left else 0 }

  /** Tokens held but not yet exchanged for items. */
  function Holds(p: PC): nat {
    match p
    case Redeem(k) => k
    case Load(_, Finish) => 1
    case Cas(_, Finish, _) => 1
    case _ => 0
  }

  /** Items enqueued but not yet signalled. */
  function Unsignalled(p: PC): nat { if p.Pushed? then p.n else 0 }

  function Total(pc: seq<PC>, f: PC -> nat): nat {
    if pc == [] then 0 else Total(pc[..|pc| - 1], f) + f(pc[|pc| - 1])
  }

  lemma {:induction false} TotalUpdate(pc: seq<PC>, t: nat, p: PC, f: PC -> nat)
    requires t < |pc|
    ensures Total(pc[t := p], f) == Total(pc, f) - f(pc[t]) + f(p)
    ensures Total(pc, f) >= f(pc[t])
  {
    if t == |pc| - 1 {
      assert pc[t := p][..t] == pc[..t];
    } else {
      assert pc[t := p][..|pc| - 1] == pc[..|pc| - 1][t := p];
      TotalUpdate(pc[..|pc| - 1], t, p, f);
    }
  }

  /** What a dequeue has got so far, by where it stands. */
  ghost predicate CallOk(p: PC, asked: nat, got: nat) {
    match p
    case Load(max, mode) => if mode.Finish? then got == 1 && max + 1 == asked else got == 0 && max == asked
    case Cas(max, mode, _) => if mode.Finish? then got == 1 && max + 1 == asked else got == 0 && max == asked
    case Sub(max, _) => got == 0 && max == asked && max > 0
    case Blocked(max) => got == 0 && max == asked && max > 0
    case TimedOut(max) => got == 0 && max == asked && max > 0
    case TimedLoaded(max, _) => got == 0 && max == asked && max > 0
    case Redeem(k) => 0 < k <= got <= asked
    case _ => got <= asked
  }

  ghost predicate CallsOk(s: State) {
    && |s.asked| == |s.got| == |s.pc|
    && forall t | 0 <= t < |s.pc| ::
      && CallOk(s.pc[t], s.asked[t], s.got[t])
      && (s.pc[t].Load? && s.pc[t].mode.Wait? ==> s.pc[t].max > 0)
      && (s.pc[t].Cas? && s.pc[t].mode.Wait? ==> s.pc[t].max > 0)
  }

  ghost predicate Inv(s: State) {
    && |s.asked| == |s.got| == |s.pc|
    && Total(s.pc, Waits) == Pos(-s.count) + s.kernel + Total(s.pc, Owes)
    && s.initial + s.signalled == s.acquired + Pos(s.count) + s.kernel + Total(s.pc, Owes)
    && s.acquired == s.dequeued + Total(s.pc, Holds)
    && s.enqueued == s.initial + s.signalled + Total(s.pc, Unsignalled)
    && forall t | 0 <= t < |s.pc| :: (s.pc[t].Releasing? ==> s.pc[t].left > 0) && (s.pc[t].Cas? ==> s.pc[t].seen > 0)
  }

  lemma Totals(s: State, t: Tid, p: PC)
    requires t < |s.pc|
    ensures var pc := s.pc[t := p];
      && Total(pc, Waits) == Total(s.pc, Waits) - Waits(s.pc[t]) + Waits(p)
      && Total(pc, Owes) == Total(s.pc, Owes) - Owes(s.pc[t]) + Owes(p)
      && Total(pc, Holds) == Total(s.pc, Holds) - Holds(s.pc[t]) + Holds(p)
      && Total(pc, Unsignalled) == Total(s.pc, Unsignalled) - Unsignalled(s.pc[t]) + Unsignalled(p)
  {
    TotalUpdate(s.pc, t, p, Waits);
    TotalUpdate(s.pc, t, p, Owes);
    TotalUpdate(s.pc, t, p, Holds);
    TotalUpdate(s.pc, t, p, Unsignalled);
  }

  /** Signalling and waiting in the kernel. */
  lemma KernelSteps(s: State, t: Tid)
    requires Inv(s) && Enabled(s, t, Proceed)
    requires s.pc[t].Pushed? || s.pc[t].Releasing? || s.pc[t].Blocked? || s.pc[t].TimedOut? || s.pc[t].TimedLoaded?
    ensures Inv(Run(s, t))
  {
    hide Total;
    var s' := Run(s, t);
    assert s'.pc == s.pc[t := s'.pc[t]];
    Totals(s, t, s'.pc[t]);
  }

  /** The operations on m_count alone. */
  lemma CountSteps(s: State, t: Tid)
    requires Inv(s) && Enabled(s, t, Proceed)
    requires s.pc[t].Load? || s.pc[t].Cas? || s.pc[t].Sub?
    ensures Inv(Run(s, t))
  {
    hide Total;
    var s' := Run(s, t);
    assert s'.pc == s.pc[t := s'.pc[t]];
    Totals(s, t, s'.pc[t]);
  }

  /** Every atomic step keeps the balance of tokens, waiters and items. */
  lemma StepKeepsInv(s: State, t: Tid, a: Action)
    requires Inv(s) && Enabled(s, t, a)
    ensures Inv(Apply(s, t, a))
  {
    hide Total, Run;
    if a.Proceed? {
      if s.pc[t].Load? || s.pc[t].Cas? || s.pc[t].Sub? { CountSteps(s, t); } else { KernelSteps(s, t); }
    } else {
      var s' := Apply(s, t, a);
      assert s'.pc == s.pc[t := s'.pc[t]];
      Totals(s, t, s'.pc[t]);
    }
  }

  lemma {:induction false} IdleTotal(pc: seq<PC>, f: PC -> nat)
    requires f(Idle) == 0 && forall t | 0 <= t < |pc| :: pc[t].Idle?
    ensures Total(pc, f) == 0
  {
    if pc != [] { IdleTotal(pc[..|pc| - 1], f); }
  }

  lemma {:induction false} RunInv(run: seq<State>, i: nat)
    requires IsRun(run) && i < |run|
    ensures Inv(run[i])
  {
    if i == 0 {
      IdleTotal(run[0].pc, Waits);
      IdleTotal(run[0].pc, Owes);
      IdleTotal(run[0].pc, Holds);
      IdleTotal(run[0].pc, Unsignalled);
    } else {
      RunInv(run, i - 1);
      assert Next(run[i - 1], run[i - 1 + 1]);
      var t, a :| Enabled(run[i - 1], t, a) && run[i] == Apply(run[i - 1], t, a);
      StepKeepsInv(run[i - 1], t, a);
    }
  }

  // ---------------------------------------------------------------- what one call gets

  lemma StepKeepsCalls(s: State, t: Tid, a: Action)
    requires CallsOk(s) && Enabled(s, t, a) && forall u | 0 <= u < |s.pc| :: s.pc[u].Cas? ==> s.pc[u].seen > 0
    ensures CallsOk(Apply(s, t, a))
  {
    var s' := Apply(s, t, a);
    forall u | 0 <= u < |s'.pc| && u != t
      ensures s'.pc[u] == s.pc[u] && s'.asked[u] == s.asked[u] && s'.got[u] == s.got[u]
    {
    }
  }

  lemma {:induction false} RunCalls(run: seq<State>, i: nat)
    requires IsRun(run) && i < |run|
    ensures CallsOk(run[i])
  {
    if i > 0 {
      RunCalls(run, i - 1);
      RunInv(run, i - 1);
      assert Next(run[i - 1], run[i - 1 + 1]);
      var t, a :| Enabled(run[i - 1], t, a) && run[i] == Apply(run[i - 1], t, a);
      StepKeepsCalls(run[i - 1], t, a);
    }
  }

  /** No call ever gets more than it asked for: in every run the tokens a call holds and those it has
      redeemed are at most its max - exactly one for a wait or tryWait that succeeds. */
  lemma AtMostMax(run: seq<State>, i: nat, t: Tid)
    requires IsRun(run) && i < |run| && t < |run[i].pc|
    ensures |run[i].got| == |run[i].asked| == |run[i].pc|
    ensures Holds(run[i].pc[t]) <= run[i].got[t] <= run[i].asked[t]
    ensures run[i].pc[t].Redeem? && run[i].asked[t] == 1 ==> run[i].got[t] == 1 == Holds(run[i].pc[t])
  {
    RunCalls(run, i);
    assert CallOk(run[i].pc[t], run[i].asked[t], run[i].got[t]);
    if run[i].pc[t].Redeem? { assert run[i].pc[t].k > 0; }
  }

  /** A CAS that succeeds takes the smaller of the count and the maximum, and leaves the rest. */
  lemma CasTakes(s: State, t: Tid)
    requires Enabled(s, t, Proceed) && s.pc[t].Cas? && s.pc[t].seen > 0 && s.count == s.pc[t].seen
    ensures var k := Min(s.count, s.pc[t].max);
      && Run(s, t).count == s.count - k && Run(s, t).acquired == s.acquired + k
      && Holds(Run(s, t).pc[t]) == Holds(s.pc[t]) + k
  {
  }

  /** Inside a dequeue, without a token so far. */
  predicate EmptyHanded(p: PC) {
    || (p.Load? && !p.mode.Finish?) || (p.Cas? && !p.mode.Finish?)
    || p.Sub? || p.Blocked? || p.TimedOut? || p.TimedLoaded?
  }

  /** A dequeue that asked for something comes back with nothing only when it does not wait and saw
      no token, or when it timed out and took its decrement back from a count still negative. */
  lemma EmptyOnlyWithoutTokens(s: State, t: Tid)
    requires CallsOk(s) && Inv(s) && Enabled(s, t, Proceed) && EmptyHanded(s.pc[t]) && s.asked[t] > 0
    requires Run(s, t).pc[t].Idle?
    ensures s.count <= 0
    ensures (s.pc[t].Load? && s.pc[t].mode.Try?) || (s.pc[t].TimedLoaded? && s.count < 0)
  {
    hide Total;
    assert CallOk(s.pc[t], s.asked[t], s.got[t]);
  }

  /** A dequeue is greedy: it ends with fewer tokens than it asked for only when no more were on offer. */
  lemma StopsShort(s: State, t: Tid)
    requires CallsOk(s) && Enabled(s, t, Proceed)
    ensures var s' := Apply(s, t, Proceed);
      s'.pc[t].Redeem? && s'.got[t] < s.asked[t] ==> s'.count <= 0
  {
    assert CallOk(s.pc[t], s.asked[t], s.got[t]);
  }

  /** Run alone on a positive count, a tryWait or tryWaitMany gets what there is, up to its max. */
  lemma TryTakes(s: State, t: Tid, max: nat)
    requires Enabled(s, t, Dequeue(max, Try)) && max > 0 && s.count > 0
    ensures var s1 := Apply(s, t, Dequeue(max, Try));
      && Enabled(s1, t, Proceed) && Enabled(Run(s1, t), t, Proceed)
      && var s3 := Run(Run(s1, t), t);
        s3.pc[t] == Redeem(Min(s.count, max)) && s3.count == s.count - Min(s.count, max)
  {
  }

  // ---------------------------------------------------------------- main results

  /** Tokens are conserved in every interleaving, so acquisitions never exceed signals. */
  lemma TokensConserved(run: seq<State>, i: nat)
    requires IsRun(run) && i < |run|
    ensures var s := run[i];
      s.initial + s.signalled == s.acquired + Pos(s.count) + s.kernel + Total(s.pc, Owes)
    ensures run[i].acquired <= run[i].initial + run[i].signalled
  {
    RunInv(run, i);
  }

  /** No lost wakeup: once no signal is half done, either nobody waits in vain because the
      count is negative by exactly the waiters that have no kernel token, or every waiter has
      a kernel token to take. */
  lemma EveryWaiterIsServed(run: seq<State>, i: nat)
    requires IsRun(run) && i < |run| && Total(run[i].pc, Owes) == 0
    ensures Total(run[i].pc, Waits) == Pos(-run[i].count) + run[i].kernel
    ensures run[i].count >= 0 ==> run[i].kernel == Total(run[i].pc, Waits)
  {
    RunInv(run, i);
  }

  /** Run alone from TimedOut, a waiter's next two operations leave its loop. */
  ghost predicate Exits(s: State, t: Tid)
    requires t < |s.pc| == |s.asked| == |s.got| && s.pc[t].TimedOut?
  {
    var s1 := Run(s, t);
    var s2 := Run(s1, t);
    if s.count < 0 then s2.pc[t].Idle? && s2.acquired == s.acquired && s2.count == s.count + 1
    else s2.acquired == s.acquired + 1 && s2.count == s.count && Holds(s2.pc[t]) == 1
  }

  /** A timed-out waiter undoes its decrement or takes a kernel token, exactly when one of the
      two is there; and one of them is there whenever no signal is half done. */
  lemma TimedOutWaiterExits(run: seq<State>, i: nat, t: Tid)
    requires IsRun(run) && i < |run| && t < |run[i].pc| && run[i].pc[t].TimedOut?
    ensures |run[i].asked| == |run[i].got| == |run[i].pc|
    ensures Exits(run[i], t) <==> run[i].count < 0 || run[i].kernel > 0
    ensures Total(run[i].pc, Owes) == 0 ==> Exits(run[i], t)
  {
    RunInv(run, i);
    var s := run[i];
    hide Total;
    TotalUpdate(s.pc, t, s.pc[t], Waits);
  }

  /** While a signal is half done the exit can be shut: the count already counts the waiter as
      served, but its kernel token is not yet posted. */
  lemma HalfDoneSignalShutsExit() returns (run: seq<State>)
    ensures IsRun(run)
    ensures var s := run[|run| - 1]; |s.pc| == |s.asked| == |s.got| == 2 && s.pc[0].TimedOut? && !Exits(s, 0)
  {
    var s0 := State(0, 0, [Idle, Idle], 0, 0, 0, 0, 0, [0, 0], [0, 0]);
    var s1 := Apply(s0, 0, Dequeue(1, Wait(true)));
    var s2 := Apply(s1, 0, GiveUp);
    var s3 := Apply(s2, 0, Proceed);
    var s4 := Apply(s3, 1, Enqueue(1));
    var s5 := Apply(s4, 1, Proceed);
    run := [s0, s1, s2, s3, s4, s5];
    assert Next(s0, s1) && Next(s1, s2) && Next(s2, s3) && Next(s3, s4) && Next(s4, s5);
    TimedOutWaiterExits(run, 5, 0);
  }

  /** Tokens never run ahead of items: a thread that holds tokens finds at least as many items
      in the inner queue, so its retry loop never turns on an empty queue. */
  lemma TokenMeansItem(run: seq<State>, i: nat, t: Tid)
    requires IsRun(run) && i < |run| && t < |run[i].pc| && run[i].pc[t].Redeem?
    ensures run[i].dequeued + run[i].pc[t].k <= run[i].enqueued
    ensures Enabled(run[i], t, Take(run[i].pc[t].k))
  {
    RunInv(run, i);
    TotalUpdate(run[i].pc, t, run[i].pc[t], Holds);
  }

  /** With every call over, the tokens on offer are exactly the items in the queue. */
  lemma QuiescentBalance(run: seq<State>, i: nat)
    requires IsRun(run) && i < |run| && forall t | 0 <= t < |run[i].pc| :: run[i].pc[t].Idle?
    ensures run[i].kernel == 0 && run[i].count == run[i].enqueued - run[i].dequeued >= 0
  {
    RunInv(run, i);
    IdleTotal(run[i].pc, Waits);
    IdleTotal(run[i].pc, Owes);
    IdleTotal(run[i].pc, Holds);
    IdleTotal(run[i].pc, Unsignalled);
  }
}
