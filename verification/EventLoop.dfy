/** The wake-up protocol of src/net/EventLoop.cpp with the eventfd of src/net/EPollPoller.cpp: one
    loop thread, any number of other threads, steps interleaved in any order. */
module EventLoop {

  type Functor = nat
  type ThreadId = nat

  /** Where the loop thread is. `Outside` is before, after or between calls of loop(). */
  datatype LoopPc =
    | Outside
    | Test                                        // about to read _quit
    | Poll                                        // in poll, possibly blocked
    | Handling(wake: bool)                        // handling events; wake: the wakeup channel is still to come
    | Swapping                                    // _callingPendingFunctors is set, the swap is next
    | Running(batch: seq<Functor>, owes: bool)    // functors left; owes: pushed one, wakeup not yet written

  /** Where another thread is. */
  datatype ThreadPc = Away | Pushed | QuitSet     // between push and wakeup; between setting _quit and wakeup

  /** `tokens` is the eventfd counter. `pushed` and `ran` record all functors queued and run, in
      order; `early` says that the loop thread queued one outside loop() that was not yet taken. */
  datatype State = State(
    loop: LoopPc, quit: bool, pending: seq<Functor>, tokens: nat, threads: map<ThreadId, ThreadPc>,
    pushed: seq<Functor>, ran: seq<Functor>, early: bool)

  const START: State := State(Outside, false, [], 0, map[], [], [], false)

  datatype Step =
    | Start                                    // loop(): _quit = false
    | TestQuit
    | PollReturn(wake: bool)                   // an event, a signal or the timeout
    | ReadWake                                 // handleRead
    | EndHandling
    | Swap
    | RunOne
    | EndRunning
    | LoopPost(f: Functor)                     // queueInLoop on the loop thread: the push
    | LoopWake                                 // ... its wakeup
    | LoopQuit                                 // quit() on the loop thread
    | Post(t: ThreadId, f: Functor)            // queueInLoop on another thread: the push
    | SetQuit(t: ThreadId)                     // quit() on another thread: the flag
    | Wake(t: ThreadId)                        // ... the wakeup of either

  function PcOf(s: State, t: ThreadId): ThreadPc { if t in s.threads then s.threads[t] else Away }

  predicate Callbacks(s: State) { s.loop.Handling? || (s.loop.Running? && !s.loop.owes) }

  predicate Enabled(s: State, a: Step) {
    match a
    case Start => s.loop.Outside?
    case TestQuit => s.loop.Test?
    case PollReturn(wake) => s.loop.Poll? && (wake ==> s.tokens > 0)
    case ReadWake => s.loop.Handling? && s.loop.wake
    case EndHandling => s.loop.Handling? && !s.loop.wake
    case Swap => s.loop.Swapping?
    case RunOne => s.loop.Running? && !s.loop.owes && s.loop.batch != []
    case EndRunning => s.loop.Running? && !s.loop.owes && s.loop.batch == []
    case LoopPost(_) => s.loop.Outside? || Callbacks(s)
    case LoopWake => s.loop.Running? && s.loop.owes
    case LoopQuit => s.loop.Outside? || Callbacks(s)
    case Post(t, _) => PcOf(s, t) == Away
    case SetQuit(t) => PcOf(s, t) == Away
    case Wake(t) => PcOf(s, t) != Away
  }

  function Queued(s: State, f: Functor): State {
    s.(pending := s.pending + [f], pushed := s.pushed + [f])
  }

  function Do(s: State, a: Step): State
    requires Enabled(s, a)
  {
    match a
    case Start => s.(loop := Test, quit := false)
    case TestQuit => s.(loop := if s.quit then Outside else Poll)
    case PollReturn(wake) => s.(loop := Handling(wake))
    case ReadWake => s.(loop := Handling(false), tokens := 0)
    case EndHandling => s.(loop := Swapping)
    case Swap => s.(loop := Running(s.pending, false), pending := [], early := false)
    case RunOne => s.(loop := Running(s.loop.batch[1..], false), ran := s.ran + [s.loop.batch[0]])
    case EndRunning => s.(loop := Test)
    case LoopPost(f) =>
      if s.loop.Running? then Queued(s, f).(loop := s.loop.(owes := true))
      else if s.loop.Outside? then Queued(s, f).(early := true)
      else Queued(s, f)
    case LoopWake => s.(loop := s.loop.(owes := false), tokens := s.tokens + 1)
    case LoopQuit => s.(quit := true)
    case Post(t, f) => Queued(s, f).(threads := s.threads[t := Pushed])
    case SetQuit(t) => s.(quit := true, threads := s.threads[t := QuitSet])
    case Wake(t) => s.(threads := s.threads[t := Away], tokens := s.tokens + 1)
  }

  // ---------------------------------------------------------------- invariants

  /** Some thread has pushed a functor and not yet written its wakeup. */
  ghost predicate PosterBetween(s: State) {
    (s.loop.Running? && s.loop.owes) || exists t :: PcOf(s, t) == Pushed
  }

  ghost predicate QuitterBetween(s: State) { exists t :: PcOf(s, t) == QuitSet }

  /** This iteration still has its swap ahead. */
  predicate WillSwap(s: State) { s.loop.Handling? || s.loop.Swapping? }

  /** A queued functor is on its way to being run. */
  ghost predicate NoneForgotten(s: State) {
    s.pending != [] ==> s.tokens > 0 || PosterBetween(s) || WillSwap(s) || s.early
  }

  /** A quit during loop() is on its way to being seen. */
  ghost predicate QuitSeen(s: State) {
    s.quit && s.loop.Poll? ==> s.tokens > 0 || QuitterBetween(s)
  }

  function Batch(s: State): seq<Functor> { if s.loop.Running? then s.loop.batch else [] }

  /** Functors run at most once and in the order they were queued. */
  predicate InOrder(s: State) { s.pushed == s.ran + Batch(s) + s.pending }

  ghost predicate Inv(s: State) {
    && NoneForgotten(s) && QuitSeen(s) && InOrder(s)
    && (s.loop.Handling? && s.loop.wake ==> s.tokens > 0)
    && (s.early ==> s.pending != [])
  }

  lemma StepOrder(s: State, a: Step)
    requires InOrder(s) && Enabled(s, a)
    ensures InOrder(Do(s, a))
  {
    var t := Do(s, a);
    match a
    case RunOne => assert s.ran + s.loop.batch == t.ran + t.loop.batch;
    case Swap => assert s.ran + [] + s.pending == t.ran + t.loop.batch + [];
    case LoopPost(f) => assert (s.ran + Batch(s) + s.pending) + [f] == s.ran + Batch(s) + (s.pending + [f]);
    case Post(_, f) => assert (s.ran + Batch(s) + s.pending) + [f] == s.ran + Batch(s) + (s.pending + [f]);
    case _ =>
  }

  lemma StepForgets(s: State, a: Step)
    requires Inv(s) && Enabled(s, a)
    ensures NoneForgotten(Do(s, a))
  {
    var t := Do(s, a);
    match a
    case Post(x, _) => assert PcOf(t, x) == Pushed;
    case SetQuit(x) =>
      assert forall y | y != x :: PcOf(t, y) == PcOf(s, y);
      if PosterBetween(s) && !(s.loop.Running? && s.loop.owes) {
        var y :| PcOf(s, y) == Pushed;
        assert PcOf(t, y) == Pushed;
      }
    case Wake(_) =>
    case _ => assert forall y :: PcOf(t, y) == PcOf(s, y);
  }

  lemma StepQuit(s: State, a: Step)
    requires Inv(s) && Enabled(s, a)
    ensures QuitSeen(Do(s, a))
  {
    var t := Do(s, a);
    match a
    case SetQuit(x) => assert PcOf(t, x) == QuitSet;
    case Post(x, _) =>
      if QuitterBetween(s) {
        var y :| PcOf(s, y) == QuitSet;
        assert PcOf(t, y) == QuitSet;
      }
    case Wake(_) =>
    case _ => assert forall y :: PcOf(t, y) == PcOf(s, y);
  }

  /** Every step of every thread keeps the invariant. */
  lemma StepInv(s: State, a: Step)
    requires Inv(s) && Enabled(s, a)
    ensures Inv(Do(s, a))
  {
    StepForgets(s, a);
    StepQuit(s, a);
    StepOrder(s, a);
  }

  predicate CanRun(s: State, steps: seq<Step>)
    decreases |steps|
  {
    steps == [] || (Enabled(s, steps[0]) && CanRun(Do(s, steps[0]), steps[1..]))
  }

  function Exec(s: State, steps: seq<Step>): State
    requires CanRun(s, steps)
    decreases |steps|
  {
    if steps == [] then s else Exec(Do(s, steps[0]), steps[1..])
  }

  lemma {:induction false} RunInv(s: State, steps: seq<Step>)
    requires Inv(s) && CanRun(s, steps)
    ensures Inv(Exec(s, steps))
    decreases |steps|
  {
    if steps != [] {
      StepInv(s, steps[0]);
      RunInv(Do(s, steps[0]), steps[1..]);
    }
  }

  // ---------------------------------------------------------------- what it means

  /** Blocked in poll although a functor waits, with no wakeup written and none about to be. */
  ghost predicate LostWakeup(s: State) {
    s.loop.Poll? && s.pending != [] && s.tokens == 0 && !PosterBetween(s)
  }

  /** The loop thread queued a functor outside loop(). */
  predicate PostsOutside(s: State, steps: seq<Step>)
    requires CanRun(s, steps)
    decreases |steps|
  {
    steps != [] && ((s.loop.Outside? && steps[0].LoopPost?) || PostsOutside(Do(s, steps[0]), steps[1..]))
  }

  lemma {:induction false} NotEarly(s: State, steps: seq<Step>)
    requires CanRun(s, steps) && !s.early && !PostsOutside(s, steps)
    ensures !Exec(s, steps).early
    decreases |steps|
  {
    if steps != [] {
      NotEarly(Do(s, steps[0]), steps[1..]);
    }
  }

  /** In every interleaving no wakeup is lost, provided the loop thread queues only inside loop();
      a blocked loop always has its wakeup, and functors ran once each, in queue order. */
  lemma NoLostWakeup(steps: seq<Step>)
    requires CanRun(START, steps) && !PostsOutside(START, steps)
    ensures !LostWakeup(Exec(START, steps))
    ensures var s := Exec(START, steps); s.ran <= s.pushed && s.pushed == s.ran + Batch(s) + s.pending
  {
    StartInv();
    RunInv(START, steps);
    NotEarly(START, steps);
  }

  lemma StartInv()
    ensures Inv(START) && !START.early
  {
  }

  /** Where a wakeup is lost, the loop thread did queue outside loop() and has not swapped since. */
  lemma LostMeansEarly(steps: seq<Step>)
    requires CanRun(START, steps) && LostWakeup(Exec(START, steps))
    ensures Exec(START, steps).early && PostsOutside(START, steps)
  {
    StartInv();
    RunInv(START, steps);
    if !PostsOutside(START, steps) { NotEarly(START, steps); }
  }

  /** In every run a wakeup is lost exactly where the loop polls on such a functor and no other
      thread's wakeup is written or under way. */
  lemma LostExactly(steps: seq<Step>)
    requires CanRun(START, steps)
    ensures var s := Exec(START, steps);
      LostWakeup(s) <==> s.loop.Poll? && s.early && s.tokens == 0 && !PosterBetween(s)
  {
    StartInv();
    RunInv(START, steps);
  }

  /** A functor the loop thread queues outside loop() is left waiting by the first poll, exactly
      when no other thread's wakeup happens to be written or under way. */
  lemma EarlyPostIsLost(s: State, f: Functor)
    requires Inv(s) && s.loop.Outside?
    ensures var s3 := Do(Do(Do(s, LoopPost(f)), Start), TestQuit);
      LostWakeup(s3) <==> s.tokens == 0 && !PosterBetween(s)
  {
    var s3 := Do(Do(Do(s, LoopPost(f)), Start), TestQuit);
    assert forall t :: PcOf(s3, t) == PcOf(s, t);
  }

  /** A quit during loop() never leaves the loop blocked: a wakeup is written or about to be. */
  lemma QuitIsNotMissed(steps: seq<Step>)
    requires CanRun(START, steps)
    ensures var s := Exec(START, steps);
      s.quit && s.loop.Poll? ==> s.tokens > 0 || QuitterBetween(s)
  {
    StartInv();
    RunInv(START, steps);
  }

  /** quit(), by another thread or by the loop thread itself. */
  predicate IsQuit(a: Step) { a.SetQuit? || a.LoopQuit? }

  /** A quit that comes before loop() is overwritten: the loop starts all the same. */
  lemma QuitBeforeLoopIsLost(s: State, a: Step)
    requires s.loop.Outside? && IsQuit(a) && Enabled(s, a)
    ensures var t := Do(Do(Do(s, a), Start), TestQuit);
      t.loop.Poll? && !t.quit
  {
  }

  /** Along this run the next test of _quit leaves loop(), and until then poll is never blocked
      without a wakeup written or about to be. */
  ghost predicate CarriedOut(s: State, steps: seq<Step>)
    requires CanRun(s, steps)
    decreases |steps|
  {
    && (s.loop.Poll? ==> s.tokens > 0 || QuitterBetween(s))
    && (steps == [] ||
        (if steps[0].TestQuit? then Do(s, steps[0]).loop.Outside? else CarriedOut(Do(s, steps[0]), steps[1..])))
  }

  /** A quit set inside loop() stays set until it is tested. */
  lemma QuitStays(s: State, a: Step)
    requires s.quit && !s.loop.Outside? && Enabled(s, a) && !a.TestQuit?
    ensures Do(s, a).quit && !Do(s, a).loop.Outside?
  {
  }

  lemma {:induction false} QuitInside(s: State, steps: seq<Step>)
    requires Inv(s) && s.quit && !s.loop.Outside? && CanRun(s, steps)
    ensures CarriedOut(s, steps)
    decreases |steps|
  {
    if steps != [] && !steps[0].TestQuit? {
      StepInv(s, steps[0]);
      QuitStays(s, steps[0]);
      QuitInside(Do(s, steps[0]), steps[1..]);
    }
  }

  /** Outside loop() the next start and test do not leave. */
  lemma OverwrittenRun(t: State)
    requires t.loop.Outside?
    ensures exists steps :: CanRun(t, steps) && !CarriedOut(t, steps)
  {
    var t1, rest := Do(t, Start), [TestQuit];
    var steps := [Start] + rest;
    assert rest[1..] == [] && steps[1..] == rest && steps[0] == Start && rest[0] == TestQuit;
    assert CanRun(Do(t1, TestQuit), []);
    assert CanRun(t1, rest) && !CarriedOut(t1, rest);
    assert CanRun(t, steps) && !CarriedOut(t, steps);
  }

  /** A quit() is carried out in every run that follows exactly when it is made inside loop(). */
  lemma QuitTakesEffect(s: State, a: Step)
    requires Inv(s) && IsQuit(a) && Enabled(s, a)
    ensures (forall steps | CanRun(Do(s, a), steps) :: CarriedOut(Do(s, a), steps)) <==> !s.loop.Outside?
  {
    var t := Do(s, a);
    StepInv(s, a);
    if s.loop.Outside? {
      OverwrittenRun(t);
    } else {
      forall steps | CanRun(t, steps)
        ensures CarriedOut(t, steps)
      {
        QuitInside(t, steps);
      }
    }
  }

  /** A started loop stays in loop() as long as nobody calls quit(). */
  lemma {:induction false} StaysUntilQuit(s: State, steps: seq<Step>)
    requires !s.quit && !s.loop.Outside? && CanRun(s, steps) && forall a | a in steps :: !IsQuit(a)
    ensures !Exec(s, steps).loop.Outside? && !Exec(s, steps).quit
    decreases |steps|
  {
    if steps != [] {
      assert steps[0] in steps && !IsQuit(steps[0]);
      StaysUntilQuit(Do(s, steps[0]), steps[1..]);
    }
  }

  /** Once the wakeup is read, poll reports it again only after somebody wrote a new one. */
  lemma {:induction false} QuietAfterRead(s: State, steps: seq<Step>)
    requires CanRun(s, steps) && (s.tokens == 0 || (steps != [] && steps[0].ReadWake?))
    requires forall a | a in steps :: !a.Wake? && !a.LoopWake?
    ensures steps != [] || s.tokens == 0 ==> Exec(s, steps).tokens == 0 && !Enabled(Exec(s, steps), PollReturn(true))
    decreases |steps|
  {
    if steps != [] {
      assert steps[0] in steps;
      QuietAfterRead(Do(s, steps[0]), steps[1..]);
    }
  }

  // ---------------------------------------------------------------- one iteration

  function Repeat(n: nat): seq<Step> { if n == 0 then [] else [RunOne] + Repeat(n - 1) }

  lemma {:induction false} RunsBatch(s: State)
    requires s.loop.Running? && !s.loop.owes
    ensures CanRun(s, Repeat(|s.loop.batch|))
    ensures Exec(s, Repeat(|s.loop.batch|)) == s.(loop := Running([], false), ran := s.ran + s.loop.batch)
    decreases |s.loop.batch|
  {
    var n := |s.loop.batch|;
    if n > 0 {
      var t := Do(s, RunOne);
      RunsBatch(t);
      RunFirst(s, RunOne, Repeat(n - 1));
      assert t.ran + t.loop.batch == s.ran + s.loop.batch;
    } else {
      assert s.ran + [] == s.ran && s.loop.batch == [];
    }
  }

  /** Once poll has returned, finishing the iteration runs everything queued so far. */
  lemma IterationRunsAll(s: State)
    requires Inv(s) && s.loop == Handling(false)
    ensures var steps := [EndHandling, Swap] + Repeat(|s.pending|);
      CanRun(s, steps) && Exec(s, steps).ran == s.pushed && Exec(s, steps).pending == []
  {
    hide CanRun, Exec, NoneForgotten, QuitSeen;
    var s1 := Do(s, EndHandling);
    var s2 := Do(s1, Swap);
    RunsBatch(s2);
    var tail := Repeat(|s.pending|);
    RunFirst(s1, Swap, tail);
    RunFirst(s, EndHandling, [Swap] + tail);
    assert [EndHandling, Swap] + tail == [EndHandling] + ([Swap] + tail);
    assert s.ran + [] + s.pending == s.ran + s.pending;
  }

  lemma RunFirst(s: State, a: Step, rest: seq<Step>)
    requires Enabled(s, a) && CanRun(Do(s, a), rest)
    ensures CanRun(s, [a] + rest) && Exec(s, [a] + rest) == Exec(Do(s, a), rest)
  {
    assert ([a] + rest)[1..] == rest;
  }
}
