/** What the concurrent block index gives back: an emptied block is cleared and returned by the
    consumer that took its last element, and the index grows only when it is full. */
module IndexRecycling {
  import opened Common
  import opened Bitwise
  import opened ConcurrentIndex

  /** Entry e belongs to a live block. */
  ghost predicate Occupied(s: State, e: nat) {
    exists b: nat :: b < |s.blocks| && Live(s, b) && s.slots[b] == e
  }

  ghost predicate BeingCleared(s: State, b: nat) {
    exists t: nat :: t < |s.consumers| && s.consumers[t].Clearing? && s.consumers[t].b == b
  }

  /** What a memory block is marked as is what somebody knows about it. */
  ghost predicate UseOk(s: State, id: nat)
    requires id < |s.uses|
  {
    match s.uses[id]
    case Pooled => true
    case Reserved => s.producer.HasBlock? && s.producer.id == id
    case InQueue(b) => b < |s.blocks| && b !in s.cleared && s.blocks[b] == id
    case Freed(t) => t < |s.consumers| && s.consumers[t] == Freeing(id)
  }

  ghost predicate EntriesTidy(s: State) {
    forall e: nat | e < |s.entries| && s.entries[e].value.Some? :: Occupied(s, e)
  }

  ghost predicate BlocksTidy(s: State) {
    forall b: nat | b < |s.blocks| && Emptied(s, b) && b !in s.cleared :: BeingCleared(s, b)
  }

  ghost predicate UsesTidy(s: State) { forall id: nat | id < |s.uses| :: UseOk(s, id) }

  ghost predicate Tidy(s: State) { EntriesTidy(s) && BlocksTidy(s) && UsesTidy(s) }

  // ---------------------------------------------------------------- the producer's steps

  lemma OccupiedStays(s: State, s': State, e: nat)
    requires Occupied(s, e) && s.blocks <= s'.blocks && s.slots <= s'.slots && s'.cleared == s.cleared
    ensures Occupied(s', e)
  {
    var b: nat :| b < |s.blocks| && Live(s, b) && s.slots[b] == e;
    assert b < |s'.blocks| && Live(s', b) && s'.slots[b] == e;
  }

  lemma ProduceEntries(s: State, id: nat)
    requires Inv(s) && ProducerCan(s, id) && EntriesTidy(s)
    ensures EntriesTidy(Produce(s, id))
  {
    hide RingOk, SlotsOk, ValuesOk, HeadersOk, Reached, Position, ClaimsOk, FoundAll, Occupied, BlockOk;
    ProduceExtends(s, id);
    var s' := Produce(s, id);
    forall e: nat | e < |s'.entries| && s'.entries[e].value.Some?
      ensures Occupied(s', e)
    {
      if e < |s.entries| && s.entries[e].value.Some? {
        OccupiedStays(s, s', e);
      } else {
        NewlyOccupied(s, id, e);
      }
    }
  }

  /** Only publishing a block gives an entry a value. */
  lemma NewlyOccupied(s: State, id: nat, e: nat)
    requires Inv(s) && ProducerCan(s, id)
    requires var s' := Produce(s, id); e < |s'.entries| && s'.entries[e].value.Some?
    requires e >= |s.entries| || s.entries[e].value.None?
    ensures Occupied(Produce(s, id), e)
  {
    hide RingOk, SlotsOk, ValuesOk, HeadersOk, Reached, Position, ClaimsOk, FoundAll, BlockOk;
    var s', b: nat := Produce(s, id), |s.blocks|;
    assert s.producer.HasBlock? && e == s.producer.e;
    assert b < |s'.blocks| && Live(s', b) && s'.slots[b] == e;
  }

  lemma NothingTaken(s: State)
    requires Inv(s)
    ensures s.producer.HasBlock? ==> !Emptied(s, |s.blocks|)
  {
    hide IndexInv, FoundAll, CountOk;
    if s.producer.HasBlock? {
      var i := BLOCK_SIZE * |s.blocks|;
      assert i in Interval(i, i + BLOCK_SIZE) && i !in s.done;
    }
  }

  lemma ProduceBlocks(s: State, id: nat)
    requires Inv(s) && ProducerCan(s, id) && BlocksTidy(s)
    ensures BlocksTidy(Produce(s, id))
  {
    NothingTaken(s);
    ProduceExtends(s, id);
    BlocksGrow(s, id);
    hide Inv, Produce, ProducerCan, Interval;
    var s' := Produce(s, id);
    forall b: nat | b < |s'.blocks| && Emptied(s', b) && b !in s'.cleared
      ensures BeingCleared(s', b)
    {
      assert Emptied(s, b);
      assert BeingCleared(s, b);
    }
  }

  lemma BlocksGrow(s: State, id: nat)
    requires ProducerCan(s, id)
    ensures |Produce(s, id).blocks| == |s.blocks| + if s.producer.HasBlock? then 1 else 0
  {
  }

  lemma ProduceUses(s: State, id: nat)
    requires Inv(s) && ProducerCan(s, id) && UsesTidy(s)
    ensures UsesTidy(Produce(s, id))
  {
    hide RingOk, SlotsOk, ValuesOk, HeadersOk, Reached, Position, ClaimsOk, FoundAll, BlockOk, Emptied;
    var s' := Produce(s, id);
    forall k: nat | k < |s'.uses|
      ensures UseOk(s', k)
    {
      if k < |s.uses| { assert UseOk(s, k); }
    }
  }

  // ---------------------------------------------------------------- the consumers' steps

  /** Clearing empties the entry of the cleared block and of no other live one. */
  lemma ClearEntries(s: State, t: nat)
    requires ConsumerCan(s, t) && s.consumers[t].Clearing? && FoundOk(s, t, s.consumers[t]) && EntriesTidy(s)
    ensures EntriesTidy(Consume(s, t))
  {
    hide Position, Lookup, Emptied;
    var s', c := Consume(s, t), s.consumers[t];
    forall e: nat | e < |s'.entries| && s'.entries[e].value.Some?
      ensures Occupied(s', e)
    {
      assert Occupied(s, e);
      var b: nat :| b < |s.blocks| && Live(s, b) && s.slots[b] == e;
      assert Live(s', b);
    }
  }

  lemma ConsumeEntries(s: State, t: nat)
    requires Inv(s) && ConsumerCan(s, t) && EntriesTidy(s)
    ensures EntriesTidy(Consume(s, t))
  {
    assert FoundOk(s, t, s.consumers[t]);
    hide Inv, FoundOk;
    if s.consumers[t].Clearing? {
      ClearEntries(s, t);
    } else {
      OnlyClearing(s, t);
      hide ConsumerCan, Consume, Occupied;
      var s' := Consume(s, t);
      forall e: nat | e < |s'.entries| && s'.entries[e].value.Some?
        ensures Occupied(s', e)
      {
        OccupiedStays(s, s', e);
      }
    }
  }

  /** Only clearing touches the index. */
  lemma OnlyClearing(s: State, t: nat)
    requires ConsumerCan(s, t) && !s.consumers[t].Clearing?
    ensures var s' := Consume(s, t);
      s'.entries == s.entries && s'.slots == s.slots && s'.blocks == s.blocks && s'.cleared == s.cleared
  {
    hide Position, Lookup;
  }

  /** The counter of a live block counts its taken elements, so the last one clears. */
  lemma LastTaken(s: State, t: nat)
    requires Inv(s) && ConsumerCan(s, t) && s.consumers[t].WithBlock?
    ensures var b := s.consumers[t].i / BLOCK_SIZE;
      Emptied(Consume(s, t), b) ==> Consume(s, t).consumers[t].Clearing? && Consume(s, t).consumers[t].b == b
  {
    var c := s.consumers[t];
    var b := c.i / BLOCK_SIZE;
    assert Unmarked(s, c.i) && FoundOk(s, t, c);
    HeldBlock(s, c.i);
    assert BlockOk(s, b);
    hide Inv, Interval, FoundOk;
    PartGrows(s.done, c.i, b);
    if Emptied(Consume(s, t), b) { FullPart(s.done + {c.i}, b); }
  }

  lemma FullPart(done: set<nat>, b: nat)
    requires Interval(BLOCK_SIZE * b, BLOCK_SIZE * b + BLOCK_SIZE) <= done
    ensures |Part(done, b)| == BLOCK_SIZE
  {
    IntervalSize(BLOCK_SIZE * b, BLOCK_SIZE * b + BLOCK_SIZE);
    assert Part(done, b) == Interval(BLOCK_SIZE * b, BLOCK_SIZE * b + BLOCK_SIZE);
  }

  lemma StillFull(done: set<nat>, i: nat, b: nat)
    requires Interval(BLOCK_SIZE * b, BLOCK_SIZE * b + BLOCK_SIZE) <= done + {i} && i / BLOCK_SIZE != b
    ensures Interval(BLOCK_SIZE * b, BLOCK_SIZE * b + BLOCK_SIZE) <= done
  {
  }

  lemma ClearedStays(s: State, s': State, t: nat, b: nat)
    requires BeingCleared(s, b) && t < |s.consumers| && |s'.consumers| == |s.consumers|
    requires forall u: nat | u < |s.consumers| && u != t :: s'.consumers[u] == s.consumers[u]
    requires s.consumers[t].Clearing? ==> s.consumers[t].b != b
    ensures BeingCleared(s', b)
  {
    var u: nat :| u < |s.consumers| && s.consumers[u].Clearing? && s.consumers[u].b == b;
    assert s'.consumers[u] == s.consumers[u];
  }

  lemma ConsumeBlocks(s: State, t: nat)
    requires Inv(s) && ConsumerCan(s, t) && BlocksTidy(s)
    ensures BlocksTidy(Consume(s, t))
  {
    var s', c := Consume(s, t), s.consumers[t];
    if c.WithBlock? { LastTaken(s, t); }
    hide Inv, Position, Lookup, Interval, BeingCleared;
    forall b: nat | b < |s'.blocks| && Emptied(s', b) && b !in s'.cleared
      ensures BeingCleared(s', b)
    {
      if c.WithBlock? && b == c.i / BLOCK_SIZE {
        ClearsIt(s', t, b);
      } else {
        if c.WithBlock? { StillFull(s.done, c.i, b); }
        assert Emptied(s, b);
        ClearedStays(s, s', t, b);
      }
    }
  }

  lemma ClearsIt(s: State, t: nat, b: nat)
    requires t < |s.consumers| && s.consumers[t].Clearing? && s.consumers[t].b == b
    ensures BeingCleared(s, b)
  {
  }

  lemma ConsumeUses(s: State, t: nat)
    requires Inv(s) && ConsumerCan(s, t) && UsesTidy(s)
    ensures UsesTidy(Consume(s, t))
  {
    var s', c := Consume(s, t), s.consumers[t];
    assert FoundOk(s, t, c);
    hide Inv, Position, Lookup, Emptied;
    forall k: nat | k < |s'.uses|
      ensures UseOk(s', k)
    {
      assert UseOk(s, k);
    }
  }

  // ---------------------------------------------------------------- every run

  lemma {:induction false} RunTidy(run: seq<State>, i: nat)
    requires IsRun(run) && i < |run|
    ensures Inv(run[i]) && Tidy(run[i])
  {
    hide Inv, EntriesTidy, BlocksTidy, UsesTidy, ProducerCan, ConsumerCan, Produce, Consume;
    RunInv(run, i);
    if i == 0 {
      var n :| Init(run[0], n);
      InitTidy(run[0], n);
    } else {
      RunTidy(run, i - 1);
      assert Next(run[i - 1], run[i - 1 + 1]);
      var s, s' := run[i - 1], run[i];
      if id: nat :| ProducerMoves(s, s', id) {
        ProduceEntries(s, id);
        ProduceBlocks(s, id);
        ProduceUses(s, id);
      } else {
        var t: nat :| ConsumerMoves(s, s', t);
        ConsumeEntries(s, t);
        ConsumeBlocks(s, t);
        ConsumeUses(s, t);
      }
    }
  }

  lemma InitTidy(s: State, n: nat)
    requires Init(s, n)
    ensures Tidy(s)
  {
  }

  /** Blocks are given back: with no consumer at work every emptied block is cleared, and every
      memory block is in the pool, about to be published, or holds a block with elements still to be
      taken. */
  lemma AllRecycled(run: seq<State>, i: nat)
    requires IsRun(run) && i < |run| && forall t | 0 <= t < |run[i].consumers| :: run[i].consumers[t].Away?
    ensures forall b: nat | b < |run[i].blocks| :: b in run[i].cleared <==> Emptied(run[i], b)
    ensures forall id: nat | id < |run[i].uses| ::
      || run[i].uses[id].Pooled?
      || (run[i].producer.HasBlock? && run[i].producer.id == id)
      || exists b: nat :: b < |run[i].blocks| && run[i].blocks[b] == id && !Emptied(run[i], b)
  {
    RunTidy(run, i);
    var s := run[i];
    assert CountOk(s);
    hide IsRun, Inv, Emptied, BlockOk;
    forall b: nat | b < |s.blocks| && Emptied(s, b)
      ensures b in s.cleared
    {
      assert !BeingCleared(s, b);
    }
    forall id: nat | id < |s.uses| && !s.uses[id].Pooled? && !(s.producer.HasBlock? && s.producer.id == id)
      ensures exists b: nat :: b < |s.blocks| && s.blocks[b] == id && !Emptied(s, b)
    {
      assert UseOk(s, id);
      var b := s.uses[id].b;
      assert b < |s.blocks| && s.blocks[b] == id && !Emptied(s, b);
    }
  }

  /** The index grows only when it is full: the producer finds the next slot in use only if the block
      a whole capacity back is still live. */
  lemma GrowsOnlyWhenFull(run: seq<State>, i: nat, id: nat)
    requires IsRun(run) && i < |run| && run[i].producer.Ready? && ProducerCan(run[i], id)
    requires Produce(run[i], id).producer.Full?
    ensures var n, c := |run[i].slots|, run[i].headers[Current(run[i])].capacity;
      n >= c && Live(run[i], n - c)
  {
    RunTidy(run, i);
    var s := run[i];
    var e := NextEntry(s);
    hide IsRun, BlocksTidy, UsesTidy, ClaimsOk, CountOk, FoundAll;
    assert Occupied(s, e);
    var b: nat :| b < |s.blocks| && Live(s, b) && s.slots[b] == e;
    var h, n := s.headers[Current(s)], |s.slots|;
    assert Finds(s, Current(s), b) by { ReachedLive(s, b); }
    hide RingOk, SlotsOk, ValuesOk, Position, EntriesTidy, Reached;
    PositionShift(h, n - 1, 1);
    SlotAgain(h, b, n);
  }
}
