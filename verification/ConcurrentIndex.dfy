/** The block index of the implicit producer under concurrency (src/base/concurrentqueue.h): one
    producer inserts blocks, reusing vacant slots or doubling the index, while any number of
    consumers, each with an index it has claimed, look up the block of that index, mark their
    element and clear the slot of an emptied block. Every load, store and fetch_add is one step, in
    a sequentially consistent interleaving. */
module ConcurrentIndex {
  import opened Common
  import opened Bitwise

  const BLOCK_SIZE: nat := 128

  /** A BlockIndexEntry; the key None is INVALID_BLOCK_BASE, the value None a null pointer. */
  datatype Entry = Entry(key: Option<nat>, value: Option<nat>)

  /** A BlockIndexHeader without its tail; it never changes once published. Block number b is looked
      up at position (b + shift) modulo the capacity. */
  datatype Header = Header(capacity: nat, index: seq<nat>, shift: int)

  /** What a memory block is used for. */
  datatype Use = Pooled | Reserved | InQueue(b: nat) | Freed(t: nat)

  datatype Producer =
    | Ready
    | Full                          // the next slot is in use
    | Checked(e: nat)               // the next slot is vacant
    | KeyStored(e: nat)
    | TailStored(e: nat)
    | HasBlock(e: nat, id: nat)     // a memory block was requisitioned
    | Publishing                    // its entry is complete, the element is next

  /** `last` in a consumer's state is the block the loaded tail stood for. */
  datatype Consumer =
    | Away
    | Claimed(i: nat)
    | WithHeader(i: nat, h: nat)
    | WithTail(i: nat, h: nat, tail: nat, last: nat)
    | WithKey(i: nat, h: nat, tail: nat, base: Option<nat>, last: nat)
    | WithEntry(i: nat, e: nat)
    | WithBlock(i: nat, e: nat, found: Option<nat>)
    | Clearing(b: nat, e: nat, id: nat)
    | Freeing(id: nat)

  /** slots[b] and blocks[b] are the entry and the memory block of block number b; latest[h] is the
      block the tail of header h stands for. */
  datatype State = State(
    entries: seq<Entry>, headers: seq<Header>, tails: seq<nat>, latest: seq<int>,
    slots: seq<nat>, blocks: seq<nat>, cleared: set<nat>,
    uses: seq<Use>, counters: seq<nat>,
    tailIndex: nat, head: nat, done: set<nat>,
    producer: Producer, consumers: seq<Consumer>)

  // ---------------------------------------------------------------- positions

  function Position(h: Header, b: int): (p: nat)
    requires h.capacity > 0
    ensures p < h.capacity
  {
    (b + h.shift) % h.capacity
  }

  predicate Vacant(e: Entry) { e.key == None || e.value == None }

  function Current(s: State): nat
    requires s.headers != []
  {
    |s.headers| - 1
  }

  /** The entry the next block goes to, if it is vacant. */
  function NextEntry(s: State): nat
    requires IndexShape(s)
  {
    var h := s.headers[Current(s)];
    h.index[(s.tails[Current(s)] + 1) % h.capacity]
  }

  ghost predicate Distinct(a: seq<nat>) { forall i, j | 0 <= i < j < |a| :: a[i] != a[j] }

  predicate IndexShape(s: State) {
    && |s.headers| == |s.tails| == |s.latest| && s.headers != []
    && forall h | 0 <= h < |s.headers| ::
      && s.headers[h].capacity > 0 && |s.headers[h].index| == s.headers[h].capacity
      && s.tails[h] < s.headers[h].capacity
      && forall k | 0 <= k < |s.headers[h].index| :: s.headers[h].index[k] < |s.entries|
  }

  // ---------------------------------------------------------------- the producer's steps

  /** new_block_index: the old index unrolled from its oldest slot, then as many new entries. */
  function GrownHeader(s: State): Header
    requires IndexShape(s)
  {
    var was := s.headers[Current(s)];
    var c, t := was.capacity, s.tails[Current(s)];
    Header(2 * c,
           seq(2 * c, i requires 0 <= i < 2 * c => if i < c then was.index[(t + 1 + i) % c] else |s.entries| + i - c),
           c - 1 - s.latest[Current(s)])
  }

  function Grown(s: State): State
    requires IndexShape(s)
  {
    var c := s.headers[Current(s)].capacity;
    s.(entries := s.entries + seq(c, i => Entry(None, None)),
       headers := s.headers + [GrownHeader(s)], tails := s.tails + [c - 1],
       latest := s.latest + [s.latest[Current(s)]])
  }

  ghost predicate ProducerCan(s: State, id: nat) {
    IndexShape(s) &&
    match s.producer
    case Checked(e) => e < |s.entries|
    case HasBlock(e, id) => e < |s.entries|
    case TailStored(_) => |s.uses| == |s.counters| && (id == |s.uses| || (id < |s.uses| && s.uses[id].Pooled?))
    case _ => true
  }

  /** The producer's next step; id is the block it gets from the free list or the allocator. */
  function Produce(s: State, id: nat): State
    requires ProducerCan(s, id)
  {
    match s.producer
    case Ready =>
      if s.tailIndex % BLOCK_SIZE != 0 then s.(tailIndex := s.tailIndex + 1)
      else if Vacant(s.entries[NextEntry(s)]) then s.(producer := Checked(NextEntry(s)))
      else s.(producer := Full)
    case Full =>
      var t := Grown(s);
      t.(producer := Checked(|s.entries|))
    case Checked(e) =>
      s.(entries := s.entries[e := s.entries[e].(key := Some(s.tailIndex))],
         slots := s.slots + [e], producer := KeyStored(e))
    case KeyStored(e) =>
      var c := Current(s);
      s.(tails := s.tails[c := (s.tails[c] + 1) % s.headers[c].capacity],
         latest := s.latest[c := s.latest[c] + 1], producer := TailStored(e))
    case TailStored(e) =>
      if id < |s.uses| then
        s.(uses := s.uses[id := Reserved], counters := s.counters[id := 0], producer := HasBlock(e, id))
      else
        s.(uses := s.uses + [Reserved], counters := s.counters + [0], producer := HasBlock(e, id))
    case HasBlock(e, id) =>
      s.(entries := s.entries[e := s.entries[e].(value := Some(id))], blocks := s.blocks + [id],
         uses := if id < |s.uses| then s.uses[id := InQueue(|s.blocks|)] else s.uses, producer := Publishing)
    case Publishing => s.(tailIndex := s.tailIndex + 1, producer := Ready)
  }

  // ---------------------------------------------------------------- the consumers' steps

  ghost predicate ConsumerCan(s: State, t: nat) {
    t < |s.consumers| && IndexShape(s) &&
    match s.consumers[t]
    case Away => s.head < s.tailIndex        // the ticket protocol lets only such claims through
    case WithHeader(_, h) => h < |s.headers|
    case WithTail(_, h, tail, _) => h < |s.headers| && tail < s.headers[h].capacity
    case WithKey(_, h, _, base, _) => h < |s.headers| && base.Some?
    case WithEntry(_, e) => e < |s.entries|
    case WithBlock(_, _, found) => found.Some? && found.value < |s.counters|
    case Clearing(_, e, id) => e < |s.entries| && id < |s.uses|
    case Freeing(id) => id < |s.uses|
    case _ => true
  }

  function Moved(s: State, t: nat, c: Consumer): State
    requires t < |s.consumers|
  {
    s.(consumers := s.consumers[t := c])
  }

  /** The position the lookup computes: the tail moved by the signed distance in blocks. */
  function Lookup(h: Header, tail: nat, base: nat, i: nat): nat
    requires h.capacity > 0
  {
    (tail + (i / BLOCK_SIZE * BLOCK_SIZE - base) / BLOCK_SIZE) % h.capacity
  }

  function Consume(s: State, t: nat): State
    requires ConsumerCan(s, t)
  {
    match s.consumers[t]
    case Away => Moved(s, t, Claimed(s.head)).(head := s.head + 1)
    case Claimed(i) => Moved(s, t, WithHeader(i, Current(s)))
    case WithHeader(i, h) =>
      Moved(s, t, WithTail(i, h, s.tails[h], if s.latest[h] >= 0 then s.latest[h] else 0))
    case WithTail(i, h, tail, last) => Moved(s, t, WithKey(i, h, tail, s.entries[s.headers[h].index[tail]].key, last))
    case WithKey(i, h, tail, base, _) =>
      Moved(s, t, WithEntry(i, s.headers[h].index[Lookup(s.headers[h], tail, base.value, i)]))
    case WithEntry(i, e) => Moved(s, t, WithBlock(i, e, s.entries[e].value))
    case WithBlock(i, e, found) =>
      var id := found.value;
      var n := s.counters[id];
      Moved(s, t, if n + 1 == BLOCK_SIZE then Clearing(i / BLOCK_SIZE, e, id) else Away)
        .(counters := s.counters[id := n + 1], done := s.done + {i})
    case Clearing(b, e, id) =>
      Moved(s, t, Freeing(id))
        .(entries := s.entries[e := s.entries[e].(value := None)], cleared := s.cleared + {b},
          uses := s.uses[id := Freed(t)])
    case Freeing(id) => Moved(s, t, Away).(uses := s.uses[id := Pooled])
  }

  // ---------------------------------------------------------------- the index invariant

  predicate Live(s: State, b: nat) { b < |s.slots| && b !in s.cleared }

  /** Some block up to k is live, so the slot of k has not come round for reuse. */
  ghost predicate Reached(s: State, k: nat) { exists b: nat :: b <= k && Live(s, b) }

  /** Header h finds block k in its slot. */
  predicate Finds(s: State, h: nat, k: nat)
    requires IndexShape(s) && h < |s.headers| && k < |s.slots|
  {
    && s.latest[h] - k < s.headers[h].capacity
    && s.headers[h].index[Position(s.headers[h], k)] == s.slots[k]
  }

  predicate KeyAt(s: State, k: nat)
    requires k < |s.slots|
  {
    s.slots[k] < |s.entries| && s.entries[s.slots[k]].key == Some(k * BLOCK_SIZE)
  }

  ghost predicate HeadersOk(s: State)
    requires IndexShape(s)
  {
    forall h | 0 <= h < |s.headers| ::
      && Distinct(s.headers[h].index) && -1 <= s.latest[h] < |s.slots|
      && s.tails[h] == Position(s.headers[h], s.latest[h])
  }

  ghost predicate RingOk(s: State)
    requires IndexShape(s) && HeadersOk(s)
  {
    forall h, k: nat | 0 <= h < |s.headers| && k <= s.latest[h] && Reached(s, k) :: Finds(s, h, k)
  }

  ghost predicate SlotsOk(s: State) {
    && (forall k: nat | k < |s.slots| && Reached(s, k) :: KeyAt(s, k))
    && (forall k: nat, l: nat | k < l < |s.slots| && Reached(s, k) :: s.slots[k] != s.slots[l])
  }

  ghost predicate ValuesOk(s: State)
    requires SlotsOk(s)
  {
    |s.blocks| <= |s.slots| && forall b: nat | b < |s.blocks| && Live(s, b) :: ValueAt(s, b)
  }

  ghost predicate ValueAt(s: State, b: nat)
    requires b < |s.blocks| && b < |s.slots|
  {
    s.slots[b] < |s.entries| && s.entries[s.slots[b]].value == Some(s.blocks[b])
  }

  ghost predicate IndexInv(s: State) {
    IndexShape(s) && HeadersOk(s) && RingOk(s) && SlotsOk(s) && ValuesOk(s)
  }

  /** Where the producer stands. */
  ghost predicate ProducerOk(s: State)
    requires IndexShape(s) && HeadersOk(s)
  {
    var n, last := |s.slots|, s.latest[Current(s)];
    match s.producer
    case Ready =>
      && n == |s.blocks| == last + 1
      && (if n == 0 then s.tailIndex == 0 else BLOCK_SIZE * (n - 1) < s.tailIndex <= BLOCK_SIZE * n)
    case Full => n == |s.blocks| == last + 1 && s.tailIndex == BLOCK_SIZE * n
    case Checked(e) =>
      && n == |s.blocks| == last + 1 && s.tailIndex == BLOCK_SIZE * n
      && e == NextEntry(s) && Vacant(s.entries[e])
    case KeyStored(e) =>
      && n == |s.blocks| + 1 == last + 2 && s.tailIndex == BLOCK_SIZE * (n - 1)
      && s.slots[n - 1] == e == NextEntry(s)
      && forall k: nat | k < n && Reached(s, k) :: Near(s, k, n - 1)
    case TailStored(e) => n == |s.blocks| + 1 == last + 1 && s.tailIndex == BLOCK_SIZE * (n - 1) && s.slots[n - 1] == e
    case HasBlock(e, id) =>
      && n == |s.blocks| + 1 == last + 1 && s.tailIndex == BLOCK_SIZE * (n - 1) && s.slots[n - 1] == e
      && id < |s.uses| == |s.counters| && s.uses[id].Reserved? && s.counters[id] == 0
    case Publishing => n == |s.blocks| == last + 1 && n > 0 && s.tailIndex == BLOCK_SIZE * (n - 1)
  }

  predicate Near(s: State, k: nat, last: int)
    requires IndexShape(s)
  {
    last - k < s.headers[Current(s)].capacity
  }

  // ---------------------------------------------------------------- arithmetic of positions

  lemma ModShift(x: int, d: int, c: nat)
    requires c > 0
    ensures (x % c + d) % c == (x + d) % c
  {
    var q, r := x / c, x % c;
    var p, t := (r + d) / c, (r + d) % c;
    assert x + d == (p + q) * c + t by { Distribute(p, q, c); }
    RemainderIs(x + d, c, p + q, t);
  }

  lemma Distribute(p: int, q: int, c: nat)
    ensures (p + q) * c == p * c + q * c
  {
  }

  lemma PositionShift(h: Header, b: int, d: int)
    requires h.capacity > 0
    ensures (Position(h, b) + d) % h.capacity == Position(h, b + d)
  {
    ModShift(b + h.shift, d, h.capacity);
  }

  /** Blocks at the same position are a whole capacity apart. */
  lemma SamePosition(h: Header, b: int, b2: int)
    requires h.capacity > 0 && b < b2 <= b + h.capacity && Position(h, b) == Position(h, b2)
    ensures b2 - b == h.capacity
  {
    var c, x, y := h.capacity, b + h.shift, b2 + h.shift;
    var q := x / c;
    assert x == q * c + x % c;
    if y - q * c < c {
      RemainderIs(y, c, q, y - q * c);
    } else if b2 - b < c {
      assert y == (q + 1) * c + (y - q * c - c) by { NextMultiple(q, c); }
      RemainderIs(y, c, q + 1, y - q * c - c);
    }
  }

  // ---------------------------------------------------------------- inserting a block

  lemma ReachedLive(s: State, b: nat)
    requires Live(s, b)
    ensures Reached(s, b)
  {
  }

  /** A vacant next slot belongs to no block that still matters, and the ring has room for one more. */
  lemma VacantIsFree(s: State, k: nat)
    requires IndexInv(s) && Reached(s, k) && k < |s.slots| == |s.blocks| == s.latest[Current(s)] + 1
    requires Vacant(s.entries[NextEntry(s)])
    ensures s.slots[k] != NextEntry(s) && Near(s, k, |s.slots|)
  {
    hide Position, Reached;
    var h, n := s.headers[Current(s)], |s.slots|;
    var b: nat := OldestUpTo(s, k);
    ReachedLive(s, b);
    assert Finds(s, Current(s), k) && Finds(s, Current(s), b) && KeyAt(s, b) && ValueAt(s, b);
    PositionShift(h, n - 1, 1);
    SlotAgain(h, k, n);
    assert s.slots[k] == NextEntry(s) <==> n - k == h.capacity;
    assert n - k == h.capacity ==> b == k;
  }

  /** In a ring, the entry of block k comes up again for block n exactly a capacity later. */
  lemma SlotAgain(h: Header, k: nat, n: nat)
    requires h.capacity > 0 && |h.index| == h.capacity && Distinct(h.index) && k < n <= k + h.capacity
    ensures h.index[Position(h, k)] == h.index[Position(h, n)] <==> n - k == h.capacity
  {
    if n - k == h.capacity {
      PositionWraps(h, k);
    } else if Position(h, k) == Position(h, n) {
      SamePosition(h, k, n);
    }
  }

  lemma PositionWraps(h: Header, b: int)
    requires h.capacity > 0
    ensures Position(h, b + h.capacity) == Position(h, b)
  {
    var c, x := h.capacity, b + h.shift;
    NextMultiple(x / c, c);
    RemainderIs(x + c, c, x / c + 1, x % c);
  }

  lemma OldestUpTo(s: State, k: nat) returns (b: nat)
    requires Reached(s, k)
    ensures b <= k && Live(s, b)
  {
    b :| b <= k && Live(s, b);
  }

  /** What is reached of the old blocks stays reached when one is added, and no more. */
  lemma ReachedGrows(s: State, s': State, k: nat)
    requires |s.slots| < |s'.slots| && s'.cleared == s.cleared && k < |s.slots|
    ensures Reached(s', k) <==> Reached(s, k)
  {
    assert forall b: nat | b <= k :: Live(s', b) <==> Live(s, b);
  }

  lemma ReachedShrinks(s: State, s': State, k: nat)
    requires s'.slots == s.slots && s.cleared <= s'.cleared && Reached(s', k)
    ensures Reached(s, k)
  {
    var b := OldestUpTo(s', k);
    assert Live(s, b);
  }

  /** Storing the key of a new block: the blocks that matter are the same, and none uses the slot. */
  lemma KeyReached(s: State)
    requires IndexInv(s) && ProducerOk(s) && s.producer.Checked? && ProducerCan(s, 0)
    ensures var s' := Produce(s, 0);
      forall k: nat | k < |s.slots| ::
        && (Reached(s', k) <==> Reached(s, k))
        && (Reached(s, k) ==> s.slots[k] != s.producer.e && Near(s, k, |s.slots|))
  {
    var s' := Produce(s, 0);
    forall k: nat | k < |s.slots|
      ensures Reached(s', k) <==> Reached(s, k)
      ensures Reached(s, k) ==> s.slots[k] != s.producer.e && Near(s, k, |s.slots|)
    {
      ReachedGrows(s, s', k);
      if Reached(s, k) { VacantIsFree(s, k); }
    }
  }

  lemma KeySlots(s: State, s': State, e: nat)
    requires SlotsOk(s) && ValuesOk(s) && e < |s.entries| && |s.blocks| <= |s.slots|
    requires s'.slots == s.slots + [e] && s'.blocks == s.blocks && s'.cleared == s.cleared
    requires s'.entries == s.entries[e := s.entries[e].(key := Some(|s.slots| * BLOCK_SIZE))]
    requires forall k: nat | k < |s.slots| && Reached(s', k) :: Reached(s, k) && s.slots[k] != e
    ensures SlotsOk(s') && ValuesOk(s')
  {
    hide Reached;
    forall k: nat | k < |s'.slots| && Reached(s', k)
      ensures KeyAt(s', k)
    {
      if k < |s.slots| { assert KeyAt(s, k); }
    }
    forall b: nat | b < |s'.blocks| && Live(s', b)
      ensures ValueAt(s', b)
    {
      assert Live(s, b) && ValueAt(s, b);
    }
  }

  lemma KeyStep(s: State)
    requires IndexInv(s) && ProducerOk(s) && s.producer.Checked? && ProducerCan(s, 0)
    requires |s.slots| !in s.cleared
    ensures IndexInv(Produce(s, 0)) && ProducerOk(Produce(s, 0))
  {
    hide RingOk, SlotsOk, ValuesOk, Reached, Position, Distinct;
    var s', n := Produce(s, 0), |s.slots|;
    KeyReached(s);
    assert IndexShape(s') && HeadersOk(s');
    KeyRing(s, s');
    KeySlots(s, s', s.producer.e);
  }

  lemma KeyRing(s: State, s': State)
    requires IndexShape(s) && HeadersOk(s) && RingOk(s) && IndexShape(s') && HeadersOk(s')
    requires s'.headers == s.headers && s'.latest == s.latest && |s.slots| < |s'.slots|
    requires forall k: nat | k < |s.slots| :: s'.slots[k] == s.slots[k] && (Reached(s', k) ==> Reached(s, k))
    ensures RingOk(s')
  {
    hide Reached, Position;
    forall h, k: nat | 0 <= h < |s'.headers| && k <= s'.latest[h] && Reached(s', k)
      ensures Finds(s', h, k)
    {
      assert Finds(s, h, k);
    }
  }

  /** Advancing the tail. */
  lemma TailStep(s: State)
    requires IndexInv(s) && ProducerOk(s) && s.producer.KeyStored? && ProducerCan(s, 0)
    ensures IndexInv(Produce(s, 0)) && ProducerOk(Produce(s, 0))
  {
    var s', c, n := Produce(s, 0), Current(s), |s.slots|;
    PositionShift(s.headers[c], n - 2, 1);
    hide Position;
    assert forall k: nat :: Reached(s', k) <==> Reached(s, k) by {
      assert forall b: nat :: Live(s', b) <==> Live(s, b);
    }
    hide Reached;
    assert IndexShape(s') && HeadersOk(s');
    assert RingOk(s') by {
      forall h, k: nat | 0 <= h < |s'.headers| && k <= s'.latest[h] && Reached(s', k)
        ensures Finds(s', h, k)
      {
        if k <= s.latest[h] { assert Finds(s, h, k); }
        if h == c { assert Near(s, k, n - 1); }
      }
    }
    assert SlotsOk(s') by { SlotsFrame(s, s'); }
    assert ValuesOk(s') by { ValuesFrame(s, s'); }
  }

  lemma SlotsFrame(s: State, s': State)
    requires SlotsOk(s) && s'.slots == s.slots
    requires forall k: nat | Reached(s', k) :: Reached(s, k)
    requires |s.entries| <= |s'.entries| && forall e | 0 <= e < |s.entries| :: s'.entries[e].key == s.entries[e].key
    ensures SlotsOk(s')
  {
    hide Reached;
    forall k: nat | k < |s'.slots| && Reached(s', k)
      ensures KeyAt(s', k)
    {
      assert KeyAt(s, k);
    }
  }

  lemma ValuesFrame(s: State, s': State)
    requires SlotsOk(s) && ValuesOk(s) && SlotsOk(s')
    requires s'.slots == s.slots && s'.blocks == s.blocks && s.cleared <= s'.cleared
    requires |s.entries| <= |s'.entries|
    requires forall b: nat | b < |s.blocks| && Live(s', b) && s.slots[b] < |s.entries| ::
      s'.entries[s.slots[b]].value == s.entries[s.slots[b]].value
    ensures ValuesOk(s')
  {
    hide SlotsOk;
    forall b: nat | b < |s'.blocks| && Live(s', b)
      ensures ValueAt(s', b)
    {
      assert Live(s, b) && ValueAt(s, b);
    }
  }

  lemma RingFrame(s: State, s': State)
    requires IndexShape(s) && HeadersOk(s) && RingOk(s) && IndexShape(s') && HeadersOk(s')
    requires s'.headers == s.headers && s'.latest == s.latest && s'.slots == s.slots
    requires forall k: nat | Reached(s', k) :: Reached(s, k)
    ensures RingOk(s')
  {
    hide Reached, Position;
    forall h, k: nat | 0 <= h < |s'.headers| && k <= s'.latest[h] && Reached(s', k)
      ensures Finds(s', h, k)
    {
      assert Finds(s, h, k);
    }
  }

  lemma HeadersFrame(s: State, s': State)
    requires IndexShape(s) && HeadersOk(s) && |s.entries| == |s'.entries|
    requires s'.headers == s.headers && s'.tails == s.tails && s'.latest == s.latest && s'.slots == s.slots
    ensures IndexShape(s') && HeadersOk(s')
  {
    hide Distinct, Position;
  }

  lemma LiveReached(s: State)
    ensures forall b: nat | Live(s, b) :: Reached(s, b)
  {
  }

  lemma SameReached(s: State, s': State)
    requires s'.slots == s.slots && s.cleared <= s'.cleared
    ensures forall k: nat | Reached(s', k) :: Reached(s, k)
  {
    forall k: nat | Reached(s', k)
      ensures Reached(s, k)
    {
      ReachedShrinks(s, s', k);
    }
  }

  /** Storing the value of the new block. */
  lemma ValueValues(s: State, s': State, e: nat, id: nat)
    requires SlotsOk(s) && ValuesOk(s) && SlotsOk(s')
    requires |s.slots| == |s.blocks| + 1 && s.slots[|s.blocks|] == e < |s.entries|
    requires s'.slots == s.slots && s'.cleared == s.cleared && s'.blocks == s.blocks + [id]
    requires s'.entries == s.entries[e := s.entries[e].(value := Some(id))]
    ensures ValuesOk(s')
  {
    LiveReached(s);
    hide Reached;
    forall b: nat | b < |s'.blocks| && Live(s', b)
      ensures ValueAt(s', b)
    {
      assert Live(s, b) && KeyAt(s, b);
      if b < |s.blocks| { assert ValueAt(s, b) && s.slots[b] != s.slots[|s.blocks|]; }
    }
  }

  lemma ValueStep(s: State)
    requires IndexInv(s) && ProducerOk(s) && s.producer.HasBlock? && ProducerCan(s, 0)
    ensures IndexInv(Produce(s, 0)) && ProducerOk(Produce(s, 0))
  {
    hide RingOk, SlotsOk, ValuesOk, HeadersOk, Reached, Position;
    var s' := Produce(s, 0);
    HeadersFrame(s, s');
    SameReached(s, s');
    RingFrame(s, s');
    SlotsFrame(s, s');
    ValueValues(s, s', s.producer.e, s.producer.id);
  }

  /** Clearing the entry of an emptied block. */
  lemma ClearValues(s: State, s': State, b: nat, e: nat)
    requires SlotsOk(s) && ValuesOk(s) && SlotsOk(s') && Live(s, b) && s.slots[b] == e < |s.entries|
    requires s'.slots == s.slots && s'.blocks == s.blocks && s'.cleared == s.cleared + {b}
    requires s'.entries == s.entries[e := s.entries[e].(value := None)]
    ensures ValuesOk(s')
  {
    LiveReached(s);
    hide Reached;
    forall k: nat | k < |s'.blocks| && Live(s', k)
      ensures ValueAt(s', k)
    {
      assert Live(s, k) && ValueAt(s, k) && Reached(s, k) && Reached(s, b);
      assert s.slots[k] != e;
    }
  }

  lemma ClearIndex(s: State, t: nat)
    requires IndexInv(s) && ConsumerCan(s, t) && s.consumers[t].Clearing?
    requires var c := s.consumers[t]; Live(s, c.b) && s.slots[c.b] == c.e
    ensures IndexInv(Consume(s, t))
  {
    hide RingOk, SlotsOk, ValuesOk, HeadersOk, Reached, Position;
    var s', c := Consume(s, t), s.consumers[t];
    HeadersFrame(s, s');
    SameReached(s, s');
    RingFrame(s, s');
    SlotsFrame(s, s');
    ClearValues(s, s', c.b, c.e);
  }

  lemma ClearProducer(s: State, t: nat)
    requires IndexInv(s) && ProducerOk(s) && ConsumerCan(s, t) && s.consumers[t].Clearing? && IndexInv(Consume(s, t))
    requires s.producer.HasBlock? ==> s.producer.id != s.consumers[t].id
    ensures ProducerOk(Consume(s, t))
  {
    var s' := Consume(s, t);
    SameReached(s, s');
    hide RingOk, SlotsOk, ValuesOk, Reached, Position;
    if s.producer.KeyStored? {
      forall k: nat | k < |s.slots| && Reached(s', k)
        ensures Near(s', k, |s.slots| - 1)
      {
        assert Near(s, k, |s.slots| - 1);
      }
    }
  }

  // ---------------------------------------------------------------- growing the index

  lemma GrownDistinct(s: State)
    requires IndexShape(s) && Distinct(s.headers[Current(s)].index)
    ensures Distinct(GrownHeader(s).index)
  {
    var was, g := s.headers[Current(s)], GrownHeader(s);
    var c, t := was.capacity, s.tails[Current(s)];
    forall i, j | 0 <= i < j < 2 * c
      ensures g.index[i] != g.index[j]
    {
      if j < c { TurnInjective(t, i, j, c); }
    }
  }

  lemma TurnInjective(t: nat, i: nat, j: nat, c: nat)
    requires i < j < c
    ensures (t + 1 + i) % c != (t + 1 + j) % c
  {
    var x, y := t + 1 + i, t + 1 + j;
    if x % c == y % c {
      assert x == x / c * c + x % c && y == y / c * c + y % c;
      Distribute(x / c, y / c - x / c, c);
      ProductMono(1, y / c - x / c, c);
      ProductMono(y / c - x / c, 0, c);
    }
  }

  /** The grown header finds every reached block in its slot. */
  lemma GrownFinds(s: State, k: nat)
    requires IndexShape(s) && HeadersOk(s) && k < |s.slots| && k <= s.latest[Current(s)] && Finds(s, Current(s), k)
    ensures Position(GrownHeader(s), k) == s.headers[Current(s)].capacity - 1 - (s.latest[Current(s)] - k)
    ensures GrownHeader(s).index[Position(GrownHeader(s), k)] == s.slots[k]
  {
    var was, g, last := s.headers[Current(s)], GrownHeader(s), s.latest[Current(s)];
    var c := was.capacity;
    var i := c - 1 - (last - k);
    RemainderIs(i, 2 * c, 0, i);
    assert g.index[i] == was.index[(s.tails[Current(s)] + 1 + i) % c];
    PositionShift(was, last, 1 + i);
    assert last + 1 + i == k + c;
    PositionWraps(was, k);
  }

  lemma GrownTail(s: State)
    requires IndexShape(s)
    ensures var g, c := GrownHeader(s), s.headers[Current(s)].capacity;
      Position(g, s.latest[Current(s)]) == c - 1 && g.index[(c - 1 + 1) % (2 * c)] == |s.entries|
  {
    var c := s.headers[Current(s)].capacity;
    RemainderIs(c - 1, 2 * c, 0, c - 1);
    RemainderIs(c, 2 * c, 0, c);
  }

  lemma GrowStep(s: State)
    requires IndexInv(s) && ProducerOk(s) && s.producer.Full?
    ensures ProducerCan(s, 0) && IndexInv(Produce(s, 0)) && ProducerOk(Produce(s, 0))
  {
    var s', c := Produce(s, 0), Current(s);
    GrownDistinct(s);
    GrownTail(s);
    assert forall k: nat :: Reached(s', k) <==> Reached(s, k) by {
      assert forall b: nat :: Live(s', b) <==> Live(s, b);
    }
    hide Reached, Position, Distinct;
    assert IndexShape(s') && HeadersOk(s');
    forall h, k: nat | 0 <= h < |s'.headers| && k <= s'.latest[h] && Reached(s', k)
      ensures Finds(s', h, k)
    {
      if h < |s.headers| {
        assert Finds(s, h, k);
      } else {
        assert Finds(s, c, k);
        GrownFinds(s, k);
      }
    }
    SlotsFrame(s, s');
    ValuesFrame(s, s');
  }

  // ---------------------------------------------------------------- claims and counts

  /** The index a consumer has claimed and not yet marked. */
  function Holding(c: Consumer): Option<nat> {
    match c
    case Claimed(i) => Some(i)
    case WithHeader(i, _) => Some(i)
    case WithTail(i, _, _, _) => Some(i)
    case WithKey(i, _, _, _, _) => Some(i)
    case WithEntry(i, _) => Some(i)
    case WithBlock(i, _, _) => Some(i)
    case _ => None
  }

  ghost predicate Unmarked(s: State, i: nat) { i < s.head && i !in s.done }

  ghost predicate ClaimsOk(s: State) {
    && s.head <= s.tailIndex <= BLOCK_SIZE * |s.blocks|
    && (forall i | i in s.done :: i < s.head)
    && (forall t | 0 <= t < |s.consumers| && Holding(s.consumers[t]).Some? ::
      Unmarked(s, Holding(s.consumers[t]).value))
    && (forall t, u | 0 <= t < u < |s.consumers| && Holding(s.consumers[t]).Some? ::
      Holding(s.consumers[t]) != Holding(s.consumers[u]))
    && (forall t, u | 0 <= t < u < |s.consumers| && s.consumers[t].Clearing? && s.consumers[u].Clearing? ::
      s.consumers[t].b != s.consumers[u].b)
  }

  /** Every element of block b has been taken. */
  ghost predicate Emptied(s: State, b: nat) { Interval(BLOCK_SIZE * b, BLOCK_SIZE * b + BLOCK_SIZE) <= s.done }

  /** The taken elements of block b. */
  ghost function Part(done: set<nat>, b: nat): set<nat> {
    set i | i in done && InRange(i, BLOCK_SIZE * b, BLOCK_SIZE * b + BLOCK_SIZE)
  }

  ghost predicate BlockOk(s: State, b: nat)
    requires b < |s.blocks|
  {
    && s.blocks[b] < |s.uses| == |s.counters| && s.uses[s.blocks[b]] == InQueue(b)
    && s.counters[s.blocks[b]] == |Part(s.done, b)|
  }

  ghost predicate CountOk(s: State) {
    && |s.uses| == |s.counters|
    && (forall b | b in s.cleared :: b < |s.blocks| && Emptied(s, b))
    && (forall b: nat | b < |s.blocks| && b !in s.cleared :: BlockOk(s, b))
  }

  /** What a consumer has found so far. */
  ghost predicate FoundOk(s: State, t: nat, c: Consumer) {
    match c
    case WithHeader(i, h) => h < |s.headers| == |s.latest| && i / BLOCK_SIZE <= s.latest[h]
    case WithTail(i, h, tail, last) =>
      && h < |s.headers| == |s.latest| && i / BLOCK_SIZE <= last <= s.latest[h]
      && s.headers[h].capacity > 0 && tail == Position(s.headers[h], last)
    case WithKey(i, h, tail, base, last) =>
      && h < |s.headers| == |s.latest| && i / BLOCK_SIZE <= last <= s.latest[h]
      && s.headers[h].capacity > 0 && tail == Position(s.headers[h], last) && base == Some(last * BLOCK_SIZE)
    case WithEntry(i, e) => i / BLOCK_SIZE < |s.slots| && e == s.slots[i / BLOCK_SIZE]
    case WithBlock(i, e, found) =>
      && i / BLOCK_SIZE < |s.blocks| && i / BLOCK_SIZE < |s.slots|
      && e == s.slots[i / BLOCK_SIZE] && found == Some(s.blocks[i / BLOCK_SIZE])
    case Clearing(b, e, id) =>
      && b < |s.blocks| && Live(s, b) && e == s.slots[b] && id == s.blocks[b] && Emptied(s, b)
    case Freeing(id) => id < |s.uses| && s.uses[id] == Freed(t)
    case _ => true
  }

  ghost predicate FoundAll(s: State) {
    forall t: nat | t < |s.consumers| :: FoundOk(s, t, s.consumers[t])
  }

  ghost predicate Inv(s: State) {
    IndexInv(s) && ProducerOk(s) && ClaimsOk(s) && CountOk(s) && FoundAll(s)
  }

  // ---------------------------------------------------------------- what claims imply

  /** The block of a claimed index is published, live and covered by the current header. */
  lemma HeldBlock(s: State, i: nat)
    requires IndexInv(s) && ProducerOk(s) && CountOk(s)
    requires Unmarked(s, i) && s.head <= s.tailIndex <= BLOCK_SIZE * |s.blocks|
    ensures i / BLOCK_SIZE < |s.blocks| <= |s.slots| && Live(s, i / BLOCK_SIZE) && Reached(s, i / BLOCK_SIZE)
    ensures i / BLOCK_SIZE <= s.latest[Current(s)]
  {
    hide RingOk, SlotsOk, HeadersOk, Position;
    var b := i / BLOCK_SIZE;
    assert i in Interval(BLOCK_SIZE * b, BLOCK_SIZE * b + BLOCK_SIZE);
  }

  /** The tail's entry still has the key of the block the tail stood for. */
  lemma TailKey(s: State, i: nat, h: nat, last: nat)
    requires IndexInv(s) && Reached(s, i / BLOCK_SIZE) && h < |s.headers| && i / BLOCK_SIZE <= last <= s.latest[h]
    ensures var tail := Position(s.headers[h], last);
      tail < s.headers[h].capacity && s.entries[s.headers[h].index[tail]].key == Some(last * BLOCK_SIZE)
  {
    hide Position, Distinct;
    ReachedLater(s, i / BLOCK_SIZE, last);
    hide Reached;
    assert Finds(s, h, last) && KeyAt(s, last);
  }

  lemma ReachedLater(s: State, k: nat, l: nat)
    requires Reached(s, k) && k <= l
    ensures Reached(s, l)
  {
    var b := OldestUpTo(s, k);
    assert b <= l && Live(s, b);
  }

  /** The computed position is that of the block of the index. */
  lemma LookupFinds(s: State, i: nat, h: nat, last: nat)
    requires IndexInv(s) && Reached(s, i / BLOCK_SIZE) && h < |s.headers| && i / BLOCK_SIZE <= last <= s.latest[h]
    ensures var p := Lookup(s.headers[h], Position(s.headers[h], last), last * BLOCK_SIZE, i);
      p < s.headers[h].capacity && i / BLOCK_SIZE < |s.slots| && s.headers[h].index[p] == s.slots[i / BLOCK_SIZE]
  {
    var b := i / BLOCK_SIZE;
    assert (b * BLOCK_SIZE - last * BLOCK_SIZE) / BLOCK_SIZE == b - last;
    PositionShift(s.headers[h], last, b - last);
    hide Position, Distinct, Reached;
    assert Finds(s, h, b);
  }

  // ---------------------------------------------------------------- frames

  /** The index only grows. */
  ghost predicate Extends(s: State, s': State) {
    && |s.headers| == |s.latest| && |s'.headers| == |s'.latest| && s.headers <= s'.headers
    && (forall h | 0 <= h < |s.latest| :: s.latest[h] <= s'.latest[h])
    && s.slots <= s'.slots && s.blocks <= s'.blocks
  }

  lemma FoundFrame(s: State, s': State, t: nat, c: Consumer)
    requires FoundOk(s, t, c) && Extends(s, s')
    requires c.Clearing? ==> s.done <= s'.done && c.b !in s'.cleared
    requires c.Freeing? ==> c.id < |s'.uses| && s'.uses[c.id] == s.uses[c.id]
    ensures FoundOk(s', t, c)
  {
    hide Position;
  }

  /** IndexInv speaks of the index and of nothing else. */
  lemma IndexFrame(s: State, s': State)
    requires IndexInv(s)
    requires s'.entries == s.entries && s'.headers == s.headers && s'.tails == s.tails && s'.latest == s.latest
    requires s'.slots == s.slots && s'.blocks == s.blocks && s'.cleared == s.cleared
    ensures IndexInv(s')
  {
    hide RingOk, SlotsOk, ValuesOk, HeadersOk, Reached, Position;
    HeadersFrame(s, s');
    SameReached(s, s');
    RingFrame(s, s');
    SlotsFrame(s, s');
    ValuesFrame(s, s');
  }

  lemma ProducerFrame(s: State, s': State)
    requires IndexInv(s) && ProducerOk(s) && IndexInv(s')
    requires s'.entries == s.entries && s'.headers == s.headers && s'.tails == s.tails && s'.latest == s.latest
    requires s'.slots == s.slots && s'.blocks == s.blocks && s'.cleared == s.cleared
    requires s'.producer == s.producer && s'.tailIndex == s.tailIndex
    requires s.producer.HasBlock? ==>
      var id := s.producer.id; id < |s'.uses| == |s'.counters| && s'.uses[id].Reserved? && s'.counters[id] == 0
    ensures ProducerOk(s')
  {
    hide RingOk, SlotsOk, ValuesOk, HeadersOk, Position;
    assert HeadersOk(s');
    SameReached(s, s');
    hide Reached;
    if s.producer.KeyStored? {
      forall k: nat | k < |s.slots| && Reached(s', k)
        ensures Near(s', k, |s.slots| - 1)
      {
        assert Near(s, k, |s.slots| - 1);
      }
    }
  }

  // ---------------------------------------------------------------- the consumers' steps keep the invariant

  /** A step of the lookup: the consumer keeps its index and learns something true. */
  lemma LookStep(s: State, t: nat, c: Consumer)
    requires Inv(s) && t < |s.consumers| && Holding(s.consumers[t]).Some? && Holding(c) == Holding(s.consumers[t])
    requires FoundOk(s, t, c)
    ensures Inv(Moved(s, t, c))
  {
    hide RingOk, SlotsOk, ValuesOk, HeadersOk, Reached, Position, ProducerOk;
    var s' := Moved(s, t, c);
    assert IndexInv(s') by { IndexFrame(s, s'); }
    assert ProducerOk(s') by { MovedProducer(s, t, c); }
    assert ClaimsOk(s') by { MovedClaims(s, t, c); }
    assert CountOk(s') by { MovedCount(s, s'); }
    hide ClaimsOk, CountOk;
    assert Extends(s, s');
    forall u: nat | u < |s'.consumers|
      ensures FoundOk(s', u, s'.consumers[u])
    {
      if u == t {
        FoundFrame(s, s', t, c);
      } else {
        assert FoundOk(s, u, s.consumers[u]);
        CleanFrame(s, u);
        FoundFrame(s, s', u, s.consumers[u]);
      }
    }
  }

  lemma CleanFrame(s: State, u: nat)
    requires u < |s.consumers| && FoundOk(s, u, s.consumers[u])
    ensures s.consumers[u].Clearing? ==> s.consumers[u].b !in s.cleared
    ensures s.consumers[u].Freeing? ==> s.consumers[u].id < |s.uses| && s.uses[s.consumers[u].id] == Freed(u)
  {
  }

  lemma MovedProducer(s: State, t: nat, c: Consumer)
    requires IndexInv(s) && ProducerOk(s) && t < |s.consumers| && IndexInv(Moved(s, t, c))
    ensures ProducerOk(Moved(s, t, c))
  {
    ProducerFrame(s, Moved(s, t, c));
  }

  lemma MovedClaims(s: State, t: nat, c: Consumer)
    requires ClaimsOk(s) && t < |s.consumers| && !c.Clearing?
    requires Holding(c).Some? ==> Holding(c) == Holding(s.consumers[t])
    ensures ClaimsOk(Moved(s, t, c))
  {
  }

  lemma MovedCount(s: State, s': State)
    requires CountOk(s) && s'.uses == s.uses && s'.counters == s.counters && s'.blocks == s.blocks
    requires s'.cleared == s.cleared && s'.done == s.done
    ensures CountOk(s')
  {
    forall b | b in s'.cleared
      ensures b < |s'.blocks| && Emptied(s', b)
    {
      assert Emptied(s, b);
    }
    forall b: nat | b < |s'.blocks| && b !in s'.cleared
      ensures BlockOk(s', b)
    {
      assert BlockOk(s, b);
    }
  }

  /** Every step of the lookup can be taken and learns something true. */
  lemma LookupLearns(s: State, t: nat)
    requires Inv(s) && t < |s.consumers| && Holding(s.consumers[t]).Some? && !s.consumers[t].WithBlock?
    ensures ConsumerCan(s, t) && Consume(s, t) == Moved(s, t, Consume(s, t).consumers[t])
    ensures Holding(Consume(s, t).consumers[t]) == Holding(s.consumers[t])
    ensures FoundOk(s, t, Consume(s, t).consumers[t])
  {
    var c := s.consumers[t];
    var i := Holding(c).value;
    assert Unmarked(s, i) && FoundOk(s, t, c);
    hide Reached, Position, RingOk, SlotsOk, Distinct, KeyAt;
    HeldBlock(s, i);
    match c
    case Claimed(_) =>
    case WithHeader(_, h) =>
    case WithTail(_, h, _, last) => TailKey(s, i, h, last);
    case WithKey(_, h, _, _, last) =>
      hide Lookup;
      LookupFinds(s, i, h, last);
    case WithEntry(_, e) => assert ValueAt(s, i / BLOCK_SIZE);
  }

  lemma LookupStep(s: State, t: nat)
    requires Inv(s) && t < |s.consumers| && Holding(s.consumers[t]).Some? && !s.consumers[t].WithBlock?
    ensures ConsumerCan(s, t) && Inv(Consume(s, t))
  {
    hide Inv, FoundOk;
    LookupLearns(s, t);
    LookStep(s, t, Consume(s, t).consumers[t]);
  }

  // ---------------------------------------------------------------- claiming, marking, clearing, freeing

  lemma ClaimStep(s: State, t: nat)
    requires Inv(s) && ConsumerCan(s, t) && s.consumers[t].Away?
    ensures Inv(Consume(s, t))
  {
    hide RingOk, SlotsOk, ValuesOk, HeadersOk, Reached, Position, ProducerOk;
    var s' := Consume(s, t);
    assert IndexInv(s') by { IndexFrame(s, s'); }
    assert ProducerOk(s') by { ClaimProducer(s, t); }
    assert CountOk(s') by { MovedCount(s, s'); }
    hide CountOk;
    assert Extends(s, s');
    forall u: nat | u < |s'.consumers|
      ensures FoundOk(s', u, s'.consumers[u])
    {
      if u != t {
        assert FoundOk(s, u, s.consumers[u]);
        CleanFrame(s, u);
        FoundFrame(s, s', u, s.consumers[u]);
      }
    }
  }

  lemma ClaimProducer(s: State, t: nat)
    requires IndexInv(s) && ProducerOk(s) && ConsumerCan(s, t) && s.consumers[t].Away? && IndexInv(Consume(s, t))
    ensures ProducerOk(Consume(s, t))
  {
    ProducerFrame(s, Consume(s, t));
  }

  lemma PartGrows(done: set<nat>, i: nat, b: nat)
    requires i !in done
    ensures Part(done + {i}, b) == if i / BLOCK_SIZE == b then Part(done, b) + {i} else Part(done, b)
    ensures |Part(done + {i}, b)| == |Part(done, b)| + if i / BLOCK_SIZE == b then 1 else 0
  {
    assert InRange(i, BLOCK_SIZE * b, BLOCK_SIZE * b + BLOCK_SIZE) <==> i / BLOCK_SIZE == b;
    if i / BLOCK_SIZE == b {
      assert Part(done + {i}, b) == Part(done, b) + {i};
    } else {
      assert Part(done + {i}, b) == Part(done, b);
    }
  }

  /** A block with as many taken elements as it has room for is emptied. */
  lemma PartFull(s: State, b: nat)
    requires |Part(s.done, b)| == BLOCK_SIZE
    ensures Emptied(s, b)
  {
    var all := Interval(BLOCK_SIZE * b, BLOCK_SIZE * b + BLOCK_SIZE);
    IntervalSize(BLOCK_SIZE * b, BLOCK_SIZE * b + BLOCK_SIZE);
    assert Part(s.done, b) <= all;
    SameSizeSubset(Part(s.done, b), all);
  }

  lemma SameSizeSubset<T>(a: set<T>, b: set<T>)
    requires a <= b && |a| == |b|
    ensures a == b
  {
    if x :| x in b && x !in a {
      SubsetSize(a + {x}, b);
    }
  }

  lemma MarkCount(s: State, t: nat)
    requires CountOk(s) && ConsumerCan(s, t) && s.consumers[t].WithBlock?
    requires var c := s.consumers[t]; var b := c.i / BLOCK_SIZE;
      c.i !in s.done && b < |s.blocks| && b !in s.cleared && c.found == Some(s.blocks[b])
    ensures CountOk(Consume(s, t))
    ensures var b := s.consumers[t].i / BLOCK_SIZE;
      Consume(s, t).consumers[t].Clearing? ==> Emptied(Consume(s, t), b)
  {
    var s', c := Consume(s, t), s.consumers[t];
    var bi := c.i / BLOCK_SIZE;
    assert BlockOk(s, bi);
    forall b | b in s'.cleared
      ensures b < |s'.blocks| && Emptied(s', b)
    {
      assert Emptied(s, b);
    }
    forall b: nat | b < |s'.blocks| && b !in s'.cleared
      ensures BlockOk(s', b)
    {
      assert BlockOk(s, b);
      PartGrows(s.done, c.i, b);
    }
    assert BlockOk(s', bi);
    if s'.consumers[t].Clearing? { PartFull(s', bi); }
  }

  lemma MarkClaims(s: State, t: nat)
    requires ClaimsOk(s) && FoundAll(s) && ConsumerCan(s, t) && s.consumers[t].WithBlock?
    ensures ClaimsOk(Consume(s, t))
  {
    var s', c := Consume(s, t), s.consumers[t];
    assert Unmarked(s, c.i);
    forall u | 0 <= u < |s'.consumers| && Holding(s'.consumers[u]).Some?
      ensures Unmarked(s', Holding(s'.consumers[u]).value)
    {
      assert u != t && Unmarked(s, Holding(s.consumers[u]).value);
    }
    forall u: nat | u < |s.consumers| && u != t && s.consumers[u].Clearing?
      ensures s.consumers[u].b != c.i / BLOCK_SIZE
    {
      assert FoundOk(s, u, s.consumers[u]) && Emptied(s, s.consumers[u].b);
      var b := c.i / BLOCK_SIZE;
      assert c.i in Interval(BLOCK_SIZE * b, BLOCK_SIZE * b + BLOCK_SIZE);
    }
  }

  /** The element is marked as taken. */
  lemma MarkStep(s: State, t: nat)
    requires Inv(s) && t < |s.consumers| && s.consumers[t].WithBlock?
    ensures ConsumerCan(s, t) && Inv(Consume(s, t))
  {
    hide RingOk, SlotsOk, ValuesOk, HeadersOk, Reached, Position;
    var c := s.consumers[t];
    assert Unmarked(s, c.i) && FoundOk(s, t, c);
    HeldBlock(s, c.i);
    var b := c.i / BLOCK_SIZE;
    assert BlockOk(s, b);
    var s' := Consume(s, t);
    assert IndexInv(s') by { IndexFrame(s, s'); }
    assert ProducerOk(s') by { ProducerFrame(s, s'); }
    MarkCount(s, t);
    MarkClaims(s, t);
    hide ClaimsOk, CountOk, ProducerOk, BlockOk;
    assert Extends(s, s');
    forall u: nat | u < |s'.consumers|
      ensures FoundOk(s', u, s'.consumers[u])
    {
      if u != t {
        assert FoundOk(s, u, s.consumers[u]);
        CleanFrame(s, u);
        FoundFrame(s, s', u, s.consumers[u]);
      }
    }
  }

  lemma ClearCount(s: State, t: nat)
    requires CountOk(s) && ConsumerCan(s, t) && s.consumers[t].Clearing? && FoundOk(s, t, s.consumers[t])
    ensures CountOk(Consume(s, t))
  {
    var s', c := Consume(s, t), s.consumers[t];
    assert BlockOk(s, c.b);
    forall b | b in s'.cleared
      ensures b < |s'.blocks| && Emptied(s', b)
    {
      assert Emptied(s, b);
    }
    forall b: nat | b < |s'.blocks| && b !in s'.cleared
      ensures BlockOk(s', b)
    {
      assert BlockOk(s, b);
    }
  }

  /** The slot of an emptied block is cleared. */
  lemma ClearStep(s: State, t: nat)
    requires Inv(s) && t < |s.consumers| && s.consumers[t].Clearing?
    ensures ConsumerCan(s, t) && Inv(Consume(s, t))
  {
    hide RingOk, HeadersOk, Reached, Position;
    var c := s.consumers[t];
    assert FoundOk(s, t, c) && BlockOk(s, c.b) && ValueAt(s, c.b);
    hide SlotsOk, ValuesOk;
    var s' := Consume(s, t);
    ClearIndex(s, t);
    ClearProducer(s, t);
    ClearCount(s, t);
    assert ClaimsOk(s') by { MovedClaims(s, t, Freeing(c.id)); }
    assert Extends(s, s');
    forall u: nat | u < |s'.consumers|
      ensures FoundOk(s', u, s'.consumers[u])
    {
      if u != t {
        assert FoundOk(s, u, s.consumers[u]);
        CleanFrame(s, u);
        FoundFrame(s, s', u, s.consumers[u]);
      }
    }
  }

  lemma FreeCount(s: State, t: nat)
    requires CountOk(s) && ConsumerCan(s, t) && s.consumers[t].Freeing? && FoundOk(s, t, s.consumers[t])
    ensures CountOk(Consume(s, t))
  {
    var s' := Consume(s, t);
    forall b | b in s'.cleared
      ensures b < |s'.blocks| && Emptied(s', b)
    {
      assert Emptied(s, b);
    }
    forall b: nat | b < |s'.blocks| && b !in s'.cleared
      ensures BlockOk(s', b)
    {
      assert BlockOk(s, b);
    }
  }

  /** The block goes back to the free list. */
  lemma FreeStep(s: State, t: nat)
    requires Inv(s) && t < |s.consumers| && s.consumers[t].Freeing?
    ensures ConsumerCan(s, t) && Inv(Consume(s, t))
  {
    hide RingOk, SlotsOk, ValuesOk, HeadersOk, Reached, Position;
    var c := s.consumers[t];
    assert FoundOk(s, t, c);
    var s' := Consume(s, t);
    assert IndexInv(s') by { IndexFrame(s, s'); }
    assert ProducerOk(s') by { ProducerFrame(s, s'); }
    FreeCount(s, t);
    assert ClaimsOk(s') by { MovedClaims(s, t, Away); }
    hide ClaimsOk, CountOk, ProducerOk;
    assert Extends(s, s');
    forall u: nat | u < |s'.consumers|
      ensures FoundOk(s', u, s'.consumers[u])
    {
      if u != t {
        assert FoundOk(s, u, s.consumers[u]);
        CleanFrame(s, u);
        FoundFrame(s, s', u, s.consumers[u]);
      }
    }
  }

  // ---------------------------------------------------------------- the producer's steps keep the invariant

  /** What the consumers rely on survives a producer step. */
  lemma ProducerRest(s: State, s': State)
    requires Inv(s) && IndexInv(s') && ProducerOk(s') && CountOk(s') && Extends(s, s')
    requires s'.consumers == s.consumers && s'.done == s.done && s'.head == s.head && s'.cleared == s.cleared
    requires s.tailIndex <= s'.tailIndex <= BLOCK_SIZE * |s'.blocks| && |s.uses| <= |s'.uses|
    requires forall id: nat | id < |s.uses| && s.uses[id].Freed? :: s'.uses[id] == s.uses[id]
    ensures Inv(s')
  {
    hide IndexInv, ProducerOk, CountOk, Position;
    assert ClaimsOk(s') by {
      forall t | 0 <= t < |s'.consumers| && Holding(s'.consumers[t]).Some?
        ensures Unmarked(s', Holding(s'.consumers[t]).value)
      {
        assert Unmarked(s, Holding(s.consumers[t]).value);
      }
    }
    hide ClaimsOk;
    forall u: nat | u < |s'.consumers|
      ensures FoundOk(s', u, s'.consumers[u])
    {
      assert FoundOk(s, u, s.consumers[u]);
      CleanFrame(s, u);
      FoundFrame(s, s', u, s.consumers[u]);
    }
  }

  lemma RequisitionCount(s: State, id: nat)
    requires CountOk(s) && s.producer.TailStored? && ProducerCan(s, id)
    ensures CountOk(Produce(s, id))
  {
    var s' := Produce(s, id);
    forall b | b in s'.cleared
      ensures b < |s'.blocks| && Emptied(s', b)
    {
      assert Emptied(s, b);
    }
    forall b: nat | b < |s'.blocks| && b !in s'.cleared
      ensures BlockOk(s', b)
    {
      assert BlockOk(s, b);
    }
  }

  lemma ValueCount(s: State)
    requires CountOk(s) && s.producer.HasBlock? && ProducerCan(s, 0)
    requires var id := s.producer.id; id < |s.uses| && s.uses[id].Reserved? && s.counters[id] == 0
    requires s.tailIndex == BLOCK_SIZE * |s.blocks| && forall i | i in s.done :: i < s.tailIndex
    ensures CountOk(Produce(s, 0))
  {
    var s', n := Produce(s, 0), |s.blocks|;
    assert Part(s.done, n) == {};
    forall b | b in s'.cleared
      ensures b < |s'.blocks| && Emptied(s', b)
    {
      assert Emptied(s, b);
    }
    forall b: nat | b < |s'.blocks| && b !in s'.cleared
      ensures BlockOk(s', b)
    {
      if b < n { assert BlockOk(s, b); }
    }
  }

  lemma CheckStep(s: State)
    requires IndexInv(s) && ProducerOk(s) && (s.producer.Ready? || s.producer.Publishing?)
    ensures ProducerCan(s, 0) && IndexInv(Produce(s, 0)) && ProducerOk(Produce(s, 0))
  {
    hide RingOk, SlotsOk, ValuesOk, Reached, Position;
    var s' := Produce(s, 0);
    IndexFrame(s, s');
  }

  lemma RequisitionIndex(s: State, id: nat)
    requires IndexInv(s) && ProducerOk(s) && s.producer.TailStored? && ProducerCan(s, id)
    ensures IndexInv(Produce(s, id)) && ProducerOk(Produce(s, id))
  {
    hide RingOk, SlotsOk, ValuesOk, Reached, Position;
    IndexFrame(s, Produce(s, id));
  }

  /** The producer can always go on; the block it is given must be in the pool or new. */
  lemma ProducerGoesOn(s: State, id: nat)
    requires Inv(s)
    requires s.producer.TailStored? ==> id == |s.uses| || (id < |s.uses| && s.uses[id].Pooled?)
    ensures ProducerCan(s, id)
  {
    hide RingOk, Reached, Position, ValuesOk;
    if s.producer.HasBlock? {
      assert KeyAt(s, |s.slots| - 1) by { LastReached(s); }
    }
  }

  lemma LastReached(s: State)
    requires CountOk(s) && |s.slots| == |s.blocks| + 1
    ensures Reached(s, |s.slots| - 1)
  {
    assert Live(s, |s.slots| - 1);
  }

  lemma ProduceIndex(s: State, id: nat)
    requires Inv(s) && ProducerCan(s, id)
    ensures IndexInv(Produce(s, id)) && ProducerOk(Produce(s, id))
  {
    hide IndexInv, ClaimsOk, FoundAll, Produce;
    match s.producer
    case Ready => CheckStep(s); SameProduce(s, id);
    case Publishing => CheckStep(s); SameProduce(s, id);
    case Full => GrowStep(s); SameProduce(s, id);
    case Checked(_) => assert |s.slots| !in s.cleared; SameProduce(s, id); KeyStep(s);
    case KeyStored(_) => SameProduce(s, id); TailStep(s);
    case TailStored(_) => RequisitionIndex(s, id);
    case HasBlock(_, _) => SameProduce(s, id); ValueStep(s);
  }

  lemma SameProduce(s: State, id: nat)
    requires ProducerCan(s, id) && !s.producer.TailStored?
    ensures ProducerCan(s, 0) && Produce(s, id) == Produce(s, 0)
  {
  }

  lemma ProduceCount(s: State, id: nat)
    requires Inv(s) && ProducerCan(s, id)
    ensures CountOk(Produce(s, id))
  {
    hide RingOk, SlotsOk, ValuesOk, Reached, Position, FoundAll, BlockOk;
    match s.producer
    case TailStored(_) => RequisitionCount(s, id);
    case HasBlock(_, _) =>
      SameProduce(s, id);
      ValueCount(s);
    case _ => MovedCount(s, Produce(s, id));
  }

  lemma ProduceExtends(s: State, id: nat)
    requires Inv(s) && ProducerCan(s, id)
    ensures var s' := Produce(s, id);
      && Extends(s, s') && s'.consumers == s.consumers
      && s'.done == s.done && s'.head == s.head && s'.cleared == s.cleared
      && s.tailIndex <= s'.tailIndex <= BLOCK_SIZE * |s'.blocks| && |s.uses| <= |s'.uses|
      && forall k: nat | k < |s.uses| && s.uses[k].Freed? :: s'.uses[k] == s.uses[k]
  {
    hide RingOk, SlotsOk, ValuesOk, Reached, Position, FoundAll, CountOk;
  }

  /** Every step of the producer keeps the invariant. */
  lemma ProduceStep(s: State, id: nat)
    requires Inv(s) && ProducerCan(s, id)
    ensures Inv(Produce(s, id))
  {
    ProduceIndex(s, id);
    ProduceCount(s, id);
    ProduceExtends(s, id);
    hide Inv, Produce, ProducerCan, CountOk, Extends;
    ProducerRest(s, Produce(s, id));
  }

  /** Every consumer that has claimed an index can take its next step: no key it reads is invalid
      and no block it reads is null. Every step of a consumer keeps the invariant. */
  lemma ConsumeStep(s: State, t: nat)
    requires Inv(s) && t < |s.consumers| && (s.consumers[t].Away? ==> s.head < s.tailIndex)
    ensures ConsumerCan(s, t) && Inv(Consume(s, t))
  {
    var c := s.consumers[t];
    if c.Away? {
      ClaimStep(s, t);
    } else if c.WithBlock? {
      MarkStep(s, t);
    } else if c.Clearing? {
      ClearStep(s, t);
    } else if c.Freeing? {
      FreeStep(s, t);
    } else {
      LookupStep(s, t);
    }
  }

  // ---------------------------------------------------------------- every run

  /** A fresh producer with one header of n slots and any number of consumers. */
  ghost predicate Init(s: State, n: nat) {
    && n > 0 && s.entries == seq(n, i => Entry(None, None))
    && s.headers == [Header(n, seq(n, i => i), 0)] && s.tails == [n - 1] && s.latest == [-1]
    && s.slots == s.blocks == s.counters == [] && s.uses == [] && s.cleared == s.done == {}
    && s.tailIndex == s.head == 0 && s.producer.Ready?
    && forall t | 0 <= t < |s.consumers| :: s.consumers[t].Away?
  }

  lemma InitInv(s: State, n: nat)
    requires Init(s, n)
    ensures Inv(s)
  {
    RemainderIs(-1, n, -1, n - 1);
  }

  ghost predicate Next(s: State, s': State) {
    (exists id :: ProducerMoves(s, s', id)) || exists t :: ConsumerMoves(s, s', t)
  }

  ghost predicate ProducerMoves(s: State, s': State, id: nat) { ProducerCan(s, id) && s' == Produce(s, id) }

  ghost predicate ConsumerMoves(s: State, s': State, t: nat) { ConsumerCan(s, t) && s' == Consume(s, t) }

  ghost predicate IsRun(run: seq<State>) {
    run != [] && (exists n :: Init(run[0], n)) && forall i | 0 <= i < |run| - 1 :: Next(run[i], run[i + 1])
  }

  lemma {:induction false} RunInv(run: seq<State>, i: nat)
    requires IsRun(run) && i < |run|
    ensures Inv(run[i])
  {
    hide Inv, Init, ProducerCan, ConsumerCan, Produce, Consume;
    if i == 0 {
      var n :| Init(run[0], n);
      InitInv(run[0], n);
    } else {
      RunInv(run, i - 1);
      assert Next(run[i - 1], run[i - 1 + 1]);
      var s, s' := run[i - 1], run[i];
      if id: nat :| ProducerMoves(s, s', id) {
        ProduceStep(s, id);
      } else {
        var t: nat :| ConsumerMoves(s, s', t);
        AwayClaims(s, t);
        ConsumeStep(s, t);
      }
    }
  }

  lemma AwayClaims(s: State, t: nat)
    requires ConsumerCan(s, t)
    ensures t < |s.consumers| && (s.consumers[t].Away? ==> s.head < s.tailIndex)
  {
  }

  /** In every interleaving a consumer that has claimed an index and not yet marked its element finds
      it: the entry its lookup ends in has the key of its block and a block that is not null and not
      recycled, however often the producer has reused slots or grown the index meanwhile. */
  lemma LookupSucceeds(run: seq<State>, j: nat, t: nat)
    requires IsRun(run) && j < |run| && t < |run[j].consumers| && Holding(run[j].consumers[t]).Some?
    ensures var s := run[j];
      var c := s.consumers[t];
      var i := Holding(c).value;
      var b := i / BLOCK_SIZE;
      && ConsumerCan(s, t)
      && b < |s.blocks| <= |s.slots| && s.slots[b] < |s.entries| && s.blocks[b] < |s.uses|
      && s.entries[s.slots[b]] == Entry(Some(b * BLOCK_SIZE), Some(s.blocks[b])) && s.uses[s.blocks[b]] == InQueue(b)
      && (c.WithEntry? ==> c.e == s.slots[b])
      && (c.WithBlock? ==> c.e == s.slots[b] && c.found == Some(s.blocks[b]))
  {
    RunInv(run, j);
    var s, c := run[j], run[j].consumers[t];
    var i := Holding(c).value;
    ConsumeStep(s, t);
    hide RingOk, HeadersOk, Position, IsRun;
    assert Unmarked(s, i) && FoundOk(s, t, c);
    HeldBlock(s, i);
    assert KeyAt(s, i / BLOCK_SIZE) && ValueAt(s, i / BLOCK_SIZE) && BlockOk(s, i / BLOCK_SIZE);
  }
}
