/** One ImplicitProducer of src/base/concurrentqueue.h, run sequentially: block-structured
    storage, the circular block index that doubles when full, and the recycling of emptied
    blocks. Pointers are positions: an entry pointer is a position in `entries`, a block
    pointer a position in `blocks`. */
module BlockQueue {

  import opened Common
  import opened Bitwise

  /** Storage for one element: raw memory or a constructed object. */
  datatype Cell<+T> = Raw | Live(value: T)

  datatype Block<+T> = Block(cells: seq<Cell<T>>, dequeued: nat)

  /** BlockIndexEntry: the base index of a block, and the block or nullptr. */
  datatype Entry = Entry(key: nat, value: Option<nat>)

  const BLOCK_SIZE: nat := 128            // AdapterQueueTraits::BLOCK_SIZE
  const INITIAL_INDEX_SIZE: nat := 32     // IMPLICIT_INITIAL_INDEX_SIZE
  const INVALID_BLOCK_BASE: nat := 1

  /** What the producer's fields amount to. `live` lists the blocks in use, oldest first;
      `contents` is the queue. */
  datatype View<T> = View(
    tail: nat, head: nat,
    capacity: nat, indexTail: nat, index: seq<nat>,
    entries: seq<Entry>, blocks: seq<Block<T>>, free: seq<nat>,
    live: seq<nat>, contents: seq<T>)

  // ---------------------------------------------------------------- the invariant

  ghost predicate Distinct(a: seq<nat>) { forall i, j | 0 <= i < j < |a| :: a[i] != a[j] }

  /** The circular position of x, which the source takes by masking with the capacity less one. */
  function Masked(x: int, capacity: nat): (r: nat)
    requires PowerOfTwo(capacity) && 0 - capacity <= x < 2 * capacity
    ensures r == if x < 0 then x + capacity else if x < capacity then x else x - capacity
  {
    AndMask(x, capacity);
    RemainderInRange(x, capacity);
    And(x, capacity - 1)
  }

  lemma RemainderInRange(x: int, m: nat)
    requires m > 0 && 0 - m <= x < 2 * m
    ensures x % m == if x < 0 then x + m else if x < m then x else x - m
  {
    var turns := if x < 0 then -1 else if x < m then 0 else 1;
    RemainderIs(x, m, turns, x - turns * m);
  }

  /** The index slot of the k-th last block. */
  function Slot(capacity: nat, indexTail: nat, k: nat): nat
    requires indexTail < capacity && k < capacity
  {
    if k <= indexTail then indexTail - k else indexTail + capacity - k
  }

  predicate Vacant(e: Entry) { e.key == INVALID_BLOCK_BASE || e.value == None }

  ghost predicate Shape<T>(v: View<T>) {
    && v.capacity >= 2 && PowerOfTwo(v.capacity) && |v.index| == v.capacity && v.indexTail < v.capacity
    && Distinct(v.index) && (forall i | 0 <= i < |v.index| :: v.index[i] < |v.entries|)
    && v.head <= v.tail && |v.contents| == v.tail - v.head
    && |v.live| == (v.tail + 127) / 128 - v.head / 128 <= v.capacity
  }

  /** The entry at distance k from the tail of the index. */
  ghost function At<T>(v: View<T>, k: nat): Entry
    requires Shape(v) && k < v.capacity
  {
    v.entries[v.index[Slot(v.capacity, v.indexTail, k)]]
  }

  /** The index finds every live block and shows every other slot as vacant. */
  ghost predicate IndexOk<T>(v: View<T>)
    requires Shape(v)
  {
    && (forall k: nat | k < |v.live| ::
          At(v, k) == Entry(((v.tail + 127) / 128 - 1 - k) * 128, Some(v.live[|v.live| - 1 - k])))
    && (forall k: nat | |v.live| <= k < v.capacity :: Vacant(At(v, k)))
  }

  /** Blocks are never shared or lost: each is in use once or on the free list once. */
  ghost predicate PoolOk<T>(v: View<T>) {
    && Distinct(v.live) && Distinct(v.free) && |v.live| + |v.free| == |v.blocks|
    && (forall i | 0 <= i < |v.live| :: v.live[i] < |v.blocks|)
    && (forall i | 0 <= i < |v.free| :: v.free[i] < |v.blocks|)
    && (forall i, j | 0 <= i < |v.live| && 0 <= j < |v.free| :: v.live[i] != v.free[j])
  }

  /** The number of elements below index `bound` that lie in block number j. */
  function Filled(bound: nat, j: nat): nat {
    if bound <= j * 128 then 0 else if bound >= j * 128 + 128 then 128 else bound - j * 128
  }

  ghost predicate CellsOk<T>(cells: seq<Cell<T>>, j: nat, head: nat, tail: nat, contents: seq<T>)
    requires head <= tail && |contents| == tail - head
  {
    && |cells| == 128
    && forall o | 0 <= o < 128 ::
         cells[o] == if head <= j * 128 + o < tail then Live(contents[j * 128 + o - head]) else Raw
  }

  ghost predicate BlockOk<T>(v: View<T>, m: nat)
    requires Shape(v) && m < |v.live| && v.live[m] < |v.blocks|
  {
    var j := v.head / 128 + m;
    var b := v.blocks[v.live[m]];
    b.dequeued == Filled(v.head, j) && CellsOk(b.cells, j, v.head, v.tail, v.contents)
  }

  ghost predicate AllRaw<T>(cells: seq<Cell<T>>) {
    |cells| == 128 && forall o | 0 <= o < 128 :: cells[o] == Raw
  }

  ghost predicate Ok<T>(v: View<T>) {
    && Shape(v) && IndexOk(v) && PoolOk(v)
    && (forall m: nat | m < |v.live| :: BlockOk(v, m))
    && (forall i | 0 <= i < |v.free| :: AllRaw(v.blocks[v.free[i]].cells))
  }

  // ---------------------------------------------------------------- growing the index

  lemma DoublePower(n: nat)
    requires PowerOfTwo(n)
    ensures PowerOfTwo(2 * n)
  {
    assert (2 * n) / 2 == n;
  }

  /** new_block_index: the old index unrolled from its oldest slot, then as many new entries. */
  ghost predicate Doubled<T>(v: View<T>, v': View<T>)
    requires Shape(v)
  {
    && v'.capacity == 2 * v.capacity && v'.indexTail == v.capacity - 1 && |v'.index| == 2 * v.capacity
    && v' == v.(capacity := v'.capacity, indexTail := v'.indexTail, index := v'.index, entries := v'.entries)
    && |v'.entries| == |v.entries| + v.capacity && v.entries <= v'.entries
    && (forall i | 0 <= i < v.capacity :: v'.index[i] == v.index[Masked(v.indexTail + 1 + i, v.capacity)])
    && (forall i | v.capacity <= i < 2 * v.capacity :: v'.index[i] == |v.entries| + (i - v.capacity))
    && (forall e | |v.entries| <= e < |v'.entries| :: v'.entries[e] == Entry(INVALID_BLOCK_BASE, None))
  }

  lemma DoubledSlot<T>(v: View<T>, v': View<T>, k: nat)
    requires Shape(v) && Doubled(v, v') && k < v.capacity
    ensures v'.index[Slot(v'.capacity, v'.indexTail, k)] == v.index[Slot(v.capacity, v.indexTail, k)]
  {
    var i := v.capacity - 1 - k;
    assert v'.index[i] == v.index[Masked(v.indexTail + 1 + i, v.capacity)];
  }

  lemma DoubledShape<T>(v: View<T>, v': View<T>)
    requires Shape(v) && Doubled(v, v')
    ensures Shape(v')
  {
    DoublePower(v.capacity);
  }

  lemma GrowOk<T>(v: View<T>, v': View<T>)
    requires Ok(v) && Doubled(v, v')
    ensures Ok(v')
  {
    DoubledShape(v, v');
    DoubledIndex(v, v');
    hide IndexOk, Shape, CellsOk, PowerOfTwo, Distinct;
    assert Shape(v);
    forall m: nat | m < |v'.live|
      ensures BlockOk(v', m)
    {
      assert BlockOk(v, m);
    }
  }

  lemma DoubledIndex<T>(v: View<T>, v': View<T>)
    requires Shape(v) && IndexOk(v) && Doubled(v, v') && Shape(v')
    ensures IndexOk(v')
  {
    hide PowerOfTwo, Distinct;
    forall k: nat | k < v'.capacity
      ensures k < v.capacity ==> At(v', k) == At(v, k)
      ensures k >= v.capacity ==> Vacant(At(v', k))
    {
      if k < v.capacity { DoubledSlot(v, v', k); }
    }
  }

  // ---------------------------------------------------------------- enqueue

  /** The slot after the index tail is the oldest one: vacant exactly when the index is not full. */
  lemma NextSlotVacant<T>(v: View<T>)
    requires Ok(v)
    ensures Masked(v.indexTail + 1, v.capacity) == Slot(v.capacity, v.indexTail, v.capacity - 1)
    ensures Vacant(v.entries[v.index[Masked(v.indexTail + 1, v.capacity)]]) <==> |v.live| < v.capacity
  {
    var e := At(v, v.capacity - 1);
    assert |v.live| == v.capacity ==> e.key % 128 == 0;
  }

  /** Storing into the current tail block. */
  ghost function StoreOld<T>(v: View<T>, x: T): View<T>
    requires Ok(v) && v.tail % 128 != 0
  {
    var id := v.live[|v.live| - 1];
    var b := v.blocks[id];
    assert BlockOk(v, |v.live| - 1);
    v.(tail := v.tail + 1, contents := v.contents + [x],
       blocks := v.blocks[id := b.(cells := b.cells[v.tail % 128 := Live(x)])])
  }

  lemma StoreOldBlock<T>(v: View<T>, x: T, m: nat)
    requires Ok(v) && v.tail % 128 != 0 && m < |v.live|
    ensures Shape(StoreOld(v, x)) && BlockOk(StoreOld(v, x), m)
  {
    hide IndexOk;
    assert BlockOk(v, m);
  }

  lemma StoreOldOk<T>(v: View<T>, x: T)
    requires Ok(v) && v.tail % 128 != 0
    ensures Ok(StoreOld(v, x))
  {
    hide CellsOk;
    var v' := StoreOld(v, x);
    forall m: nat | m < |v'.live|
      ensures Shape(v') && BlockOk(v', m)
    {
      StoreOldBlock(v, x, m);
    }
    forall k: nat | k < v'.capacity
      ensures At(v', k) == At(v, k)
    {
    }
  }

  /** Starting a new block: claim the next index slot, take a free block, store. */
  ghost function StoreNew<T>(v: View<T>, x: T): View<T>
    requires Ok(v) && v.tail % 128 == 0 && |v.live| < v.capacity && |v.free| > 0
  {
    var id := v.free[|v.free| - 1];
    var slot := Masked(v.indexTail + 1, v.capacity);
    v.(tail := v.tail + 1, contents := v.contents + [x],
       indexTail := slot, entries := v.entries[v.index[slot] := Entry(v.tail, Some(id))],
       free := v.free[..|v.free| - 1], live := v.live + [id],
       blocks := v.blocks[id := Block(v.blocks[id].cells[0 := Live(x)], 0)])
  }

  lemma StoreNewIndex<T>(v: View<T>, x: T)
    requires Ok(v) && v.tail % 128 == 0 && |v.live| < v.capacity && |v.free| > 0
    ensures Shape(StoreNew(v, x)) && IndexOk(StoreNew(v, x))
  {
    var v' := StoreNew(v, x);
    assert Shape(v');
    forall k: nat | 0 < k < v'.capacity
      ensures At(v', k) == At(v, k - 1)
    {
      assert Slot(v'.capacity, v'.indexTail, k) == Slot(v.capacity, v.indexTail, k - 1);
    }
    assert At(v', 0) == Entry(v.tail, Some(v.free[|v.free| - 1]));
    forall k: nat | k < |v'.live|
      ensures At(v', k) == Entry(((v'.tail + 127) / 128 - 1 - k) * 128, Some(v'.live[|v'.live| - 1 - k]))
    {
      if k > 0 { assert At(v, k - 1) == Entry(((v.tail + 127) / 128 - 1 - (k - 1)) * 128, Some(v.live[|v.live| - k])); }
    }
  }

  lemma StoreNewOk<T>(v: View<T>, x: T)
    requires Ok(v) && v.tail % 128 == 0 && |v.live| < v.capacity && |v.free| > 0
    ensures Ok(StoreNew(v, x))
  {
    hide IndexOk;
    var v' := StoreNew(v, x);
    StoreNewIndex(v, x);
    forall m: nat | m < |v'.live|
      ensures BlockOk(v', m)
    {
      if m < |v.live| { assert BlockOk(v, m); }
    }
  }

  // ---------------------------------------------------------------- dequeue

  /** Taking the element at the head; an emptied block leaves the index for the free list. */
  ghost function Take<T>(v: View<T>): View<T>
    requires Ok(v) && v.head < v.tail
  {
    var id := v.live[0];
    var e := v.index[Slot(v.capacity, v.indexTail, |v.live| - 1)];
    assert BlockOk(v, 0);
    var b := v.blocks[id];
    var w := v.(head := v.head + 1, contents := v.contents[1..],
                blocks := v.blocks[id := Block(b.cells[v.head % 128 := Raw], b.dequeued + 1)]);
    if b.dequeued + 1 == 128 then
      w.(entries := v.entries[e := v.entries[e].(value := None)], live := v.live[1..], free := v.free + [id])
    else w
  }

  /** The lookup of the source lands on the head's block. */
  lemma HeadLookup<T>(v: View<T>)
    requires Ok(v) && v.head < v.tail
    ensures var tailBase := v.entries[v.index[v.indexTail]].key;
      && tailBase != INVALID_BLOCK_BASE
      && (var offset := (v.head / 128 * 128 - tailBase) / 128;
          && 0 - v.capacity <= v.indexTail + offset < 2 * v.capacity
          && (var slot := Masked(v.indexTail + offset, v.capacity);
              && slot == Slot(v.capacity, v.indexTail, |v.live| - 1)
              && v.entries[v.index[slot]] == Entry(v.head / 128 * 128, Some(v.live[0]))))
    ensures |v.live| > 0 && BlockOk(v, 0)
    ensures v.blocks[v.live[0]].cells[v.head % 128] == Live(v.contents[0])
    ensures v.blocks[v.live[0]].dequeued == v.head % 128
  {
    assert At(v, 0).key == ((v.tail + 127) / 128 - 1) * 128;
    assert At(v, |v.live| - 1) == Entry(v.head / 128 * 128, Some(v.live[0]));
    assert BlockOk(v, 0);
  }

  lemma TakeShape<T>(v: View<T>)
    requires Ok(v) && v.head < v.tail
    ensures Shape(Take(v))
  {
    hide IndexOk;
    assert BlockOk(v, 0);
  }

  /** What Take does to the index: an emptied block's entry loses its block. */
  lemma TakeEntries<T>(v: View<T>)
    requires Ok(v) && v.head < v.tail
    ensures |v.live| > 0
    ensures var v', e := Take(v), v.index[Slot(v.capacity, v.indexTail, |v.live| - 1)];
      && v'.tail == v.tail && v'.capacity == v.capacity && v'.indexTail == v.indexTail && v'.index == v.index
      && (|| (v'.live == v.live && v'.entries == v.entries)
          || (v'.live == v.live[1..] && v'.entries == v.entries[e := v.entries[e].(value := None)]))
  {
    hide IndexOk, CellsOk, AllRaw, PowerOfTwo, Distinct;
    assert BlockOk(v, 0);
  }

  lemma TakeIndex<T>(v: View<T>)
    requires Ok(v) && v.head < v.tail
    ensures Shape(Take(v)) && IndexOk(Take(v))
  {
    TakeShape(v);
    TakeEntries(v);
    hide Take, BlockOk, PoolOk, AllRaw, PowerOfTwo;
    var v' := Take(v);
    var last := |v.live| - 1;
    var end := (v.tail + 127) / 128;
    forall k: nat | k < |v'.live|
      ensures At(v', k) == Entry((end - 1 - k) * 128, Some(v'.live[|v'.live| - 1 - k]))
    {
      assert At(v, k) == Entry((end - 1 - k) * 128, Some(v.live[|v.live| - 1 - k]));
      assert v'.live[|v'.live| - 1 - k] == v.live[|v.live| - 1 - k];
      assert k != last || v'.entries == v.entries;
    }
    forall k: nat | |v'.live| <= k < v'.capacity
      ensures Vacant(At(v', k))
    {
      if k > last { assert Vacant(At(v, k)); }
    }
  }

  lemma TakePool<T>(v: View<T>)
    requires Ok(v) && v.head < v.tail
    ensures PoolOk(Take(v))
  {
    hide IndexOk;
    assert BlockOk(v, 0);
  }

  lemma TakeFree<T>(v: View<T>, i: nat)
    requires Ok(v) && v.head < v.tail && i < |Take(v).free|
    ensures Take(v).free[i] < |Take(v).blocks| && AllRaw(Take(v).blocks[Take(v).free[i]].cells)
  {
    hide IndexOk;
    assert BlockOk(v, 0);
  }

  lemma TakeCells<T>(cells: seq<Cell<T>>, j: nat, head: nat, tail: nat, contents: seq<T>)
    requires head < tail && |contents| == tail - head && CellsOk(cells, j, head, tail, contents)
    ensures CellsOk(if head / 128 == j then cells[head % 128 := Raw] else cells, j, head + 1, tail, contents[1..])
  {
  }

  lemma TakeBlock<T>(v: View<T>, m: nat)
    requires Ok(v) && v.head < v.tail && Shape(Take(v)) && m < |Take(v).live|
    ensures Take(v).live[m] < |Take(v).blocks| && BlockOk(Take(v), m)
  {
    hide IndexOk, CellsOk, AllRaw;
    assert BlockOk(v, 0);
    var m0 := if |Take(v).live| < |v.live| then m + 1 else m;
    assert BlockOk(v, m0);
    TakeCells(v.blocks[v.live[m0]].cells, v.head / 128 + m0, v.head, v.tail, v.contents);
  }

  lemma TakeOk<T>(v: View<T>)
    requires Ok(v) && v.head < v.tail
    ensures Ok(Take(v))
  {
    hide IndexOk, PoolOk, BlockOk, AllRaw, Take, Shape;
    var v' := Take(v);
    TakeIndex(v);
    TakePool(v);
    forall m: nat | m < |v'.live|
      ensures v'.live[m] < |v'.blocks| && BlockOk(v', m)
    {
      TakeBlock(v, m);
    }
    forall i | 0 <= i < |v'.free|
      ensures v'.free[i] < |v'.blocks| && AllRaw(v'.blocks[v'.free[i]].cells)
    {
      TakeFree(v, i);
    }
  }

  // ---------------------------------------------------------------- allocation

  ghost function Grown<T>(v: View<T>, b: Block<T>): View<T> {
    v.(blocks := v.blocks + [b], free := v.free + [|v.blocks|])
  }

  lemma GrownOk<T>(v: View<T>, b: Block<T>)
    requires Ok(v) && AllRaw(b.cells)
    ensures Ok(Grown(v, b))
  {
    var v' := Grown(v, b);
    GrownIndex(v, b);
    hide IndexOk, CellsOk, AllRaw, Distinct;
    assert PoolOk(v') by { GrownPool(v, b); }
    forall m: nat | m < |v'.live|
      ensures BlockOk(v', m)
    {
      assert BlockOk(v, m);
    }
  }

  lemma GrownIndex<T>(v: View<T>, b: Block<T>)
    requires Shape(v) && IndexOk(v)
    ensures Shape(Grown(v, b)) && IndexOk(Grown(v, b))
  {
    hide Distinct, PowerOfTwo;
    var v' := Grown(v, b);
    forall k: nat | k < v'.capacity
      ensures At(v', k) == At(v, k)
    {
    }
  }

  lemma GrownPool<T>(v: View<T>, b: Block<T>)
    requires PoolOk(v)
    ensures PoolOk(Grown(v, b))
  {
  }

  // ---------------------------------------------------------------- the producer object

  class ImplicitProducer<T> {
    var tailIndex: nat
    var headIndex: nat
    var dequeueOptimisticCount: nat
    var dequeueOvercommit: nat
    var tailBlock: Option<nat>
    // the current BlockIndexHeader
    var capacity: nat
    var indexTail: nat
    var index: seq<nat>
    var nextBlockIndexCapacity: nat
    // memory: index entries, blocks, and the free list (top at the end)
    var entries: seq<Entry>
    var blocks: seq<Block<T>>
    var freeList: seq<nat>

    ghost var live: seq<nat>
    ghost var contents: seq<T>

    ghost function V(): View<T>
      reads this
    {
      View(tailIndex, headIndex, capacity, indexTail, index, entries, blocks, freeList, live, contents)
    }

    ghost predicate Valid()
      reads this
    {
      && Ok(V())
      && nextBlockIndexCapacity == 2 * capacity
      && dequeueOptimisticCount == headIndex && dequeueOvercommit == 0
      && (tailIndex % 128 != 0 ==> |live| > 0 && tailBlock == Some(live[|live| - 1]))
    }

    constructor ()
      ensures Valid() && contents == [] && capacity == 32 && blocks == []
    {
      tailIndex, headIndex, dequeueOptimisticCount, dequeueOvercommit := 0, 0, 0, 0;
      tailBlock := None;
      // new_block_index with no previous index
      capacity := INITIAL_INDEX_SIZE;
      entries := seq(INITIAL_INDEX_SIZE, i => Entry(INVALID_BLOCK_BASE, None));
      index := seq(INITIAL_INDEX_SIZE, i => i);
      indexTail := INITIAL_INDEX_SIZE - 1;
      nextBlockIndexCapacity := 2 * INITIAL_INDEX_SIZE;
      blocks, freeList, live, contents := [], [], [], [];
      new;
      assert PowerOfTwo(32) by {
        assert PowerOfTwo(2);
        DoublePower(2);
        DoublePower(4);
        DoublePower(8);
        DoublePower(16);
      }
    }

    /** Doubles the block index. */
    method NewBlockIndex()
      requires Valid()
      modifies this
      ensures Valid() && capacity == 2 * old(capacity)
      ensures tailIndex == old(tailIndex) && headIndex == old(headIndex) && blocks == old(blocks)
      ensures freeList == old(freeList) && live == old(live) && contents == old(contents)
      ensures tailBlock == old(tailBlock)
    {
      ghost var v := V();
      hide IndexOk, PoolOk, BlockOk, AllRaw, Distinct, PowerOfTwo;
      var unrolled := Unrolled(index, indexTail, capacity);
      var base := |entries|;
      index := unrolled + seq(capacity, i requires 0 <= i => base + i);
      entries := entries + seq(capacity, i => Entry(INVALID_BLOCK_BASE, None));
      indexTail := capacity - 1;
      capacity := nextBlockIndexCapacity;
      nextBlockIndexCapacity := 2 * nextBlockIndexCapacity;
      GrowOk(v, V());
    }

    /** insert_block_index_entry: the entry the new block will be published in, growing the
        index when the oldest slot is still in use. `w` is the state the entry was taken in. */
    method InsertBlockIndexEntry(blockStartIndex: nat) returns (e: nat, ghost w: View<T>)
      requires Valid()
      modifies this
      ensures Ok(w) && |w.live| < w.capacity
      ensures w.tail == old(tailIndex) && w.head == old(headIndex) && w.contents == old(contents)
      ensures w.blocks == old(blocks) && w.free == old(freeList) && w.live == old(live)
      ensures w.capacity == if |w.live| < old(capacity) then old(capacity) else 2 * old(capacity)
      ensures e == w.index[Masked(w.indexTail + 1, w.capacity)]
      ensures V() == w.(indexTail := Masked(w.indexTail + 1, w.capacity),
                        entries := w.entries[e := w.entries[e].(key := blockStartIndex)])
      ensures nextBlockIndexCapacity == 2 * capacity && tailBlock == old(tailBlock)
      ensures dequeueOptimisticCount == old(dequeueOptimisticCount) && dequeueOvercommit == old(dequeueOvercommit)
    {
      hide IndexOk, PoolOk, BlockOk, AllRaw, Distinct, PowerOfTwo;
      NextSlotVacant(V());
      var newTail := Masked(indexTail + 1, capacity);
      e := index[newTail];
      if !(entries[e].key == INVALID_BLOCK_BASE || entries[e].value == None) {
        NewBlockIndex();
        NextSlotVacant(V());
        newTail := Masked(indexTail + 1, capacity);
        e := index[newTail];
        assert entries[e].key == INVALID_BLOCK_BASE || entries[e].value == None;
      }
      w := V();
      entries := entries[e := entries[e].(key := blockStartIndex)];
      indexTail := newTail;
    }
  
    /** requisition_block: recycle a block of the free list, or allocate one. */
    method RequisitionBlock(ghost w: View<T>) returns (id: nat, ghost w': View<T>)
      requires Ok(w) && blocks == w.blocks && freeList == w.free && live == w.live
      modifies this`blocks, this`freeList
      ensures Ok(w') && |w'.free| > 0 && id == w'.free[|w'.free| - 1] < |w'.blocks|
      ensures w' == w.(blocks := w'.blocks, free := w'.free)
      ensures blocks == w'.blocks && freeList == w'.free[..|w'.free| - 1]
      ensures |blocks| == |w.blocks| || |w'.free| == 1
    {
      if |freeList| > 0 {
        id := freeList[|freeList| - 1];
        freeList := freeList[..|freeList| - 1];
        w' := w;
      } else {
        var b: Block<T> := Block(seq(BLOCK_SIZE, i => Raw), 0);
        GrownOk(w, b);
        w' := Grown(w, b);
        id := |blocks|;
        blocks := blocks + [b];
      }
    }

    /** The block-boundary path of enqueue: a new block, published in the index. */
    method EnqueueInNewBlock(x: T)
      requires Valid() && tailIndex % BLOCK_SIZE == 0
      modifies this
      ensures Valid() && contents == old(contents) + [x]
      ensures |blocks| == |old(blocks)| || |blocks| == |live|
      ensures capacity == old(capacity) || capacity + 2 == 2 * |live|
    {
      hide IndexOk, BlockOk, PoolOk, AllRaw, Distinct, PowerOfTwo;
      ghost var w, w';
      var e, id;
      e, w := InsertBlockIndexEntry(tailIndex);
      id, w' := RequisitionBlock(w);
      StoreNewOk(w', x);
      StoreNewLean(w', x);
      StoreFirst(w', e, id, x);
    }

    /** Publishes a block in its entry and stores its first element. */
    method StoreFirst(ghost w: View<T>, e: nat, id: nat, x: T)
      requires Ok(w) && w.tail % 128 == 0 && |w.live| < w.capacity && |w.free| > 0
      requires e == w.index[Masked(w.indexTail + 1, w.capacity)] && id == w.free[|w.free| - 1]
      requires V() == w.(indexTail := Masked(w.indexTail + 1, w.capacity),
                         entries := w.entries[e := w.entries[e].(key := w.tail)], free := w.free[..|w.free| - 1])
      modifies this`blocks, this`entries, this`tailBlock, this`tailIndex, this`live, this`contents
      ensures V() == StoreNew(w, x) && tailBlock == Some(id)
    {
      FreeBlock(w);
      hide Ok, BlockOk, PowerOfTwo, Distinct;
      var current := tailIndex;
      blocks := blocks[id := blocks[id].(dequeued := 0)];
      entries := entries[e := entries[e].(value := Some(id))];
      tailBlock := Some(id);
      var b := blocks[id];
      blocks := blocks[id := b.(cells := b.cells[current % BLOCK_SIZE := Live(x)])];
      tailIndex := current + 1;
      live := live + [id];
      contents := contents + [x];
    }

    /** Appends one element. A block is allocated and the index doubled only if the queue is long
        enough to need it: emptied blocks and slots are used again first. */
    method Enqueue(x: T) returns (ok: bool)
      requires Valid()
      modifies this
      ensures Valid() && ok && contents == old(contents) + [x]
      ensures |blocks| == |old(blocks)| || BlocksFit(|blocks|, |contents|)
      ensures capacity == old(capacity) || BlocksFit(capacity / 2 + 1, |contents|)
    {
      hide IndexOk, BlockOk, PoolOk, AllRaw, Distinct, PowerOfTwo;
      var current := tailIndex;
      if current % BLOCK_SIZE == 0 {
        if !(headIndex < current + BLOCK_SIZE) {
          return false;
        }
        EnqueueInNewBlock(x);
        LiveFits(V());
      } else {
        ghost var v := V();
        TailBlockCells(v);
        StoreOldOk(v, x);
        var id := tailBlock.value;
        var b := blocks[id];
        blocks := blocks[id := b.(cells := b.cells[current % BLOCK_SIZE := Live(x)])];
        tailIndex := current + 1;
        contents := contents + [x];
        assert V() == StoreOld(v, x);
      }
      ok := true;
    }

    /** The element at the head index: look its block up, move the element out, and hand the
        block back once all of it is dequeued. */
    method TakeElement() returns (x: T)
      requires Ok(V()) && headIndex < tailIndex
      modifies this`headIndex, this`blocks, this`entries, this`freeList, this`live, this`contents
      ensures V() == Take(old(V())) && x == old(contents)[0]
    {
      hide IndexOk, PoolOk, BlockOk, AllRaw, Distinct, PowerOfTwo;
      ghost var v := V();
      HeadLookup(v);
      TakenBlock(v);
      var i := headIndex;
      headIndex := headIndex + 1;
      // get_block_index_entry_for_index
      var tailBase := entries[index[indexTail]].key;
      var offset := (i / BLOCK_SIZE * BLOCK_SIZE - tailBase) / BLOCK_SIZE;
      var e := index[Masked(indexTail + offset, capacity)];
      var id := entries[e].value.value;
      var b := blocks[id];
      x := b.cells[i % BLOCK_SIZE].value;
      blocks := blocks[id := Block(b.cells[i % BLOCK_SIZE := Raw], b.dequeued + 1)];
      contents := contents[1..];
      if b.dequeued == BLOCK_SIZE - 1 {
        entries := entries[e := entries[e].(value := None)];
        freeList := freeList + [id];
        live := live[1..];
      }
    }

    method Dequeue() returns (r: Option<T>)
      requires Valid()
      modifies this
      ensures Valid()
      ensures r == if old(contents) == [] then None else Some(old(contents)[0])
      ensures contents == if old(contents) == [] then [] else old(contents)[1..]
      ensures |blocks| == |old(blocks)| && capacity == old(capacity)
    {
      hide IndexOk, PoolOk, BlockOk, AllRaw, Distinct, PowerOfTwo;
      var tail, overcommit := tailIndex, dequeueOvercommit;
      if !(dequeueOptimisticCount - overcommit < tail) {
        return None;
      }
      var myDequeueCount := dequeueOptimisticCount;
      dequeueOptimisticCount := dequeueOptimisticCount + 1;
      tail := tailIndex;
      // run alone, the second check repeats the first and no overcommit is ever counted
      assert myDequeueCount - overcommit < tail;
      ghost var v := V();
      TakeOk(v);
      TakenTail(v);
      var x := TakeElement();
      r := Some(x);
    }
  }

  lemma FreeBlock<T>(v: View<T>)
    requires Ok(v) && |v.free| > 0
    ensures v.free[|v.free| - 1] < |v.blocks| && |v.blocks[v.free[|v.free| - 1]].cells| == 128
  {
    hide IndexOk, BlockOk, Shape;
  }

  lemma StoreNewLean<T>(v: View<T>, x: T)
    requires Ok(v) && v.tail % 128 == 0 && |v.live| < v.capacity && |v.free| > 0
    ensures var v' := StoreNew(v, x);
      |v'.live| == |v.live| + 1 && |v'.blocks| == |v.blocks| && (|v.free| == 1 ==> |v'.blocks| == |v'.live|)
  {
    hide IndexOk, BlockOk, AllRaw, Shape;
  }

  /** So many blocks of 128 elements can be in use, partly filled at either end, for n elements. */
  predicate BlocksFit(blocks: nat, n: nat) { blocks * 128 <= n + 254 }

  lemma LiveFits<T>(v: View<T>)
    requires Shape(v)
    ensures BlocksFit(|v.live|, |v.contents|)
  {
    hide PowerOfTwo, Distinct;
  }

  /** A block still being filled stays the last live one. */
  lemma TakenTail<T>(v: View<T>)
    requires Ok(v) && v.head < v.tail
    ensures Take(v).head == v.head + 1 && Take(v).tail == v.tail && Take(v).contents == v.contents[1..]
    ensures v.tail % 128 != 0 ==> |Take(v).live| > 0 && Take(v).live[|Take(v).live| - 1] == v.live[|v.live| - 1]
    ensures Take(v).capacity == v.capacity && |Take(v).blocks| == |v.blocks|
  {
    hide IndexOk, PoolOk, AllRaw;
    TakeOk(v);
    TakenBlock(v);
  }

  lemma TakenBlock<T>(v: View<T>)
    requires Ok(v) && v.head < v.tail
    ensures |v.live| > 0 && v.live[0] < |v.blocks| && |v.blocks[v.live[0]].cells| == 128
  {
    assert BlockOk(v, 0);
  }

  lemma TailBlockCells<T>(v: View<T>)
    requires Ok(v) && v.tail % 128 != 0
    ensures |v.live| > 0 && v.live[|v.live| - 1] < |v.blocks|
    ensures |v.blocks[v.live[|v.live| - 1]].cells| == 128
  {
    assert BlockOk(v, |v.live| - 1);
  }

  /** The index read from its oldest slot round to its tail. */
  method Unrolled(index: seq<nat>, indexTail: nat, capacity: nat) returns (r: seq<nat>)
    requires |index| == capacity && indexTail < capacity && PowerOfTwo(capacity)
    ensures |r| == capacity
    ensures forall i | 0 <= i < capacity :: r[i] == index[Masked(indexTail + 1 + i, capacity)]
  {
    r := [];
    var pos := indexTail;
    var first := true;
    while first || pos != indexTail
      invariant |r| <= capacity && (first <==> |r| == 0)
      invariant pos == Masked(indexTail + |r|, capacity)
      invariant forall i | 0 <= i < |r| :: r[i] == index[Masked(indexTail + 1 + i, capacity)]
      decreases capacity - |r|
    {
      first := false;
      pos := Masked(pos + 1, capacity);
      r := r + [index[pos]];
    }
  }

  // ---------------------------------------------------------------- whole runs

  datatype Op<+T> = Put(x: T) | Get

  /** What a FIFO queue answers to a run of operations. */
  function FifoRun<T>(q: seq<T>, ops: seq<Op<T>>): seq<Option<T>>
    decreases |ops|
  {
    if ops == [] then []
    else
      match ops[0]
      case Put(x) => FifoRun(q + [x], ops[1..])
      case Get => if q == [] then [None] + FifoRun(q, ops[1..]) else [Some(q[0])] + FifoRun(q[1..], ops[1..])
  }

  lemma FifoStep<T>(q: seq<T>, ops: seq<Op<T>>, i: nat)
    requires i < |ops|
    ensures ops[i].Put? ==> FifoRun(q, ops[i..]) == FifoRun(q + [ops[i].x], ops[i + 1..])
    ensures ops[i].Get? && q == [] ==> FifoRun(q, ops[i..]) == [None] + FifoRun([], ops[i + 1..])
    ensures ops[i].Get? && q != [] ==> FifoRun(q, ops[i..]) == [Some(q[0])] + FifoRun(q[1..], ops[i + 1..])
  {
    assert ops[i..][1..] == ops[i + 1..];
  }

  /** The greatest length a FIFO queue reaches in a run. */
  function Longest<T>(q: seq<T>, ops: seq<Op<T>>): (n: nat)
    ensures n >= |q|
    decreases |ops|
  {
    if ops == [] then |q|
    else
      match ops[0]
      case Put(x) => Longest(q + [x], ops[1..])
      case Get =>
        var n := Longest(if q == [] then [] else q[1..], ops[1..]);
        if n < |q| then |q| else n
  }

  lemma LongestStep<T>(q: seq<T>, ops: seq<Op<T>>, i: nat)
    requires i < |ops|
    ensures ops[i].Put? ==> Longest(q, ops[i..]) == Longest(q + [ops[i].x], ops[i + 1..])
    ensures ops[i].Get? ==> Longest(q, ops[i..]) >= Longest(if q == [] then [] else q[1..], ops[i + 1..])
  {
    var rest := ops[i..];
    assert rest[0] == ops[i] && rest[1..] == ops[i + 1..];
    assert rest[0].Get? ==> Longest(q, rest) >= Longest(if q == [] then [] else q[1..], rest[1..]);
  }

  /** Blocks and slots of the index a queue holds after having been at most n elements long. */
  predicate Lean(blocks: nat, slots: nat, n: nat) {
    (blocks == 0 || BlocksFit(blocks, n)) && (slots == 32 || BlocksFit(slots / 2 + 1, n))
  }

  /** Every run of enqueues and dequeues of a new producer answers as a FIFO queue does, and the
      blocks and index slots it ever allocates are bounded by the greatest length of the queue,
      however many elements go through it. */
  method Replay<T>(ops: seq<Op<T>>) returns (answers: seq<Option<T>>, blocks: nat, slots: nat)
    ensures answers == FifoRun([], ops)
    ensures Lean(blocks, slots, Longest([], ops))
  {
    hide Ok, FifoRun, Longest, IndexOk, PoolOk, BlockOk, Shape;
    var p := new ImplicitProducer<T>();
    answers := [];
    assert ops[0..] == ops;
    for i := 0 to |ops|
      invariant p.Valid() && fresh(p)
      invariant answers + FifoRun(p.contents, ops[i..]) == FifoRun([], ops)
      invariant Longest(p.contents, ops[i..]) <= Longest([], ops) && Lean(|p.blocks|, p.capacity, Longest([], ops))
    {
      FifoStep(p.contents, ops, i);
      LongestStep(p.contents, ops, i);
      match ops[i]
      case Put(x) =>
        var ok := p.Enqueue(x);
      case Get =>
        var r := p.Dequeue();
        answers := answers + [r];
    }
    assert ops[|ops|..] == [];
    FifoNone(p.contents);
    blocks, slots := |p.blocks|, p.capacity;
  }

  lemma FifoNone<T>(contents: seq<T>)
    ensures FifoRun(contents, []) == []
  {
  }
}
