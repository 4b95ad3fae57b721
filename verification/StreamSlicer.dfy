/** Slicing a byte stream into frames, one step at a time, whatever chunks it arrives in.
    A slicer looks at the start of the pending bytes and says what to do next; feed and
    feedModbus of src/adapter/FrameCodec.cpp are two slicers run by the same loop. */
module StreamSlicer {
  import opened DeviceModel

  const MAX_FRAME: nat := 64 * 1024       // FrameCodec::kMaxFrame
  const MAX_PENDING: nat := 256 * 1024    // the runaway cut of the stream buffer

  datatype Step =
    | NeedMore                                       // wait for more bytes
    | Skip(unknown: bool, flagMiss: bool, bad: bool)  // drop one byte and look again
    | Frame(size: nat, rows: seq<Row>, ok: bool, flagMiss: bool)

  type Slicer = seq<Byte> -> Step

  /** What a run of steps has done. `framed` counts the bytes of consumed frames. */
  datatype Tally = Tally(
    rows: seq<Row>, frames: nat, badFrames: nat, flagMiss: nat, unknownType: nat, resyncs: nat, framed: nat)

  const NOTHING: Tally := Tally([], 0, 0, 0, 0, 0, 0)

  function Plus(a: Tally, b: Tally): Tally {
    Tally(a.rows + b.rows, a.frames + b.frames, a.badFrames + b.badFrames, a.flagMiss + b.flagMiss,
          a.unknownType + b.unknownType, a.resyncs + b.resyncs, a.framed + b.framed)
  }

  lemma PlusAssoc(a: Tally, b: Tally, c: Tally)
    ensures Plus(Plus(a, b), c) == Plus(a, Plus(b, c))
  {
    assert (a.rows + b.rows) + c.rows == a.rows + (b.rows + c.rows);
  }

  lemma PlusNothing(a: Tally)
    ensures Plus(a, NOTHING) == a == Plus(NOTHING, a)
  {
    assert a.rows + [] == a.rows == [] + a.rows;
  }

  lemma PlusRows(a: Tally, b: Tally)
    ensures Plus(a, b).rows == a.rows + b.rows
  {
  }

  function One(b: bool): nat { if b then 1 else 0 }

  function Advance(s: Step): nat {
    match s
    case NeedMore => 0
    case Skip(_, _, _) => 1
    case Frame(size, _, _, _) => size
  }

  function Count(s: Step): Tally {
    match s
    case NeedMore => NOTHING
    case Skip(unknown, flagMiss, bad) => Tally([], 0, One(bad), One(flagMiss), One(unknown), 1, 0)
    case Frame(size, rows, ok, flagMiss) => Tally(rows, One(ok), One(!ok), One(flagMiss), 0, 0, size)
  }

  /** A slicer never looks past what it consumes and always knows when to wait: a decision once
      made does not change when more bytes arrive, and it waits only for a bounded frame. */
  ghost predicate Sound(slice: Slicer) {
    && (forall a: seq<Byte>, b: seq<Byte> :: slice(a) != NeedMore ==> slice(a + b) == slice(a))
    && (forall a: seq<Byte> :: slice(a) != NeedMore ==> 0 < Advance(slice(a)) <= |a|)
    && (forall a: seq<Byte> :: slice(a) == NeedMore ==> |a| < MAX_FRAME)
  }

  /** Running the slicer until it has to wait. */
  ghost function Scan(slice: Slicer, buf: seq<Byte>): (r: (Tally, seq<Byte>))
    requires Sound(slice)
    decreases |buf|
  {
    var s := slice(buf);
    if s == NeedMore then (NOTHING, buf)
    else
      var (t, rest) := Scan(slice, buf[Advance(s)..]);
      (Plus(Count(s), t), rest)
  }

  /** Every byte is accounted for, and what is left is short. */
  lemma {:induction false} ScanConserves(slice: Slicer, buf: seq<Byte>)
    requires Sound(slice)
    ensures var (t, rest) := Scan(slice, buf);
      |buf| == t.framed + t.resyncs + |rest| && |rest| < MAX_FRAME && slice(rest) == NeedMore
    decreases |buf|
  {
    var s := slice(buf);
    if s != NeedMore {
      ScanConserves(slice, buf[Advance(s)..]);
    }
  }

  /** The decisions of a run, in order. */
  ghost function Decisions(slice: Slicer, buf: seq<Byte>): seq<Step>
    requires Sound(slice)
    decreases |buf|
  {
    var s := slice(buf);
    if s == NeedMore then [] else [s] + Decisions(slice, buf[Advance(s)..])
  }

  /** What the counters count. */
  datatype Outcome = Dropping | Decoded | Failing | Undelimited | Unknown

  predicate Is(s: Step, o: Outcome) {
    match o
    case Dropping => s.Skip?
    case Decoded => s.Frame? && s.ok
    case Failing => (s.Frame? && !s.ok) || (s.Skip? && s.bad)
    case Undelimited => (s.Frame? || s.Skip?) && s.flagMiss
    case Unknown => s.Skip? && s.unknown
  }

  function Times(ds: seq<Step>, o: Outcome): nat {
    if ds == [] then 0 else One(Is(ds[0], o)) + Times(ds[1..], o)
  }

  /** Each counter says how often its outcome occurred. */
  predicate Agrees(t: Tally, ds: seq<Step>) {
    && t.resyncs == Times(ds, Dropping) && t.frames == Times(ds, Decoded) && t.badFrames == Times(ds, Failing)
    && t.flagMiss == Times(ds, Undelimited) && t.unknownType == Times(ds, Unknown)
  }

  lemma AgreesStep(s: Step, t: Tally, ds: seq<Step>)
    requires s != NeedMore && Agrees(t, ds)
    ensures Agrees(Plus(Count(s), t), [s] + ds)
  {
    assert ([s] + ds)[1..] == ds;
  }

  lemma {:induction false} CountersAre(slice: Slicer, buf: seq<Byte>)
    requires Sound(slice)
    ensures Agrees(Scan(slice, buf).0, Decisions(slice, buf))
    decreases |buf|
  {
    var s := slice(buf);
    if s != NeedMore {
      CountersAre(slice, buf[Advance(s)..]);
      hide Sound, Agrees, Plus, Count;
      AgreesStep(s, Scan(slice, buf[Advance(s)..]).0, Decisions(slice, buf[Advance(s)..]));
    }
  }

  /** Scanning a prefix first and the rest when it arrives is scanning everything at once. */
  lemma {:induction false} ScanAppend(slice: Slicer, a: seq<Byte>, b: seq<Byte>)
    requires Sound(slice)
    ensures var (t1, rest) := Scan(slice, a);
      var (t2, rest2) := Scan(slice, rest + b);
      Scan(slice, a + b) == (Plus(t1, t2), rest2)
    decreases |a|
  {
    var s := slice(a);
    if s == NeedMore {
      PlusNothing(Scan(slice, a + b).0);
    } else {
      var n := Advance(s);
      assert (a + b)[n..] == a[n..] + b;
      ScanAppend(slice, a[n..], b);
      var (t1, rest) := Scan(slice, a[n..]);
      var (t2, rest2) := Scan(slice, rest + b);
      PlusAssoc(Count(s), t1, t2);
    }
  }

  /** A run from the start of buf has done `run` and is now at pos. */
  ghost predicate Reached(slice: Slicer, buf: seq<Byte>, pos: nat, run: Tally)
    requires Sound(slice)
  {
    && pos <= |buf|
    && Scan(slice, buf) == (Plus(run, Scan(slice, buf[pos..]).0), Scan(slice, buf[pos..]).1)
  }

  lemma ReachedStart(slice: Slicer, buf: seq<Byte>)
    requires Sound(slice)
    ensures Reached(slice, buf, 0, NOTHING)
  {
    assert buf[0..] == buf;
    PlusNothing(Scan(slice, buf).0);
  }

  lemma ReachedStep(slice: Slicer, buf: seq<Byte>, pos: nat, run: Tally)
    requires Sound(slice) && Reached(slice, buf, pos, run)
    ensures var step := slice(buf[pos..]);
      && (step == NeedMore <==> Advance(step) == 0) && pos + Advance(step) <= |buf|
      && Reached(slice, buf, pos + Advance(step), Plus(run, Count(step)))
  {
    hide Plus;
    var step := slice(buf[pos..]);
    var n := Advance(step);
    assert buf[pos..][n..] == buf[pos + n..];
    if step == NeedMore {
      PlusNothing(run);
    } else {
      PlusAssoc(run, Count(step), Scan(slice, buf[pos + n..]).0);
    }
  }

  lemma ReachedEnd(slice: Slicer, buf: seq<Byte>, pos: nat, run: Tally)
    requires Sound(slice) && Reached(slice, buf, pos, run) && slice(buf[pos..]) == NeedMore
    ensures Scan(slice, buf) == (run, buf[pos..])
  {
    PlusNothing(run);
  }

  // ---------------------------------------------------------------- a stream

  /** The pending bytes and the counters of a DeviceStream. */
  datatype Stream = Stream(buf: seq<Byte>, bytesIn: nat, done: Tally)

  const FRESH: Stream := Stream([], 0, NOTHING)

  /** One call: append the chunk, slice, and keep at most the last 256 KiB. */
  ghost function Feed(slice: Slicer, st: Stream, data: seq<Byte>): Stream
    requires Sound(slice)
  {
    var (t, rest) := Scan(slice, st.buf + data);
    Compacted(Stream(rest, st.bytesIn + |data|, Plus(st.done, t)))
  }

  function Compacted(st: Stream): Stream {
    if |st.buf| > MAX_PENDING then
      Stream(st.buf[|st.buf| - MAX_PENDING..], st.bytesIn, st.done.(resyncs := st.done.resyncs + 1))
    else st
  }

  lemma FeedIs(slice: Slicer, st: Stream, data: seq<Byte>)
    requires Sound(slice)
    ensures Feed(slice, st, data)
         == Compacted(Stream(Scan(slice, st.buf + data).1, st.bytesIn + |data|,
                             Plus(st.done, Scan(slice, st.buf + data).0)))
  {
  }

  ghost function FeedAll(slice: Slicer, st: Stream, chunks: seq<seq<Byte>>): Stream
    requires Sound(slice)
    decreases |chunks|
  {
    if chunks == [] then st
    else FeedAll(slice, Feed(slice, st, chunks[0]), chunks[1..])
  }

  function Concat(chunks: seq<seq<Byte>>): seq<Byte> {
    if chunks == [] then [] else chunks[0] + Concat(chunks[1..])
  }

  /** A stream that has been sliced as far as its bytes allow. */
  ghost predicate Settled(slice: Slicer, st: Stream) { slice(st.buf) == NeedMore }

  lemma FeedSettles(slice: Slicer, st: Stream, data: seq<Byte>)
    requires Sound(slice)
    ensures Settled(slice, Feed(slice, st, data)) && |Feed(slice, st, data).buf| < MAX_FRAME
    ensures Feed(slice, st, data)
         == Stream(Scan(slice, st.buf + data).1, st.bytesIn + |data|, Plus(st.done, Scan(slice, st.buf + data).0))
  {
    ScanConserves(slice, st.buf + data);
  }

  /** Two calls are one call with the concatenated data. */
  lemma FeedTwice(slice: Slicer, st: Stream, a: seq<Byte>, b: seq<Byte>)
    requires Sound(slice)
    ensures Feed(slice, Feed(slice, st, a), b) == Feed(slice, st, a + b)
  {
    hide Sound, Scan;
    FeedSettles(slice, st, a);
    FeedSettles(slice, Feed(slice, st, a), b);
    FeedSettles(slice, st, a + b);
    assert st.buf + (a + b) == (st.buf + a) + b;
    ScanAppend(slice, st.buf + a, b);
    var (t1, rest) := Scan(slice, st.buf + a);
    PlusAssoc(st.done, t1, Scan(slice, rest + b).0);
  }

  lemma FeedNothing(slice: Slicer, st: Stream)
    requires Sound(slice) && Settled(slice, st)
    ensures Feed(slice, st, []) == st
  {
    assert st.buf + [] == st.buf;
    PlusNothing(st.done);
  }

  /** Chunk independence: rows, counters and pending bytes depend on the stream alone, not on
      how it was cut. */
  lemma {:induction false} ChunkIndependence(slice: Slicer, st: Stream, chunks: seq<seq<Byte>>)
    requires Sound(slice) && Settled(slice, st)
    ensures FeedAll(slice, st, chunks) == Feed(slice, st, Concat(chunks))
    decreases |chunks|
  {
    hide Sound, Scan, Feed;
    if chunks == [] {
      FeedNothing(slice, st);
    } else {
      FeedSettles(slice, st, chunks[0]);
      ChunkIndependence(slice, Feed(slice, st, chunks[0]), chunks[1..]);
      FeedTwice(slice, st, chunks[0], Concat(chunks[1..]));
    }
  }

  /** Bytes received are consumed in frames, dropped while re-synchronising, or pending. */
  ghost predicate Balanced(st: Stream) { st.bytesIn == st.done.framed + st.done.resyncs + |st.buf| }

  /** In every run the bytes balance, and the 256 KiB cut is never taken. */
  lemma {:induction false} RunConserves(slice: Slicer, st: Stream, chunks: seq<seq<Byte>>)
    requires Sound(slice) && Settled(slice, st) && Balanced(st)
    ensures var st' := FeedAll(slice, st, chunks);
      Balanced(st') && Settled(slice, st') && |st'.buf| < MAX_FRAME
    decreases |chunks|
  {
    if chunks != [] {
      var next := Feed(slice, st, chunks[0]);
      ScanConserves(slice, st.buf + chunks[0]);
      FeedSettles(slice, st, chunks[0]);
      RunConserves(slice, next, chunks[1..]);
    }
  }
}
