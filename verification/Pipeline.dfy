/** The row batches of src/adapter/Pipeline.h: rows flattened into one vector of cells. */
module Pipeline {
  import opened DeviceModel
  import opened FrameCodec

  /** Where row i begins among rows of n cells. */
  function Offset(i: nat, n: nat): nat { i * n }

  lemma OffsetStep(i: nat, n: nat)
    ensures Offset(0, n) == 0 && Offset(i + 1, n) == Offset(i, n) + n
  {
  }

  lemma RowWithin(i: nat, rows: nat, n: nat)
    requires i < rows
    ensures Offset(i, n) + n <= Offset(rows, n)
  {
    MultipleBelow(i, rows, n);
  }

  datatype RowBatch = RowBatch(dev: DeviceDesc, ts: seq<int>, cells: seq<Cell>)
  {
    function FieldCount(): nat { |dev.spec.fields| }

    /** The invariant the source states: cells.size() == rows * columns. */
    predicate Valid() { |cells| == Offset(|ts|, FieldCount()) }

    function PushRow(t: int, row: seq<Cell>): RowBatch { this.(ts := ts + [t], cells := cells + row) }
  }

  function EmptyBatch(dev: DeviceDesc): (b: RowBatch)
    ensures b.Valid()
  {
    RowBatch(dev, [], [])
  }

  /** The i-th row of a batch. */
  function RowAt(b: RowBatch, i: nat): (e: Emitted)
    requires b.Valid() && i < |b.ts|
    ensures e.dev == b.dev && e.ts == b.ts[i] && |e.cells| == b.FieldCount()
  {
    RowWithin(i, |b.ts|, b.FieldCount());
    var from := Offset(i, b.FieldCount());
    Emitted(b.dev, b.ts[i], b.cells[from .. from + b.FieldCount()])
  }

  function Rows(b: RowBatch): seq<Emitted>
    requires b.Valid()
  {
    seq(|b.ts|, i requires 0 <= i < |b.ts| => RowAt(b, i))
  }

  /** pushRow keeps the invariant and appends exactly one row. */
  lemma PushRowAppends(b: RowBatch, t: int, row: seq<Cell>)
    requires b.Valid() && |row| == b.FieldCount()
    ensures b.PushRow(t, row).Valid() && Rows(b.PushRow(t, row)) == Rows(b) + [Emitted(b.dev, t, row)]
  {
    hide Offset;
    var n, c := b.FieldCount(), b.PushRow(t, row);
    OffsetStep(|b.ts|, n);
    forall i | 0 <= i < |c.ts|
      ensures Rows(c)[i] == (Rows(b) + [Emitted(b.dev, t, row)])[i]
    {
      RowWithin(i, |c.ts|, n);
      var from := Offset(i, n);
      if i < |b.ts| {
        RowWithin(i, |b.ts|, n);
        assert c.cells[from .. from + n] == b.cells[from .. from + n];
      } else {
        assert c.cells[from .. from + n] == row;
      }
    }
  }

  // ---------------------------------------------------------------- rows of one device

  /** The rows of one device in a log of pushed rows. */
  function OfDevice(log: seq<Emitted>, d: DeviceDesc): seq<Emitted> {
    if log == [] then []
    else
      var last := log[|log| - 1];
      OfDevice(log[..|log| - 1], d) + (if last.dev == d then [last] else [])
  }

  lemma OfDeviceSnoc(log: seq<Emitted>, e: Emitted, d: DeviceDesc)
    ensures OfDevice(log + [e], d) == OfDevice(log, d) + if e.dev == d then [e] else []
  {
    assert (log + [e])[..|log|] == log;
  }

  /** The rows of one device in the batches handed to the writer, in order. */
  function WrittenFor(written: seq<RowBatch>, d: DeviceDesc): seq<Emitted>
    requires forall b | b in written :: b.Valid()
  {
    if written == [] then []
    else
      var last := written[|written| - 1];
      WrittenFor(written[..|written| - 1], d) + (if last.dev == d then Rows(last) else [])
  }

  lemma WrittenSnoc(written: seq<RowBatch>, b: RowBatch, d: DeviceDesc)
    requires (forall x | x in written :: x.Valid()) && b.Valid()
    ensures forall x | x in written + [b] :: x.Valid()
    ensures WrittenFor(written + [b], d) == WrittenFor(written, d) + if b.dev == d then Rows(b) else []
  {
    assert (written + [b])[..|written|] == written;
  }
}
