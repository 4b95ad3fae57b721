/** The columnar writer of src/adapter/EtherDBWriter.cpp: row-major batches are staged column by
    column in one reused byte buffer and handed over in chunks of at most the buffer's capacity. */
module ColumnWriter {
  import opened DeviceModel
  import opened FieldCodec
  import opened FrameCodec
  import opened Pipeline
  import opened RecordCodec

  // ---------------------------------------------------------------- one stored value

  /** Column widths the loader produces. */
  predicate GoodColumn(f: FieldDesc) {
    f.outSize in {1, 2, 4, 8} && (f.asDouble ==> f.outSize in {4, 8})
  }

  /** A cell of the kind its column stores. */
  predicate ColumnCell(f: FieldDesc, c: Cell) {
    if !f.asDouble then c.Int?
    else if f.outSize == 8 then c.Float64Bits? && c.bits < Pow2(64)
    else c.Float32Bits? && c.bits < Pow2(32)
  }

  /** The bytes of one value in its column, least significant first. */
  function CellBytes(f: FieldDesc, c: Cell): (p: seq<Byte>)
    requires ColumnCell(f, c)
    ensures |p| == f.outSize
  {
    LittleBytes(if f.asDouble then c.bits else Complement(c.i, 8 * f.outSize), f.outSize)
  }

  function TsBytes(ts: int): (p: seq<Byte>)
    ensures |p| == 8
  {
    LittleBytes(Complement(ts, 64), 8)
  }

  /** What the database reads from a column. */
  function ReadCell(f: FieldDesc, p: seq<Byte>): Cell
    requires |p| == f.outSize && f.outSize > 0
  {
    LittleBound(p);
    if f.asDouble then (if f.outSize == 8 then Float64Bits(LittleValue(p)) else Float32Bits(LittleValue(p)))
    else Int(TwosComplement(LittleValue(p), 8 * f.outSize))
  }

  function ReadTs(p: seq<Byte>): int
    requires |p| == 8
  {
    LittleBound(p);
    TwosComplement(LittleValue(p), 64)
  }

  /** A value after the narrowing cast of its column. */
  function NarrowCell(f: FieldDesc, c: Cell): Cell {
    if f.asDouble || !c.Int? then c else Int(Narrow(f.outSize, c.i))
  }

  lemma CellReadsBack(f: FieldDesc, c: Cell)
    requires GoodColumn(f) && ColumnCell(f, c)
    ensures ReadCell(f, CellBytes(f, c)) == NarrowCell(f, c)
  {
    hide Pow2;
    LittleRoundTrip(if f.asDouble then c.bits else Complement(c.i, 8 * f.outSize), f.outSize);
  }

  lemma TsReadsBack(ts: int)
    ensures ReadTs(TsBytes(ts)) == Narrow(8, ts)
  {
    hide Pow2;
    LittleRoundTrip(Complement(ts, 64), 8);
  }

  /** Every decoded value fits its column and is stored without change. */
  lemma DecodedFits(f: FieldDesc, p: seq<Byte>, be: bool)
    requires LoadedField(f) && GoodField(f) && |p| == f.size
    ensures GoodColumn(f) && ColumnCell(f, DecodeCell(f, p, be))
    ensures NarrowCell(f, DecodeCell(f, p, be)) == DecodeCell(f, p, be)
  {
    hide Pow2;
    LoadedFieldGood(f);
    RawBound(p, be);
    if f.kind in {IntSigned, IntUnsigned, Bool} { NarrowingIsLossless(f, p, be); }
  }

  // ---------------------------------------------------------------- layout

  /** Column 0 holds the time stamp, column k the field before it. */
  function Width(dev: DeviceDesc, k: nat): nat
    requires k <= |dev.spec.fields|
  {
    if k == 0 then 8 else dev.spec.fields[k - 1].outSize
  }

  function Widths(dev: DeviceDesc): (w: seq<nat>)
    ensures |w| == |dev.spec.fields| + 1
    ensures forall k | 0 <= k < |w| :: w[k] == Width(dev, k)
  {
    seq(|dev.spec.fields| + 1, k requires 0 <= k < |dev.spec.fields| + 1 => Width(dev, k))
  }

  /** Where column k begins: every column holds capacity rows. */
  function Base(w: seq<nat>, capacity: nat, k: nat): nat
    requires k <= |w|
  {
    if k == 0 then 0 else Base(w, capacity, k - 1) + Offset(capacity, w[k - 1])
  }

  lemma {:induction false} BaseMono(w: seq<nat>, capacity: nat, j: nat, k: nat)
    requires j < k <= |w|
    ensures Base(w, capacity, j) + Offset(capacity, w[j]) <= Base(w, capacity, k)
    decreases k
  {
    if j < k - 1 { BaseMono(w, capacity, j, k - 1); }
  }

  /** Where row r of column k begins. */
  function Slot(w: seq<nat>, capacity: nat, k: nat, r: nat): nat
    requires k < |w|
  {
    Base(w, capacity, k) + Offset(r, w[k])
  }

  lemma SlotWithin(w: seq<nat>, capacity: nat, k: nat, r: nat)
    requires k < |w| && r < capacity
    ensures Slot(w, capacity, k, r) + w[k] <= Base(w, capacity, k) + Offset(capacity, w[k]) <= Base(w, capacity, |w|)
  {
    RowWithin(r, capacity, w[k]);
    BaseMono(w, capacity, k, |w|);
  }

  /** No two slots overlap. */
  lemma SlotsApart(w: seq<nat>, capacity: nat, k: nat, r: nat, k2: nat, r2: nat)
    requires k < |w| && k2 < |w| && r < capacity && r2 < capacity && (k, r) != (k2, r2)
    ensures Slot(w, capacity, k, r) + w[k] <= Slot(w, capacity, k2, r2)
         || Slot(w, capacity, k2, r2) + w[k2] <= Slot(w, capacity, k, r)
  {
    hide Offset;
    SlotWithin(w, capacity, k, r);
    SlotWithin(w, capacity, k2, r2);
    if k < k2 {
      BaseMono(w, capacity, k, k2);
    } else if k2 < k {
      BaseMono(w, capacity, k2, k);
    } else if r < r2 {
      RowWithin(r, r2, w[k]);
    } else {
      RowWithin(r2, r, w[k]);
    }
  }

  function At(data: seq<Byte>, from: nat, n: nat): seq<Byte>
    requires from + n <= |data|
  {
    data[from .. from + n]
  }

  lemma PatchElsewhere(data: seq<Byte>, at: nat, p: seq<Byte>, from: nat, n: nat)
    requires at + |p| <= |data| && from + n <= |data| && (from + n <= at || at + |p| <= from)
    ensures At(Patch(data, at, p), from, n) == At(data, from, n)
  {
  }

  lemma PatchHere(data: seq<Byte>, at: nat, p: seq<Byte>)
    requires at + |p| <= |data|
    ensures At(Patch(data, at, p), at, |p|) == p
  {
  }

  lemma PatchNone(data: seq<Byte>, at: nat)
    requires at <= |data|
    ensures Patch(data, at, []) == data
  {
  }

  lemma PatchNext(data: seq<Byte>, at: nat, p: seq<Byte>, i: nat)
    requires at + |p| <= |data| && i < |p|
    ensures Patch(data, at, p[..i + 1]) == Patch(data, at, p[..i])[at + i := p[i]]
  {
  }

  // ---------------------------------------------------------------- staged chunks

  /** What one execute sees: the number of rows and the bytes of each bound column. */
  datatype Staged = Staged(rows: nat, columns: seq<seq<Byte>>)

  /** The outcome of bindParamBatch and execute. */
  datatype Answer = BindFailed | ExecuteFailed | Accepted(affected: nat, errorRows: nat)

  ghost predicate StagedOk(dev: DeviceDesc, s: Staged) {
    && |s.columns| == |Widths(dev)|
    && forall k | 0 <= k < |s.columns| :: |s.columns[k]| == Offset(s.rows, Widths(dev)[k])
  }

  ghost function StagedSlot(dev: DeviceDesc, s: Staged, k: nat, r: nat): (p: seq<Byte>)
    requires StagedOk(dev, s) && k < |s.columns| && r < s.rows
    ensures |p| == Widths(dev)[k]
  {
    RowWithin(r, s.rows, Widths(dev)[k]);
    At(s.columns[k], Offset(r, Widths(dev)[k]), Widths(dev)[k])
  }

  predicate GoodColumns(dev: DeviceDesc) {
    forall k | 0 <= k < |dev.spec.fields| :: GoodColumn(dev.spec.fields[k])
  }

  /** Row r of a staged chunk as the database reads it. */
  ghost function StagedRow(dev: DeviceDesc, s: Staged, r: nat): Emitted
    requires StagedOk(dev, s) && r < s.rows && GoodColumns(dev)
  {
    Emitted(dev, ReadTs(StagedSlot(dev, s, 0, r)),
            seq(|dev.spec.fields|, k requires 0 <= k < |dev.spec.fields| =>
              ReadCell(dev.spec.fields[k], StagedSlot(dev, s, k + 1, r))))
  }

  ghost function StagedRows(dev: DeviceDesc, s: Staged): seq<Emitted>
    requires StagedOk(dev, s) && GoodColumns(dev)
  {
    seq(s.rows, r requires 0 <= r < s.rows => StagedRow(dev, s, r))
  }

  ghost function AllStaged(dev: DeviceDesc, log: seq<Staged>): seq<Emitted>
    requires GoodColumns(dev) && forall s | s in log :: StagedOk(dev, s)
  {
    if log == [] then [] else AllStaged(dev, log[..|log| - 1]) + StagedRows(dev, log[|log| - 1])
  }

  /** A row after the narrowing casts. */
  function NarrowRow(e: Emitted): Emitted
    requires |e.cells| == |e.dev.spec.fields|
  {
    Emitted(e.dev, Narrow(8, e.ts),
            seq(|e.cells|, k requires 0 <= k < |e.cells| => NarrowCell(e.dev.spec.fields[k], e.cells[k])))
  }

  /** Rows from..from+n of a batch, narrowed. */
  function NarrowRows(b: RowBatch, from: nat, n: nat): seq<Emitted>
    requires b.Valid() && from + n <= |b.ts|
  {
    seq(n, r requires 0 <= r < n => NarrowRow(RowAt(b, from + r)))
  }

  predicate RowReady(e: Emitted) {
    |e.cells| == |e.dev.spec.fields| && forall k | 0 <= k < |e.cells| :: ColumnCell(e.dev.spec.fields[k], e.cells[k])
  }

  predicate BatchReady(b: RowBatch) {
    b.Valid() && GoodColumns(b.dev) && forall i | 0 <= i < |b.ts| :: RowReady(RowAt(b, i))
  }

  /** The bytes of column k for row i of a batch. */
  function ValueBytes(b: RowBatch, k: nat, i: nat): (p: seq<Byte>)
    requires BatchReady(b) && k < |Widths(b.dev)| && i < |b.ts|
    ensures |p| == Widths(b.dev)[k]
  {
    assert RowReady(RowAt(b, i));
    if k == 0 then TsBytes(b.ts[i]) else CellBytes(b.dev.spec.fields[k - 1], RowAt(b, i).cells[k - 1])
  }

  /** A chunk whose slots hold the values of rows from.. reads back as those rows. */
  lemma ChunkReadsBack(b: RowBatch, s: Staged, from: nat)
    requires BatchReady(b) && StagedOk(b.dev, s) && from + s.rows <= |b.ts|
    requires forall k, r | 0 <= k < |s.columns| && 0 <= r < s.rows ::
      StagedSlot(b.dev, s, k, r) == ValueBytes(b, k, from + r)
    ensures StagedRows(b.dev, s) == NarrowRows(b, from, s.rows)
  {
    hide ReadCell, CellBytes, ColumnCell, ReadTs, TsBytes, Narrow, NarrowCell, Offset, RowAt;
    forall r | 0 <= r < s.rows
      ensures StagedRow(b.dev, s, r) == NarrowRow(RowAt(b, from + r))
    {
      RowReadsBack(b, s, from, r);
    }
  }

  lemma RowReadsBack(b: RowBatch, s: Staged, from: nat, r: nat)
    requires BatchReady(b) && StagedOk(b.dev, s) && from + s.rows <= |b.ts| && r < s.rows
    requires forall k | 0 <= k < |s.columns| :: StagedSlot(b.dev, s, k, r) == ValueBytes(b, k, from + r)
    ensures StagedRow(b.dev, s, r) == NarrowRow(RowAt(b, from + r))
  {
    var x, y := StagedRow(b.dev, s, r), NarrowRow(RowAt(b, from + r));
    assert x.dev == y.dev && |x.cells| == |y.cells| == |b.dev.spec.fields| by { hide RowAt; }
    assert x.ts == y.ts by { TsPart(b, s, from, r); }
    hide StagedRow, NarrowRow, RowAt, BatchReady, StagedOk;
    forall k | 0 <= k < |x.cells|
      ensures x.cells[k] == y.cells[k]
    {
      CellPart(b, s, from, r, k);
    }
  }

  lemma TsPart(b: RowBatch, s: Staged, from: nat, r: nat)
    requires BatchReady(b) && StagedOk(b.dev, s) && from + s.rows <= |b.ts| && r < s.rows
    requires StagedSlot(b.dev, s, 0, r) == ValueBytes(b, 0, from + r)
    ensures StagedRow(b.dev, s, r).ts == NarrowRow(RowAt(b, from + r)).ts
  {
    hide ReadTs, Narrow, ReadCell, NarrowCell, StagedSlot, RowAt, ValueBytes, Offset, RowReady, GoodColumn;
    ValueReadsBack(b, 0, from + r);
  }

  lemma CellPart(b: RowBatch, s: Staged, from: nat, r: nat, k: nat)
    requires BatchReady(b) && StagedOk(b.dev, s) && from + s.rows <= |b.ts| && r < s.rows && k < |b.dev.spec.fields|
    requires StagedSlot(b.dev, s, k + 1, r) == ValueBytes(b, k + 1, from + r)
    ensures StagedRow(b.dev, s, r).cells[k] == NarrowRow(RowAt(b, from + r)).cells[k]
  {
    hide ReadTs, Narrow, ReadCell, NarrowCell, StagedSlot, RowAt, ValueBytes, Offset, RowReady, GoodColumn;
    ValueReadsBack(b, k + 1, from + r);
  }

  lemma ValueReadsBack(b: RowBatch, k: nat, i: nat)
    requires BatchReady(b) && k < |Widths(b.dev)| && i < |b.ts|
    ensures k == 0 ==> ReadTs(ValueBytes(b, k, i)) == Narrow(8, b.ts[i])
    ensures k > 0 ==>
      var f := b.dev.spec.fields[k - 1];
      f.outSize > 0 && ReadCell(f, ValueBytes(b, k, i)) == NarrowCell(f, RowAt(b, i).cells[k - 1])
  {
    hide ReadCell, CellBytes, ColumnCell, ReadTs, TsBytes, Narrow, NarrowCell, Offset, RowAt;
    assert RowReady(RowAt(b, i));
    if k == 0 {
      TsReadsBack(b.ts[i]);
    } else {
      CellReadsBack(b.dev.spec.fields[k - 1], RowAt(b, i).cells[k - 1]);
    }
  }

  // ---------------------------------------------------------------- the staging buffer

  /** Slots 0..n of column k hold the values of rows from.. of the batch. */
  ghost predicate ColumnHolds(b: RowBatch, capacity: nat, data: seq<Byte>, k: nat, from: nat, n: nat)
    requires BatchReady(b) && k < |Widths(b.dev)| && from + n <= |b.ts| && n <= capacity
    requires |data| == Base(Widths(b.dev), capacity, |Widths(b.dev)|)
  {
    forall r | 0 <= r < n ::
      SlotWithin(Widths(b.dev), capacity, k, r);
      At(data, Slot(Widths(b.dev), capacity, k, r), Widths(b.dev)[k]) == ValueBytes(b, k, from + r)
  }

  /** Storing one value fills its slot and leaves every other slot alone. */
  lemma StoreOne(b: RowBatch, capacity: nat, data: seq<Byte>, k: nat, from: nat, r: nat, j: nat, n: nat)
    requires BatchReady(b) && k < |Widths(b.dev)| && j < |Widths(b.dev)| && r < capacity && n <= capacity
    requires from + n <= |b.ts| && from + r < |b.ts| && (j == k ==> n == r)
    requires |data| == Base(Widths(b.dev), capacity, |Widths(b.dev)|)
    requires ColumnHolds(b, capacity, data, j, from, n)
    ensures Slot(Widths(b.dev), capacity, k, r) + Widths(b.dev)[k] <= |data|
    ensures ColumnHolds(b, capacity, Patch(data, Slot(Widths(b.dev), capacity, k, r), ValueBytes(b, k, from + r)),
                        j, from, if j == k then n + 1 else n)
  {
    hide Slot, Offset, Base, ValueBytes, Widths, BatchReady, RowAt;
    var w := Widths(b.dev);
    SlotWithin(w, capacity, k, r);
    var p := ValueBytes(b, k, from + r);
    var after := Patch(data, Slot(w, capacity, k, r), p);
    PatchHere(data, Slot(w, capacity, k, r), p);
    forall i | 0 <= i < n
      ensures Slot(w, capacity, j, i) + w[j] <= |data|
      ensures At(after, Slot(w, capacity, j, i), w[j]) == ValueBytes(b, j, from + i)
    {
      SlotWithin(w, capacity, j, i);
      SlotsApart(w, capacity, k, r, j, i);
      PatchElsewhere(data, Slot(w, capacity, k, r), p, Slot(w, capacity, j, i), w[j]);
    }
  }

  ghost predicate ColumnsHold(b: RowBatch, capacity: nat, data: seq<Byte>, upTo: nat, from: nat, n: nat)
    requires BatchReady(b) && upTo <= |Widths(b.dev)| && from + n <= |b.ts| && n <= capacity
    requires |data| == Base(Widths(b.dev), capacity, |Widths(b.dev)|)
  {
    forall j | 0 <= j < upTo :: ColumnHolds(b, capacity, data, j, from, n)
  }

  /** The bound columns of a filled buffer hold the rows. */
  ghost predicate Bound(b: RowBatch, s: Staged, from: nat)
    requires BatchReady(b) && from + s.rows <= |b.ts|
  {
    && StagedOk(b.dev, s)
    && forall k, r | 0 <= k < |s.columns| && 0 <= r < s.rows :: StagedSlot(b.dev, s, k, r) == ValueBytes(b, k, from + r)
  }

  lemma ColumnReads(data: seq<Byte>, base: nat, at: nat, len: nat, n: nat)
    requires base + len <= |data| && at + n <= len
    ensures At(data[base .. base + len], at, n) == At(data, base + at, n)
  {
    var column := data[base .. base + len];
    var x, y := column[at .. at + n], data[base + at .. base + at + n];
    assert forall i | 0 <= i < n :: x[i] == y[i];
  }

  lemma BoundHolds(b: RowBatch, capacity: nat, data: seq<Byte>, s: Staged, from: nat)
    requires BatchReady(b) && from + s.rows <= |b.ts| && s.rows <= capacity
    requires |data| == Base(Widths(b.dev), capacity, |Widths(b.dev)|)
    requires ColumnsHold(b, capacity, data, |Widths(b.dev)|, from, s.rows)
    requires |s.columns| == |Widths(b.dev)|
    requires forall k | 0 <= k < |s.columns| ::
      && Base(Widths(b.dev), capacity, k) + Offset(s.rows, Widths(b.dev)[k]) <= |data|
      && s.columns[k] == At(data, Base(Widths(b.dev), capacity, k), Offset(s.rows, Widths(b.dev)[k]))
    ensures Bound(b, s, from)
  {
    hide Offset, Base, ValueBytes, Widths, BatchReady, RowAt;
    var w := Widths(b.dev);
    assert StagedOk(b.dev, s);
    forall k, r | 0 <= k < |s.columns| && 0 <= r < s.rows
      ensures StagedSlot(b.dev, s, k, r) == ValueBytes(b, k, from + r)
    {
      assert ColumnHolds(b, capacity, data, k, from, s.rows);
      SlotWithin(w, capacity, k, r);
      RowWithin(r, s.rows, w[k]);
      ColumnReads(data, Base(w, capacity, k), Offset(r, w[k]), Offset(s.rows, w[k]), w[k]);
    }
  }

  /** Cell k of row i in the flattened batch. */
  lemma FlatCell(b: RowBatch, i: nat, k: nat)
    requires b.Valid() && i < |b.ts| && k < b.FieldCount()
    ensures Offset(i, b.FieldCount()) + k < |b.cells| && b.cells[Offset(i, b.FieldCount()) + k] == RowAt(b, i).cells[k]
  {
    RowWithin(i, |b.ts|, b.FieldCount());
    hide Offset;
  }

  lemma ValueIs(b: RowBatch, k: nat, i: nat)
    requires BatchReady(b) && k < |Widths(b.dev)| && i < |b.ts|
    ensures k == 0 ==> ValueBytes(b, k, i) == TsBytes(b.ts[i])
    ensures k > 0 ==>
      var at := Offset(i, b.FieldCount()) + (k - 1);
      && at < |b.cells| && ColumnCell(b.dev.spec.fields[k - 1], b.cells[at])
      && ValueBytes(b, k, i) == CellBytes(b.dev.spec.fields[k - 1], b.cells[at])
  {
    hide CellBytes, TsBytes, ColumnCell;
    assert RowReady(RowAt(b, i));
    hide RowAt, Offset;
    if k > 0 { FlatCell(b, i, k - 1); }
  }

  /** The writer's counters. */
  datatype Stats = Stats(rowsWritten: nat, batchesWritten: nat, writeErrors: nat)

  /** A refused chunk is one error; an executed one adds its affected and its rejected rows. */
  function Counted(s: Stats, a: Answer): Stats {
    match a
    case Accepted(affected, errorRows) =>
      Stats(s.rowsWritten + affected, s.batchesWritten + 1, s.writeErrors + errorRows)
    case _ => s.(writeErrors := s.writeErrors + 1)
  }

  function CountedAll(s: Stats, answers: seq<Answer>): Stats {
    if answers == [] then s else Counted(CountedAll(s, answers[..|answers| - 1]), answers[|answers| - 1])
  }

  function AffectedRows(answers: seq<Answer>): nat {
    if answers == [] then 0
    else (if answers[0].Accepted? then answers[0].affected else 0) + AffectedRows(answers[1..])
  }

  function RejectedRows(answers: seq<Answer>): nat {
    if answers == [] then 0
    else (if answers[0].Accepted? then answers[0].errorRows else 0) + RejectedRows(answers[1..])
  }

  function Executed(answers: seq<Answer>): nat {
    if answers == [] then 0 else (if answers[0].Accepted? then 1 else 0) + Executed(answers[1..])
  }

  lemma {:induction false} SumsSnoc(answers: seq<Answer>, a: Answer)
    ensures AffectedRows(answers + [a]) == AffectedRows(answers) + if a.Accepted? then a.affected else 0
    ensures RejectedRows(answers + [a]) == RejectedRows(answers) + if a.Accepted? then a.errorRows else 0
    ensures Executed(answers + [a]) == Executed(answers) + if a.Accepted? then 1 else 0
  {
    if answers == [] {
      assert [a][1..] == [];
    } else {
      assert (answers + [a])[1..] == answers[1..] + [a];
      SumsSnoc(answers[1..], a);
    }
  }

  /** The counters account for every answer of the database: executed chunks and refused ones make up
      the chunks, and the rows are the sums over the executed ones. */
  lemma {:induction false} CountersBalance(s: Stats, answers: seq<Answer>)
    ensures var t := CountedAll(s, answers);
      && t.batchesWritten == s.batchesWritten + Executed(answers)
      && t.rowsWritten == s.rowsWritten + AffectedRows(answers)
      && t.writeErrors == s.writeErrors + RejectedRows(answers) + |answers| - Executed(answers)
    decreases |answers|
  {
    if answers != [] {
      var front, last := answers[..|answers| - 1], answers[|answers| - 1];
      CountersBalance(s, front);
      SumsSnoc(front, last);
      assert answers == front + [last];
    }
  }

  lemma CountNext(s: Stats, answers: seq<Answer>, i: nat)
    requires i < |answers|
    ensures CountedAll(s, answers[..i + 1]) == Counted(CountedAll(s, answers[..i]), answers[i])
  {
    assert answers[..i + 1][..i] == answers[..i];
  }

  /** The column bases and the size of the staging buffer. */
  method Layout(w: seq<nat>, capacity: nat) returns (bases: seq<nat>, size: nat)
    ensures |bases| == |w| && forall k | 0 <= k < |w| :: bases[k] == Base(w, capacity, k)
    ensures size == Base(w, capacity, |w|)
  {
    hide Offset;
    bases, size := [], 0;
    for k := 0 to |w|
      invariant |bases| == k && size == Base(w, capacity, k)
      invariant forall j | 0 <= j < k :: bases[j] == Base(w, capacity, j)
    {
      bases, size := bases + [size], size + Offset(capacity, w[k]);
    }
  }

  /** Sink: the staging buffer and statement of one device, with the writer's counters. */
  class Sink {
    const dev: DeviceDesc
    const capacity: nat
    const colBase: seq<nat>
    const data: array<Byte>
    var stats: Stats

    ghost predicate Valid() {
      && capacity > 0 && GoodColumns(dev) && |colBase| == |Widths(dev)|
      && (forall k | 0 <= k < |colBase| :: colBase[k] == Base(Widths(dev), capacity, k))
      && data.Length == Base(Widths(dev), capacity, |Widths(dev)|)
    }

    /** prepareSink: the columns follow one another without gap or overlap. */
    constructor (d: DeviceDesc, batchRows: int)
      requires GoodColumns(d)
      ensures Valid() && dev == d && capacity == (if batchRows > 0 then batchRows else 1) && fresh(data)
      ensures stats == Stats(0, 0, 0)
    {
      hide Offset, Base;
      var cap := if batchRows > 0 then batchRows else 1;
      var bases, off := Layout(Widths(d), cap);
      dev, capacity, colBase := d, cap, bases;
      data := new Byte[off](_ => 0);
      stats := Stats(0, 0, 0);
    }

    /** memcpy into the staging buffer. */
    method Store(at: nat, p: seq<Byte>)
      requires at + |p| <= data.Length
      modifies data
      ensures data[..] == Patch(old(data[..]), at, p)
    {
      hide Patch;
      PatchNone(data[..], at);
      assert p[..0] == [];
      for i := 0 to |p|
        invariant data[..] == Patch(old(data[..]), at, p[..i])
      {
        PatchNext(old(data[..]), at, p, i);
        data[at + i] := p[i];
      }
      assert p[..|p|] == p;
    }

    /** One column of a chunk, row by row. */
    method StageColumn(b: RowBatch, k: nat, from: nat, n: nat)
      requires Valid() && b.dev == dev && BatchReady(b) && k < |Widths(dev)| && from + n <= |b.ts| && n <= capacity
      requires ColumnsHold(b, capacity, data[..], k, from, n)
      modifies data
      ensures ColumnsHold(b, capacity, data[..], k + 1, from, n)
    {
      hide Offset, Base, Slot, ValueBytes, BatchReady, RowAt, ColumnHolds;
      NothingHeld(b, capacity, data[..], k, from);
      for r := 0 to n
        invariant ColumnsHold(b, capacity, data[..], k, from, n)
        invariant ColumnHolds(b, capacity, data[..], k, from, r)
      {
        var p := Value(b, k, from + r);
        ghost var before := data[..];
        StoreOne(b, capacity, before, k, from, r, k, r);
        forall j | 0 <= j < k
          ensures ColumnHolds(b, capacity, Patch(before, Slot(Widths(dev), capacity, k, r), p), j, from, n)
        {
          StoreOne(b, capacity, before, k, from, r, j, n);
        }
        SlotIs(Widths(dev), capacity, k, r);
        Store(colBase[k] + Offset(r, Widths(dev)[k]), p);
      }
    }

    /** The bytes of one value, read from the flattened batch. */
    method Value(b: RowBatch, k: nat, i: nat) returns (p: seq<Byte>)
      requires BatchReady(b) && k < |Widths(b.dev)| && i < |b.ts|
      ensures p == ValueBytes(b, k, i)
    {
      ValueIs(b, k, i);
      hide Offset, CellBytes, TsBytes, ColumnCell, BatchReady, ValueBytes;
      if k == 0 { return TsBytes(b.ts[i]); }
      p := CellBytes(b.dev.spec.fields[k - 1], b.cells[Offset(i, b.FieldCount()) + (k - 1)]);
    }

    /** One chunk: stage all columns and bind them. */
    method StageChunk(b: RowBatch, from: nat, n: nat) returns (s: Staged)
      requires Valid() && b.dev == dev && BatchReady(b) && from + n <= |b.ts| && n <= capacity
      modifies data
      ensures s.rows == n && Bound(b, s, from)
    {
      hide Offset, Base, ValueBytes, BatchReady, RowAt, ColumnHolds, Bound;
      for k := 0 to |Widths(dev)|
        invariant ColumnsHold(b, capacity, data[..], k, from, n)
      {
        StageColumn(b, k, from, n);
      }
      var columns := Bind(n);
      s := Staged(n, columns);
      BoundHolds(b, capacity, data[..], s, from);
    }

    /** The binds: for each column the first n values from its base. */
    method Bind(n: nat) returns (columns: seq<seq<Byte>>)
      requires Valid() && n <= capacity
      ensures |columns| == |Widths(dev)|
      ensures forall k | 0 <= k < |columns| ::
        && Base(Widths(dev), capacity, k) + Offset(n, Widths(dev)[k]) <= data.Length
        && columns[k] == At(data[..], Base(Widths(dev), capacity, k), Offset(n, Widths(dev)[k]))
    {
      hide Offset, Base, Widths;
      columns := [];
      for k := 0 to |Widths(dev)|
        invariant |columns| == k
        invariant forall j | 0 <= j < k ::
          && Base(Widths(dev), capacity, j) + Offset(n, Widths(dev)[j]) <= data.Length
          && columns[j] == At(data[..], Base(Widths(dev), capacity, j), Offset(n, Widths(dev)[j]))
      {
        BindWithin(Widths(dev), capacity, k, n);
        columns := columns + [data[colBase[k] .. colBase[k] + Offset(n, Widths(dev)[k])]];
      }
    }

    /** writeBatch: however large the batch, each row is staged once, in order, and every chunk
        reads back as its rows of the batch after the narrowing casts. Every chunk but the last is
        full. */
    method WriteBatch(b: RowBatch, answers: seq<Answer>) returns (log: seq<Staged>)
      requires Valid() && b.dev == dev && BatchReady(b) && |b.ts| <= |answers|
      modifies this, data
      ensures |log| <= |answers| && forall s | s in log :: StagedOk(dev, s) && 0 < s.rows <= capacity
      ensures AllStaged(dev, log) == NarrowRows(b, 0, |b.ts|)
      ensures forall i | 0 <= i < |log| - 1 :: log[i].rows == capacity
      ensures stats == CountedAll(old(stats), answers[..|log|])
    {
      log := WriteChunks(b, answers);
    }

    /** The chunk loop of writeBatch; a chunk that cannot be bound is skipped like any other. */
    method WriteChunks(b: RowBatch, answers: seq<Answer>) returns (log: seq<Staged>)
      requires Valid() && b.dev == dev && BatchReady(b) && |b.ts| <= |answers|
      modifies this, data
      ensures |log| <= |answers| && Progress(b, capacity, log, |b.ts|)
      ensures stats == CountedAll(old(stats), answers[..|log|])
    {
      hide Valid, BatchReady, Progress, Counted, CountedAll, Base, Offset, Widths, GoodColumns;
      NoneStaged(b, capacity);
      log := [];
      var done: nat := 0;
      while done < |b.ts|
        invariant 0 <= done <= |b.ts| && |log| <= done && Progress(b, capacity, log, done)
        invariant stats == CountedAll(old(stats), answers[..|log|])
      {
        var s := WriteChunk(b, log, done, answers[|log|]);
        CountNext(old(stats), answers, |log|);
        log, done := log + [s], done + s.rows;
      }
    }

    method WriteChunk(b: RowBatch, ghost log: seq<Staged>, done: nat, answer: Answer) returns (s: Staged)
      requires Valid() && b.dev == dev && BatchReady(b) && done < |b.ts| && Progress(b, capacity, log, done)
      modifies this, data
      ensures 0 < s.rows && done + s.rows <= |b.ts| && Progress(b, capacity, log + [s], done + s.rows)
      ensures stats == Counted(old(stats), answer)
    {
      assert capacity > 0;
      hide Valid, BatchReady, Bound, Progress, Base, Offset, Widths, GoodColumns;
      var n := if |b.ts| - done < capacity then |b.ts| - done else capacity;
      s := StageChunk(b, done, n);
      ChunkAppends(b, capacity, log, s, done);
      match answer
      case Accepted(affected, errorRows) =>
        stats := Stats(stats.rowsWritten + affected, stats.batchesWritten + 1, stats.writeErrors + errorRows);
      case _ =>
        stats := stats.(writeErrors := stats.writeErrors + 1);
    }
  }

  /** The chunks so far hold the first rows of the batch. */
  ghost predicate Progress(b: RowBatch, capacity: nat, log: seq<Staged>, done: nat)
    requires BatchReady(b) && done <= |b.ts|
  {
    && (forall s | s in log :: StagedOk(b.dev, s) && 0 < s.rows <= capacity)
    && AllStaged(b.dev, log) == NarrowRows(b, 0, done)
    && forall i | 0 <= i < |log| && (i < |log| - 1 || done < |b.ts|) :: log[i].rows == capacity
  }

  lemma NothingHeld(b: RowBatch, capacity: nat, data: seq<Byte>, k: nat, from: nat)
    requires BatchReady(b) && k < |Widths(b.dev)| && from <= |b.ts|
    requires |data| == Base(Widths(b.dev), capacity, |Widths(b.dev)|)
    ensures ColumnHolds(b, capacity, data, k, from, 0)
  {
  }

  lemma SlotIs(w: seq<nat>, capacity: nat, k: nat, r: nat)
    requires k < |w|
    ensures Slot(w, capacity, k, r) == Base(w, capacity, k) + Offset(r, w[k])
  {
  }

  lemma BindWithin(w: seq<nat>, capacity: nat, k: nat, n: nat)
    requires k < |w| && n <= capacity
    ensures Base(w, capacity, k) + Offset(n, w[k]) <= Base(w, capacity, |w|)
  {
    BaseMono(w, capacity, k, |w|);
    if n < capacity { RowWithin(n, capacity, w[k]); }
  }

  lemma NoneStaged(b: RowBatch, capacity: nat)
    requires BatchReady(b)
    ensures Progress(b, capacity, [], 0) && forall s :: CountedAll(s, []) == s
  {
  }

  lemma ChunkAppends(b: RowBatch, capacity: nat, log: seq<Staged>, s: Staged, done: nat)
    requires BatchReady(b) && 0 < s.rows <= capacity && done + s.rows <= |b.ts| && Bound(b, s, done)
    requires Progress(b, capacity, log, done) && (s.rows == capacity || done + s.rows == |b.ts|)
    ensures Progress(b, capacity, log + [s], done + s.rows)
  {
    ChunkReadsBack(b, s, done);
    hide StagedRows, NarrowRow, RowAt;
    assert (log + [s])[..|log|] == log;
    assert NarrowRows(b, 0, done + s.rows) == NarrowRows(b, 0, done) + NarrowRows(b, done, s.rows);
  }

  /** Rows decoded from the wire are stored exactly: narrowing does not change them. */
  lemma DecodedRowKept(spec: FrameSpec, be: bool, payload: seq<Byte>, e: Emitted)
    requires GoodSpec(spec) && FieldsFit(spec.fields, |payload|)
    requires forall i | 0 <= i < |spec.fields| :: LoadedField(spec.fields[i])
    requires e.dev.spec == spec && e.cells == DecodeRow(spec, be, payload) && 0 - Pow2(63) <= e.ts < Pow2(63)
    ensures RowReady(e) && NarrowRow(e) == e
  {
    hide DecodeCell, NarrowCell, ColumnCell, LoadedField, Pow2;
    CastKeeps(e.ts, 64);
    forall k | 0 <= k < |e.cells|
      ensures ColumnCell(spec.fields[k], e.cells[k]) && NarrowCell(spec.fields[k], e.cells[k]) == e.cells[k]
    {
      DecodedFits(spec.fields[k], FieldBytes(spec.fields[k], payload), be);
    }
  }
}
