/** The parser thread of src/adapter/ParserWorker.cpp: each chunk is decoded by its endpoint's
    stream, the rows go to per-device batches, and batches go to the writer. */
module ParserWorker {
  import opened Common
  import opened DeviceModel
  import opened FieldCodec
  import opened StreamSlicer
  import opened FrameCodec
  import opened StreamLaws
  import opened Pipeline
  import opened RoundTrip
  import Modbus = ModbusRoundTrip

  /** The devices sharing one endpoint; the first one is the primary. */
  type Group = seq<DeviceDesc>

  predicate IsModbus(g: Group) { g != [] && g[0].connProto == CONN_MODBUS }

  /** One chunk through the codec of its group. */
  ghost function GroupCall(g: Group, st: Stream, data: seq<Byte>): Stream
    requires GoodGroup(g)
  {
    if IsModbus(g) then ModbusCall(g[0], st, data)
    else
      CustomSound(g);
      Feed(CustomSlicer(g), st, data)
  }

  /** The rows that one chunk adds. */
  ghost function GroupRows(g: Group, buf: seq<Byte>): seq<Row>
    requires GoodGroup(g)
  {
    if IsModbus(g) then ModbusRows(g[0], buf)
    else
      CustomSound(g);
      Scan(CustomSlicer(g), buf).0.rows
  }

  lemma GroupCallRows(g: Group, st: Stream, data: seq<Byte>)
    requires GoodGroup(g)
    ensures GroupCall(g, st, data).done.rows == st.done.rows + GroupRows(g, st.buf + data)
  {
    hide Scan, Sound, CustomStep, ModbusStep;
    if IsModbus(g) {
      if GoodModbus(g[0]) { ModbusSound(g[0]); }
    } else {
      CustomSound(g);
    }
  }

  /** Rows as the sink expects them: one cell per field of a member of the group. */
  predicate Fitting(g: Group, r: Row) { r.dev in g && |r.cells| == |r.dev.spec.fields| }

  lemma {:induction false} ScanFitting(g: Group, slice: Slicer, buf: seq<Byte>)
    requires Sound(slice) && forall b, r | r in Count(slice(b)).rows :: Fitting(g, r)
    ensures forall r | r in Scan(slice, buf).0.rows :: Fitting(g, r)
    decreases |buf|
  {
    var s := slice(buf);
    if s != NeedMore {
      ScanFitting(g, slice, buf[Advance(s)..]);
    }
  }

  lemma CustomFitting(g: Group, b: seq<Byte>, r: Row)
    requires GoodGroup(g) && r in Count(CustomStep(g, b)).rows
    ensures Fitting(g, r)
  {
    hide DecodeCell, PayloadMin;
  }

  lemma ModbusFitting(g: Group, b: seq<Byte>, r: Row)
    requires GoodGroup(g) && IsModbus(g) && GoodModbus(g[0]) && r in Count(ModbusStep(g[0], b)).rows
    ensures Fitting(g, r)
  {
    hide DecodeCell, PayloadMin;
  }

  lemma GroupFitting(g: Group, buf: seq<Byte>)
    requires GoodGroup(g)
    ensures forall r | r in GroupRows(g, buf) :: Fitting(g, r)
  {
    hide Scan, Sound, CustomStep, ModbusStep, Fitting;
    if IsModbus(g) {
      if GoodModbus(g[0]) {
        ModbusSound(g[0]);
        forall b, r | r in Count(ModbusSlicer(g[0])(b)).rows ensures Fitting(g, r) { ModbusFitting(g, b, r); }
        ScanFitting(g, ModbusSlicer(g[0]), buf);
      }
    } else {
      CustomSound(g);
      forall b, r | r in Count(CustomSlicer(g)(b)).rows ensures Fitting(g, r) { CustomFitting(g, b, r); }
      ScanFitting(g, CustomSlicer(g), buf);
    }
  }

  ghost function GroupRun(g: Group, st: Stream, chunks: seq<seq<Byte>>): Stream
    requires GoodGroup(g)
    decreases |chunks|
  {
    if chunks == [] then st
    else GroupCall(g, GroupRun(g, st, chunks[..|chunks| - 1]), chunks[|chunks| - 1])
  }

  // ---------------------------------------------------------------- rows of one group

  /** The rows of one group in the log, without their time stamps. */
  function OfGroup(log: seq<Emitted>, g: Group): seq<Row> {
    if log == [] then []
    else
      var last := log[|log| - 1];
      OfGroup(log[..|log| - 1], g) + (if last.dev in g then [Row(last.dev, last.cells)] else [])
  }

  lemma OfGroupSnoc(log: seq<Emitted>, e: Emitted, g: Group)
    ensures OfGroup(log + [e], g) == OfGroup(log, g) + if e.dev in g then [Row(e.dev, e.cells)] else []
  {
    assert (log + [e])[..|log|] == log;
  }

  predicate NoShared(g: Group, h: Group) { forall d | d in g :: d !in h }

  /** Rows of g extend the rows of g and leave those of every other group alone. */
  lemma {:induction false} OfGroupAppend(log: seq<Emitted>, rows: seq<Row>, ts: int, g: Group, h: Group)
    requires (forall r | r in rows :: r.dev in g) && (g == h || NoShared(g, h))
    ensures OfGroup(log + Stamp(rows, ts), h) == OfGroup(log, h) + if g == h then rows else []
    decreases |rows|
  {
    hide OfGroup;
    if rows == [] {
      assert log + Stamp(rows, ts) == log;
    } else {
      var n := |rows| - 1;
      var front, last := rows[..n], rows[n];
      OfGroupAppend(log, front, ts, g, h);
      var e := Emitted(last.dev, ts, last.cells);
      assert log + Stamp(rows, ts) == (log + Stamp(front, ts)) + [e];
      OfGroupSnoc(log + Stamp(front, ts), e, h);
      assert rows == front + [last];
    }
  }

  // ---------------------------------------------------------------- pending rows

  ghost predicate BatchesOk(batches: map<DeviceDesc, RowBatch>) {
    forall d | d in batches :: batches[d].Valid() && batches[d].dev == d
  }

  ghost predicate WrittenOk(written: seq<RowBatch>) { forall b | b in written :: b.Valid() }

  ghost function PendingFor(batches: map<DeviceDesc, RowBatch>, d: DeviceDesc): seq<Emitted>
    requires BatchesOk(batches)
  {
    if d in batches then Rows(batches[d]) else []
  }

  /** What the writer got for a device, followed by what is still pending, is what was decoded for
      it, in order. */
  ghost predicate Conserved(written: seq<RowBatch>, batches: map<DeviceDesc, RowBatch>, log: seq<Emitted>) {
    && BatchesOk(batches) && WrittenOk(written)
    && forall d :: WrittenFor(written, d) + PendingFor(batches, d) == OfDevice(log, d)
  }

  lemma AppendConserves(written: seq<RowBatch>, batches: map<DeviceDesc, RowBatch>, log: seq<Emitted>, e: Emitted)
    requires Conserved(written, batches, log) && |e.cells| == |e.dev.spec.fields|
    ensures var b := if e.dev in batches then batches[e.dev] else EmptyBatch(e.dev);
      Conserved(written, batches[e.dev := b.PushRow(e.ts, e.cells)], log + [e])
  {
    var b := if e.dev in batches then batches[e.dev] else EmptyBatch(e.dev);
    PushRowAppends(b, e.ts, e.cells);
    hide Rows;
    var after := batches[e.dev := b.PushRow(e.ts, e.cells)];
    assert e.dev !in batches ==> Rows(b) == [] by { NoRows(e.dev); }
    forall d
      ensures WrittenFor(written, d) + PendingFor(after, d) == OfDevice(log + [e], d)
    {
      OfDeviceSnoc(log, e, d);
      assert WrittenFor(written, d) + PendingFor(batches, d) == OfDevice(log, d);
    }
  }

  lemma NoRows(d: DeviceDesc)
    ensures Rows(EmptyBatch(d)) == []
  {
  }

  lemma FlushConserves(written: seq<RowBatch>, batches: map<DeviceDesc, RowBatch>, log: seq<Emitted>, dev: DeviceDesc)
    requires Conserved(written, batches, log) && dev in batches
    ensures Conserved(written + [batches[dev]], batches[dev := EmptyBatch(dev)], log)
  {
    hide Rows;
    NoRows(dev);
    var after, sent := batches[dev := EmptyBatch(dev)], written + [batches[dev]];
    forall d
      ensures WrittenOk(sent) && WrittenFor(sent, d) + PendingFor(after, d) == OfDevice(log, d)
    {
      WrittenSnoc(written, batches[dev], d);
      assert WrittenFor(written, d) + PendingFor(batches, d) == OfDevice(log, d);
    }
  }

  /** Nothing in this batch is due: no rows, or too few rows of a device that may wait. */
  predicate MayWait(b: RowBatch, batchRows: nat) {
    |b.ts| == 0 || (!b.dev.immediateFlush && |b.ts| < batchRows)
  }

  /** A batch that leaves while chunks are coming: status rows, or as many rows as a batch should hold. */
  predicate Due(b: RowBatch, batchRows: nat) {
    |b.ts| > 0 && (b.dev.immediateFlush || |b.ts| >= batchRows)
  }

  /** Rows with one cell per field, as pushRow copies them. */
  ghost predicate Storable(out: seq<Emitted>) {
    forall i | 0 <= i < |out| :: |out[i].cells| == |out[i].dev.spec.fields|
  }

  // ---------------------------------------------------------------- streams

  ghost predicate GroupsOk(groups: set<Group>) {
    && (forall g | g in groups :: GoodGroup(g))
    && (forall g, h | g in groups && h in groups && g != h :: NoShared(g, h))
  }

  /** Each stream is what its chunks make of a fresh one, and its rows are those decoded for it. */
  ghost predicate StreamsMatch(groups: set<Group>, fed: map<Group, seq<seq<Byte>>>, views: map<Group, Stream>,
                               decoded: seq<Emitted>) {
    && GroupsOk(groups) && fed.Keys == views.Keys <= groups
    && (forall g | g in views :: views[g] == GroupRun(g, FRESH, fed[g]) && OfGroup(decoded, g) == views[g].done.rows)
    && (forall g | g in groups && g !in views :: OfGroup(decoded, g) == [])
  }

  function Delivered(fed: map<Group, seq<seq<Byte>>>, g: Group, data: seq<Byte>): map<Group, seq<seq<Byte>>> {
    fed[g := (if g in fed then fed[g] else []) + [data]]
  }

  lemma OpenMatches(groups: set<Group>, fed: map<Group, seq<seq<Byte>>>, views: map<Group, Stream>,
                    decoded: seq<Emitted>, g: Group)
    requires StreamsMatch(groups, fed, views, decoded) && g in groups
    ensures g in views <==> g in fed
    ensures g !in views ==> StreamsMatch(groups, fed[g := []], views[g := FRESH], decoded)
  {
    hide OfGroup, NoShared, GoodGroup;
  }

  lemma AdvanceMatches(groups: set<Group>, fed: map<Group, seq<seq<Byte>>>, views: map<Group, Stream>,
                       decoded: seq<Emitted>,
                       g: Group, data: seq<Byte>, ts: int)
    requires StreamsMatch(groups, fed, views, decoded) && g in views
    ensures g in fed && GoodGroup(g)
    ensures var out := Stamp(GroupRows(g, views[g].buf + data), ts);
      && Storable(out)
      && StreamsMatch(groups, fed[g := fed[g] + [data]], views[g := GroupCall(g, views[g], data)], decoded + out)
  {
    hide OfGroup, GroupCall, GroupRun, GroupRows, GoodGroup;
    var rows := GroupRows(g, views[g].buf + data);
    GroupCallRows(g, views[g], data);
    GroupFitting(g, views[g].buf + data);
    StampStorable(g, rows, ts);
    RunSnoc(g, fed[g], data);
    forall h | h in groups
      ensures OfGroup(decoded + Stamp(rows, ts), h) == OfGroup(decoded, h) + if g == h then rows else []
    {
      OfGroupAppend(decoded, rows, ts, g, h);
    }
  }

  lemma StampStorable(g: Group, rows: seq<Row>, ts: int)
    requires forall r | r in rows :: Fitting(g, r)
    ensures Storable(Stamp(rows, ts))
  {
    assert forall i | 0 <= i < |rows| :: rows[i] in rows;
  }

  function StreamOf(views: map<Group, Stream>, g: Group): Stream { if g in views then views[g] else FRESH }

  lemma Overwrite<T>(m: map<Group, T>, g: Group, a: T, b: T)
    ensures m[g := a][g] == a && m[g := a][g := b] == m[g := b]
  {
  }

  lemma DeliverMatches(groups: set<Group>, fed: map<Group, seq<seq<Byte>>>, views: map<Group, Stream>,
                       decoded: seq<Emitted>,
                       g: Group, data: seq<Byte>, ts: int)
    requires StreamsMatch(groups, fed, views, decoded) && g in groups
    ensures GoodGroup(g)
    ensures var out := Stamp(GroupRows(g, StreamOf(views, g).buf + data), ts);
      && Storable(out)
      && StreamsMatch(groups, Delivered(fed, g, data),
                      views[g := GroupCall(g, StreamOf(views, g), data)], decoded + out)
  {
    OpenMatches(groups, fed, views, decoded, g);
    assert GoodGroup(g);
    hide StreamsMatch, GroupCall, GroupRows, Storable, Stamp, GoodGroup;
    if g in views {
      AdvanceMatches(groups, fed, views, decoded, g, data, ts);
    } else {
      AdvanceMatches(groups, fed[g := []], views[g := FRESH], decoded, g, data, ts);
      Overwrite(fed, g, [], [] + [data]);
      Overwrite(views, g, FRESH, GroupCall(g, FRESH, data));
    }
  }

  /** What the parser thread takes from its queue: a chunk, or nothing before the timeout. */
  datatype Item = Chunk(group: Option<Group>, recvMs: int, data: seq<Byte>) | Tick

  ghost predicate ItemOk(groups: set<Group>, item: Item) {
    item.Chunk? && item.group.Some? ==> item.group.value in groups
  }

  /** The chunks each group received. */
  ghost function FedBy(items: seq<Item>): map<Group, seq<seq<Byte>>> {
    if items == [] then map[]
    else
      var before, last := FedBy(items[..|items| - 1]), items[|items| - 1];
      if last.Tick? || last.group == None || last.data == [] then before
      else Delivered(before, last.group.value, last.data)
  }

  ghost predicate ItemsOk(groups: set<Group>, items: seq<Item>) {
    GroupsOk(groups) && forall i | 0 <= i < |items| :: ItemOk(groups, items[i])
  }

  /** The bytes of its group still undecided after these chunks. */
  ghost function PendingBytes(fed: map<Group, seq<seq<Byte>>>, g: Group): seq<Byte>
    requires GoodGroup(g)
  {
    if g in fed then GroupRun(g, FRESH, fed[g]).buf else []
  }

  /** The rows that one more chunk completes, stamped with the time it was received. */
  ghost function ChunkRows(groups: set<Group>, fed: map<Group, seq<seq<Byte>>>, g: Group, data: seq<Byte>,
                           recvMs: int): (out: seq<Emitted>)
    requires GroupsOk(groups) && g in groups
    ensures Erase(out) == GroupRows(g, PendingBytes(fed, g) + data) && forall e | e in out :: e.ts == recvMs
  {
    Stamp(GroupRows(g, PendingBytes(fed, g) + data), recvMs)
  }

  lemma PendingIs(groups: set<Group>, fed: map<Group, seq<seq<Byte>>>, views: map<Group, Stream>,
                  decoded: seq<Emitted>, g: Group)
    requires StreamsMatch(groups, fed, views, decoded) && g in groups
    ensures GroupsOk(groups) && GoodGroup(g) && StreamOf(views, g).buf == PendingBytes(fed, g)
  {
  }

  /** The rows of a run: those each chunk completes, stamped with the time it was received. */
  ghost function DecodedBy(groups: set<Group>, items: seq<Item>): seq<Emitted>
    requires ItemsOk(groups, items)
  {
    if items == [] then []
    else
      var before, last := items[..|items| - 1], items[|items| - 1];
      if last.Tick? || last.group == None || last.data == [] then DecodedBy(groups, before)
      else
        DecodedBy(groups, before) + ChunkRows(groups, FedBy(before), last.group.value, last.data, last.recvMs)
  }

  /** What the next item of a run adds. */
  lemma DecodedSnoc(groups: set<Group>, items: seq<Item>, i: nat)
    requires ItemsOk(groups, items) && i < |items|
    ensures ItemsOk(groups, items[..i]) && ItemsOk(groups, items[..i + 1]) && ItemOk(groups, items[i])
    ensures var item, before := items[i], items[..i];
      if item.Tick? || item.group == None || item.data == [] then
        FedBy(items[..i + 1]) == FedBy(before) && DecodedBy(groups, items[..i + 1]) == DecodedBy(groups, before)
      else
        && item.group.value in groups
        && FedBy(items[..i + 1]) == Delivered(FedBy(before), item.group.value, item.data)
        && DecodedBy(groups, items[..i + 1]) == DecodedBy(groups, before)
             + ChunkRows(groups, FedBy(before), item.group.value, item.data, item.recvMs)
  {
    hide GroupsOk, ChunkRows, Delivered;
    assert items[..i + 1][..i] == items[..i];
  }

  ghost predicate Drained(batches: map<DeviceDesc, RowBatch>) { forall d | d in batches :: |batches[d].ts| == 0 }

  // ---------------------------------------------------------------- the worker

  class ParserWorker {
    const batchRows: nat
    ghost const groups: set<Group>
    var streams: map<Group, Stream>
    var batches: map<DeviceDesc, RowBatch>
    var touched: seq<DeviceDesc>
    var written: seq<RowBatch>
    ghost var log: seq<Emitted>        // rows pushed into batches
    ghost var decoded: seq<Emitted>    // rows decoded from the streams
    ghost var fed: map<Group, seq<seq<Byte>>>

    ghost predicate RowsOk()
      reads this
    {
      batchRows > 0 && Conserved(written, batches, log)
    }

    /** No status row and no full batch is kept. */
    ghost predicate Quiet()
      reads this
    {
      forall d | d in batches :: MayWait(batches[d], batchRows)
    }

    ghost predicate StreamsOk()
      reads this
    {
      StreamsMatch(groups, fed, streams, decoded)
    }

    /** Between two items of the ingest queue. */
    ghost predicate Valid()
      reads this
    {
      RowsOk() && Quiet() && StreamsOk() && log == decoded && forall b | b in written :: |b.ts| > 0
    }

    constructor (rows: int, ghost gs: set<Group>)
      requires GroupsOk(gs)
      ensures Valid() && streams == map[] && fed == map[] && decoded == [] && written == []
      ensures groups == gs && batchRows == if rows > 0 then rows else 1
    {
      batchRows := if rows > 0 then rows else 1;
      groups := gs;
      streams, batches, touched, written, fed := map[], map[], [], [], map[];
      log, decoded := [], [];
    }

    /** appendRow: the row joins its device's batch, and the device is noted. */
    method AppendRow(e: Emitted)
      requires RowsOk() && |e.cells| == |e.dev.spec.fields|
      modifies this`batches, this`touched, this`log
      ensures RowsOk() && log == old(log) + [e]
      ensures e.dev in touched && forall d | d in old(touched) :: d in touched
      ensures forall d | d in batches && d != e.dev :: d in old(batches) && batches[d] == old(batches)[d]
    {
      AppendConserves(written, batches, log, e);
      hide Conserved;
      var batch := if e.dev in batches then batches[e.dev] else EmptyBatch(e.dev);
      batches := batches[e.dev := batch.PushRow(e.ts, e.cells)];
      log := log + [e];
      if touched == [] || touched[|touched| - 1] != e.dev { touched := touched + [e.dev]; }
    }

    /** flushDevice: the batch goes to the writer and an empty one takes its place. */
    method FlushDevice(d: DeviceDesc)
      requires RowsOk()
      modifies this`batches, this`written
      ensures RowsOk() && (d in batches ==> |batches[d].ts| == 0)
      ensures batches.Keys == old(batches).Keys
      ensures forall c | c in batches && c != d :: batches[c] == old(batches)[c]
      ensures written == old(written) + if d in batches && |old(batches)[d].ts| > 0 then [old(batches)[d]] else []
    {
      if d !in batches || |batches[d].ts| == 0 { return; }
      FlushConserves(written, batches, log, d);
      hide Conserved;
      written := written + [batches[d]];
      batches := batches[d := EmptyBatch(d)];
    }

    method FlushAll()
      requires RowsOk()
      modifies this`batches, this`written
      ensures RowsOk() && forall d | d in batches :: |batches[d].ts| == 0
      ensures old(written) <= written && forall b | b in written[|old(written)|..] :: |b.ts| > 0
    {
      hide Conserved;
      var rest := batches.Keys;
      while rest != {}
        invariant RowsOk() && rest <= batches.Keys
        invariant old(written) <= written && forall b | b in written[|old(written)|..] :: |b.ts| > 0
        invariant forall d | d in batches && d !in rest :: |batches[d].ts| == 0
        decreases |rest|
      {
        var d :| d in rest;
        FlushDevice(d);
        rest := rest - {d};
      }
    }

    /** The rows the codec pushed, one appendRow each. */
    method AppendRows(out: seq<Emitted>)
      requires RowsOk() && Storable(out)
      modifies this`batches, this`touched, this`log
      ensures RowsOk() && log == old(log) + out
      ensures forall d | d in batches && d !in touched :: d in old(batches) && batches[d] == old(batches)[d]
    {
      hide Conserved;
      for i := 0 to |out|
        invariant RowsOk() && log == old(log) + out[..i]
        invariant forall d | d in batches && d !in touched :: d in old(batches) && batches[d] == old(batches)[d]
      {
        AppendRow(out[i]);
      }
      assert out[..|out|] == out;
    }

    /** Status rows and full batches leave at once, and nothing else does. */
    method FlushTouched()
      requires RowsOk() && forall d | d in batches :: MayWait(batches[d], batchRows) || d in touched
      modifies this`batches, this`written
      ensures RowsOk() && Quiet()
      ensures old(written) <= written && forall b | b in written[|old(written)|..] :: Due(b, batchRows)
    {
      assert BatchesOk(batches);
      hide Conserved;
      for i := 0 to |touched|
        invariant RowsOk() && BatchesOk(batches)
        invariant old(written) <= written && forall b | b in written[|old(written)|..] :: Due(b, batchRows)
        invariant forall d | d in batches :: MayWait(batches[d], batchRows) || d in touched[i..]
      {
        var d := touched[i];
        assert touched[i..] == [d] + touched[i + 1..];
        if d in batches && |batches[d].ts| != 0 {
          if d.immediateFlush || |batches[d].ts| >= batchRows {
            FlushDevice(d);
            BatchesOkOf(written, batches, log);
          }
        }
      }
    }

    /** The codec of the chunk's group. */
    method Decode(g: Group, st: DeviceStream, data: seq<Byte>, recvMs: int) returns (out: seq<Emitted>)
      requires GoodGroup(g)
      modifies st
      ensures st.V() == GroupCall(g, old(st.V()), data)
      ensures out == Stamp(GroupRows(g, old(st.buf) + data), recvMs)
    {
      hide Scan, Sound, StreamSlicer.Feed, Stamp;
      if IsModbus(g) {
        out := st.FeedModbus(g[0], data, recvMs);
      } else {
        CustomSound(g);
        out := st.Feed(g, data, recvMs);
      }
    }

    /** Decodes the chunk: only the group's own stream moves; it is created on its first data. */
    method Advance(g: Group, data: seq<Byte>, recvMs: int) returns (out: seq<Emitted>)
      requires StreamsOk() && g in groups
      modifies this`streams, this`fed, this`decoded
      ensures StreamsOk() && decoded == old(decoded) + out && fed == Delivered(old(fed), g, data)
      ensures Storable(out) && out == ChunkRows(groups, old(fed), g, data, recvMs)
    {
      PendingIs(groups, fed, streams, decoded, g);
      DeliverMatches(groups, fed, streams, decoded, g, data, recvMs);
      hide StreamsMatch, GroupCall, GroupRows, Storable, Stamp, GoodGroup;
      var st := new DeviceStream.Resume(StreamOf(streams, g));
      out := Decode(g, st, data, recvMs);
      streams := streams[g := st.V()];
      fed, decoded := Delivered(fed, g, data), decoded + out;
    }

    /** One chunk of the ingest queue. */
    method ParseChunk(group: Option<Group>, data: seq<Byte>, recvMs: int)
      requires Valid() && (group.Some? ==> group.value in groups)
      modifies this
      ensures Valid()
      ensures fed == if group == None || data == [] then old(fed) else Delivered(old(fed), group.value, data)
      ensures group == None || data == [] ==> decoded == old(decoded) && written == old(written)
      ensures group.Some? && data != [] ==>
        decoded == old(decoded) + ChunkRows(groups, old(fed), group.value, data, recvMs)
      ensures old(written) <= written && forall b | b in written[|old(written)|..] :: Due(b, batchRows)
    {
      hide StreamsMatch, Conserved, Storable;
      if group == None || data == [] { return; }
      var out := Advance(group.value, data, recvMs);
      Store(out);
      AllSent(old(written), written);
    }

    /** The rows of one chunk go to their batches; what is due leaves. */
    method Store(out: seq<Emitted>)
      requires RowsOk() && Quiet() && Storable(out)
      modifies this`batches, this`touched, this`log, this`written
      ensures RowsOk() && Quiet() && log == old(log) + out
      ensures old(written) <= written && forall b | b in written[|old(written)|..] :: Due(b, batchRows)
    {
      hide Conserved;
      touched := [];
      AppendRows(out);
      FlushTouched();
    }

    /** run: items until the flag drops, then whatever is pending. */
    method Run(items: seq<Item>)
      requires Valid() && fed == map[] && decoded == [] && ItemsOk(groups, items)
      modifies this
      ensures Valid() && fed == FedBy(items) && Drained(batches) && decoded == DecodedBy(groups, items)
    {
      hide RowsOk, StreamsOk, Quiet, FedBy, DecodedBy, ChunkRows, Delivered, ItemsOk;
      ItemsStart(groups, items);
      for i := 0 to |items|
        invariant ItemsOk(groups, items[..i])
        invariant Valid() && fed == FedBy(items[..i]) && decoded == DecodedBy(groups, items[..i])
      {
        DecodedSnoc(groups, items, i);
        match items[i]
        case Chunk(group, recvMs, data) => ParseChunk(group, data, recvMs);
        case Tick => Idle();
      }
      assert items[..|items|] == items;
      Idle();
    }

    /** The idle tick. */
    method Idle()
      requires Valid()
      modifies this`batches, this`written
      ensures Valid() && Drained(batches) && old(written) <= written
    {
      FlushAll();
      AllSent(old(written), written);
    }
  }

  lemma ItemsStart(groups: set<Group>, items: seq<Item>)
    requires ItemsOk(groups, items)
    ensures GroupsOk(groups)
    ensures ItemsOk(groups, items[..0]) && FedBy(items[..0]) == map[] && DecodedBy(groups, items[..0]) == []
  {
  }

  lemma AllSent(before: seq<RowBatch>, after: seq<RowBatch>)
    requires before <= after && (forall b | b in before :: |b.ts| > 0)
    requires forall b | b in after[|before|..] :: |b.ts| > 0
    ensures forall b | b in after :: |b.ts| > 0
  {
    assert after == before + after[|before|..];
  }

  lemma BatchesOkOf(written: seq<RowBatch>, batches: map<DeviceDesc, RowBatch>, log: seq<Emitted>)
    requires Conserved(written, batches, log)
    ensures BatchesOk(batches)
  {
  }

  lemma RunSnoc(g: Group, chunks: seq<seq<Byte>>, data: seq<Byte>)
    requires GoodGroup(g)
    ensures GroupRun(g, FRESH, chunks + [data]) == GroupCall(g, GroupRun(g, FRESH, chunks), data)
  {
    assert (chunks + [data])[..|chunks|] == chunks;
  }

  // ---------------------------------------------------------------- end to end

  lemma {:induction false} FeedAllSnoc(slice: Slicer, st: Stream, chunks: seq<seq<Byte>>, c: seq<Byte>)
    requires Sound(slice)
    ensures FeedAll(slice, st, chunks + [c]) == Feed(slice, FeedAll(slice, st, chunks), c)
    decreases |chunks|
  {
    hide Sound, Feed;
    if chunks == [] {
      assert (chunks + [c])[1..] == [];
    } else {
      assert (chunks + [c])[1..] == chunks[1..] + [c];
      FeedAllSnoc(slice, Feed(slice, st, chunks[0]), chunks[1..], c);
    }
  }

  lemma {:induction false} ModbusRunSnoc(dev: DeviceDesc, st: Stream, chunks: seq<seq<Byte>>, c: seq<Byte>)
    requires GoodSpec(dev.spec)
    ensures ModbusRun(dev, st, chunks + [c]) == ModbusCall(dev, ModbusRun(dev, st, chunks), c)
    decreases |chunks|
  {
    hide ModbusCall, GoodSpec;
    if chunks == [] {
      assert (chunks + [c])[1..] == [];
    } else {
      assert (chunks + [c])[1..] == chunks[1..] + [c];
      ModbusRunSnoc(dev, ModbusCall(dev, st, chunks[0]), chunks[1..], c);
    }
  }

  lemma {:induction false} GroupRunIs(g: Group, st: Stream, chunks: seq<seq<Byte>>)
    requires GoodGroup(g)
    ensures GroupRun(g, st, chunks) == if IsModbus(g) then ModbusRun(g[0], st, chunks) else CustomRun(g, st, chunks)
    decreases |chunks|
  {
    hide ModbusCall, Feed, Sound, GoodSpec, CustomStep;
    if !IsModbus(g) { CustomSound(g); }
    if chunks != [] {
      var front, last := chunks[..|chunks| - 1], chunks[|chunks| - 1];
      assert chunks == front + [last];
      GroupRunIs(g, st, front);
      if IsModbus(g) {
        ModbusRunSnoc(g[0], st, front, last);
      } else {
        FeedAllSnoc(CustomSlicer(g), st, front, last);
      }
    }
  }

  /** The rows of a stream are those of its bytes, however they were cut. */
  lemma RunRows(g: Group, chunks: seq<seq<Byte>>)
    requires GoodGroup(g)
    ensures GroupRun(g, FRESH, chunks).done.rows == GroupRows(g, Concat(chunks))
  {
    hide Scan, Sound, CustomStep, ModbusStep, GoodSpec;
    GroupRunIs(g, FRESH, chunks);
    var all := Concat(chunks);
    assert [] + all == all;
    if IsModbus(g) {
      if GoodModbus(g[0]) {
        GoodModbusRun(g[0], FRESH, chunks);
        ModbusSlicesEmpty(g[0]);
        WholeRows(ModbusSlicer(g[0]), chunks);
      } else {
        OtherModbusRun(g[0], FRESH, chunks);
      }
    } else {
      CustomSound(g);
      CustomSlicesEmpty(g);
      WholeRows(CustomSlicer(g), chunks);
    }
  }

  lemma CustomSlicesEmpty(g: Group)
    requires GoodGroup(g)
    ensures CustomSlicer(g)([]) == NeedMore
  {
  }

  lemma WholeRows(slice: Slicer, chunks: seq<seq<Byte>>)
    requires Sound(slice) && slice([]) == NeedMore
    ensures FeedAll(slice, FRESH, chunks).done.rows == Scan(slice, Concat(chunks)).0.rows
  {
    hide Sound, Scan;
    StreamRun(slice, chunks);
    FeedSettles(slice, FRESH, Concat(chunks));
    assert [] + Concat(chunks) == Concat(chunks);
    assert [] + Scan(slice, Concat(chunks)).0.rows == Scan(slice, Concat(chunks)).0.rows;
  }

  function Erase(rows: seq<Emitted>): seq<Row> {
    seq(|rows|, i requires 0 <= i < |rows| => Row(rows[i].dev, rows[i].cells))
  }

  function RowsFor(rows: seq<Row>, d: DeviceDesc): seq<Row> {
    if rows == [] then []
    else
      var last := rows[|rows| - 1];
      RowsFor(rows[..|rows| - 1], d) + (if last.dev == d then [last] else [])
  }

  lemma {:induction false} DeviceOfGroup(log: seq<Emitted>, g: Group, d: DeviceDesc)
    requires d in g
    ensures Erase(OfDevice(log, d)) == RowsFor(OfGroup(log, g), d)
    decreases |log|
  {
    if log != [] {
      var front, last := log[..|log| - 1], log[|log| - 1];
      DeviceOfGroup(front, g, d);
      if last.dev in g {
        var rows := OfGroup(front, g);
        assert OfGroup(log, g) == rows + [Row(last.dev, last.cells)];
        assert (rows + [Row(last.dev, last.cells)])[..|rows|] == rows;
      } else {
        assert OfGroup(log, g) == OfGroup(front, g) && OfDevice(log, d) == OfDevice(front, d);
      }
    }
  }

  /** End to end: what the writer gets for a device, followed by what is pending, is exactly what
      the bytes of its endpoint say about it, however the network cut those bytes and whatever
      other endpoints sent in between. */
  lemma EndToEnd(groups: set<Group>, fed: map<Group, seq<seq<Byte>>>, streams: map<Group, Stream>, log: seq<Emitted>,
                 written: seq<RowBatch>, batches: map<DeviceDesc, RowBatch>, g: Group, d: DeviceDesc)
    requires StreamsMatch(groups, fed, streams, log) && Conserved(written, batches, log) && g in fed && d in g
    ensures GoodGroup(g)
    ensures Erase(WrittenFor(written, d) + PendingFor(batches, d)) == RowsFor(GroupRows(g, Concat(fed[g])), d)
  {
    hide OfGroup, OfDevice, WrittenFor, PendingFor, GroupRows, GroupRun, RowsFor, Erase, GoodGroup, NoShared;
    assert GoodGroup(g);
    DeviceOfGroup(log, g, d);
    RunRows(g, fed[g]);
  }

  /** After a finished run nothing is pending. */
  lemma DrainedPending(batches: map<DeviceDesc, RowBatch>, d: DeviceDesc)
    requires BatchesOk(batches) && Drained(batches)
    ensures PendingFor(batches, d) == []
  {
  }

  /** The endpoint is not a modbus one and received exactly the frames of these messages. */
  ghost predicate Received(fed: map<Group, seq<seq<Byte>>>, g: Group, ms: seq<Message>) {
    && g in fed && GoodGroup(g) && (g == [] || g[0].connProto != 2)
    && (forall i | 0 <= i < |ms| :: WellFormed(g, ms[i])) && Concat(fed[g]) == Wire(g, ms)
  }

  /** The same, with the payloads made from tables of cells. */
  ghost predicate ReceivedCells(fed: map<Group, seq<seq<Byte>>>, g: Group, ms: seq<Message>,
                                tables: seq<seq<seq<Cell>>>, blanks: seq<seq<Byte>>) {
    && Received(fed, g, ms) && |ms| == |tables| == |blanks|
    && forall i | 0 <= i < |ms| :: MadeFrom(g, ms[i], tables[i], blanks[i])
  }

  /** The endpoint is a modbus one and received exactly these responses. */
  ghost predicate Answered(fed: map<Group, seq<seq<Byte>>>, g: Group, answers: seq<Modbus.Answer>) {
    && g in fed && g != [] && g[0].connProto == 2 && Modbus.Configured(g[0])
    && (forall i | 0 <= i < |answers| :: Modbus.WellFormed(g[0], answers[i]))
    && Concat(fed[g]) == Modbus.Wire(g[0], answers)
  }

  ghost predicate AnsweredCells(fed: map<Group, seq<seq<Byte>>>, g: Group, answers: seq<Modbus.Answer>,
                                table: seq<seq<Cell>>, blanks: seq<seq<Byte>>) {
    && Answered(fed, g, answers) && |answers| == |table| == |blanks|
    && forall i | 0 <= i < |answers| :: Modbus.MadeFrom(g[0], answers[i], table[i], blanks[i])
  }

  /** The bytes of an endpoint that received the frames of some messages hold exactly their records. */
  lemma SentRows(fed: map<Group, seq<seq<Byte>>>, g: Group, ms: seq<Message>)
    requires Received(fed, g, ms)
    ensures GroupRows(g, Concat(fed[g])) == AllRows(g, ms)
  {
    hide WellFormed, GoodGroup, Sound, Scan, CustomStep;
    WireScan(g, ms);
  }

  lemma SentCells(fed: map<Group, seq<seq<Byte>>>, g: Group, ms: seq<Message>, tables: seq<seq<seq<Cell>>>,
                  blanks: seq<seq<Byte>>)
    requires ReceivedCells(fed, g, ms, tables, blanks)
    ensures GroupRows(g, Concat(fed[g])) == AllTables(ms, tables)
  {
    hide WellFormed, GoodGroup, MadeFrom, GroupRows;
    SentRows(fed, g, ms);
    AllCellsRoundTrip(g, ms, tables, blanks);
  }

  lemma AnsweredRows(fed: map<Group, seq<seq<Byte>>>, g: Group, answers: seq<Modbus.Answer>)
    requires Answered(fed, g, answers) && GoodGroup(g)
    ensures GroupRows(g, Concat(fed[g])) == Modbus.RowsIn(g[0], answers)
  {
    hide Modbus.WellFormed, Sound, Scan, ModbusStep, GoodModbus, Modbus.Configured;
    Modbus.ConfiguredIs(g[0]);
    Modbus.WireScan(g[0], answers);
  }

  lemma AnsweredTable(fed: map<Group, seq<seq<Byte>>>, g: Group, answers: seq<Modbus.Answer>,
                      table: seq<seq<Cell>>, blanks: seq<seq<Byte>>)
    requires AnsweredCells(fed, g, answers, table, blanks) && GoodGroup(g)
    ensures GroupRows(g, Concat(fed[g])) == TableRows(g[0], table)
  {
    hide Modbus.WellFormed, Modbus.Configured, GoodGroup, Modbus.MadeFrom, GroupRows;
    AnsweredRows(fed, g, answers);
    Modbus.CellsRoundTrip(g[0], answers, table, blanks);
  }

  /** A finished run has handed the writer, for every device of an endpoint, exactly the rows of the
      endpoint's bytes. */
  lemma AllIsWritten(groups: set<Group>, fed: map<Group, seq<seq<Byte>>>, streams: map<Group, Stream>,
                     log: seq<Emitted>, written: seq<RowBatch>, batches: map<DeviceDesc, RowBatch>,
                     g: Group, d: DeviceDesc)
    requires StreamsMatch(groups, fed, streams, log) && Conserved(written, batches, log) && Drained(batches)
    requires g in fed && d in g
    ensures GoodGroup(g) && WrittenOk(written)
    ensures Erase(WrittenFor(written, d)) == RowsFor(GroupRows(g, Concat(fed[g])), d)
  {
    hide OfGroup, OfDevice, WrittenFor, RowsFor, Erase, GoodGroup, NoShared, Conserved, StreamsMatch, GroupRows;
    EndToEnd(groups, fed, streams, log, written, batches, g, d);
    BatchesOkOf(written, batches, log);
    DrainedPending(batches, d);
    WrittenOkOf(written, batches, log);
    assert WrittenFor(written, d) + [] == WrittenFor(written, d);
  }

  /** A finished run that received the frames of some messages has handed the writer exactly the
      records of those messages. */
  lemma SentIsWritten(groups: set<Group>, fed: map<Group, seq<seq<Byte>>>, streams: map<Group, Stream>,
                      log: seq<Emitted>, written: seq<RowBatch>, batches: map<DeviceDesc, RowBatch>,
                      g: Group, d: DeviceDesc, ms: seq<Message>)
    requires StreamsMatch(groups, fed, streams, log) && Conserved(written, batches, log) && Drained(batches)
    requires Received(fed, g, ms) && d in g
    ensures WrittenOk(written) && Erase(WrittenFor(written, d)) == RowsFor(AllRows(g, ms), d)
  {
    hide StreamsMatch, Conserved, GroupRows, WellFormed, RowsFor, Erase, WrittenFor;
    AllIsWritten(groups, fed, streams, log, written, batches, g, d);
    SentRows(fed, g, ms);
  }

  lemma WrittenOkOf(written: seq<RowBatch>, batches: map<DeviceDesc, RowBatch>, log: seq<Emitted>)
    requires Conserved(written, batches, log)
    ensures WrittenOk(written)
  {
  }

  /** A worker from its start to its end: whatever the queue hands it, in whatever pieces, the
      writer gets for every device exactly the rows its endpoint's bytes hold, each stamped with the
      time its last byte was received. For an endpoint that received well-formed frames or responses
      those are exactly the records sent, in order; for frames made from cells, the cells. */
  method RunWorker(rows: int, ghost gs: set<Group>, items: seq<Item>) returns (written: seq<RowBatch>)
    requires GroupsOk(gs) && forall i | 0 <= i < |items| :: ItemOk(gs, items[i])
    ensures WrittenOk(written) && forall b | b in written :: |b.ts| > 0
    ensures forall d :: WrittenFor(written, d) == OfDevice(DecodedBy(gs, items), d)
    ensures forall g, d | g in FedBy(items) && d in g ::
      GoodGroup(g) && Erase(WrittenFor(written, d)) == RowsFor(GroupRows(g, Concat(FedBy(items)[g])), d)
    ensures forall g, d, ms | Received(FedBy(items), g, ms) && d in g ::
      Erase(WrittenFor(written, d)) == RowsFor(AllRows(g, ms), d)
    ensures forall g, d, ms, tables, blanks | ReceivedCells(FedBy(items), g, ms, tables, blanks) && d in g ::
      Erase(WrittenFor(written, d)) == RowsFor(AllTables(ms, tables), d)
    ensures forall g, d, answers | Answered(FedBy(items), g, answers) && d in g ::
      Erase(WrittenFor(written, d)) == RowsFor(Modbus.RowsIn(g[0], answers), d)
    ensures forall g, d, answers, table, blanks | AnsweredCells(FedBy(items), g, answers, table, blanks) && d in g ::
      Erase(WrittenFor(written, d)) == RowsFor(TableRows(g[0], table), d)
  {
    hide OfGroup, OfDevice, WrittenFor, RowsFor, Erase, GoodGroup, NoShared, Conserved, StreamsMatch;
    hide GroupRows, WellFormed, Wire, MadeFrom, Modbus.WellFormed, Modbus.Configured, Modbus.MadeFrom, DecodedBy;
    var w := new ParserWorker(rows, gs);
    w.Run(items);
    written := w.written;
    WrittenOkOf(w.written, w.batches, w.log);
    ghost var fed := FedBy(items);
    forall d
      ensures WrittenFor(written, d) == OfDevice(DecodedBy(gs, items), d)
    {
      AllOfDevice(w.written, w.batches, w.log, d);
    }
    forall g, d | g in fed && d in g
      ensures GoodGroup(g) && Erase(WrittenFor(written, d)) == RowsFor(GroupRows(g, Concat(fed[g])), d)
    {
      AllIsWritten(w.groups, fed, w.streams, w.log, w.written, w.batches, g, d);
    }
    forall g, d, ms | Received(fed, g, ms) && d in g
      ensures Erase(WrittenFor(written, d)) == RowsFor(AllRows(g, ms), d)
    {
      SentIsWritten(w.groups, fed, w.streams, w.log, w.written, w.batches, g, d, ms);
    }
    forall g, d, ms, tables, blanks | ReceivedCells(fed, g, ms, tables, blanks) && d in g
      ensures Erase(WrittenFor(written, d)) == RowsFor(AllTables(ms, tables), d)
    {
      SentCells(fed, g, ms, tables, blanks);
    }
    forall g, d, answers | Answered(fed, g, answers) && d in g
      ensures Erase(WrittenFor(written, d)) == RowsFor(Modbus.RowsIn(g[0], answers), d)
    {
      AnsweredRows(fed, g, answers);
    }
    forall g, d, answers, table, blanks | AnsweredCells(fed, g, answers, table, blanks) && d in g
      ensures Erase(WrittenFor(written, d)) == RowsFor(TableRows(g[0], table), d)
    {
      AnsweredTable(fed, g, answers, table, blanks);
    }
  }

  /** With nothing pending, everything decoded for a device was written. */
  lemma AllOfDevice(written: seq<RowBatch>, batches: map<DeviceDesc, RowBatch>, log: seq<Emitted>, d: DeviceDesc)
    requires Conserved(written, batches, log) && Drained(batches)
    ensures WrittenOk(written) && WrittenFor(written, d) == OfDevice(log, d)
  {
    hide WrittenFor, OfDevice;
    DrainedPending(batches, d);
    assert WrittenFor(written, d) + PendingFor(batches, d) == OfDevice(log, d);
    assert WrittenFor(written, d) + [] == WrittenFor(written, d);
  }
}
