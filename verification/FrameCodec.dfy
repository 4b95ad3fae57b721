/** The two frame codecs of src/adapter/FrameCodec.cpp: custom_data frames (6-byte header) and
    modbus responses (MBAP header of section 3.1.3 of the MODBUS Messaging on TCP/IP
    Implementation Guide V1.0b, or fixed-length frames). */
module FrameCodec {
  import opened Common
  import opened DeviceModel
  import opened FieldCodec
  import opened StreamSlicer

  const HEADER_SIZE: nat := 6

  // ---------------------------------------------------------------- one record

  /** payloadMin as the configuration loader computes it, in 32-bit arithmetic. */
  function PayloadMin(fields: seq<FieldDesc>): nat {
    if fields == [] then 0
    else
      var f := fields[|fields| - 1];
      var end := (f.byteOffset + f.size) % 0x1_0000_0000;
      var rest := PayloadMin(fields[..|fields| - 1]);
      if end > rest then end else rest
  }

  predicate GoodSpec(spec: FrameSpec) {
    && (forall i | 0 <= i < |spec.fields| :: GoodField(spec.fields[i]) && spec.fields[i].byteOffset < 0x1_0000_0000)
    && spec.payloadMin == PayloadMin(spec.fields)
    && spec.frameLen < 0x8000_0000
  }

  predicate FieldsFit(fields: seq<FieldDesc>, len: nat) {
    forall i | 0 <= i < |fields| :: fields[i].byteOffset + fields[i].size <= len
  }

  /** decodePayload succeeds: it depends on the length of the record only, not on its bytes. */
  predicate DecodeOk(spec: FrameSpec, len: nat) {
    |spec.fields| > 0 && spec.payloadMin <= len && FieldsFit(spec.fields, len)
  }

  function FieldBytes(f: FieldDesc, payload: seq<Byte>): seq<Byte>
    requires f.byteOffset + f.size <= |payload|
  {
    payload[f.byteOffset .. f.byteOffset + f.size]
  }

  function DecodeRow(spec: FrameSpec, be: bool, payload: seq<Byte>): seq<Cell>
    requires GoodSpec(spec) && FieldsFit(spec.fields, |payload|)
  {
    seq(|spec.fields|, i requires 0 <= i < |spec.fields| =>
      DecodeCell(spec.fields[i], FieldBytes(spec.fields[i], payload), be))
  }

  lemma {:induction false} FieldWithin(fields: seq<FieldDesc>, i: nat)
    requires i < |fields|
    ensures (fields[i].byteOffset + fields[i].size) % 0x1_0000_0000 <= PayloadMin(fields)
  {
    if i < |fields| - 1 {
      FieldWithin(fields[..|fields| - 1], i);
    }
  }

  /** A field that fits the nominal record also fits any payload of at least payloadMin bytes:
      no field is read outside the frame's own payload. */
  lemma FieldsInsidePayload(spec: FrameSpec, record: nat, payload: nat)
    requires GoodSpec(spec) && FieldsFit(spec.fields, record) && record < 0x1_0000_0000
    requires spec.payloadMin <= payload
    ensures FieldsFit(spec.fields, payload)
  {
    forall i | 0 <= i < |spec.fields|
      ensures spec.fields[i].byteOffset + spec.fields[i].size <= payload
    {
      FieldWithin(spec.fields, i);
    }
  }

  // ---------------------------------------------------------------- custom_data frames

  predicate GoodGroup(group: seq<DeviceDesc>) {
    forall i | 0 <= i < |group| :: GoodSpec(group[i].spec)
  }

  function RecordBytes(spec: FrameSpec, payload: nat): nat { if spec.frameLen > 0 then spec.frameLen else payload }

  /** One header can carry several records of the configured length. */
  function Records(spec: FrameSpec, payload: nat): (n: nat)
    ensures n >= 1 || payload == 0
    ensures n == 1 || n * RecordBytes(spec, payload) == payload
  {
    var rec := RecordBytes(spec, payload);
    if rec > 0 && payload >= rec && payload % rec == 0 then payload / rec else 1
  }

  lemma RecordFits(spec: FrameSpec, payload: nat, k: nat)
    requires GoodSpec(spec) && spec.payloadMin <= payload < 0x1_0000 && k < Records(spec, payload)
    requires FieldsFit(spec.fields, RecordBytes(spec, payload))
    ensures k * RecordBytes(spec, payload) <= payload
    ensures FieldsFit(spec.fields, payload - k * RecordBytes(spec, payload))
  {
    var rec := RecordBytes(spec, payload);
    if k == 0 {
      FieldsInsidePayload(spec, rec, payload);
    } else {
      MultipleBelow(k, Records(spec, payload), rec);
    }
  }

  lemma MultipleBelow(k: nat, n: nat, rec: nat)
    requires k < n
    ensures k * rec + rec <= n * rec
  {
    assert n * rec == (k + 1) * rec + (n - k - 1) * rec;
    assert (k + 1) * rec == k * rec + rec;
  }

  /** The rows of one frame: all of its records, or none. */
  function RowsOf(dev: DeviceDesc, payload: seq<Byte>): seq<Row>
    requires GoodSpec(dev.spec) && dev.spec.payloadMin <= |payload| < 0x1_0000
  {
    var rec := RecordBytes(dev.spec, |payload|);
    if !DecodeOk(dev.spec, rec) then []
    else
      seq(Records(dev.spec, |payload|), k requires 0 <= k < Records(dev.spec, |payload|) =>
        RecordFits(dev.spec, |payload|, k);
        Row(dev, DecodeRow(dev.spec, dev.BigEndian(), payload[k * rec..])))
  }

  function LeadFlag(dev: DeviceDesc): Byte { if dev.isEvent then dev.spec.startFlag else 0 }
  function TrailFlag(dev: DeviceDesc): Byte { if dev.isEvent then dev.spec.endFlag else 0 }

  /** The payload length a header announces; 0 stands for one configured record. */
  function PayloadBytes(spec: FrameSpec, headerLen: nat): nat {
    if headerLen != 0 then headerLen else if spec.frameLen > 0 then spec.frameLen else 0
  }

  function FrameBytes(dev: DeviceDesc, payload: nat): nat {
    HEADER_SIZE + payload + (if TrailFlag(dev) != 0 then 1 else 0)
  }

  function Word16(lo: int, hi: int): nat
    requires 0 <= lo < 256 && 0 <= hi < 256
  {
    lo + 256 * hi
  }

  /** What feed does with the bytes at its position. */
  function CustomStep(group: seq<DeviceDesc>, buf: seq<Byte>): Step
    requires GoodGroup(group)
  {
    if |buf| < HEADER_SIZE then NeedMore
    else
      var dev := ByFrameType(group, buf[0]);
      if dev.None? then Skip(true, false, false)
      else CustomFrame(dev.value, buf)
  }

  function CustomFrame(dev: DeviceDesc, buf: seq<Byte>): Step
    requires GoodSpec(dev.spec) && |buf| >= HEADER_SIZE
  {
    var spec := dev.spec;
    var payload := PayloadBytes(spec, Word16(buf[2], buf[3]));
    var size := FrameBytes(dev, payload);
    if spec.fields == [] then Skip(false, false, false)
    else if LeadFlag(dev) != 0 && buf[1] != LeadFlag(dev) then Skip(false, true, false)
    else if payload == 0 || payload < spec.payloadMin || size > MAX_FRAME then Skip(false, false, false)
    else if |buf| < size then NeedMore
    else
      Frame(size, RowsOf(dev, buf[HEADER_SIZE .. HEADER_SIZE + payload]),
            DecodeOk(spec, RecordBytes(spec, payload)),
            TrailFlag(dev) != 0 && buf[size - 1] != TrailFlag(dev))
  }

  function CustomSlicer(group: seq<DeviceDesc>): Slicer
    requires GoodGroup(group)
  {
    (buf: seq<Byte>) => CustomStep(group, buf)
  }

  lemma CustomPrefix(group: seq<DeviceDesc>, a: seq<Byte>, b: seq<Byte>)
    requires GoodGroup(group) && CustomStep(group, a) != NeedMore
    ensures CustomStep(group, a + b) == CustomStep(group, a)
  {
    hide RowsOf, PayloadBytes, RecordBytes, DecodeOk;
    var dev := ByFrameType(group, a[0]);
    assert (a + b)[0] == a[0];
    if dev.Some? {
      var payload := PayloadBytes(dev.value.spec, Word16(a[2], a[3]));
      if |a| >= FrameBytes(dev.value, payload) {
        assert (a + b)[HEADER_SIZE .. HEADER_SIZE + payload] == a[HEADER_SIZE .. HEADER_SIZE + payload];
      }
    }
  }

  lemma CustomSound(group: seq<DeviceDesc>)
    requires GoodGroup(group)
    ensures Sound(CustomSlicer(group))
  {
    var slice := CustomSlicer(group);
    forall a: seq<Byte>, b: seq<Byte> | slice(a) != NeedMore
      ensures slice(a + b) == slice(a)
    {
      CustomPrefix(group, a, b);
    }
  }

  // ---------------------------------------------------------------- modbus responses

  predicate Mbap(spec: FrameSpec) { spec.frameType == 7 || spec.frameType == 9 }

  /** The header length is known and there is something to slice by. */
  predicate Sliceable(spec: FrameSpec) { spec.IsModbusHeaderLen() && spec.payloadMin > 0 }

  /** Fixed-length frames larger than the frame limit: feedModbus collects bytes and decodes none. */
  predicate Oversize(spec: FrameSpec) { Sliceable(spec) && !Mbap(spec) && spec.frameType + spec.payloadMin > MAX_FRAME }

  predicate GoodModbus(dev: DeviceDesc) {
    GoodSpec(dev.spec) && dev.spec.fields != [] && Sliceable(dev.spec) && !Oversize(dev.spec)
  }

  /** A complete response of hdr header bytes and a payload. */
  function Response(dev: DeviceDesc, frame: seq<Byte>): Step
    requires GoodModbus(dev) && dev.spec.frameType <= |frame|
  {
    var payload := frame[dev.spec.frameType..];
    if !DecodeOk(dev.spec, |payload|) then Skip(false, false, true)
    else Frame(|frame|, [Row(dev, DecodeRow(dev.spec, dev.ModbusBigEndian(), payload))], true, false)
  }

  /** What feedModbus does with the bytes at its position. A response with an MBAP header is found
      by its protocol identifier, two zero bytes; the length field counts what follows it. */
  function ModbusStep(dev: DeviceDesc, buf: seq<Byte>): Step
    requires GoodModbus(dev)
  {
    var spec := dev.spec;
    if !Mbap(spec) then
      var total := spec.frameType + spec.payloadMin;
      if |buf| < total then NeedMore else Response(dev, buf[..total])
    else if |buf| < 4 then NeedMore
    else if buf[2] != 0 || buf[3] != 0 then Skip(false, false, false)
    else MbapStep(dev, buf)
  }

  function MbapStep(dev: DeviceDesc, buf: seq<Byte>): Step
    requires GoodModbus(dev) && Mbap(dev.spec)
  {
    if |buf| < 6 then NeedMore
    else
      var mbapLen := Word16(buf[5], buf[4]);
      var total := 6 + mbapLen;
      if mbapLen < 1 || total > MAX_FRAME || total < dev.spec.frameType then Skip(false, false, false)
      else if |buf| < total then NeedMore
      else if total - dev.spec.frameType < dev.spec.payloadMin then Skip(false, false, false)
      else Response(dev, buf[..total])
  }

  function ModbusSlicer(dev: DeviceDesc): Slicer
    requires GoodModbus(dev)
  {
    (buf: seq<Byte>) => ModbusStep(dev, buf)
  }

  lemma ModbusPrefix(dev: DeviceDesc, a: seq<Byte>, b: seq<Byte>)
    requires GoodModbus(dev) && ModbusStep(dev, a) != NeedMore
    ensures ModbusStep(dev, a + b) == ModbusStep(dev, a)
    ensures 0 < Advance(ModbusStep(dev, a)) <= |a|
  {
    hide DecodeRow, DecodeOk;
    if !Mbap(dev.spec) {
      var total := dev.spec.frameType + dev.spec.payloadMin;
      assert (a + b)[..total] == a[..total];
    } else if a[2] == 0 && a[3] == 0 {
      var total := 6 + Word16(a[5], a[4]);
      if |a| >= total { assert (a + b)[..total] == a[..total]; }
    }
  }

  lemma ModbusSound(dev: DeviceDesc)
    requires GoodModbus(dev)
    ensures Sound(ModbusSlicer(dev))
  {
    hide DecodeRow, DecodeOk;
    var slice := ModbusSlicer(dev);
    forall a: seq<Byte>, b: seq<Byte> | slice(a) != NeedMore
      ensures slice(a + b) == slice(a) && 0 < Advance(slice(a)) <= |a|
    {
      ModbusPrefix(dev, a, b);
    }
    forall a: seq<Byte> | slice(a) != NeedMore
      ensures 0 < Advance(slice(a)) <= |a|
    {
      ModbusPrefix(dev, a, []);
    }
  }

  /** One call of feedModbus, for every configuration. */
  ghost function ModbusCall(dev: DeviceDesc, st: Stream, data: seq<Byte>): Stream
    requires GoodSpec(dev.spec)
  {
    var arrived := st.(bytesIn := st.bytesIn + |data|);
    if dev.spec.fields == [] then arrived
    else if !Sliceable(dev.spec) then arrived.(done := st.done.(badFrames := st.done.badFrames + 1))
    else if Oversize(dev.spec) then arrived.(buf := st.buf + data)
    else
      ModbusSound(dev);
      Feed(ModbusSlicer(dev), st, data)
  }

  /** The rows one call pushes. */
  ghost function ModbusRows(dev: DeviceDesc, buf: seq<Byte>): seq<Row>
    requires GoodSpec(dev.spec)
  {
    if GoodModbus(dev) then
      ModbusSound(dev);
      Scan(ModbusSlicer(dev), buf).0.rows
    else []
  }

  // ---------------------------------------------------------------- the feed loop

  /** decodePayload: fill the row, or stop at the first field outside the record. The record's
      nominal length may exceed the bytes at hand only where no field reaches. */
  method DecodePayload(spec: FrameSpec, be: bool, payload: seq<Byte>, payloadLen: nat)
    returns (ok: bool, row: seq<Cell>)
    requires GoodSpec(spec) && (DecodeOk(spec, payloadLen) ==> FieldsFit(spec.fields, |payload|))
    ensures ok == DecodeOk(spec, payloadLen)
    ensures ok ==> FieldsFit(spec.fields, |payload|) && row == DecodeRow(spec, be, payload)
  {
    row := [];
    if spec.fields == [] { return false, row; }
    if spec.payloadMin > payloadLen { return false, row; }
    // the loop of the source stops at the first misfit; no cell of a failed row is used
    var i := 0;
    while i < |spec.fields|
      invariant i <= |spec.fields|
      invariant forall j | 0 <= j < i :: spec.fields[j].byteOffset + spec.fields[j].size <= payloadLen
    {
      if spec.fields[i].byteOffset + spec.fields[i].size > payloadLen { return false, row; }
      i := i + 1;
    }
    i := 0;
    while i < |spec.fields|
      invariant i <= |spec.fields| && |row| == i
      invariant forall j | 0 <= j < i ::
        row[j] == DecodeCell(spec.fields[j], FieldBytes(spec.fields[j], payload), be)
    {
      var c := DecodeField(spec.fields[i], FieldBytes(spec.fields[i], payload), be);
      row := row + [c];
      i := i + 1;
    }
    return true, row;
  }

  method DecodeField(f: FieldDesc, p: seq<Byte>, be: bool) returns (c: Cell)
    requires GoodField(f) && |p| == f.size
    ensures c == DecodeCell(f, p, be)
  {
    var raw := LoadRaw(p, be);
    match f.kind
    case Float32 => c := Float32Bits(raw);
    case Float64 => c := Float64Bits(raw);
    case Bool => c := Int(if p[0] != 0 then 1 else 0);
    case _ =>
      RawBound(p, be);
      var x := IntegerOf(f, raw);
      c := if f.asDouble then DoubleOf(x) else Int(x);
  }

  /** A row as pushed into the sink. */
  datatype Emitted = Emitted(dev: DeviceDesc, ts: int, cells: seq<Cell>)

  function Stamp(rows: seq<Row>, ts: int): seq<Emitted> {
    seq(|rows|, i requires 0 <= i < |rows| => Emitted(rows[i].dev, ts, rows[i].cells))
  }

  lemma StampPlus(a: seq<Row>, b: seq<Row>, ts: int)
    ensures Stamp(a + b, ts) == Stamp(a, ts) + Stamp(b, ts)
  {
  }

  /** DeviceStream: pending bytes and statistics. The source has no counterpart of `framed` and
      `emitted`, which record the bytes of consumed frames and the rows pushed so far. */
  class DeviceStream {
    var buf: seq<Byte>
    var frames: nat
    var bytesIn: nat
    var resyncs: nat
    var badFrames: nat
    var flagMiss: nat
    var unknownType: nat
    var framed: nat
    var emitted: seq<Row>

    function V(): Stream
      reads this
    {
      Stream(buf, bytesIn, Tally(emitted, frames, badFrames, flagMiss, unknownType, resyncs, framed))
    }

    constructor ()
      ensures V() == FRESH
    {
      buf, frames, bytesIn, resyncs, badFrames, flagMiss, unknownType := [], 0, 0, 0, 0, 0, 0;
      framed, emitted := 0, [];
    }

    /** A stream picked up where it was left. */
    constructor Resume(st: Stream)
      ensures V() == st
    {
      buf, bytesIn, framed, emitted := st.buf, st.bytesIn, st.done.framed, st.done.rows;
      frames, resyncs, badFrames := st.done.frames, st.done.resyncs, st.done.badFrames;
      flagMiss, unknownType := st.done.flagMiss, st.done.unknownType;
    }

    /** Drops the first pos bytes, then everything but the last 256 KiB. */
    method Compact(pos: nat)
      requires pos <= |buf|
      modifies this`buf, this`resyncs
      ensures |old(buf)| - pos <= MAX_PENDING ==> buf == old(buf)[pos..] && resyncs == old(resyncs)
      ensures |old(buf)| - pos > MAX_PENDING ==>
        buf == old(buf)[pos..][|old(buf)| - pos - MAX_PENDING..] && resyncs == old(resyncs) + 1
    {
      if pos > 0 { buf := buf[pos..]; }
      if |buf| > MAX_PENDING {
        buf := buf[|buf| - MAX_PENDING..];
        resyncs := resyncs + 1;
      }
    }

    /** Gives up one byte. */
    method Drop(unknown: bool, miss: bool, bad: bool)
      modifies this`resyncs, this`badFrames, this`flagMiss, this`unknownType
      ensures V().done == Plus(old(V().done), Count(Skip(unknown, miss, bad)))
    {
      if unknown { unknownType := unknownType + 1; }
      if miss { flagMiss := flagMiss + 1; }
      if bad { badFrames := badFrames + 1; }
      resyncs := resyncs + 1;
      assert emitted + [] == emitted;
    }

    /** Counts a framed run of bytes whose rows were pushed. */
    method Take(size: nat, rows: seq<Row>, ok: bool, miss: bool)
      modifies this`frames, this`badFrames, this`flagMiss, this`framed, this`emitted
      ensures V().done == Plus(old(V().done), Count(Frame(size, rows, ok, miss)))
    {
      if miss { flagMiss := flagMiss + 1; }
      if ok { frames := frames + 1; } else { badFrames := badFrames + 1; }
      framed, emitted := framed + size, emitted + rows;
    }

    /** One decision of feed about the bytes h at its position: count it, push its rows, and
        return how far to move. */
    method CustomAt(group: seq<DeviceDesc>, h: seq<Byte>, ts: int) returns (n: nat, out: seq<Emitted>)
      requires GoodGroup(group)
      modifies this`frames, this`resyncs, this`badFrames, this`flagMiss, this`unknownType, this`framed, this`emitted
      ensures n == Advance(CustomStep(group, h))
      ensures V().done == Plus(old(V().done), Count(CustomStep(group, h)))
      ensures out == Stamp(Count(CustomStep(group, h)).rows, ts)
    {
      hide Plus, RowsOf, CustomFrame, Stamp, PayloadBytes, RecordBytes, DecodeOk;
      StampNothing(ts);
      PlusNothing(V().done);
      if |h| < HEADER_SIZE { return 0, []; }
      var dev := ByFrameType(group, h[0]);
      if dev.None? {
        Drop(true, false, false);
        return 1, [];
      }
      n, out := CustomFrameAt(dev.value, h, ts);
    }

    method CustomFrameAt(d: DeviceDesc, h: seq<Byte>, ts: int) returns (n: nat, out: seq<Emitted>)
      requires GoodSpec(d.spec) && |h| >= HEADER_SIZE
      modifies this`frames, this`resyncs, this`badFrames, this`flagMiss, this`unknownType, this`framed, this`emitted
      ensures n == Advance(CustomFrame(d, h))
      ensures V().done == Plus(old(V().done), Count(CustomFrame(d, h)))
      ensures out == Stamp(Count(CustomFrame(d, h)).rows, ts)
    {
      hide Plus, RowsOf, Stamp, PayloadBytes, RecordBytes, DecodeOk;
      StampNothing(ts);
      PlusNothing(V().done);
      if d.spec.fields == [] {
        Drop(false, false, false);
        return 1, [];
      }
      if LeadFlag(d) != 0 && h[1] != LeadFlag(d) {
        Drop(false, true, false);
        return 1, [];
      }
      var payload := PayloadBytes(d.spec, Word16(h[2], h[3]));
      var size := FrameBytes(d, payload);
      if payload == 0 || payload < d.spec.payloadMin || size > MAX_FRAME {
        Drop(false, false, false);
        return 1, [];
      }
      if |h| < size { return 0, []; }
      var ok;
      ok, out := PushRecords(d, h[HEADER_SIZE .. HEADER_SIZE + payload], ts);
      var miss := TrailFlag(d) != 0 && h[size - 1] != TrailFlag(d);
      Take(size, RowsOf(d, h[HEADER_SIZE .. HEADER_SIZE + payload]), ok, miss);
      n := size;
    }

    /** feed: the stream moves exactly as the slicer says, and the rows pushed are the new rows,
        stamped with the time of reception. */
    method Feed(group: seq<DeviceDesc>, data: seq<Byte>, recvMs: int) returns (out: seq<Emitted>)
      requires GoodGroup(group)
      modifies this
      ensures Sound(CustomSlicer(group))
      ensures V() == StreamSlicer.Feed(CustomSlicer(group), old(V()), data)
      ensures out == Stamp(Scan(CustomSlicer(group), old(buf) + data).0.rows, recvMs)
    {
      hide Plus, CustomStep, Stamp, Sound, Scan, Reached, Count, Advance;
      CustomSound(group);
      ghost var slice := CustomSlicer(group);
      bytesIn := bytesIn + |data|;
      buf := buf + data;
      out := [];
      var pos: nat, more := 0, true;
      ghost var run := NOTHING;
      PlusNothing(V().done);
      ReachedStart(slice, buf);
      StampNothing(recvMs);
      while more
        invariant 0 <= pos <= |buf| && buf == old(buf) + data && bytesIn == old(bytesIn) + |data|
        invariant V().done == Plus(old(V().done), run)
        invariant out == Stamp(run.rows, recvMs)
        invariant Reached(slice, buf, pos, run)
        invariant !more ==> slice(buf[pos..]) == NeedMore
        decreases more, |buf| - pos
      {
        ghost var step := slice(buf[pos..]);
        var n, rows := CustomAt(group, buf[pos..], recvMs);
        ReachedStep(slice, buf, pos, run);
        PlusAssoc(old(V().done), run, Count(step));
        StampPlus(run.rows, Count(step).rows, recvMs);
        PlusRows(run, Count(step));
        run := Plus(run, Count(step));
        out := out + rows;
        pos := pos + n;
        more := n > 0;
      }
      ReachedEnd(slice, buf, pos, run);
      Compact(pos);
    }

    /** feedModbus, first the configuration guards. */
    method FeedModbus(dev: DeviceDesc, data: seq<Byte>, recvMs: int) returns (out: seq<Emitted>)
      requires GoodSpec(dev.spec)
      modifies this
      ensures V() == ModbusCall(dev, old(V()), data)
      ensures out == Stamp(ModbusRows(dev, old(buf) + data), recvMs)
    {
      hide Scan, Sound, StreamSlicer.Feed, DecodeOk, DecodeRow;
      bytesIn := bytesIn + |data|;
      if dev.spec.fields == [] { return []; }
      if !dev.spec.IsModbusHeaderLen() {
        badFrames := badFrames + 1;
        return [];
      }
      if dev.spec.payloadMin == 0 {
        badFrames := badFrames + 1;
        return [];
      }
      buf := buf + data;
      if Oversize(dev.spec) { return []; }
      ModbusSound(dev);
      ghost var slice := ModbusSlicer(dev);
      ghost var before := old(V());
      assert V() == Stream(before.buf + data, before.bytesIn + |data|, before.done);
      out := SliceModbus(dev, recvMs);
      FeedIs(slice, before, data);
    }

    /** The slicing loop of feedModbus over the pending bytes. */
    method SliceModbus(dev: DeviceDesc, recvMs: int) returns (out: seq<Emitted>)
      requires GoodModbus(dev)
      modifies this
      ensures Sound(ModbusSlicer(dev))
      ensures V() == Compacted(Stream(Scan(ModbusSlicer(dev), old(buf)).1, old(bytesIn),
                                      Plus(old(V().done), Scan(ModbusSlicer(dev), old(buf)).0)))
      ensures out == Stamp(Scan(ModbusSlicer(dev), old(buf)).0.rows, recvMs)
    {
      hide Plus, Stamp, Sound, Scan, Reached, Count, Advance, MbapStep, Response, GoodSpec;
      ModbusSound(dev);
      ghost var slice := ModbusSlicer(dev);
      out := [];
      var pos: nat, more := 0, true;
      ghost var run := NOTHING;
      PlusNothing(V().done);
      ReachedStart(slice, buf);
      StampNothing(recvMs);
      while more
        invariant 0 <= pos <= |buf| && buf == old(buf) && bytesIn == old(bytesIn)
        invariant V().done == Plus(old(V().done), run)
        invariant out == Stamp(run.rows, recvMs)
        invariant Reached(slice, buf, pos, run)
        invariant !more ==> slice(buf[pos..]) == NeedMore
        decreases more, |buf| - pos
      {
        if Mbap(dev.spec) {
          ghost var start := pos;
          pos := Synchronise(dev, pos, run);
          PlusDropped(old(V().done), run, pos - start);
          run := Dropped(run, pos - start);
        }
        ghost var step := slice(buf[pos..]);
        var n, rows := ModbusAt(dev, buf[pos..], recvMs);
        ReachedStep(slice, buf, pos, run);
        PlusAssoc(old(V().done), run, Count(step));
        StampPlus(run.rows, Count(step).rows, recvMs);
        PlusRows(run, Count(step));
        run := Plus(run, Count(step));
        out := out + rows;
        pos := pos + n;
        more := n > 0;
      }
      ReachedEnd(slice, buf, pos, run);
      Compact(pos);
    }

    /** The search for the protocol identifier: at most the last three bytes stay unchecked, since
        a split identifier may complete. */
    method Synchronise(dev: DeviceDesc, pos: nat, ghost run: Tally) returns (p: nat)
      requires GoodModbus(dev) && Mbap(dev.spec) && Sound(ModbusSlicer(dev))
      requires Reached(ModbusSlicer(dev), buf, pos, run)
      modifies this`resyncs
      ensures pos <= p <= |buf| && Reached(ModbusSlicer(dev), buf, p, Dropped(run, p - pos))
      ensures resyncs == old(resyncs) + (p - pos)
      ensures p + 4 <= |buf| ==> buf[p + 2] == 0 && buf[p + 3] == 0
    {
      hide Sound, Reached, MbapStep, GoodSpec;
      ghost var slice := ModbusSlicer(dev);
      p := pos;
      assert Reached(slice, buf, p, run) && run == Dropped(run, 0);
      ReachedStep(slice, buf, pos, run);
      while p + 4 <= |buf| && !(buf[p + 2] == 0 && buf[p + 3] == 0)
        invariant pos <= p <= |buf|
        invariant Reached(slice, buf, p, Dropped(run, p - pos))
        invariant p > pos ==> p + 3 <= |buf|
        invariant resyncs == old(resyncs)
      {
        assert slice(buf[p..]) == Skip(false, false, false);
        ReachedStep(slice, buf, p, Dropped(run, p - pos));
        assert Plus(Dropped(run, p - pos), Count(Skip(false, false, false))) == Dropped(run, p + 1 - pos);
        p := p + 1;
      }
      if p + 4 > |buf| {
        var have := |buf| - pos;
        var keep := if have > 3 then 3 else have;
        var drop := have - keep;
        assert p == pos + drop;
        resyncs := resyncs + drop;
      } else if p != pos {
        resyncs := resyncs + (p - pos);
      }
    }

    /** One decision of feedModbus after synchronising. */
    method ModbusAt(dev: DeviceDesc, h: seq<Byte>, ts: int) returns (n: nat, out: seq<Emitted>)
      requires GoodModbus(dev)
      requires Mbap(dev.spec) && |h| >= 4 ==> h[2] == 0 && h[3] == 0
      modifies this`frames, this`resyncs, this`badFrames, this`flagMiss, this`unknownType, this`framed, this`emitted
      ensures n == Advance(ModbusStep(dev, h))
      ensures V().done == Plus(old(V().done), Count(ModbusStep(dev, h)))
      ensures out == Stamp(Count(ModbusStep(dev, h)).rows, ts)
    {
      hide Plus, Stamp, Response, GoodSpec, Count;
      StampNothing(ts);
      PlusNothing(V().done);
      CountWaits();
      if Mbap(dev.spec) {
        if |h| < 4 || |h| < 6 { return 0, []; }
        var mbapLen := Word16(h[5], h[4]);
        var total := 6 + mbapLen;
        if mbapLen < 1 || total > MAX_FRAME || total < dev.spec.frameType {
          Drop(false, false, false);
          return 1, [];
        }
        if |h| < total { return 0, []; }
        if total - dev.spec.frameType < dev.spec.payloadMin {
          Drop(false, false, false);
          return 1, [];
        }
        n, out := ResponseAt(dev, h[..total], ts);
      } else {
        var total := dev.spec.frameType + dev.spec.payloadMin;
        if |h| < total { return 0, []; }
        n, out := ResponseAt(dev, h[..total], ts);
      }
    }

    method ResponseAt(dev: DeviceDesc, frame: seq<Byte>, ts: int) returns (n: nat, out: seq<Emitted>)
      requires GoodModbus(dev) && dev.spec.frameType <= |frame|
      modifies this`frames, this`resyncs, this`badFrames, this`flagMiss, this`unknownType, this`framed, this`emitted
      ensures n == Advance(Response(dev, frame))
      ensures V().done == Plus(old(V().done), Count(Response(dev, frame)))
      ensures out == Stamp(Count(Response(dev, frame)).rows, ts)
    {
      hide Plus, DecodeRow, GoodField, PayloadMin;
      var payload := frame[dev.spec.frameType..];
      var ok, cells := DecodePayload(dev.spec, dev.ModbusBigEndian(), payload, |payload|);
      if !ok {
        Drop(false, false, true);
        return 1, [];
      }
      Take(|frame|, [Row(dev, cells)], true, false);
      n, out := |frame|, [Emitted(dev, ts, cells)];
    }
  }

  function Dropped(t: Tally, n: nat): Tally { t.(resyncs := t.resyncs + n) }

  lemma PlusDropped(a: Tally, b: Tally, n: nat)
    ensures Plus(a, Dropped(b, n)) == Dropped(Plus(a, b), n)
  {
  }

  lemma CountWaits()
    ensures Count(NeedMore) == NOTHING && Count(Skip(false, false, false)).rows == []
  {
  }

  lemma StampNothing(ts: int)
    ensures Stamp([], ts) == []
  {
  }

  /** The record loop of one frame. */
  method PushRecords(d: DeviceDesc, payload: seq<Byte>, ts: int) returns (ok: bool, out: seq<Emitted>)
    requires GoodSpec(d.spec) && d.spec.payloadMin <= |payload| < 0x1_0000
    ensures ok == DecodeOk(d.spec, RecordBytes(d.spec, |payload|))
    ensures out == Stamp(RowsOf(d, payload), ts)
  {
    hide DecodeRow;
    out := [];
    ok := true;
    var rec := RecordBytes(d.spec, |payload|);
    var records := Records(d.spec, |payload|);
    for k := 0 to records
      invariant ok == (k == 0 || DecodeOk(d.spec, rec))
      invariant k > 0 ==> |RowsOf(d, payload)| == records
      invariant out == Stamp(RowsOf(d, payload)[..k], ts)
    {
      if DecodeOk(d.spec, rec) { RecordFits(d.spec, |payload|, k); }
      var row;
      var p := if k * rec <= |payload| then payload[k * rec..] else [];
      ok, row := DecodePayload(d.spec, d.BigEndian(), p, rec);
      if !ok { break; }
      out := out + [Emitted(d, ts, row)];
    }
  }
}
