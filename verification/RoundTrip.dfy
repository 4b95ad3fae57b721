/** The language of custom_data frames, said in terms of the configuration rows alone, and the proof
    that the decoder takes exactly that language and gives back what was sent. The adapter holds only
    the decoder; the encoder is what a device does. */
module RoundTrip {
  import opened Common
  import opened Bitwise
  import opened DeviceModel
  import opened FieldCodec
  import opened StreamSlicer
  import opened FrameCodec
  import opened StreamLaws
  import opened RecordCodec

  // ---------------------------------------------------------------- frames as devices send them

  /** A frame: its device, delimiter and sequence bytes, the payload, and the trailing byte of an event
      frame. With implicitLength the header carries length 0, which stands for one configured record. */
  datatype Message = Message(dev: DeviceDesc, flag: Byte, seqLo: Byte, seqHi: Byte, implicitLength: bool,
                             payload: seq<Byte>, trail: Byte)

  /** Event frames of a device with an end flag carry a trailing delimiter. */
  predicate Trailed(dev: DeviceDesc) { dev.isEvent && dev.spec.endFlag != 0 }

  function End(f: FieldDesc): nat { f.byteOffset + f.size }

  ghost predicate Chosen(group: seq<DeviceDesc>, dev: DeviceDesc) {
    exists i: nat :: FirstOfType(group, i) && group[i] == dev
  }

  /** A frame the header frames: its type picks the device, its leading delimiter is the device's if it
      is an event device that has one, its payload covers every field (by 32-bit offsets), and the
      whole is at most 64 KiB. */
  ghost predicate Framed(group: seq<DeviceDesc>, m: Message) {
    var spec := m.dev.spec;
    && 0 <= spec.frameType < 256 && Chosen(group, m.dev) && spec.fields != []
    && (m.dev.isEvent && spec.startFlag != 0 ==> m.flag == spec.startFlag)
    && 0 < |m.payload| < 0x1_0000
    && (forall i | 0 <= i < |spec.fields| :: End(spec.fields[i]) % 0x1_0000_0000 <= |m.payload|)
    && 6 + |m.payload| + (if Trailed(m.dev) then 1 else 0) <= 0x1_0000
    && (m.implicitLength ==> spec.frameLen == |m.payload|)
  }

  /** Every field lies in a record of the configured length, or in the payload if there is none. */
  predicate Decodable(m: Message) {
    var spec := m.dev.spec;
    forall i | 0 <= i < |spec.fields| ::
      End(spec.fields[i]) <= if spec.frameLen > 0 then spec.frameLen else |m.payload|
  }

  ghost predicate WellFormed(group: seq<DeviceDesc>, m: Message) {
    Framed(group, m) && Decodable(m) && (Trailed(m.dev) ==> m.trail == m.dev.spec.endFlag)
  }

  function Encode(m: Message): seq<Byte>
    requires 0 <= m.dev.spec.frameType < 256 && |m.payload| < 0x1_0000
  {
    var len := if m.implicitLength then 0 else |m.payload|;
    [m.dev.spec.frameType, m.flag, len % 256, len / 256, m.seqLo, m.seqHi]
      + m.payload + (if Trailed(m.dev) then [m.trail] else [])
  }

  /** Records of n bytes each. */
  function Chunks(p: seq<Byte>, n: nat): seq<seq<Byte>>
    requires n > 0
    decreases |p|
  {
    if |p| < n then [] else [p[..n]] + Chunks(p[n..], n)
  }

  /** The records of a payload: as many of the configured length as make it up, else the payload. */
  function Parts(frameLen: int, payload: seq<Byte>): seq<seq<Byte>> {
    if frameLen > 0 && |payload| % frameLen == 0 then Chunks(payload, frameLen) else [payload]
  }

  /** Byte order by the configuration: big endian if the device row or the header row says so. */
  predicate BigByRow(dev: DeviceDesc) { dev.endian != 0 || dev.spec.endian != 0 }

  /** The rows a frame stands for: one per record, or none if the fields do not fit. */
  ghost function RowsIn(group: seq<DeviceDesc>, m: Message): seq<Row>
    requires GoodGroup(group) && Framed(group, m)
  {
    GoodMember(group, m.dev);
    if !Decodable(m) then []
    else
      seq(|Parts(m.dev.spec.frameLen, m.payload)|, k requires 0 <= k < |Parts(m.dev.spec.frameLen, m.payload)| =>
        PartFits(group, m, k);
        Row(m.dev, DecodeRow(m.dev.spec, BigByRow(m.dev), Parts(m.dev.spec.frameLen, m.payload)[k])))
  }

  lemma GoodMember(group: seq<DeviceDesc>, dev: DeviceDesc)
    requires GoodGroup(group) && Chosen(group, dev)
    ensures GoodSpec(dev.spec) && ByFrameType(group, dev.spec.frameType) == Some(dev)
  {
  }

  // ---------------------------------------------------------------- records

  lemma {:induction false} ChunkAt(p: seq<Byte>, n: nat, k: nat)
    requires n > 0 && k < |Chunks(p, n)|
    ensures k * n + n <= |p| && Chunks(p, n)[k] == p[k * n .. k * n + n]
    decreases |p|
  {
    if k > 0 {
      ChunkAt(p[n..], n, k - 1);
      assert k * n == (k - 1) * n + n;
      assert p[n..][(k - 1) * n .. (k - 1) * n + n] == p[k * n .. k * n + n];
    }
  }

  lemma {:induction false} ChunkCount(p: seq<Byte>, n: nat)
    requires n > 0
    ensures |Chunks(p, n)| == |p| / n
    decreases |p|
  {
    if |p| >= n {
      ChunkCount(p[n..], n);
      var q, r := |p[n..]| / n, |p[n..]| % n;
      assert |p[n..]| == q * n + r;
      NextMultiple(q, n);
      RemainderIs(|p|, n, q + 1, r);
    } else {
      RemainderIs(|p|, n, 0, |p|);
    }
  }

  lemma {:induction false} PayloadMinIs(fields: seq<FieldDesc>, n: nat)
    ensures PayloadMin(fields) <= n <==> forall i | 0 <= i < |fields| :: End(fields[i]) % 0x1_0000_0000 <= n
  {
    if fields != [] {
      var k := |fields| - 1;
      PayloadMinIs(fields[..k], n);
      if PayloadMin(fields) <= n {
        forall i | 0 <= i < |fields|
          ensures End(fields[i]) % 0x1_0000_0000 <= n
        {
          if i < k { assert fields[i] == fields[..k][i]; }
        }
      }
    }
  }

  /** decodePayload succeeds exactly when there is a field and every field lies in the record. */
  lemma DecodeOkIs(spec: FrameSpec, len: nat)
    requires GoodSpec(spec) && len < 0x1_0000_0000
    ensures DecodeOk(spec, len) <==>
      spec.fields != [] && forall i | 0 <= i < |spec.fields| :: End(spec.fields[i]) <= len
  {
    PayloadMinIs(spec.fields, len);
    hide PayloadMin, GoodField;
    if forall i | 0 <= i < |spec.fields| :: End(spec.fields[i]) <= len {
      forall i | 0 <= i < |spec.fields|
        ensures End(spec.fields[i]) % 0x1_0000_0000 <= len
      {
        RemainderIs(End(spec.fields[i]), 0x1_0000_0000, 0, End(spec.fields[i]));
      }
    }
  }

  /** Where the decoder finds the records of a frame. */
  lemma PartIs(spec: FrameSpec, payload: seq<Byte>, k: nat)
    requires 0 < |payload| && k < |Parts(spec.frameLen, payload)|
    ensures |Parts(spec.frameLen, payload)| == Records(spec, |payload|)
    ensures var rec := RecordBytes(spec, |payload|);
      && k * rec <= |payload| && |Parts(spec.frameLen, payload)[k]| <= |payload| - k * rec
      && payload[k * rec..][..|Parts(spec.frameLen, payload)[k]|] == Parts(spec.frameLen, payload)[k]
    ensures var part := Parts(spec.frameLen, payload)[k];
      |part| == RecordBytes(spec, |payload|) || (k == 0 && part == payload)
  {
    var n := spec.frameLen;
    if n > 0 && |payload| % n == 0 {
      ChunkCount(payload, n);
      ChunkAt(payload, n, k);
      assert payload[k * n..][..n] == payload[k * n .. k * n + n];
      AtLeastOne(|payload|, n);
    } else {
      assert payload[0..][..|payload|] == payload;
      RemainderIs(|payload|, |payload|, 1, 0);
    }
  }

  lemma AtLeastOne(x: nat, n: nat)
    requires n > 0 && x > 0 && x % n == 0
    ensures x >= n
  {
    if x < n { RemainderIs(x, n, 0, x); }
  }

  lemma PartFits(group: seq<DeviceDesc>, m: Message, k: nat)
    requires GoodGroup(group) && Framed(group, m) && Decodable(m) && k < |Parts(m.dev.spec.frameLen, m.payload)|
    ensures GoodSpec(m.dev.spec) && FieldsFit(m.dev.spec.fields, |Parts(m.dev.spec.frameLen, m.payload)[k]|)
  {
    hide GoodSpec, Parts, RecordBytes, Records;
    GoodMember(group, m.dev);
    PartIs(m.dev.spec, m.payload, k);
    DecodableFits(m);
    Covered(group, m);
  }

  lemma DecodableFits(m: Message)
    requires Decodable(m)
    ensures FieldsFit(m.dev.spec.fields, RecordBytes(m.dev.spec, |m.payload|))
  {
  }

  /** A framed payload is long enough for the decoder and holds every field that fits a record. */
  lemma Covered(group: seq<DeviceDesc>, m: Message)
    requires GoodGroup(group) && Framed(group, m)
    ensures GoodSpec(m.dev.spec) && m.dev.spec.payloadMin <= |m.payload| < 0x1_0000
    ensures Decodable(m) ==> FieldsFit(m.dev.spec.fields, |m.payload|)
    ensures DecodeOk(m.dev.spec, RecordBytes(m.dev.spec, |m.payload|)) <==> Decodable(m)
  {
    GoodMember(group, m.dev);
    PayloadMinIs(m.dev.spec.fields, |m.payload|);
    var rec := RecordBytes(m.dev.spec, |m.payload|);
    assert rec < 0x1_0000_0000;
    DecodeOkIs(m.dev.spec, rec);
    hide PayloadMin, GoodField;
    if Decodable(m) {
      DecodableFits(m);
      FieldsInsidePayload(m.dev.spec, rec, |m.payload|);
    }
  }

  /** Decoding reads the record and nothing behind it. */
  lemma DecodeRowPrefix(spec: FrameSpec, be: bool, rec: seq<Byte>, more: seq<Byte>)
    requires GoodSpec(spec) && FieldsFit(spec.fields, |rec|) && |rec| <= |more| && more[..|rec|] == rec
    ensures DecodeRow(spec, be, more) == DecodeRow(spec, be, rec)
  {
    hide DecodeCell, PayloadMin, GoodField;
    forall i | 0 <= i < |spec.fields|
      ensures FieldBytes(spec.fields[i], more) == FieldBytes(spec.fields[i], rec)
    {
      var f := spec.fields[i];
      assert more[..|rec|][f.byteOffset .. f.byteOffset + f.size] == more[f.byteOffset .. f.byteOffset + f.size];
    }
  }

  /** The decoder reads the byte order from the configuration rows. */
  lemma OrderIs(dev: DeviceDesc)
    ensures dev.BigEndian() <==> BigByRow(dev)
  {
  }

  lemma MessageRows(group: seq<DeviceDesc>, m: Message)
    requires GoodGroup(group) && Framed(group, m)
    requires GoodSpec(m.dev.spec) && m.dev.spec.payloadMin <= |m.payload| < 0x1_0000
    ensures RowsOf(m.dev, m.payload) == RowsIn(group, m)
  {
    hide DecodeRow, RecordBytes, Records, GoodSpec, Parts, DecodeOk;
    Covered(group, m);
    OrderIs(m.dev);
    if Decodable(m) {
      var spec, parts := m.dev.spec, Parts(m.dev.spec.frameLen, m.payload);
      var rec := RecordBytes(spec, |m.payload|);
      SomePart(spec.frameLen, m.payload);
      PartIs(spec, m.payload, 0);
      forall k | 0 <= k < |parts|
        ensures RowsOf(m.dev, m.payload)[k] == RowsIn(group, m)[k]
      {
        DecodableFits(m);
        PartIs(spec, m.payload, k);
        PartFits(group, m, k);
        RecordFits(spec, |m.payload|, k);
        DecodeRowPrefix(spec, BigByRow(m.dev), parts[k], m.payload[k * rec..]);
      }
    }
  }

  lemma SomePart(frameLen: int, payload: seq<Byte>)
    requires payload != []
    ensures |Parts(frameLen, payload)| > 0
  {
    if frameLen > 0 && |payload| % frameLen == 0 { AtLeastOne(|payload|, frameLen); }
  }

  // ---------------------------------------------------------------- the decoder takes exactly the frames

  function MissedTrail(m: Message): bool { Trailed(m.dev) && m.trail != m.dev.spec.endFlag }

  /** Where the parts of a frame lie. */
  lemma Layout(m: Message, rest: seq<Byte>)
    requires 0 <= m.dev.spec.frameType < 256 && |m.payload| < 0x1_0000
    ensures var frame, n := Encode(m), |m.payload|;
      var buf := frame + rest;
      && |frame| == 6 + n + (if Trailed(m.dev) then 1 else 0)
      && buf[0] == m.dev.spec.frameType && buf[1] == m.flag
      && Word16(buf[2], buf[3]) == (if m.implicitLength then 0 else n)
      && buf[6 .. 6 + n] == m.payload && (Trailed(m.dev) ==> buf[|frame| - 1] == m.trail)
  {
    var len := if m.implicitLength then 0 else |m.payload|;
    var head := [m.dev.spec.frameType, m.flag, len % 256, len / 256, m.seqLo, m.seqHi];
    var frame := Encode(m);
    assert forall i | 0 <= i < 6 :: (frame + rest)[i] == head[i];
    assert frame[6 .. 6 + |m.payload|] == m.payload;
    assert (frame + rest)[6 .. 6 + |m.payload|] == frame[6 .. 6 + |m.payload|];
  }

  /** At the start of a frame the decoder takes exactly that frame. */
  lemma FrameStep(group: seq<DeviceDesc>, m: Message, rest: seq<Byte>)
    requires GoodGroup(group) && Framed(group, m)
    ensures CustomStep(group, Encode(m) + rest)
         == Frame(|Encode(m)|, RowsIn(group, m), Decodable(m), MissedTrail(m))
  {
    hide RowsOf, RowsIn, RecordBytes, Records, GoodSpec, Encode, Word16, DecodeOk, Decodable, Chosen;
    GoodMember(group, m.dev);
    Covered(group, m);
    MessageRows(group, m);
    Layout(m, rest);
  }

  /** What the decoder has seen when it takes a frame. */
  lemma Taken(group: seq<DeviceDesc>, buf: seq<Byte>)
    requires GoodGroup(group) && CustomStep(group, buf).Frame?
    ensures |buf| >= 6 && ByFrameType(group, buf[0]).Some?
    ensures var dev := ByFrameType(group, buf[0]).value;
      var len := Word16(buf[2], buf[3]);
      var n := if len != 0 then len else dev.spec.frameLen;
      && GoodSpec(dev.spec) && dev.spec.frameType == buf[0] && dev.spec.fields != []
      && (dev.isEvent && dev.spec.startFlag != 0 ==> buf[1] == dev.spec.startFlag)
      && 0 < n && dev.spec.payloadMin <= n && 6 + n + (if Trailed(dev) then 1 else 0) <= 0x1_0000
      && 6 + n + (if Trailed(dev) then 1 else 0) <= |buf|
  {
    hide RowsOf, DecodeOk, RecordBytes, Word16;
    assert GoodSpec(ByFrameType(group, buf[0]).value.spec);
    hide GoodSpec;
  }

  /** Whatever the decoder takes as a frame is one. */
  lemma FrameOnly(group: seq<DeviceDesc>, buf: seq<Byte>) returns (m: Message)
    requires GoodGroup(group) && CustomStep(group, buf).Frame?
    ensures Framed(group, m) && Encode(m) <= buf
  {
    hide CustomStep, GoodGroup, Word16, Chosen, PayloadMin, GoodField, Encode;
    Taken(group, buf);
    var dev := ByFrameType(group, buf[0]).value;
    var len := Word16(buf[2], buf[3]);
    var n: nat := if len != 0 then len else dev.spec.frameLen;
    m := Message(dev, buf[1], buf[4], buf[5], len == 0, buf[6 .. 6 + n], if Trailed(dev) then buf[6 + n] else 0);
    ChosenByType(group, buf[0]);
    PayloadMinIs(dev.spec.fields, n);
    SameBytes(m, buf, len);
  }

  lemma ChosenByType(group: seq<DeviceDesc>, ft: int)
    requires ByFrameType(group, ft).Some?
    ensures Chosen(group, ByFrameType(group, ft).value)
  {
    var i := FirstIndex(group, ft);
    assert FirstOfType(group, i) && group[i] == ByFrameType(group, ft).value;
  }

  lemma {:induction false} FirstIndex(group: seq<DeviceDesc>, ft: int) returns (i: nat)
    requires exists j :: 0 <= j < |group| && group[j].spec.frameType == ft
    ensures FirstOfType(group, i) && group[i].spec.frameType == ft
  {
    i := 0;
    while group[i].spec.frameType != ft
      invariant i < |group| && forall j | 0 <= j < i :: group[j].spec.frameType != ft
      decreases |group| - i
    {
      i := i + 1;
    }
  }

  lemma SameBytes(m: Message, buf: seq<Byte>, len: nat)
    requires 0 <= m.dev.spec.frameType < 256 && |m.payload| < 0x1_0000
    requires |buf| >= 6 + |m.payload| + (if Trailed(m.dev) then 1 else 0)
    requires buf[0] == m.dev.spec.frameType && buf[1] == m.flag && len == Word16(buf[2], buf[3])
    requires buf[4] == m.seqLo && buf[5] == m.seqHi && len == (if m.implicitLength then 0 else |m.payload|)
    requires buf[6 .. 6 + |m.payload|] == m.payload
    requires Trailed(m.dev) ==> buf[6 + |m.payload|] == m.trail
    ensures Encode(m) <= buf
  {
    var head := [m.dev.spec.frameType, m.flag, len % 256, len / 256, m.seqLo, m.seqHi];
    assert len % 256 == buf[2] && len / 256 == buf[3];
    assert head == buf[..6];
    var n := |m.payload|;
    assert buf[..6 + n] == buf[..6] + buf[6 .. 6 + n];
    if Trailed(m.dev) { assert buf[..7 + n] == buf[..6 + n] + [buf[6 + n]]; }
  }

  /** The decoder takes a frame exactly where one begins. */
  lemma FramesExactly(group: seq<DeviceDesc>, buf: seq<Byte>)
    requires GoodGroup(group)
    ensures CustomStep(group, buf).Frame? <==> exists m :: Framed(group, m) && Encode(m) <= buf
  {
    if CustomStep(group, buf).Frame? {
      var m := FrameOnly(group, buf);
    }
    forall m | Framed(group, m) && Encode(m) <= buf
      ensures CustomStep(group, buf).Frame?
    {
      FrameStep(group, m, buf[|Encode(m)|..]);
      assert buf == Encode(m) + buf[|Encode(m)|..];
    }
  }

  /** A byte is dropped as unknown exactly when no device has its frame type, and as a missed delimiter
      exactly when the device of the type has fields and is an event device with another start flag. */
  lemma DropReasons(group: seq<DeviceDesc>, buf: seq<Byte>)
    requires GoodGroup(group) && CustomStep(group, buf).Skip?
    ensures |buf| >= 6 && !CustomStep(group, buf).bad
    ensures CustomStep(group, buf).unknown <==> forall i | 0 <= i < |group| :: group[i].spec.frameType != buf[0]
    ensures CustomStep(group, buf).flagMiss <==> exists i: nat ::
      && FirstOfType(group, i) && group[i].spec.frameType == buf[0] && group[i].spec.fields != [] && group[i].isEvent
      && group[i].spec.startFlag != 0 && buf[1] != group[i].spec.startFlag
  {
    var dev := ByFrameType(group, buf[0]);
    if dev.Some? {
      var i := FirstIndex(group, buf[0]);
    }
  }

  // ---------------------------------------------------------------- streams of frames

  ghost function Wire(group: seq<DeviceDesc>, ms: seq<Message>): seq<Byte>
    requires forall i | 0 <= i < |ms| :: WellFormed(group, ms[i])
  {
    if ms == [] then []
    else
      assert WellFormed(group, ms[0]);
      Encode(ms[0]) + Wire(group, ms[1..])
  }

  ghost function AllRows(group: seq<DeviceDesc>, ms: seq<Message>): seq<Row>
    requires GoodGroup(group) && forall i | 0 <= i < |ms| :: WellFormed(group, ms[i])
  {
    if ms == [] then []
    else
      assert WellFormed(group, ms[0]);
      RowsIn(group, ms[0]) + AllRows(group, ms[1..])
  }

  lemma WellFormedStep(group: seq<DeviceDesc>, m: Message, rest: seq<Byte>)
    requires GoodGroup(group) && WellFormed(group, m)
    ensures Framed(group, m) && 0 <= m.dev.spec.frameType < 256 && |m.payload| < 0x1_0000
    ensures CustomStep(group, Encode(m) + rest) == Frame(|Encode(m)|, RowsIn(group, m), true, false)
  {
    hide Chosen, Decodable, Encode, CustomStep, RowsIn;
    FrameStep(group, m, rest);
  }

  lemma {:induction false} WireScan(group: seq<DeviceDesc>, ms: seq<Message>)
    requires GoodGroup(group) && forall i | 0 <= i < |ms| :: WellFormed(group, ms[i])
    ensures Sound(CustomSlicer(group))
    ensures Scan(CustomSlicer(group), Wire(group, ms))
         == (Tally(AllRows(group, ms), |ms|, 0, 0, 0, 0, |Wire(group, ms)|), [])
    decreases |ms|
  {
    hide Sound, CustomStep, Encode, RowsIn, Framed, Decodable;
    CustomSound(group);
    if ms == [] {
      EmptyWaits(group);
    } else {
      WellFormedStep(group, ms[0], Wire(group, ms[1..]));
      var one, rest := Encode(ms[0]), Wire(group, ms[1..]);
      WireScan(group, ms[1..]);
      assert (one + rest)[|one|..] == rest;
    }
  }

  lemma EmptyWaits(group: seq<DeviceDesc>)
    requires GoodGroup(group)
    ensures CustomStep(group, []) == NeedMore
  {
  }

  /** Round trip: any sequence of well-formed frames, cut into chunks in any way, decodes to
      exactly the records sent, in order, each for the device its frame type picks, with no
      re-synchronisation and nothing left over. */
  lemma StreamRoundTrip(group: seq<DeviceDesc>, ms: seq<Message>, chunks: seq<seq<Byte>>)
    requires GoodGroup(group) && forall i | 0 <= i < |ms| :: WellFormed(group, ms[i])
    requires Concat(chunks) == Wire(group, ms)
    ensures CustomRun(group, FRESH, chunks)
         == Stream([], |Wire(group, ms)|, Tally(AllRows(group, ms), |ms|, 0, 0, 0, 0, |Wire(group, ms)|))
  {
    hide Sound, Scan, CustomStep, WellFormed;
    CustomSound(group);
    var slice := CustomSlicer(group);
    EmptyWaits(group);
    StreamRun(slice, chunks);
    WireScan(group, ms);
    FeedSettles(slice, FRESH, Wire(group, ms));
    assert FRESH.buf + Wire(group, ms) == Wire(group, ms);
    PlusNothing(Scan(slice, Wire(group, ms)).0);
  }

  // ---------------------------------------------------------------- frames made from cells

  /** The payload holds these rows of cells, each written into a blank record in the byte order of
      the device's configuration. */
  ghost predicate MadeFrom(group: seq<DeviceDesc>, m: Message, table: seq<seq<Cell>>, blank: seq<Byte>)
    requires GoodGroup(group) && WellFormed(group, m)
  {
    var spec, be := m.dev.spec, m.dev.endian != 0 || m.dev.spec.endian != 0;
    && Encodable(spec, be) && FieldsFit(spec.fields, |blank|) && |table| == |Parts(spec.frameLen, m.payload)|
    && forall k | 0 <= k < |table| ::
      && ValidCells(spec.fields, table[k])
      && Parts(spec.frameLen, m.payload)[k] == EncodeRecord(spec.fields, table[k], be, blank)
  }

  function TableRows(dev: DeviceDesc, table: seq<seq<Cell>>): seq<Row> {
    seq(|table|, k requires 0 <= k < |table| => Row(dev, table[k]))
  }

  /** The cells come back. */
  lemma CellsRoundTrip(group: seq<DeviceDesc>, m: Message, table: seq<seq<Cell>>, blank: seq<Byte>)
    requires GoodGroup(group) && WellFormed(group, m) && MadeFrom(group, m, table, blank)
    ensures RowsIn(group, m) == TableRows(m.dev, table)
  {
    hide Framed, EncodeRecord, ValidCells, DecodeRow, Parts, Decodable;
    forall k | 0 <= k < |table|
      ensures RowsIn(group, m)[k] == Row(m.dev, table[k])
    {
      PartFits(group, m, k);
      RecordRoundTrip(m.dev.spec, table[k], BigByRow(m.dev), blank);
    }
  }

  /** All rows of a stream of frames made from cells. */
  function AllTables(ms: seq<Message>, tables: seq<seq<seq<Cell>>>): seq<Row>
    requires |ms| == |tables|
  {
    if ms == [] then [] else TableRows(ms[0].dev, tables[0]) + AllTables(ms[1..], tables[1..])
  }

  lemma {:induction false} AllCellsRoundTrip(group: seq<DeviceDesc>, ms: seq<Message>, tables: seq<seq<seq<Cell>>>,
                                             blanks: seq<seq<Byte>>)
    requires GoodGroup(group) && |ms| == |tables| == |blanks|
    requires forall i | 0 <= i < |ms| :: WellFormed(group, ms[i]) && MadeFrom(group, ms[i], tables[i], blanks[i])
    ensures AllRows(group, ms) == AllTables(ms, tables)
    decreases |ms|
  {
    hide WellFormed, MadeFrom, RowsIn, TableRows;
    if ms != [] {
      CellsRoundTrip(group, ms[0], tables[0], blanks[0]);
      AllCellsRoundTrip(group, ms[1..], tables[1..], blanks[1..]);
    }
  }
}
