/** The language of modbus responses, said in terms of the configuration rows alone, and the proof
    that feedModbus takes exactly that language and gives back what was sent. */
module ModbusRoundTrip {
  import opened Common
  import opened Bitwise
  import opened DeviceModel
  import opened FieldCodec
  import opened StreamSlicer
  import opened FrameCodec
  import opened StreamLaws
  import opened RecordCodec
  import RoundTrip

  /** A response: the transaction identifier and what follows the MBAP length field (unit
      identifier, for a 9-byte header also function code and byte count, then the registers); a
      fixed-length frame has no MBAP prefix and consists of `body` alone. */
  datatype Answer = Answer(tidHi: Byte, tidLo: Byte, body: seq<Byte>)

  /** Where a field ends in 32-bit arithmetic. */
  function End32(f: FieldDesc): nat { RoundTrip.End(f) % 0x1_0000_0000 }

  /** A device whose stream is cut into responses: a response header of 0, 2, 7 or 9 bytes, a field
      that ends behind offset 0, and a fixed-length frame of at most 64 KiB. */
  predicate Configured(dev: DeviceDesc) {
    var spec := dev.spec;
    && GoodSpec(spec) && spec.frameType in {0, 2, 7, 9}
    && (exists i | 0 <= i < |spec.fields| :: End32(spec.fields[i]) > 0)
    && (spec.frameType in {0, 2} ==>
        forall i | 0 <= i < |spec.fields| :: spec.frameType + End32(spec.fields[i]) <= 0x1_0000)
  }

  /** Bytes of the response header that lie in the body. */
  function BodyHeader(frameType: int): int {
    if frameType == 9 then 3 else if frameType == 7 then 1 else frameType
  }

  /** The registers hold every field. A response is at most 64 KiB long; a fixed-length one
      ends with its last field. */
  predicate WellFormed(dev: DeviceDesc, a: Answer) {
    var fields, hdr := dev.spec.fields, BodyHeader(dev.spec.frameType);
    && Configured(dev) && hdr <= |a.body|
    && (forall i | 0 <= i < |fields| :: hdr + RoundTrip.End(fields[i]) <= |a.body|)
    && |a.body| + (if dev.spec.frameType in {7, 9} then 6 else 0) <= 0x1_0000
    && (dev.spec.frameType in {0, 2} ==> exists i | 0 <= i < |fields| :: hdr + RoundTrip.End(fields[i]) == |a.body|)
  }

  function EncodeAnswer(dev: DeviceDesc, a: Answer): seq<Byte>
    requires WellFormed(dev, a)
  {
    if dev.spec.frameType in {7, 9} then [a.tidHi, a.tidLo, 0, 0, |a.body| / 256, |a.body| % 256] + a.body else a.body
  }

  /** Byte order by the configuration: little endian if the device row says 1, or says nothing and
      the header row says 1. */
  predicate BigByRow(dev: DeviceDesc) { if dev.endian != 0 then dev.endian != 1 else dev.spec.endian != 1 }

  /** The row of a response: its registers, in the device's byte order. */
  function RowIn(dev: DeviceDesc, a: Answer): Row
    requires WellFormed(dev, a)
  {
    Row(dev, DecodeRow(dev.spec, BigByRow(dev), a.body[BodyHeader(dev.spec.frameType)..]))
  }

  // ---------------------------------------------------------------- configurations

  lemma SomeExtent(fields: seq<FieldDesc>)
    ensures PayloadMin(fields) > 0 <==> exists i | 0 <= i < |fields| :: End32(fields[i]) > 0
  {
    RoundTrip.PayloadMinIs(fields, 0);
  }

  /** feedModbus slices exactly the configured devices. */
  lemma ConfiguredIs(dev: DeviceDesc)
    ensures Configured(dev) <==> GoodModbus(dev)
  {
    hide PayloadMin, GoodField;
    SomeExtent(dev.spec.fields);
    if dev.spec.frameType in {0, 2} { RoundTrip.PayloadMinIs(dev.spec.fields, 0x1_0000 - dev.spec.frameType); }
  }

  lemma {:induction false} LastEnd(fields: seq<FieldDesc>)
    ensures fields != [] ==> exists i | 0 <= i < |fields| :: End32(fields[i]) == PayloadMin(fields)
  {
    if |fields| > 1 {
      var front := fields[..|fields| - 1];
      LastEnd(front);
      var i :| 0 <= i < |front| && End32(front[i]) == PayloadMin(front);
      assert fields[i] == front[i];
      assert End32(fields[|fields| - 1]) == PayloadMin(fields) || End32(fields[i]) == PayloadMin(fields);
    } else if |fields| == 1 {
      assert fields[..0] == [];
      assert End32(fields[0]) == PayloadMin(fields);
    }
  }

  /** With every field inside n < 2^32 bytes, payloadMin is n exactly when some field ends there. */
  lemma EndsAt(fields: seq<FieldDesc>, n: nat)
    requires fields != [] && n < 0x1_0000_0000 && forall i | 0 <= i < |fields| :: RoundTrip.End(fields[i]) <= n
    ensures PayloadMin(fields) <= n
    ensures PayloadMin(fields) == n <==> exists i | 0 <= i < |fields| :: RoundTrip.End(fields[i]) == n
  {
    hide PayloadMin;
    forall i | 0 <= i < |fields|
      ensures End32(fields[i]) == RoundTrip.End(fields[i])
    {
      RemainderIs(RoundTrip.End(fields[i]), 0x1_0000_0000, 0, RoundTrip.End(fields[i]));
    }
    RoundTrip.PayloadMinIs(fields, n);
    RoundTrip.PayloadMinIs(fields, PayloadMin(fields));
    LastEnd(fields);
  }

  // ---------------------------------------------------------------- the decoder takes exactly the responses

  /** Where the parts of an MBAP response lie. */
  lemma AnswerLayout(a: Answer, hdr: nat, rest: seq<Byte>)
    requires |a.body| <= 0xffff && 6 <= hdr <= 6 + |a.body|
    ensures var frame := [a.tidHi, a.tidLo, 0, 0, |a.body| / 256, |a.body| % 256] + a.body;
      var buf := frame + rest;
      && |buf| >= |frame| >= 6 && buf[2] == 0 && buf[3] == 0 && Word16(buf[5], buf[4]) == |a.body|
      && buf[..|frame|] == frame && frame[hdr..] == a.body[hdr - 6..]
  {
    var frame := [a.tidHi, a.tidLo, 0, 0, |a.body| / 256, |a.body| % 256] + a.body;
    var buf := frame + rest;
    assert buf[2] == frame[2] && buf[3] == frame[3] && buf[4] == frame[4] && buf[5] == frame[5];
  }

  /** What the codec asks of the length of a response. */
  lemma Measured(dev: DeviceDesc, a: Answer)
    requires WellFormed(dev, a)
    ensures GoodModbus(dev) && |a.body| <= 0x1_0000 && a.body != []
    ensures var n := |a.body| - BodyHeader(dev.spec.frameType);
      && n >= 0 && DecodeOk(dev.spec, n) && dev.spec.payloadMin <= n
      && (dev.spec.frameType in {0, 2} ==> dev.spec.payloadMin == n)
  {
    ConfiguredIs(dev);
    hide GoodField, PayloadMin;
    var n := |a.body| - BodyHeader(dev.spec.frameType);
    assert forall i | 0 <= i < |dev.spec.fields| :: RoundTrip.End(dev.spec.fields[i]) <= n;
    EndsAt(dev.spec.fields, n);
  }

  /** At the start of a response the decoder takes exactly that response. */
  lemma AnswerStep(dev: DeviceDesc, a: Answer, rest: seq<Byte>)
    requires WellFormed(dev, a)
    ensures GoodModbus(dev)
    ensures ModbusStep(dev, EncodeAnswer(dev, a) + rest) == Frame(|EncodeAnswer(dev, a)|, [RowIn(dev, a)], true, false)
  {
    Measured(dev, a);
    OrderIs(dev);
    hide DecodeRow, GoodSpec, Word16, FieldsFit, DecodeOk, Configured;
    var frame := EncodeAnswer(dev, a);
    if dev.spec.frameType in {7, 9} {
      AnswerLayout(a, dev.spec.frameType, rest);
    } else {
      assert (frame + rest)[..|frame|] == frame;
    }
  }

  lemma OrderIs(dev: DeviceDesc)
    ensures dev.ModbusBigEndian() <==> BigByRow(dev)
  {
  }

  /** What the decoder has seen when it takes a response. */
  lemma Taken(dev: DeviceDesc, buf: seq<Byte>)
    requires GoodModbus(dev) && ModbusStep(dev, buf).Frame?
    ensures dev.spec.frameType in {7, 9} ==>
      && |buf| >= 6 && buf[2] == 0 && buf[3] == 0
      && var total := 6 + Word16(buf[5], buf[4]);
      && dev.spec.frameType <= total <= |buf| && total <= 0x1_0000 && DecodeOk(dev.spec, total - dev.spec.frameType)
    ensures dev.spec.frameType in {0, 2} ==>
      var total := dev.spec.frameType + dev.spec.payloadMin;
      total <= |buf| && total <= 0x1_0000 && DecodeOk(dev.spec, dev.spec.payloadMin)
  {
    hide DecodeRow, DecodeOk, Word16, GoodSpec;
  }

  /** Whatever the decoder takes as a response is one. */
  lemma AnswerOnly(dev: DeviceDesc, buf: seq<Byte>) returns (a: Answer)
    requires GoodModbus(dev) && ModbusStep(dev, buf).Frame?
    ensures WellFormed(dev, a) && EncodeAnswer(dev, a) <= buf
  {
    ConfiguredIs(dev);
    assert dev.spec.payloadMin == PayloadMin(dev.spec.fields) && dev.spec.frameType in {0, 2, 7, 9};
    hide Configured, GoodModbus, GoodSpec, ModbusStep, Word16, PayloadMin;
    Taken(dev, buf);
    var n: nat;
    if dev.spec.frameType in {7, 9} {
      var total := 6 + Word16(buf[5], buf[4]);
      n := total - dev.spec.frameType;
      a := Answer(buf[0], buf[1], buf[6 .. total]);
      SameBytes(a, buf);
    } else {
      n := dev.spec.payloadMin;
      a := Answer(0, 0, buf[..dev.spec.frameType + n]);
    }
    assert forall i | 0 <= i < |dev.spec.fields| :: RoundTrip.End(dev.spec.fields[i]) <= n;
    EndsAt(dev.spec.fields, n);
  }

  lemma SameBytes(a: Answer, buf: seq<Byte>)
    requires |buf| >= 6 + |a.body| && buf[6 .. 6 + |a.body|] == a.body && Word16(buf[5], buf[4]) == |a.body|
    requires a.tidHi == buf[0] && a.tidLo == buf[1] && buf[2] == 0 && buf[3] == 0
    ensures |a.body| / 256 < 256
    ensures [a.tidHi, a.tidLo, 0, 0, |a.body| / 256, |a.body| % 256] + a.body <= buf
  {
    var head := [a.tidHi, a.tidLo, 0, 0, |a.body| / 256, |a.body| % 256];
    assert |a.body| % 256 == buf[5] && |a.body| / 256 == buf[4];
    assert head == buf[..6];
    assert buf[..6 + |a.body|] == buf[..6] + buf[6 .. 6 + |a.body|];
  }

  /** The decoder takes a response exactly where one begins. */
  lemma AnswersExactly(dev: DeviceDesc, buf: seq<Byte>)
    requires GoodModbus(dev)
    ensures ModbusStep(dev, buf).Frame? <==> exists a :: WellFormed(dev, a) && EncodeAnswer(dev, a) <= buf
  {
    hide ModbusStep, WellFormed, EncodeAnswer, GoodModbus;
    if ModbusStep(dev, buf).Frame? {
      var a := AnswerOnly(dev, buf);
    }
    forall a | WellFormed(dev, a) && EncodeAnswer(dev, a) <= buf
      ensures ModbusStep(dev, buf).Frame?
    {
      AnswerStep(dev, a, buf[|EncodeAnswer(dev, a)|..]);
      assert buf == EncodeAnswer(dev, a) + buf[|EncodeAnswer(dev, a)|..];
    }
  }

  /** A byte is dropped as bad exactly when a whole response lies there whose registers cover every
      field in 32-bit arithmetic only: some field's end overflows. */
  lemma DropReasons(dev: DeviceDesc, buf: seq<Byte>)
    requires GoodModbus(dev) && ModbusStep(dev, buf).Skip?
    ensures !ModbusStep(dev, buf).unknown && !ModbusStep(dev, buf).flagMiss
    ensures dev.spec.frameType in {0, 2} ==> ModbusStep(dev, buf).bad
    ensures dev.spec.frameType in {7, 9} ==> |buf| >= 4
    ensures dev.spec.frameType in {7, 9} ==> (ModbusStep(dev, buf).bad <==>
      && |buf| >= 6 && buf[2] == 0 && buf[3] == 0
      && var total: int := 6 + Word16(buf[5], buf[4]);
      && dev.spec.frameType <= total <= |buf| && total <= 0x1_0000
      && forall i | 0 <= i < |dev.spec.fields| :: dev.spec.frameType + End32(dev.spec.fields[i]) <= total)
    ensures ModbusStep(dev, buf).bad ==>
      exists i | 0 <= i < |dev.spec.fields| :: RoundTrip.End(dev.spec.fields[i]) >= 0x1_0000_0000
  {
    assert dev.spec.payloadMin == PayloadMin(dev.spec.fields) && dev.spec.frameType in {0, 2, 7, 9};
    hide DecodeRow, GoodSpec, Word16, PayloadMin;
    if dev.spec.frameType in {0, 2} {
      Overflows(dev.spec, dev.spec.payloadMin);
    } else if |buf| >= 6 && 6 + Word16(buf[5], buf[4]) >= dev.spec.frameType {
      Overflows(dev.spec, 6 + Word16(buf[5], buf[4]) - dev.spec.frameType);
    }
  }

  lemma Overflows(spec: FrameSpec, n: nat)
    requires spec.payloadMin == PayloadMin(spec.fields) && spec.fields != []
    ensures spec.payloadMin <= n <==> forall i | 0 <= i < |spec.fields| :: End32(spec.fields[i]) <= n
    ensures spec.payloadMin <= n && !DecodeOk(spec, n) ==>
      exists i | 0 <= i < |spec.fields| :: RoundTrip.End(spec.fields[i]) >= 0x1_0000_0000
  {
    hide PayloadMin;
    RoundTrip.PayloadMinIs(spec.fields, n);
    if spec.payloadMin <= n && !DecodeOk(spec, n) {
      var i :| 0 <= i < |spec.fields| && RoundTrip.End(spec.fields[i]) > n;
      assert End32(spec.fields[i]) <= n;
    }
  }

  // ---------------------------------------------------------------- streams of responses

  function Wire(dev: DeviceDesc, answers: seq<Answer>): seq<Byte>
    requires forall i | 0 <= i < |answers| :: WellFormed(dev, answers[i])
  {
    if answers == [] then [] else EncodeAnswer(dev, answers[0]) + Wire(dev, answers[1..])
  }

  function RowsIn(dev: DeviceDesc, answers: seq<Answer>): seq<Row>
    requires forall i | 0 <= i < |answers| :: WellFormed(dev, answers[i])
  {
    seq(|answers|, i requires 0 <= i < |answers| => RowIn(dev, answers[i]))
  }

  lemma {:induction false} WireScan(dev: DeviceDesc, answers: seq<Answer>)
    requires GoodModbus(dev) && forall i | 0 <= i < |answers| :: WellFormed(dev, answers[i])
    ensures Sound(ModbusSlicer(dev))
    ensures Scan(ModbusSlicer(dev), Wire(dev, answers))
         == (Tally(RowsIn(dev, answers), |answers|, 0, 0, 0, 0, |Wire(dev, answers)|), [])
    decreases |answers|
  {
    hide Sound, ModbusStep, EncodeAnswer, RowIn, WellFormed, GoodModbus;
    ModbusSound(dev);
    if answers == [] {
      ModbusSlicesEmpty(dev);
      assert RowsIn(dev, answers) == [];
    } else {
      var one, rest := EncodeAnswer(dev, answers[0]), Wire(dev, answers[1..]);
      AnswerStep(dev, answers[0], rest);
      WireScan(dev, answers[1..]);
      assert (one + rest)[|one|..] == rest;
      assert RowsIn(dev, answers) == [RowIn(dev, answers[0])] + RowsIn(dev, answers[1..]);
    }
  }

  /** Round trip: any sequence of well-formed responses, cut into chunks in any way, decodes to one
      row each, in order, with no re-synchronisation and nothing left over. */
  lemma StreamRoundTrip(dev: DeviceDesc, answers: seq<Answer>, chunks: seq<seq<Byte>>)
    requires Configured(dev) && forall i | 0 <= i < |answers| :: WellFormed(dev, answers[i])
    requires Concat(chunks) == Wire(dev, answers)
    ensures ModbusRun(dev, FRESH, chunks)
         == Stream([], |Wire(dev, answers)|, Tally(RowsIn(dev, answers), |answers|, 0, 0, 0, 0, |Wire(dev, answers)|))
  {
    hide Sound, Scan, ModbusStep, WellFormed, GoodSpec, RowsIn;
    ConfiguredIs(dev);
    ModbusSound(dev);
    var slice := ModbusSlicer(dev);
    ModbusSlicesEmpty(dev);
    GoodModbusRun(dev, FRESH, chunks);
    StreamRun(slice, chunks);
    WireScan(dev, answers);
    FeedSettles(slice, FRESH, Wire(dev, answers));
    assert FRESH.buf + Wire(dev, answers) == Wire(dev, answers);
    PlusNothing(Scan(slice, Wire(dev, answers)).0);
  }

  // ---------------------------------------------------------------- responses made from cells

  /** The registers hold these cells, written into a blank record in the byte order of the device's
      configuration. */
  ghost predicate MadeFrom(dev: DeviceDesc, a: Answer, cells: seq<Cell>, blank: seq<Byte>)
    requires WellFormed(dev, a)
  {
    var spec, be := dev.spec, if dev.endian != 0 then dev.endian != 1 else dev.spec.endian != 1;
    && Encodable(spec, be) && FieldsFit(spec.fields, |blank|) && ValidCells(spec.fields, cells)
    && a.body[BodyHeader(spec.frameType)..] == EncodeRecord(spec.fields, cells, be, blank)
  }

  /** The cells come back. */
  lemma CellsRoundTrip(dev: DeviceDesc, answers: seq<Answer>, table: seq<seq<Cell>>, blanks: seq<seq<Byte>>)
    requires |answers| == |table| == |blanks| && forall i | 0 <= i < |answers| :: WellFormed(dev, answers[i])
    requires forall i | 0 <= i < |answers| :: MadeFrom(dev, answers[i], table[i], blanks[i])
    ensures RowsIn(dev, answers) == RoundTrip.TableRows(dev, table)
  {
    hide WellFormed, EncodeRecord, DecodeRow, ValidCells;
    forall i | 0 <= i < |answers|
      ensures RowIn(dev, answers[i]) == Row(dev, table[i])
    {
      RecordRoundTrip(dev.spec, table[i], BigByRow(dev), blanks[i]);
    }
  }
}
