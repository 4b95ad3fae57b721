/** The runtime device model of src/adapter/DeviceModel.h. */
module DeviceModel {

  import opened Common

  type Byte = x: int | 0 <= x < 256

  datatype FieldKind = IntSigned | IntUnsigned | Float32 | Float64 | Bool

  /** One sensor value: where it lies in a record and how it is stored. */
  datatype FieldDesc = FieldDesc(
    kind: FieldKind, size: nat, byteOffset: nat, bitOffset: nat, bitLen: nat,
    outSize: nat, bindType: nat, colType: string, asDouble: bool)

  datatype FrameSpec = FrameSpec(
    frameType: int, frameLen: int, startFlag: Byte, endFlag: Byte, endian: int,
    payloadMin: nat, fields: seq<FieldDesc>)
  {
    /** 9, 7, 2 and 0 are the response header lengths of modbus devices. */
    predicate IsModbusHeaderLen() { frameType == 0 || frameType == 2 || frameType == 7 || frameType == 9 }
  }

  const CONN_CUSTOM_DATA: int := 1
  const CONN_MODBUS: int := 2
  const CONN_HTTP: int := 3

  datatype DeviceDesc = DeviceDesc(
    deviceId: string, ip: string, devicePort: nat, connProto: int, dataProtoId: int, endian: int,
    spec: FrameSpec, isEvent: bool, eventType: int, immediateFlush: bool)
  {
    /** Byte order of custom_data payloads: the device overrides the header row. */
    predicate BigEndian() { (if endian != 0 then endian else spec.endian) != 0 }

    /** Byte order of modbus registers: big unless configured little. */
    predicate ModbusBigEndian() { (if endian != 0 then endian else spec.endian) != 1 }
  }

  /** Member i is the first one with its frame type. */
  predicate FirstOfType(members: seq<DeviceDesc>, i: nat) {
    i < |members| && forall j | 0 <= j < i :: members[j].spec.frameType != members[i].spec.frameType
  }

  /** The first member whose frame type is ft. */
  function ByFrameType(members: seq<DeviceDesc>, ft: int): (r: Option<DeviceDesc>)
    ensures r.Some? ==> r.value in members && r.value.spec.frameType == ft
    ensures forall i | 0 <= i < |members| && members[i].spec.frameType == ft && FirstOfType(members, i) ::
      r == Some(members[i])
    ensures r.None? <==> forall i | 0 <= i < |members| :: members[i].spec.frameType != ft
  {
    if members == [] then None
    else if members[0].spec.frameType == ft then Some(members[0])
    else ByFrameType(members[1..], ft)
  }

  /** One decoded value. Floating-point values are kept as their bit patterns. */
  datatype Cell = Int(i: int) | Float32Bits(bits: nat) | Float64Bits(bits: nat) | DoubleOf(i: int)

  datatype Row = Row(dev: DeviceDesc, cells: seq<Cell>)
}
