/** Field decoding (src/adapter/FrameCodec.cpp) and field materialisation
    (src/adapter/ConfigDB.cpp): reading integers of either byte order, bit fields, sign
    extension, and the column width each value is stored in. */
module FieldCodec {
  import opened Common
  import opened Bitwise
  import opened DeviceModel

  // ---------------------------------------------------------------- powers of two

  function Pow2(n: nat): (r: nat)
    ensures r > 0
  {
    if n == 0 then 1 else 2 * Pow2(n - 1)
  }

  lemma {:induction false} Pow2Add(m: nat, n: nat)
    ensures Pow2(m + n) == Pow2(m) * Pow2(n)
  {
    if m > 0 {
      Pow2Add(m - 1, n);
    }
  }

  lemma {:induction false} Pow2Mono(m: nat, n: nat)
    requires m <= n
    ensures Pow2(m) <= Pow2(n)
  {
    if m < n { Pow2Mono(m, n - 1); }
  }

  lemma Pow2Known()
    ensures Pow2(7) == 0x80 && Pow2(8) == 0x100 && Pow2(15) == 0x8000 && Pow2(16) == 0x1_0000
    ensures Pow2(31) == 0x8000_0000 && Pow2(32) == 0x1_0000_0000
    ensures Pow2(63) == 0x8000_0000_0000_0000 && Pow2(64) == 0x1_0000_0000_0000_0000
  {
    assert Pow2(7) == 0x80;
    Pow2Add(8, 8);
    Pow2Add(16, 16);
    Pow2Add(32, 32);
  }

  // ---------------------------------------------------------------- whole-byte integers

  /** The number written in base 256, least significant digit first. */
  function LittleValue(p: seq<Byte>): nat {
    if p == [] then 0 else p[0] + 256 * LittleValue(p[1..])
  }

  /** The number written in base 256, most significant digit first. */
  function BigValue(p: seq<Byte>): nat {
    if p == [] then 0 else 256 * BigValue(p[..|p| - 1]) + p[|p| - 1]
  }

  function RawValue(p: seq<Byte>, be: bool): nat { if be then BigValue(p) else LittleValue(p) }

  /** Two bytes in either order. */
  lemma ByteOrders(p: seq<Byte>)
    requires |p| == 2
    ensures var a: int, b: int := p[0], p[1];
      RawValue(p, true) == 256 * a + b && RawValue(p, false) == a + 256 * b
  {
    assert BigValue(p[..1]) == p[0] && LittleValue(p[1..]) == p[1];
  }

  lemma {:induction false} LittleBound(p: seq<Byte>)
    ensures LittleValue(p) < Pow2(8 * |p|)
  {
    if p != [] {
      LittleBound(p[1..]);
      Pow2Add(8, 8 * |p[1..]|);
    }
  }

  lemma {:induction false} BigBound(p: seq<Byte>)
    ensures BigValue(p) < Pow2(8 * |p|)
  {
    if p != [] {
      BigBound(p[..|p| - 1]);
      Pow2Add(8, 8 * |p[..|p| - 1]|);
    }
  }

  lemma RawBound(p: seq<Byte>, be: bool)
    ensures RawValue(p, be) < Pow2(8 * |p|)
  {
    LittleBound(p);
    BigBound(p);
  }

  lemma {:induction false} LittleSnoc(p: seq<Byte>, b: Byte)
    ensures LittleValue(p + [b]) == LittleValue(p) + b * Pow2(8 * |p|)
  {
    if p == [] {
      assert [b][1..] == [];
    } else {
      assert (p + [b])[1..] == p[1..] + [b];
      LittleSnoc(p[1..], b);
      Pow2Add(8, 8 * |p[1..]|);
      assert 256 * (b * Pow2(8 * |p[1..]|)) == b * (256 * Pow2(8 * |p[1..]|));
    }
  }

  /** loadRaw: the bytes are at most eight, so nothing is shifted out of the 64-bit word. */
  method LoadRaw(p: seq<Byte>, be: bool) returns (v: nat)
    requires |p| <= 8
    ensures v == RawValue(p, be)
  {
    v := 0;
    assert p[..|p|] == p;
    if be {
      for i := 0 to |p|
        invariant v == BigValue(p[..i])
      {
        assert p[..i + 1][..i] == p[..i];
        v := v * 256 + p[i];
      }
    } else {
      var unit: nat := 1;
      for i := 0 to |p|
        invariant v == LittleValue(p[..i]) && unit == Pow2(8 * i)
      {
        assert p[..i + 1] == p[..i] + [p[i]];
        LittleSnoc(p[..i], p[i]);
        Pow2Add(8 * i, 8);
        v := v + p[i] * unit;
        unit := unit * 256;
      }
    }
  }

  // ---------------------------------------------------------------- 64-bit casts

  /** (int64_t) of a 64-bit word. */
  function ToSigned64(v: nat): int
    requires v < Pow2(64)
  {
    if v < Pow2(63) then v else v - Pow2(64)
  }

  /** signExtend: flip the sign bit and subtract it again, in 64-bit arithmetic. */
  function SignExtend(v: nat, bits: nat): int
    requires 0 < bits <= 64 && v < Pow2(bits)
  {
    if bits >= 64 then ToSigned64(v)
    else
      var m := Pow2(bits - 1);
      ToSigned64(Wrap64(Xor(v, m) - m))
  }

  /** A number as a 64-bit word. */
  function Wrap64(x: int): (r: nat)
    ensures r < Pow2(64)
  {
    x % Pow2(64)
  }

  lemma WrapKeeps(x: int)
    requires 0 - Pow2(63) <= x < Pow2(63)
    ensures ToSigned64(Wrap64(x)) == x
  {
    hide Pow2;
    CastKeeps(x, 64);
  }

  /** The two's complement reading of a bits-wide word. */
  function TwosComplement(v: nat, bits: nat): int
    requires 0 < bits && v < Pow2(bits)
  {
    if v < Pow2(bits - 1) then v else v - Pow2(bits)
  }

  lemma SignExtendIsTwosComplement(v: nat, bits: nat)
    requires 0 < bits <= 64 && v < Pow2(bits)
    ensures SignExtend(v, bits) == TwosComplement(v, bits)
    ensures 0 - Pow2(bits - 1) <= SignExtend(v, bits) < Pow2(bits - 1)
  {
    hide Pow2, Wrap64;
    Pow2Step(bits - 1);
    if bits < 64 {
      var m := Pow2(bits - 1);
      Pow2IsPower(bits - 1);
      XorTop(v, m);
      Pow2Mono(bits - 1, 63);
      WrapKeeps(if v < m then v else v - 2 * m);
    }
  }

  lemma Pow2Step(n: nat)
    ensures Pow2(n + 1) == 2 * Pow2(n)
  {
  }

  lemma {:induction false} Pow2IsPower(n: nat)
    ensures PowerOfTwo(Pow2(n))
  {
    if n > 0 { Pow2IsPower(n - 1); }
  }

  // ---------------------------------------------------------------- decodeInt

  /** The bits a field selects, as an unsigned number, and how many they are. */
  function FieldBits(f: FieldDesc): nat { if f.bitLen > 0 then f.bitLen else 8 * f.size }

  function Selected(f: FieldDesc, raw: nat): nat {
    if f.bitLen > 0 then (raw / Pow2(f.bitOffset)) % Pow2(f.bitLen) else raw
  }

  predicate GoodField(f: FieldDesc) {
    && f.size in {1, 2, 4, 8}
    && (f.bitLen > 0 ==> f.bitOffset + f.bitLen <= 8 * f.size)
  }

  lemma SelectedBound(f: FieldDesc, raw: nat)
    requires GoodField(f) && raw < Pow2(8 * f.size)
    ensures 0 < FieldBits(f) <= 8 * f.size <= 64 && Selected(f, raw) < Pow2(FieldBits(f)) <= Pow2(8 * f.size)
  {
    Pow2Mono(FieldBits(f), 8 * f.size);
  }

  function DecodeInt(f: FieldDesc, p: seq<Byte>, be: bool): int
    requires GoodField(f) && |p| == f.size
  {
    RawBound(p, be);
    var raw := RawValue(p, be);
    SelectedBound(f, raw);
    Pow2Mono(FieldBits(f), 64);
    if f.kind.IntSigned? then SignExtend(Selected(f, raw), FieldBits(f)) else ToSigned64(Selected(f, raw))
  }

  /** decodeInt after the load: shift and mask a bit field, then read the sign. */
  method IntegerOf(f: FieldDesc, raw: nat) returns (x: int)
    requires GoodField(f) && raw < Pow2(8 * f.size)
    ensures Selected(f, raw) < Pow2(FieldBits(f)) <= Pow2(64) && 0 < FieldBits(f) <= 64
    ensures x == if f.kind.IntSigned? then SignExtend(Selected(f, raw), FieldBits(f)) else ToSigned64(Selected(f, raw))
  {
    hide Pow2, SignExtend, ToSigned64;
    SelectedBound(f, raw);
    Pow2Mono(FieldBits(f), 64);
    var v := raw;
    if f.bitLen > 0 {
      var mask := if f.bitLen >= 64 then Pow2(64) - 1 else Pow2(f.bitLen) - 1;
      Pow2IsPower(f.bitLen);
      AndMask(raw / Pow2(f.bitOffset), Pow2(f.bitLen));
      v := And(raw / Pow2(f.bitOffset), mask);
    }
    x := if f.kind.IntSigned? then SignExtend(v, FieldBits(f)) else ToSigned64(v);
  }

  /** The cell decodePayload writes for one field. */
  function DecodeCell(f: FieldDesc, p: seq<Byte>, be: bool): Cell
    requires GoodField(f) && |p| == f.size
  {
    match f.kind
    case Float32 => Float32Bits(RawValue(p, be))
    case Float64 => Float64Bits(RawValue(p, be))
    case Bool => Int(if p[0] != 0 then 1 else 0)
    case _ => if f.asDouble then DoubleOf(DecodeInt(f, p, be)) else Int(DecodeInt(f, p, be))
  }

  // ---------------------------------------------------------------- configuration rows

  /** Wire type codes of data_proto_table.field_type. */
  function MapFieldType(code: int): Option<(FieldKind, nat)> {
    match code
    case 0 => Some((Bool, 1))
    case 1 => Some((IntSigned, 2))
    case 2 => Some((IntSigned, 4))
    case 3 => Some((Float32, 4))
    case 4 => Some((Float64, 8))
    case 5 => Some((IntSigned, 1))
    case 6 => Some((IntUnsigned, 1))
    case 7 => Some((IntUnsigned, 2))
    case 8 => Some((IntUnsigned, 4))
    case 9 => Some((IntSigned, 8))
    case 10 => Some((IntUnsigned, 8))
    case _ => None
  }

  /** BindType values of the database client. */
  const BIND_BOOL: nat := 1
  const BIND_TINYINT: nat := 2
  const BIND_SMALLINT: nat := 3
  const BIND_INT: nat := 4
  const BIND_BIGINT: nat := 5
  const BIND_FLOAT: nat := 6
  const BIND_DOUBLE: nat := 7

  /** The column a field is stored in: unsigned integers are widened to the next signed type. */
  function MaterializeField(f: FieldDesc): FieldDesc {
    match f.kind
    case Bool => f.(asDouble := false, outSize := 1, bindType := BIND_BOOL, colType := "BOOL")
    case Float32 => f.(asDouble := true, outSize := 4, bindType := BIND_FLOAT, colType := "FLOAT")
    case Float64 => f.(asDouble := true, outSize := 8, bindType := BIND_DOUBLE, colType := "DOUBLE")
    case IntSigned =>
      var g := f.(asDouble := false, outSize := f.size);
      if f.size == 1 then g.(bindType := BIND_TINYINT, colType := "TINYINT")
      else if f.size == 2 then g.(bindType := BIND_SMALLINT, colType := "SMALLINT")
      else if f.size == 4 then g.(bindType := BIND_INT, colType := "INT")
      else g.(bindType := BIND_BIGINT, colType := "BIGINT")
    case IntUnsigned =>
      var g := f.(asDouble := false);
      if f.size == 1 then g.(outSize := 2, bindType := BIND_SMALLINT, colType := "SMALLINT")
      else if f.size == 2 then g.(outSize := 4, bindType := BIND_INT, colType := "INT")
      else g.(outSize := 8, bindType := BIND_BIGINT, colType := "BIGINT")
  }

  /** One data_proto_table row; a bit range that leaves the field is switched off. */
  function LoadField(code: int, byteOffset: nat, bitOffset: nat, bitLen: nat): Option<FieldDesc> {
    match MapFieldType(code)
    case None => None
    case Some((kind, size)) =>
      var off := bitLen > 0 && bitOffset + bitLen > size * 8;
      Some(MaterializeField(FieldDesc(kind, size, byteOffset, if off then 0 else bitOffset, if off then 0 else bitLen,
                                      0, 0, "", false)))
  }

  /** A field as the configuration loader leaves it. */
  ghost predicate LoadedField(f: FieldDesc) {
    exists code, byteOffset: nat, bitOffset: nat, bitLen: nat ::
      byteOffset < 0x1_0000_0000 && LoadField(code, byteOffset, bitOffset, bitLen) == Some(f)
  }

  lemma RowIsGood(code: int, byteOffset: nat, bitOffset: nat, bitLen: nat)
    requires LoadField(code, byteOffset, bitOffset, bitLen).Some?
    ensures var f := LoadField(code, byteOffset, bitOffset, bitLen).value;
      && GoodField(f) && f.byteOffset == byteOffset
      && (f.kind.Float32? ==> f.size == 4) && (f.kind.Float64? ==> f.size == 8) && (f.kind.Bool? ==> f.size == 1)
  {
    hide MaterializeField;
    var (kind, size) := MapFieldType(code).value;
    MaterializeKeeps(FieldDesc(kind, size, byteOffset, bitOffset, bitLen, 0, 0, "", false));
    MaterializeKeeps(FieldDesc(kind, size, byteOffset, 0, 0, 0, 0, "", false));
  }

  lemma MaterializeKeeps(f: FieldDesc)
    ensures var g := MaterializeField(f);
      && g == f.(outSize := g.outSize, bindType := g.bindType, colType := g.colType, asDouble := g.asDouble)
      && MaterializeField(g) == g
  {
  }

  lemma LoadedFieldGood(f: FieldDesc)
    requires LoadedField(f)
    ensures GoodField(f) && f == MaterializeField(f) && f.byteOffset < 0x1_0000_0000
    ensures f.kind.Float32? ==> f.size == 4
    ensures f.kind.Float64? ==> f.size == 8
    ensures f.kind.Bool? ==> f.size == 1
  {
    var code, byteOffset: nat, bitOffset: nat, bitLen: nat :|
      byteOffset < 0x1_0000_0000 && LoadField(code, byteOffset, bitOffset, bitLen) == Some(f);
    RowIsGood(code, byteOffset, bitOffset, bitLen);
    hide MaterializeField;
    var (kind, size) := MapFieldType(code).value;
    MaterializeKeeps(FieldDesc(kind, size, byteOffset, bitOffset, bitLen, 0, 0, "", false));
    MaterializeKeeps(FieldDesc(kind, size, byteOffset, 0, 0, 0, 0, "", false));
  }

  /** The type names of data_proto_table.field_type, in the order of their codes. */
  const SCHEMA_TYPES: seq<string> := ["BOOL", "INT16", "INT32", "FLOAT32", "FLOAT64", "INT8", "UINT8", "UINT16",
                                      "UINT32", "INT64", "UINT64"]

  /** What the schema calls a field of this kind and width. */
  function SchemaName(f: FieldDesc): string {
    var width := if f.size == 1 then "8" else if f.size == 2 then "16" else if f.size == 4 then "32" else "64";
    match f.kind
    case Bool => "BOOL"
    case IntSigned => "INT" + width
    case IntUnsigned => "UINT" + width
    case Float32 => "FLOAT32"
    case Float64 => "FLOAT64"
  }

  /** A row is loaded exactly if its code is in the schema; the field has the schema's type, its
      offset, and its bit range if that lies inside the field. */
  lemma LoadFieldIs(code: int, byteOffset: nat, bitOffset: nat, bitLen: nat)
    ensures var r := LoadField(code, byteOffset, bitOffset, bitLen);
      && (r.Some? <==> 0 <= code < |SCHEMA_TYPES|)
      && (r.Some? ==>
        && SchemaName(r.value) == SCHEMA_TYPES[code] && r.value.byteOffset == byteOffset
        && if bitLen == 0 || bitOffset + bitLen <= 8 * r.value.size
           then r.value.bitOffset == bitOffset && r.value.bitLen == bitLen
           else r.value.bitOffset == 0 == r.value.bitLen)
  {
    hide MaterializeField;
    if MapFieldType(code).Some? {
      var (kind, size) := MapFieldType(code).value;
      MaterializeKeeps(FieldDesc(kind, size, byteOffset, bitOffset, bitLen, 0, 0, "", false));
      MaterializeKeeps(FieldDesc(kind, size, byteOffset, 0, 0, 0, 0, "", false));
    }
  }

  /** The column types of the database by bind type, with their widths. */
  const COLUMNS: seq<(string, nat)> := [("TIMESTAMP", 8), ("BOOL", 1), ("TINYINT", 1), ("SMALLINT", 2), ("INT", 4),
                                        ("BIGINT", 8), ("FLOAT", 4), ("DOUBLE", 8)]

  /** A signed column of w bytes holds every number of the field. */
  predicate WideEnough(f: FieldDesc, w: nat) {
    if w == 0 then false
    else if f.kind.IntUnsigned? then Pow2(8 * f.size) <= Pow2(8 * w - 1)
    else f.size <= w
  }

  /** The column a loaded field is stored in: bind type, type name and width agree; each kind has its
      own family of columns; an integer gets the narrowest column that holds every number of the
      field, except that 64-bit unsigned ones share the widest. */
  lemma ColumnIs(f: FieldDesc)
    requires LoadedField(f)
    ensures 0 < f.bindType < |COLUMNS| && COLUMNS[f.bindType] == (f.colType, f.outSize)
    ensures f.asDouble <==> f.kind in {Float32, Float64}
    ensures (f.bindType == 1 <==> f.kind.Bool?) && (f.bindType == 6 <==> f.kind.Float32?)
    ensures f.bindType == 7 <==> f.kind.Float64?
    ensures f.kind in {IntSigned, IntUnsigned} ==>
      && (WideEnough(f, f.outSize) || (f.kind.IntUnsigned? && f.size == 8 == f.outSize))
      && !WideEnough(f, f.outSize / 2)
  {
    LoadedFieldGood(f);
    hide Pow2, LoadedField;
    Pow2Known();
  }

  // ---------------------------------------------------------------- the writer's narrowing cast

  /** The value an outSize-byte signed column holds after the writer's cast. */
  function Narrow(outSize: nat, x: int): int {
    if outSize == 1 then TwosComplement(x % Pow2(8), 8)
    else if outSize == 2 then TwosComplement(x % Pow2(16), 16)
    else if outSize == 4 then TwosComplement(x % Pow2(32), 32)
    else TwosComplement(x % Pow2(64), 64)
  }

  lemma ModSmall(x: nat, m: nat)
    requires x < m
    ensures x % m == x
  {
  }

  /** A value in the signed range of n bits survives the cast to n bits. */
  lemma CastKeeps(x: int, n: nat)
    requires n > 0 && 0 - Pow2(n - 1) <= x < Pow2(n - 1)
    ensures TwosComplement(x % Pow2(n), n) == x
  {
    assert Pow2(n) == 2 * Pow2(n - 1);
    hide Pow2;
    if x < 0 { ModNegative(x, Pow2(n)); } else { ModSmall(x, Pow2(n)); }
  }

  lemma ModNegative(x: int, m: nat)
    requires m > 0 && 0 - m <= x < 0
    ensures x % m == x + m
  {
    var q := x / m;
    assert x == q * m + x % m;
    ProductMono(0, q, m);
    ProductMono(q, -2, m);
    assert q == -1;
  }

  /** The number an integer or Bool field means: the selected bits, read as the field's kind. */
  function Meaning(f: FieldDesc, p: seq<Byte>, be: bool): int
    requires GoodField(f) && |p| == f.size
  {
    RawBound(p, be);
    SelectedBound(f, RawValue(p, be));
    match f.kind
    case IntSigned => TwosComplement(Selected(f, RawValue(p, be)), FieldBits(f))
    case Bool => if p[0] != 0 then 1 else 0
    case _ => Selected(f, RawValue(p, be))
  }

  lemma SignedRange(f: FieldDesc, v: nat)
    requires GoodField(f) && FieldBits(f) > 0 && v < Pow2(FieldBits(f)) && FieldBits(f) <= 8 * f.size
    ensures 0 - Pow2(8 * f.size - 1) <= TwosComplement(v, FieldBits(f)) < Pow2(8 * f.size - 1)
  {
    Pow2Mono(FieldBits(f) - 1, 8 * f.size - 1);
  }

  /** Every decoded integer or Bool survives the narrowing cast of its column, and is the number
      the field means - except that an unsigned field of 64 bits keeps its bits, not its value,
      exactly when the value does not fit a signed 64-bit column. */
  lemma NarrowingIsLossless(f: FieldDesc, p: seq<Byte>, be: bool)
    requires LoadedField(f) && f.kind in {IntSigned, IntUnsigned, Bool} && GoodField(f) && |p| == f.size
    ensures DecodeCell(f, p, be).Int?
    ensures Narrow(f.outSize, DecodeCell(f, p, be).i) == DecodeCell(f, p, be).i
    ensures DecodeCell(f, p, be).i == Meaning(f, p, be) <==> (f.kind.IntUnsigned? ==> Meaning(f, p, be) < Pow2(63))
    ensures DecodeCell(f, p, be).i % Pow2(64) == Meaning(f, p, be) % Pow2(64)
  {
    hide Pow2;
    Pow2Known();
    LoadedFieldGood(f);
    RawBound(p, be);
    var raw := RawValue(p, be);
    SelectedBound(f, raw);
    Pow2Mono(FieldBits(f), 8 * f.size);
    Pow2Mono(8 * f.size, 64);
    var v := Selected(f, raw);
    match f.kind
    case Bool =>
    case IntSigned =>
      SignExtendIsTwosComplement(v, FieldBits(f));
      SignedRange(f, v);
      CastKeeps(TwosComplement(v, FieldBits(f)), 8 * f.size);
    case IntUnsigned =>
      WideningKeeps(f, v);
  }

  lemma WideningKeeps(f: FieldDesc, v: nat)
    requires GoodField(f) && v < Pow2(8 * f.size) && f.kind.IntUnsigned? && f == MaterializeField(f)
    ensures v < Pow2(64) && Narrow(f.outSize, ToSigned64(v)) == ToSigned64(v)
    ensures ToSigned64(v) == v <==> v < Pow2(63)
    ensures ToSigned64(v) % Pow2(64) == v % Pow2(64)
  {
    hide Pow2;
    Pow2Known();
    Pow2Mono(8 * f.size, 64);
    CastKeeps(ToSigned64(v), 64);
    if f.size == 1 { CastKeeps(v, 16); }
    if f.size == 2 { CastKeeps(v, 32); }
    if v >= Pow2(63) { ModNegative(v - Pow2(64), Pow2(64)); }
  }
}
