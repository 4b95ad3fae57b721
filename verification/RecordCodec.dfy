/** Records of fields laid out bit by bit: an encoder that writes each field's own bits and no
    others, and the round trip through the decoder, for any layout in which no two fields share a
    bit. */
module RecordCodec {
  import opened Common
  import opened Bitwise
  import opened DeviceModel
  import opened FieldCodec
  import opened FrameCodec

  // ---------------------------------------------------------------- one field

  function LittleBytes(v: nat, n: nat): (p: seq<Byte>)
    ensures |p| == n
  {
    if n == 0 then [] else [v % 256] + LittleBytes(v / 256, n - 1)
  }

  function BigBytes(v: nat, n: nat): (p: seq<Byte>)
    ensures |p| == n
  {
    if n == 0 then [] else BigBytes(v / 256, n - 1) + [v % 256]
  }

  function RawBytes(v: nat, n: nat, be: bool): (p: seq<Byte>)
    ensures |p| == n
  {
    if be then BigBytes(v, n) else LittleBytes(v, n)
  }

  lemma {:induction false} LittleRoundTrip(v: nat, n: nat)
    requires v < Pow2(8 * n)
    ensures LittleValue(LittleBytes(v, n)) == v
  {
    if n > 0 {
      Pow2Add(8, 8 * (n - 1));
      LittleRoundTrip(v / 256, n - 1);
      assert LittleBytes(v, n)[1..] == LittleBytes(v / 256, n - 1);
    }
  }

  lemma {:induction false} BigRoundTrip(v: nat, n: nat)
    requires v < Pow2(8 * n)
    ensures BigValue(BigBytes(v, n)) == v
  {
    if n > 0 {
      Pow2Add(8, 8 * (n - 1));
      BigRoundTrip(v / 256, n - 1);
      assert BigBytes(v, n)[..n - 1] == BigBytes(v / 256, n - 1);
    }
  }

  /** The integers an integer field can hold; all 64 bits unsigned are read as signed. */
  predicate Holds(f: FieldDesc, x: int) {
    var bits := FieldBits(f);
    bits > 0 &&
    if f.kind.IntSigned? || bits == 64 then 0 - Pow2(bits - 1) <= x < Pow2(bits - 1)
    else 0 <= x < Pow2(bits)
  }

  /** A cell a field can produce. */
  predicate ValidCell(f: FieldDesc, c: Cell) {
    match f.kind
    case Float32 => c.Float32Bits? && c.bits < Pow2(8 * f.size)
    case Float64 => c.Float64Bits? && c.bits < Pow2(8 * f.size)
    case Bool => c == Int(0) || c == Int(1)
    case _ => (if f.asDouble then c.DoubleOf? else c.Int?) && Holds(f, c.i)
  }

  /** The two's complement bits of x. */
  function Complement(x: int, bits: nat): (r: nat)
    ensures r < Pow2(bits)
  {
    x % Pow2(bits)
  }

  // ---------------------------------------------------------------- division

  lemma ModBelow(x: nat, m: nat)
    requires m > 0
    ensures x == x / m * m + x % m && x % m < m
  {
  }

  /** Dividing twice is dividing by the product. */
  lemma DivideTwice(x: nat, a: nat, b: nat)
    requires a > 0 && b > 0
    ensures a * b > 0 && x / (a * b) == x / a / b
  {
    var q, r := x / a, x % a;
    var p, t := q / b, q % b;
    ModBelow(x, a);
    ModBelow(q, b);
    Regroup(p, b, t, a, r);
    ProductMono(t + 1, b, a);
    NextMultiple(t, a);
    assert a * b > 0;
    RemainderIs(x, a * b, p, t * a + r);
  }

  lemma Regroup(p: nat, b: nat, t: nat, a: nat, r: nat)
    ensures (p * b + t) * a + r == p * (a * b) + (t * a + r)
  {
  }

  /** A multiple of a * b does not reach the digits below b after dividing by a. */
  lemma LowDigits(q: nat, a: nat, b: nat, d: nat, r: nat)
    requires a > 0 && b > 0
    ensures ((q * (a * b * d) + r) / a) % b == (r / a) % b
  {
    var k := q * d;
    assert q * (a * b * d) == (k * b) * a by { Shuffle(q, a, b, d); }
    ModBelow(r, a);
    ModBelow(r / a, b);
    NextSum(k * b, r / a, a);
    RemainderIs(q * (a * b * d) + r, a, k * b + r / a, r % a);
    NextSum(k, r / a / b, b);
    RemainderIs(k * b + r / a, b, k + r / a / b, (r / a) % b);
  }

  lemma Shuffle(q: nat, a: nat, b: nat, d: nat)
    ensures q * (a * b * d) == (q * d * b) * a
  {
  }

  lemma NextSum(x: nat, y: nat, a: nat)
    ensures (x + y) * a == x * a + y * a
  {
  }

  // ---------------------------------------------------------------- bits of a word

  /** The l bits of x from bit o on. */
  function Bits(x: nat, o: nat, l: nat): nat { (x / Pow2(o)) % Pow2(l) }

  function Bit(x: nat, j: nat): nat { Bits(x, j, 1) }

  /** w with its l bits from bit o on replaced by v. */
  function Insert(w: nat, o: nat, l: nat, v: nat): nat {
    Glue(Above(w, o + l), Pow2(l), v, Pow2(o), Below(w, o))
  }

  function Above(w: nat, k: nat): nat {
    NatQuotient(w, Pow2(k));
    w / Pow2(k)
  }

  function Below(w: nat, k: nat): nat { w % Pow2(k) }

  lemma NatQuotient(x: nat, m: nat)
    requires m > 0
    ensures x / m >= 0
  {
    var q, r := x / m, x % m;
    assert x == q * m + r;
    ProductMono(q, -1, m);
  }

  function Glue(high: nat, m: nat, v: nat, a: nat, low: nat): nat { (high * m + v) * a + low }

  lemma InsertReads(w: nat, o: nat, l: nat, v: nat)
    requires v < Pow2(l)
    ensures Bits(Insert(w, o, l, v), o, l) == v
    ensures Below(Insert(w, o, l, v), o) == Below(w, o)
    ensures Above(Insert(w, o, l, v), o + l) == Above(w, o + l)
  {
    var x := Insert(w, o, l, v);
    var a, m, hi, lo := Pow2(o), Pow2(l), Above(w, o + l), Below(w, o);
    ModBelow(w, a);
    assert x == (hi * m + v) * a + lo;
    hide Pow2, Insert;
    NatQuotient(w, Pow2(o + l));
    RemainderIs(x, a, hi * m + v, lo);
    RemainderIs(hi * m + v, m, hi, v);
    Pow2Add(o, l);
    DivideTwice(x, a, m);
  }

  lemma InsertFits(w: nat, o: nat, l: nat, v: nat, n: nat)
    requires v < Pow2(l) && w < Pow2(n) && o + l <= n
    ensures Insert(w, o, l, v) < Pow2(n)
  {
    var top, rest := Pow2(o + l), Pow2(n - o - l);
    var x := Insert(w, o, l, v);
    InsertReads(w, o, l, v);
    Pow2Add(o + l, n - o - l);
    hide Pow2, Insert;
    BelowProduct(w, top, rest);
    AboveProduct(x, top, rest);
  }

  lemma BelowProduct(w: nat, a: nat, b: nat)
    requires a > 0 && w < a * b
    ensures w / a < b
  {
    ModBelow(w, a);
    ProductMono(b, w / a, a);
  }

  lemma AboveProduct(x: nat, a: nat, b: nat)
    requires a > 0 && x / a < b
    ensures x < a * b
  {
    ModBelow(x, a);
    ProductMono(x / a + 1, b, a);
    NextMultiple(x / a, a);
  }

  /** Bits elsewhere keep their value. */
  lemma InsertElsewhere(w: nat, o: nat, l: nat, v: nat, j: nat)
    requires v < Pow2(l) && (j < o || o + l <= j)
    ensures Bit(Insert(w, o, l, v), j) == Bit(w, j)
  {
    var x := Insert(w, o, l, v);
    InsertReads(w, o, l, v);
    hide Pow2, Insert;
    if j < o {
      LowBit(x, o, j);
      LowBit(w, o, j);
    } else {
      HighBit(x, o + l, j);
      HighBit(w, o + l, j);
    }
  }

  lemma LowBit(x: nat, o: nat, j: nat)
    requires j < o
    ensures Bit(x, j) == Bit(Below(x, o), j)
  {
    hide Pow2;
    ModBelow(x, Pow2(o));
    Pow2Add(j, 1);
    Pow2Add(j + 1, o - j - 1);
    LowDigits(x / Pow2(o), Pow2(j), Pow2(1), Pow2(o - j - 1), x % Pow2(o));
  }

  lemma HighBit(x: nat, o: nat, j: nat)
    requires o <= j
    ensures Bit(x, j) == Bit(Above(x, o), j - o)
  {
    hide Pow2;
    Pow2Add(o, j - o);
    DivideTwice(x, Pow2(o), Pow2(j - o));
  }

  /** One bit more. */
  lemma BitsStep(x: nat, o: nat, l: nat)
    ensures Bits(x, o, l + 1) == Bit(x, o) + 2 * Bits(x, o + 1, l)
  {
    assert Pow2(1) == 2 * Pow2(0);
    hide Pow2;
    Pow2Add(o, 1);
    Pow2Add(1, l);
    DivideTwice(x, Pow2(o), 2);
    LastDigit(x / Pow2(o), Pow2(l));
  }

  /** Words that agree bit by bit agree as numbers. */
  lemma {:induction false} SameBits(x: nat, y: nat, o: nat, l: nat)
    requires forall j: nat | o <= j < o + l :: Bit(x, j) == Bit(y, j)
    ensures Bits(x, o, l) == Bits(y, o, l)
    decreases l
  {
    hide Bit;
    if l > 0 {
      BitsStep(x, o, l - 1);
      BitsStep(y, o, l - 1);
      SameBits(x, y, o + 1, l - 1);
    } else {
      NoBits(x, o);
      NoBits(y, o);
    }
  }

  lemma NoBits(x: nat, o: nat)
    ensures Bits(x, o, 0) == 0
  {
  }

  // ---------------------------------------------------------------- where a field lies

  predicate IsInt(f: FieldDesc) { f.kind.IntSigned? || f.kind.IntUnsigned? }

  /** The bits of its word a field occupies: a bit field its own, any other field all of them. */
  function FirstBit(f: FieldDesc): nat { if IsInt(f) && f.bitLen > 0 then f.bitOffset else 0 }

  function BitCount(f: FieldDesc): nat { if IsInt(f) && f.bitLen > 0 then f.bitLen else 8 * f.size }

  /** The position in the record, in bits, of bit j of the field's word. */
  function Position(f: FieldDesc, be: bool, j: nat): nat
    requires j < 8 * f.size
  {
    8 * (f.byteOffset + if be then f.size - 1 - j / 8 else j / 8) + j % 8
  }

  /** The field owns the bit at this position. */
  ghost predicate Owns(f: FieldDesc, be: bool, pos: nat) {
    exists j: nat :: j < 8 * f.size && FirstBit(f) <= j < FirstBit(f) + BitCount(f) && Position(f, be, j) == pos
  }

  /** No two fields own the same bit. */
  ghost predicate Disjoint(fields: seq<FieldDesc>, be: bool) {
    forall i, j, pos: nat | 0 <= i < j < |fields| && Owns(fields[i], be, pos) :: !Owns(fields[j], be, pos)
  }

  function RecordBit(rec: seq<Byte>, pos: nat): nat
    requires pos < 8 * |rec|
  {
    Bit(rec[pos / 8], pos % 8)
  }

  // ---------------------------------------------------------------- bits of a window

  lemma LittleParts(p: seq<Byte>)
    requires p != []
    ensures Below(LittleValue(p), 8) == p[0] && Above(LittleValue(p), 8) == LittleValue(p[1..])
  {
    Pow2Known();
    hide Pow2;
  }

  lemma BigParts(p: seq<Byte>)
    requires p != []
    ensures Below(BigValue(p), 8) == p[|p| - 1] && Above(BigValue(p), 8) == BigValue(p[..|p| - 1])
  {
    Pow2Known();
    hide Pow2;
  }

  lemma {:induction false} LittleBit(p: seq<Byte>, j: nat)
    requires j < 8 * |p|
    ensures Bit(LittleValue(p), j) == Bit(p[j / 8], j % 8)
    decreases |p|
  {
    hide Pow2, Bit, LittleValue, Above, Below;
    LittleParts(p);
    if j < 8 {
      LowBit(LittleValue(p), 8, j);
    } else {
      HighBit(LittleValue(p), 8, j);
      LittleBit(p[1..], j - 8);
    }
  }

  lemma {:induction false} BigBit(p: seq<Byte>, j: nat)
    requires j < 8 * |p|
    ensures Bit(BigValue(p), j) == Bit(p[|p| - 1 - j / 8], j % 8)
    decreases |p|
  {
    hide Pow2, Bit, BigValue, Above, Below;
    BigParts(p);
    if j < 8 {
      LowBit(BigValue(p), 8, j);
    } else {
      HighBit(BigValue(p), 8, j);
      BigBit(p[..|p| - 1], j - 8);
    }
  }

  /** Bit j of a field's word is the record's bit at its position. */
  lemma WindowBit(f: FieldDesc, be: bool, rec: seq<Byte>, j: nat)
    requires f.byteOffset + f.size <= |rec| && j < 8 * f.size
    ensures Position(f, be, j) < 8 * |rec|
    ensures Bit(RawValue(FieldBytes(f, rec), be), j) == RecordBit(rec, Position(f, be, j))
  {
    hide Bit;
    var p := FieldBytes(f, rec);
    if be { BigBit(p, j); } else { LittleBit(p, j); }
    var b := if be then f.size - 1 - j / 8 else j / 8;
    assert p[b] == rec[f.byteOffset + b];
    assert Position(f, be, j) / 8 == f.byteOffset + b && Position(f, be, j) % 8 == j % 8;
  }

  /** Records that agree on the bits a field owns give it the same cell. */
  lemma SameOwned(f: FieldDesc, be: bool, r1: seq<Byte>, r2: seq<Byte>)
    requires GoodField(f) && (f.kind.Bool? ==> f.size == 1) && |r1| == |r2| && f.byteOffset + f.size <= |r1|
    requires forall pos: nat | pos < 8 * |r1| && Owns(f, be, pos) :: RecordBit(r1, pos) == RecordBit(r2, pos)
    ensures DecodeCell(f, FieldBytes(f, r1), be) == DecodeCell(f, FieldBytes(f, r2), be)
  {
    hide Pow2, Bit, RecordBit, Position, SignExtend, ToSigned64;
    var p1, p2 := FieldBytes(f, r1), FieldBytes(f, r2);
    var w1, w2 := RawValue(p1, be), RawValue(p2, be);
    forall j: nat | FirstBit(f) <= j < FirstBit(f) + BitCount(f)
      ensures Bit(w1, j) == Bit(w2, j)
    {
      WindowBit(f, be, r1, j);
      WindowBit(f, be, r2, j);
      assert Owns(f, be, Position(f, be, j));
    }
    SameBits(w1, w2, FirstBit(f), BitCount(f));
    OwnedDecide(f, be, p1, p2);
  }

  /** A field's cell is decided by the bits it owns. */
  lemma OwnedDecide(f: FieldDesc, be: bool, p1: seq<Byte>, p2: seq<Byte>)
    requires GoodField(f) && (f.kind.Bool? ==> f.size == 1) && |p1| == |p2| == f.size
    requires Bits(RawValue(p1, be), FirstBit(f), BitCount(f)) == Bits(RawValue(p2, be), FirstBit(f), BitCount(f))
    ensures DecodeCell(f, p1, be) == DecodeCell(f, p2, be)
  {
    hide SignExtend, ToSigned64;
    if !(IsInt(f) && f.bitLen > 0) {
      WholeBits(p1, be);
      WholeBits(p2, be);
      if f.kind.Bool? {
        OneByte(p1, be);
        OneByte(p2, be);
      }
    }
    hide Pow2;
  }

  lemma WholeBits(p: seq<Byte>, be: bool)
    ensures Bits(RawValue(p, be), 0, 8 * |p|) == RawValue(p, be)
  {
    RawBound(p, be);
    assert Pow2(0) == 1;
    hide Pow2;
    ModSmall(RawValue(p, be), Pow2(8 * |p|));
  }

  lemma OneByte(p: seq<Byte>, be: bool)
    requires |p| == 1
    ensures RawValue(p, be) == p[0]
  {
    assert p[1..] == [] && p[..|p| - 1] == [];
    assert LittleValue(p) == p[0] + 256 * LittleValue(p[1..]);
    assert BigValue(p) == 256 * BigValue(p[..|p| - 1]) + p[0];
  }

  // ---------------------------------------------------------------- one field

  lemma RawRoundTrip(v: nat, n: nat, be: bool)
    requires v < Pow2(8 * n)
    ensures RawValue(RawBytes(v, n, be), be) == v
  {
    LittleRoundTrip(v, n);
    BigRoundTrip(v, n);
  }

  /** The bits a field stores for a cell. */
  function OwnWord(f: FieldDesc, c: Cell): nat
    requires ValidCell(f, c)
  {
    match f.kind
    case Float32 => c.bits
    case Float64 => c.bits
    case Bool => c.i
    case _ => Complement(c.i, FieldBits(f))
  }

  /** The window of a field with its own bits rewritten. */
  function EncodeField(f: FieldDesc, c: Cell, be: bool, window: seq<Byte>): (p: seq<Byte>)
    requires ValidCell(f, c)
    ensures |p| == f.size
  {
    RawBytes(Insert(RawValue(window, be), FirstBit(f), BitCount(f), OwnWord(f, c)), f.size, be)
  }

  lemma OwnWordFits(f: FieldDesc, c: Cell)
    requires GoodField(f) && (f.kind.Bool? ==> f.size == 1) && ValidCell(f, c)
    ensures OwnWord(f, c) < Pow2(BitCount(f)) && FirstBit(f) + BitCount(f) <= 8 * f.size
  {
    Pow2Known();
    hide Pow2;
  }

  lemma EncodedWord(f: FieldDesc, c: Cell, be: bool, window: seq<Byte>)
    requires GoodField(f) && (f.kind.Bool? ==> f.size == 1) && ValidCell(f, c) && |window| == f.size
    ensures RawValue(EncodeField(f, c, be, window), be)
         == Insert(RawValue(window, be), FirstBit(f), BitCount(f), OwnWord(f, c))
    ensures OwnWord(f, c) < Pow2(BitCount(f)) && FirstBit(f) + BitCount(f) <= 8 * f.size
  {
    hide Insert;
    OwnWordFits(f, c);
    RawBound(window, be);
    InsertFits(RawValue(window, be), FirstBit(f), BitCount(f), OwnWord(f, c), 8 * f.size);
    RawRoundTrip(Insert(RawValue(window, be), FirstBit(f), BitCount(f), OwnWord(f, c)), f.size, be);
  }

  lemma ComplementReads(f: FieldDesc, x: int)
    requires GoodField(f) && Holds(f, x) && f.kind in {IntSigned, IntUnsigned}
    ensures var v := Complement(x, FieldBits(f));
      && v < Pow2(64) && 0 < FieldBits(f) <= 64
      && (f.kind.IntSigned? ==> SignExtend(v, FieldBits(f)) == x)
      && (f.kind.IntUnsigned? ==> ToSigned64(v) == x)
  {
    var bits := FieldBits(f);
    assert bits <= 8 * f.size <= 64;
    hide Pow2, GoodField;
    Pow2Mono(bits, 64);
    if f.kind.IntSigned? || bits == 64 {
      CastKeeps(x, bits);
      SignExtendIsTwosComplement(Complement(x, bits), bits);
    } else {
      ModSmall(x, Pow2(bits));
      Pow2Mono(bits, 63);
    }
    if bits == 64 { WholeWord(x); }
  }

  lemma WholeWord(x: int)
    requires 0 - Pow2(63) <= x < Pow2(63)
    ensures Complement(x, 64) < Pow2(64) && ToSigned64(Complement(x, 64)) == x
  {
    hide Pow2;
    CastKeeps(x, 64);
  }

  /** Decoding a field gives back the encoded cell, whatever else its window holds: either byte
      order, bit fields, any kind. */
  lemma FieldRoundTrip(f: FieldDesc, c: Cell, be: bool, window: seq<Byte>)
    requires GoodField(f) && (f.kind.Bool? ==> f.size == 1) && ValidCell(f, c) && |window| == f.size
    ensures DecodeCell(f, EncodeField(f, c, be, window), be) == c
  {
    hide Pow2, SignExtend, ToSigned64, Complement, Insert, EncodeField;
    var p := EncodeField(f, c, be, window);
    EncodedWord(f, c, be, window);
    InsertReads(RawValue(window, be), FirstBit(f), BitCount(f), OwnWord(f, c));
    if IsInt(f) { ComplementReads(f, c.i); }
    if !(IsInt(f) && f.bitLen > 0) {
      WholeBits(p, be);
      if f.kind.Bool? { OneByte(p, be); }
    }
  }

  // ---------------------------------------------------------------- one record

  predicate ValidCells(fields: seq<FieldDesc>, cells: seq<Cell>) {
    |cells| == |fields| && forall i | 0 <= i < |fields| :: ValidCell(fields[i], cells[i])
  }

  function Patch(rec: seq<Byte>, at: nat, p: seq<Byte>): (r: seq<Byte>)
    requires at + |p| <= |rec|
    ensures |r| == |rec|
  {
    rec[..at] + p + rec[at + |p|..]
  }

  /** Writes one cell into a record. */
  function Write(f: FieldDesc, c: Cell, be: bool, rec: seq<Byte>): (r: seq<Byte>)
    requires ValidCell(f, c) && f.byteOffset + f.size <= |rec|
    ensures |r| == |rec|
  {
    Patch(rec, f.byteOffset, EncodeField(f, c, be, FieldBytes(f, rec)))
  }

  lemma PatchReads(rec: seq<Byte>, at: nat, p: seq<Byte>, f: FieldDesc)
    requires at + |p| <= |rec| && f.byteOffset == at && f.size == |p|
    ensures FieldBytes(f, Patch(rec, at, p)) == p
  {
  }

  /** Writing a cell changes no bit that its field does not own. */
  lemma WriteElsewhere(f: FieldDesc, c: Cell, be: bool, rec: seq<Byte>, pos: nat)
    requires GoodField(f) && (f.kind.Bool? ==> f.size == 1) && ValidCell(f, c) && f.byteOffset + f.size <= |rec|
    requires pos < 8 * |rec| && !Owns(f, be, pos)
    ensures RecordBit(Write(f, c, be, rec), pos) == RecordBit(rec, pos)
  {
    hide Pow2, Bit, Insert, EncodeField, ValidCell;
    var window := FieldBytes(f, rec);
    var p := EncodeField(f, c, be, window);
    var b := pos / 8 - f.byteOffset;
    if 0 <= b < f.size {
      var j: nat := 8 * (if be then f.size - 1 - b else b) + pos % 8;
      assert Position(f, be, j) == pos;
      PatchReads(rec, f.byteOffset, p, f);
      WindowBit(f, be, rec, j);
      WindowBit(f, be, Write(f, c, be, rec), j);
      EncodedWord(f, c, be, window);
      InsertElsewhere(RawValue(window, be), FirstBit(f), BitCount(f), OwnWord(f, c), j);
    }
  }

  /** Writes the cells into a record, one after the other; bits of no field stay as they were. */
  function EncodeRecord(fields: seq<FieldDesc>, cells: seq<Cell>, be: bool, blank: seq<Byte>): (r: seq<Byte>)
    requires ValidCells(fields, cells) && FieldsFit(fields, |blank|)
    ensures |r| == |blank|
    decreases |fields|
  {
    if fields == [] then blank
    else
      var n := |fields| - 1;
      Write(fields[n], cells[n], be, EncodeRecord(fields[..n], cells[..n], be, blank))
  }

  ghost predicate GoodFields(fields: seq<FieldDesc>) {
    forall i | 0 <= i < |fields| :: GoodField(fields[i]) && (fields[i].kind.Bool? ==> fields[i].size == 1)
  }

  lemma {:induction false} RecordHolds(fields: seq<FieldDesc>, cells: seq<Cell>, be: bool, blank: seq<Byte>, i: nat)
    requires ValidCells(fields, cells) && FieldsFit(fields, |blank|) && Disjoint(fields, be) && GoodFields(fields)
    requires i < |fields|
    ensures DecodeCell(fields[i], FieldBytes(fields[i], EncodeRecord(fields, cells, be, blank)), be) == cells[i]
    decreases |fields|
  {
    hide EncodeField, ValidCell, Patch, DecodeCell, GoodField, RecordBit, Owns;
    var n := |fields| - 1;
    var f, c := fields[n], cells[n];
    var before := EncodeRecord(fields[..n], cells[..n], be, blank);
    if i < n {
      RecordHolds(fields[..n], cells[..n], be, blank, i);
      forall pos: nat | pos < 8 * |before| && Owns(fields[i], be, pos)
        ensures RecordBit(Write(f, c, be, before), pos) == RecordBit(before, pos)
      {
        WriteElsewhere(f, c, be, before, pos);
      }
      SameOwned(fields[i], be, Write(f, c, be, before), before);
    } else {
      var window := FieldBytes(f, before);
      PatchReads(before, f.byteOffset, EncodeField(f, c, be, window), f);
      FieldRoundTrip(f, c, be, window);
    }
  }

  ghost predicate Encodable(spec: FrameSpec, be: bool) {
    GoodSpec(spec) && Disjoint(spec.fields, be) && GoodFields(spec.fields)
  }

  /** A record decodes to the cells it was made from, for every layout without shared bits. */
  lemma RecordRoundTrip(spec: FrameSpec, cells: seq<Cell>, be: bool, blank: seq<Byte>)
    requires Encodable(spec, be) && ValidCells(spec.fields, cells) && FieldsFit(spec.fields, |blank|)
    ensures DecodeRow(spec, be, EncodeRecord(spec.fields, cells, be, blank)) == cells
  {
    hide DecodeCell, ValidCell, EncodeRecord, PayloadMin, GoodField, Disjoint;
    var rec := EncodeRecord(spec.fields, cells, be, blank);
    forall i | 0 <= i < |spec.fields|
      ensures DecodeRow(spec, be, rec)[i] == cells[i]
    {
      RecordHolds(spec.fields, cells, be, blank, i);
    }
  }

  // ---------------------------------------------------------------- layouts without shared bits

  lemma PositionParts(f: FieldDesc, be: bool, j: nat)
    requires j < 8 * f.size
    ensures f.byteOffset <= Position(f, be, j) / 8 < f.byteOffset + f.size
    ensures var b := Position(f, be, j) / 8 - f.byteOffset;
      j == 8 * (if be then f.size - 1 - b else b) + Position(f, be, j) % 8
  {
  }

  /** Fields in different bytes share no bit. */
  lemma BytesApart(f: FieldDesc, g: FieldDesc, be: bool, pos: nat)
    requires f.byteOffset + f.size <= g.byteOffset || g.byteOffset + g.size <= f.byteOffset
    ensures !(Owns(f, be, pos) && Owns(g, be, pos))
  {
    hide Position;
    if Owns(f, be, pos) {
      var j: nat :| j < 8 * f.size && Position(f, be, j) == pos;
      PositionParts(f, be, j);
      forall k: nat | k < 8 * g.size
        ensures Position(g, be, k) != pos
      {
        PositionParts(g, be, k);
      }
    }
  }

  lemma SameWord(f: FieldDesc, g: FieldDesc, be: bool)
    requires f.byteOffset == g.byteOffset && f.size == g.size
    ensures forall j: nat | j < 8 * f.size :: Position(f, be, j) == Position(g, be, j)
  {
  }

  /** Bit fields of one word share a bit exactly when their ranges overlap. */
  lemma BitFieldsApart(f: FieldDesc, g: FieldDesc, be: bool)
    requires GoodField(f) && GoodField(g) && f.byteOffset == g.byteOffset && f.size == g.size
    requires IsInt(f) && IsInt(g) && f.bitLen > 0 && g.bitLen > 0
    ensures (exists pos: nat :: Owns(f, be, pos) && Owns(g, be, pos))
       <==> f.bitOffset < g.bitOffset + g.bitLen && g.bitOffset < f.bitOffset + f.bitLen
  {
    hide Position, GoodField;
    SameWord(f, g, be);
    assert f.bitOffset + f.bitLen <= 8 * f.size && g.bitOffset + g.bitLen <= 8 * g.size by { BitsInside(f, g); }
    if f.bitOffset < g.bitOffset + g.bitLen && g.bitOffset < f.bitOffset + f.bitLen {
      var j: nat := if f.bitOffset < g.bitOffset then g.bitOffset else f.bitOffset;
      var pos := Position(f, be, j);
      assert j < 8 * g.size && FirstBit(g) <= j < FirstBit(g) + BitCount(g) && Position(g, be, j) == pos;
      assert Owns(f, be, pos) && Owns(g, be, pos);
    } else {
      forall pos: nat | Owns(f, be, pos)
        ensures !Owns(g, be, pos)
      {
        SharedBit(f, g, be, pos);
      }
    }
  }

  lemma BitsInside(f: FieldDesc, g: FieldDesc)
    requires GoodField(f) && GoodField(g) && f.bitLen > 0 && g.bitLen > 0
    ensures f.bitOffset + f.bitLen <= 8 * f.size && g.bitOffset + g.bitLen <= 8 * g.size
  {
  }

  /** A shared position is the same bit of the word. */
  lemma SharedBit(f: FieldDesc, g: FieldDesc, be: bool, pos: nat)
    requires f.byteOffset == g.byteOffset && f.size == g.size && Owns(f, be, pos)
    requires FirstBit(f) + BitCount(f) <= FirstBit(g) || FirstBit(g) + BitCount(g) <= FirstBit(f)
    ensures !Owns(g, be, pos)
  {
    hide Position, FirstBit, BitCount;
    var j: nat :| j < 8 * f.size && FirstBit(f) <= j < FirstBit(f) + BitCount(f) && Position(f, be, j) == pos;
    PositionParts(f, be, j);
    forall k: nat | k < 8 * g.size && FirstBit(g) <= k < FirstBit(g) + BitCount(g)
      ensures Position(g, be, k) != pos
    {
      PositionParts(g, be, k);
    }
  }
}
