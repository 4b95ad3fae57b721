/** CRC-32 of src/base/zlib/crc32.c: the bit-serial register of section 8 of RFC 1952 as the
    definition, and the table-driven, word-at-a-time and combining code proved equal to it. */
module Crc32 {

  import opened Common

  const POLY: bv32 := 0xedb8_8320

  // ---------------------------------------------------------------- the definition

  /** Addition of polynomials over GF(2). */
  function Xor(a: bv32, b: bv32): bv32 { a ^ b }

  function Not(c: bv32): bv32 { !c }

  /** One step of the shift register: multiply by x modulo the polynomial. */
  function Shift(c: bv32): bv32 { if Odd(c) then Xor(POLY, Half(c)) else Half(c) }

  function Low(b: bv32): bv32 { b & 1 }
  function Half(b: bv32): bv32 { b >> 1 }
  function Down(c: bv32): bv32 { c >> 8 }

  /** The register takes the k low bits of b, lowest first. */
  function FeedBits(c: bv32, b: bv32, k: nat): bv32
    decreases k
  {
    if k == 0 then c else FeedBits(Shift(Xor(c, Low(b))), Half(b), k - 1)
  }

  /** The register after all bits of a buffer. */
  function Feed(c: bv32, buf: seq<bv8>): bv32
    decreases |buf|
  {
    if buf == [] then c else Feed(FeedBits(c, buf[0] as bv32, 8), buf[1..])
  }

  /** The CRC of buf continued from crc: the register is complemented before and after. */
  function Crc(crc: bv32, buf: seq<bv8>): bv32 { Not(Feed(Not(crc), buf)) }

  // ---------------------------------------------------------------- linearity

  function Shifts(n: nat, c: bv32): bv32
    decreases n
  {
    if n == 0 then c else Shifts(n - 1, Shift(c))
  }

  lemma LowLinear(a: bv32, b: bv32)
    ensures Low(Xor(a, b)) == Xor(Low(a), Low(b))
  {
  }

  lemma HalfLinear(a: bv32, b: bv32)
    ensures Half(Xor(a, b)) == Xor(Half(a), Half(b))
  {
  }

  lemma LowIsBit(a: bv32)
    ensures Low(a) == 0 || Low(a) == 1
  {
  }

  lemma BitSums()
    ensures Xor(0, 0) == 0 && Xor(0, 1) == 1 && Xor(1, 0) == 1 && Xor(1, 1) == 0
  {
  }

  lemma XorCancels(p: bv32, x: bv32, y: bv32)
    ensures Xor(Xor(p, x), Xor(p, y)) == Xor(x, y)
  {
    hide Xor;
    XorComm(p, x);
    XorAssoc(x, p, Xor(p, y));
    XorAssoc(p, p, y);
    XorSelf(p, y);
  }

  lemma XorSelf(p: bv32, y: bv32)
    ensures Xor(Xor(p, p), y) == y
  {
  }

  predicate Odd(c: bv32) { Low(c) == 1 }

  lemma OddSum(a: bv32, b: bv32)
    ensures Odd(Xor(a, b)) <==> Odd(a) != Odd(b)
  {
    hide Xor, Low;
    LowLinear(a, b);
    LowIsBit(a);
    LowIsBit(b);
    BitSums();
  }

  /** A register step is linear over GF(2). */
  lemma ShiftLinear(a: bv32, b: bv32)
    ensures Shift(Xor(a, b)) == Xor(Shift(a), Shift(b))
  {
    hide Xor, Half, Odd;
    OddSum(a, b);
    HalfLinear(a, b);
    Reduced(Half(a), Half(b));
  }

  /** Adding the polynomial to one summand adds it to the sum; adding it to both cancels. */
  lemma Reduced(x: bv32, y: bv32)
    ensures Xor(Xor(POLY, x), Xor(POLY, y)) == Xor(x, y)
    ensures Xor(Xor(POLY, x), y) == Xor(POLY, Xor(x, y)) == Xor(x, Xor(POLY, y))
  {
    hide Xor;
    XorCancels(POLY, x, y);
    XorAssoc(POLY, x, y);
    XorComm(x, Xor(POLY, y));
    XorAssoc(POLY, y, x);
    XorComm(x, y);
  }

  lemma {:induction false} ShiftsLinear(n: nat, a: bv32, b: bv32)
    ensures Shifts(n, Xor(a, b)) == Xor(Shifts(n, a), Shifts(n, b))
    decreases n
  {
    hide Shift, Xor;
    if n > 0 {
      ShiftLinear(a, b);
      ShiftsLinear(n - 1, Shift(a), Shift(b));
    }
  }

  lemma {:induction false} ShiftsAdd(m: nat, n: nat, c: bv32)
    ensures Shifts(m + n, c) == Shifts(n, Shifts(m, c))
    decreases m
  {
    hide Shift;
    if m > 0 {
      ShiftsAdd(m - 1, n, Shift(c));
    }
  }

  lemma {:induction false} ShiftsZero(n: nat)
    ensures Shifts(n, 0) == 0
    decreases n
  {
    if n > 0 { ShiftsZero(n - 1); }
  }

  /** b has at most k bits. */
  predicate Fits(b: bv32, k: nat)
    decreases k
  {
    if k == 0 then b == 0 else Fits(Half(b), k - 1)
  }

  function High(b: bv32): bv32 { b & 0xffff_fffe }

  lemma XorAssoc(a: bv32, b: bv32, c: bv32)
    ensures Xor(Xor(a, b), c) == Xor(a, Xor(b, c))
  {
  }

  lemma XorComm(a: bv32, b: bv32)
    ensures Xor(a, b) == Xor(b, a)
  {
  }

  lemma LowHigh(b: bv32)
    ensures Xor(Low(b), High(b)) == b && Shift(High(b)) == Half(b)
  {
  }

  lemma XorZero(c: bv32)
    ensures Xor(c, 0) == c
  {
  }

  /** Feeding bits one at a time is adding them all and then shifting. */
  lemma {:induction false} FeedBitsIsShifts(c: bv32, b: bv32, k: nat)
    requires Fits(b, k)
    ensures FeedBits(c, b, k) == Shifts(k, Xor(c, b))
    decreases k
  {
    hide Shift, Xor, Low, Half, High;
    if k == 0 {
      XorZero(c);
    } else {
      LowHigh(b);
      XorAssoc(c, Low(b), High(b));
      ShiftLinear(Xor(c, Low(b)), High(b));
      FeedBitsIsShifts(Shift(Xor(c, Low(b))), Half(b), k - 1);
    }
  }

  lemma ByteFits(b: bv8)
    ensures Fits(b as bv32, 8)
  {
    var x := b as bv32;
    assert Fits(x >> 1 >> 1 >> 1 >> 1 >> 1 >> 1 >> 1 >> 1, 0);
    assert Fits(x >> 1 >> 1 >> 1 >> 1 >> 1 >> 1 >> 1, 1);
    assert Fits(x >> 1 >> 1 >> 1 >> 1 >> 1 >> 1, 2);
    assert Fits(x >> 1 >> 1 >> 1 >> 1 >> 1, 3);
    assert Fits(x >> 1 >> 1 >> 1 >> 1, 4);
    assert Fits(x >> 1 >> 1 >> 1, 5);
    assert Fits(x >> 1 >> 1, 6);
    assert Fits(x >> 1, 7);
  }

  /** Eight shifts of a value with no low bits just move it down. */
  lemma ShiftsByte(x: bv32)
    requires x & 0xff == 0
    ensures Shifts(8, x) == x >> 8
  {
    assert Shift(x) == x >> 1;
    assert Shift(x >> 1) == x >> 2;
    assert Shift(x >> 2) == x >> 3;
    assert Shift(x >> 3) == x >> 4;
    assert Shift(x >> 4) == x >> 5;
    assert Shift(x >> 5) == x >> 6;
    assert Shift(x >> 6) == x >> 7;
    assert Shift(x >> 7) == x >> 8;
    assert Shifts(0, x >> 8) == x >> 8;
    assert Shifts(1, x >> 7) == x >> 8;
    assert Shifts(2, x >> 6) == x >> 8;
    assert Shifts(3, x >> 5) == x >> 8;
    assert Shifts(4, x >> 4) == x >> 8;
    assert Shifts(5, x >> 3) == x >> 8;
    assert Shifts(6, x >> 2) == x >> 8;
    assert Shifts(7, x >> 1) == x >> 8;
  }

  // ---------------------------------------------------------------- one byte, one word

  function B0(x: bv32): bv32 { x & 0xff }
  function B1(x: bv32): bv32 { (x >> 8) & 0xff }
  function B2(x: bv32): bv32 { (x >> 16) & 0xff }
  function B3(x: bv32): bv32 { x >> 24 }

  /** Table k: the register after value n and k further zero bytes. */
  function T(k: nat, n: bv32): bv32 { Shifts(8 * (k + 1), n) }

  lemma SplitByte(x: bv32)
    ensures Xor(B0(x), x & 0xffff_ff00) == x && (x & 0xffff_ff00) & 0xff == 0 && (x & 0xffff_ff00) >> 8 == x >> 8
  {
  }

  /** Eight shifts, with the table lookup of the low byte. */
  lemma ShiftsTable(x: bv32)
    ensures Shifts(8, x) == Xor(T(0, B0(x)), Down(x))
  {
    SplitByte(x);
    ShiftsLinear(8, B0(x), x & 0xffff_ff00);
    ShiftsByte(x & 0xffff_ff00);
  }

  lemma ByteHigh(c: bv32, b: bv8)
    ensures Down(Xor(c, b as bv32)) == Down(c)
  {
  }

  /** A little-endian word of four bytes. */
  function Word(b0: bv8, b1: bv8, b2: bv8, b3: bv8): bv32 {
    Join(Place0(b0), Place1(b1), Place2(b2), Place3(b3))
  }

  /** A byte in each of the four places of a word. */
  function Place0(b: bv8): bv32 { b as bv32 }
  function Place1(b: bv8): bv32 { b as bv32 << 8 }
  function Place2(b: bv8): bv32 { b as bv32 << 16 }
  function Place3(b: bv8): bv32 { b as bv32 << 24 }

  lemma UpDown(b: bv32)
    requires b <= 0xff
    ensures (b << 8) & 0xff == 0 && (b << 8) >> 8 == b
    ensures (b << 16) & 0xff == 0 && (b << 16) >> 8 == b << 8
    ensures (b << 24) & 0xff == 0 && (b << 24) >> 8 == b << 16
  {
  }

  /** A byte k places up reaches the bottom of the register after k zero bytes. */
  lemma ShiftsDown(b: bv32)
    requires b <= 0xff
    ensures Shifts(8, b << 8) == b && Shifts(16, b << 16) == b && Shifts(24, b << 24) == b
  {
    hide Shift, Shifts;
    UpDown(b);
    ShiftsByte(b << 8);
    ShiftsByte(b << 16);
    ShiftsByte(b << 24);
    ShiftsAdd(8, 8, b << 16);
    ShiftsAdd(8, 16, b << 24);
  }

  /** Four disjoint bytes: joining them is adding them. */
  function Join(p: bv32, q: bv32, r: bv32, t: bv32): bv32 { Xor(Xor(Xor(p, q), r), t) }

  lemma SplitWord(x: bv32)
    ensures x == Join(B0(x), B1(x) << 8, B2(x) << 16, B3(x) << 24)
    ensures B0(x) <= 0xff && B1(x) <= 0xff && B2(x) <= 0xff && B3(x) <= 0xff
  {
  }

  lemma JoinOnto(c: bv32, p: bv32, q: bv32, r: bv32, t: bv32)
    ensures Xor(Xor(Xor(Xor(c, p), q), r), t) == Xor(c, Join(p, q, r, t))
  {
    hide Xor;
    XorAssoc(c, p, q);
    XorAssoc(c, Xor(p, q), r);
    XorAssoc(c, Xor(Xor(p, q), r), t);
  }

  lemma ShiftsJoin(n: nat, p: bv32, q: bv32, r: bv32, t: bv32)
    ensures Shifts(n, Join(p, q, r, t)) == Join(Shifts(n, p), Shifts(n, q), Shifts(n, r), Shifts(n, t))
  {
    hide Xor, Shift, Shifts;
    ShiftsLinear(n, p, q);
    ShiftsLinear(n, Xor(p, q), r);
    ShiftsLinear(n, Xor(Xor(p, q), r), t);
  }

  /** Four lookups advance the register by a whole word: DOLIT4. */
  lemma WordTable(x: bv32)
    ensures Shifts(32, x) == Join(T(3, B0(x)), T(2, B1(x)), T(1, B2(x)), T(0, B3(x)))
  {
    hide Xor, Shift, Shifts, Join, B0, B1, B2, B3;
    SplitWord(x);
    ShiftsJoin(32, B0(x), B1(x) << 8, B2(x) << 16, B3(x) << 24);
    ShiftsDown(B1(x));
    ShiftsDown(B2(x));
    ShiftsDown(B3(x));
    ShiftsAdd(8, 24, B1(x) << 8);
    ShiftsAdd(16, 16, B2(x) << 16);
    ShiftsAdd(24, 8, B3(x) << 24);
  }

  /** Adding byte b after k bytes is adding it k places up before them. */
  lemma Delay(k: nat, c: bv32, b: bv32, up: bv32)
    requires Shifts(k, up) == b
    ensures Shifts(8, Xor(Shifts(k, c), b)) == Shifts(k + 8, Xor(c, up))
  {
    hide Xor, Shift, Shifts;
    ShiftsLinear(k, c, up);
    ShiftsAdd(k, 8, Xor(c, up));
  }

  function FeedByte(c: bv32, b: bv8): bv32 { FeedBits(c, b as bv32, 8) }

  lemma FeedByteIsShifts(c: bv32, b: bv8)
    ensures FeedByte(c, b) == Shifts(8, Xor(c, b as bv32))
  {
    hide Xor, Shift, Shifts;
    ByteFits(b);
    FeedBitsIsShifts(c, b as bv32, 8);
  }

  lemma WordShifts(c: bv32, b0: bv8, b1: bv8, b2: bv8, b3: bv8)
    ensures FeedByte(FeedByte(FeedByte(FeedByte(c, b0), b1), b2), b3)
         == Shifts(32, Xor(c, Word(b0, b1, b2, b3)))
  {
    hide Xor, Shift, Shifts, FeedByte;
    var c1, c2, c3 := FeedByte(c, b0), FeedByte(FeedByte(c, b0), b1), FeedByte(FeedByte(FeedByte(c, b0), b1), b2);
    var u1, u2, u3 := b1 as bv32 << 8, b2 as bv32 << 16, b3 as bv32 << 24;
    FeedByteIsShifts(c, b0);
    FeedByteIsShifts(c1, b1);
    FeedByteIsShifts(c2, b2);
    FeedByteIsShifts(c3, b3);
    ShiftsDown(b1 as bv32);
    ShiftsDown(b2 as bv32);
    ShiftsDown(b3 as bv32);
    var w0 := Xor(c, b0 as bv32);
    Delay(8, w0, b1 as bv32, u1);
    Delay(16, Xor(w0, u1), b2 as bv32, u2);
    Delay(24, Xor(Xor(w0, u1), u2), b3 as bv32, u3);
    JoinOnto(c, b0 as bv32, u1, u2, u3);
  }

  /** The word step of the source equals four byte steps. */
  lemma WordStep(c: bv32, b0: bv8, b1: bv8, b2: bv8, b3: bv8)
    ensures var x := Xor(c, Word(b0, b1, b2, b3));
      FeedByte(FeedByte(FeedByte(FeedByte(c, b0), b1), b2), b3)
        == Join(T(3, B0(x)), T(2, B1(x)), T(1, B2(x)), T(0, B3(x)))
  {
    hide Xor, Shift, Shifts, Join, Word, FeedByte, B0, B1, B2, B3, T;
    WordShifts(c, b0, b1, b2, b3);
    WordTable(Xor(c, Word(b0, b1, b2, b3)));
  }

  // ---------------------------------------------------------------- byte-reversed registers

  /** ZSWAP32. */
  function Swap(x: bv32): bv32 {
    ((x >> 24) & 0xff) | ((x >> 8) & 0xff00) | ((x & 0xff00) << 8) | ((x & 0xff) << 24)
  }

  lemma SwapLinear(a: bv32, b: bv32)
    ensures Swap(Xor(a, b)) == Xor(Swap(a), Swap(b))
  {
  }

  lemma SwapInvolutive(x: bv32)
    ensures Swap(Swap(x)) == x
  {
  }

  lemma SwapOnes()
    ensures Swap(0xffff_ffff) == 0xffff_ffff
  {
  }

  lemma SwapNot(x: bv32)
    ensures Swap(Not(x)) == Not(Swap(x))
  {
    hide Swap, Not, Xor;
    XorOnes(x);
    XorOnes(Swap(x));
    SwapLinear(x, 0xffff_ffff);
    SwapOnes();
  }

  lemma SwapBytes(x: bv32)
    ensures B0(Swap(x)) == B3(x) && B1(Swap(x)) == B2(x)
  {
  }

  lemma SwapBytes'(x: bv32)
    ensures B2(Swap(x)) == B1(x) && B3(Swap(x)) == B0(x)
  {
  }

  lemma SwapShift(x: bv32)
    ensures Swap(x >> 8) == Swap(x) << 8
  {
  }

  lemma SwapJoin(p: bv32, q: bv32, r: bv32, t: bv32)
    ensures Swap(Join(p, q, r, t)) == Join(Swap(p), Swap(q), Swap(r), Swap(t))
  {
    hide Xor, Swap;
    SwapLinear(p, q);
    SwapLinear(Xor(p, q), r);
    SwapLinear(Xor(Xor(p, q), r), t);
  }

  lemma JoinReversed(p: bv32, q: bv32, r: bv32, t: bv32)
    ensures Join(p, q, r, t) == Join(t, r, q, p)
  {
    hide Xor;
    XorComm(Xor(Xor(p, q), r), t);
    XorComm(Xor(p, q), r);
    XorComm(p, q);
    XorAssoc(t, r, Xor(q, p));
    XorAssoc(Xor(t, r), q, p);
  }

  // ---------------------------------------------------------------- the tables

  /** The table position a register selects, and the value at a position. */
  function Idx(x: bv32): (n: nat)
    ensures n < 256
  {
    ((x & 0xff) as bv8) as int
  }

  function Val(n: nat): bv32
    requires n < 256
  {
    (n as bv8) as bv32
  }

  lemma ByteRound(y: bv8)
    ensures ((y as int) as bv8) == y
  {
  }

  lemma NarrowWiden(x: bv32)
    requires x <= 0xff
    ensures (x as bv8) as bv32 == x
  {
  }

  lemma IdxVal(x: bv32)
    ensures Val(Idx(x)) == B0(x)
  {
    ByteRound((x & 0xff) as bv8);
    NarrowWiden(x & 0xff);
  }

  ghost predicate TableOk(t: array2<bv32>)
    reads t
  {
    && t.Length0 == 8 && t.Length1 == 256
    && (forall k, n | 0 <= k < 4 && 0 <= n < 256 :: t[k, n] == T(k, Val(n)))
    && (forall k, n | 4 <= k < 8 && 0 <= n < 256 :: t[k, n] == Swap(T(k - 4, Val(n))))
  }

  /** The exponents of the polynomial, except 32. */
  const TERMS: seq<bv8> := [0, 1, 2, 4, 5, 7, 8, 10, 11, 12, 16, 22, 23, 26]

  function Coefficient(e: bv8): bv32 { if e <= 31 then 1 << (31 - e) else 0 }

  function PolyBits(n: nat): bv32
    requires n <= 14
  {
    if n == 0 then 0 else PolyBits(n - 1) | Coefficient(TERMS[n - 1])
  }

  lemma PolyIs()
    ensures PolyBits(14) == POLY
  {
    assert PolyBits(4) == 0xe800_0000;
    assert PolyBits(8) == 0xeda0_0000;
    assert PolyBits(12) == 0xedb8_8200;
  }

  lemma TableAdvance(k: nat, v: bv32)
    ensures T(k + 1, v) == Xor(T(0, B0(T(k, v))), Down(T(k, v)))
  {
    hide Xor, Shift, Shifts, B0;
    ShiftsAdd(8 * (k + 1), 8, v);
    ShiftsTable(T(k, v));
  }

  lemma OneMore(k: nat, v: bv32)
    ensures Shifts(k + 1, v) == Shift(Shifts(k, v))
  {
    hide Shift;
    ShiftsAdd(k, 1, v);
    assert Shifts(1, Shifts(k, v)) == Shifts(0, Shift(Shifts(k, v)));
  }

  method MakeCrcTable() returns (t: array2<bv32>)
    ensures fresh(t) && TableOk(t)
  {
    hide Coefficient;
    t := new bv32[8, 256];
    var poly: bv32 := 0;
    for n := 0 to 14
      invariant poly == PolyBits(n)
    {
      poly := poly | Coefficient(TERMS[n]);
    }
    PolyIs();
    FillFirst(t, poly);
    FillRest(t);
  }

  /** The register after one byte value, by the loop of the source. */
  method ByteEntry(n: nat, poly: bv32) returns (c: bv32)
    requires n < 256 && poly == POLY
    ensures c == T(0, Val(n))
  {
    c := Val(n);
    Nothing(c);
    for k := 0 to 8
      invariant c == Shifts(k, Val(n))
    {
      hide Shifts, Val;
      OneMore(k, Val(n));
      c := if c & 1 == 1 then poly ^ (c >> 1) else c >> 1;
    }
  }

  method FillFirst(t: array2<bv32>, poly: bv32)
    requires t.Length0 == 8 && t.Length1 == 256 && poly == POLY
    modifies t
    ensures forall n | 0 <= n < 256 :: t[0, n] == T(0, Val(n))
  {
    hide T, Val;
    for n := 0 to 256
      invariant forall i | 0 <= i < n :: t[0, i] == T(0, Val(i))
    {
      t[0, n] := ByteEntry(n, poly);
    }
  }

  ghost predicate ColumnOk(t: array2<bv32>, n: nat)
    reads t
    requires t.Length0 == 8 && t.Length1 == 256 && n < 256
  {
    && (forall k | 0 <= k < 4 :: t[k, n] == T(k, Val(n)))
    && (forall k | 4 <= k < 8 :: t[k, n] == Swap(T(k - 4, Val(n))))
  }

  /** The entries of value n in all tables but the first. */
  method FillColumn(t: array2<bv32>, n: nat)
    requires t.Length0 == 8 && t.Length1 == 256 && n < 256
    requires forall i | 0 <= i < 256 :: t[0, i] == T(0, Val(i))
    modifies t
    ensures ColumnOk(t, n)
    ensures forall i | 0 <= i < 256 :: t[0, i] == T(0, Val(i))
    ensures forall k, i | 0 <= k < 8 && 0 <= i < 256 && i != n :: t[k, i] == old(t[k, i])
  {
    hide Shift, Shifts, T, Swap, B0, Xor, Val, Idx, Down;
    var c := t[0, n];
    t[4, n] := Swap(c);
    for k := 1 to 4
      invariant c == T(k - 1, Val(n))
      invariant forall i | 0 <= i < 256 :: t[0, i] == T(0, Val(i))
      invariant forall j | 0 <= j < k :: t[j, n] == T(j, Val(n))
      invariant forall j | 4 <= j < k + 4 :: t[j, n] == Swap(T(j - 4, Val(n)))
      invariant forall j, i | 0 <= j < 8 && 0 <= i < 256 && i != n :: t[j, i] == old(t[j, i])
    {
      IdxVal(c);
      TableAdvance(k - 1, Val(n));
      c := Xor(t[0, Idx(c)], Down(c));
      t[k, n] := c;
      t[k + 4, n] := Swap(c);
    }
  }

  method FillRest(t: array2<bv32>)
    requires t.Length0 == 8 && t.Length1 == 256
    requires forall n | 0 <= n < 256 :: t[0, n] == T(0, Val(n))
    modifies t
    ensures TableOk(t)
  {
    hide Shift, Shifts, T, Swap, Val;
    for n := 0 to 256
      invariant forall i | 0 <= i < 256 :: t[0, i] == T(0, Val(i))
      invariant forall k, i | 0 <= k < 4 && 0 <= i < n :: t[k, i] == T(k, Val(i))
      invariant forall k, i | 4 <= k < 8 && 0 <= i < n :: t[k, i] == Swap(T(k - 4, Val(i)))
    {
      FillColumn(t, n);
    }
  }

  // ---------------------------------------------------------------- the checksum code

  /** The byte step of the source: DO1. */
  lemma ByteStep(c: bv32, b: bv8)
    ensures FeedByte(c, b) == Xor(T(0, B0(Xor(c, b as bv32))), Down(c))
  {
    hide Xor, B0, Shift, Shifts, Down;
    FeedByteIsShifts(c, b);
    ShiftsTable(Xor(c, b as bv32));
    ByteHigh(c, b);
  }

  lemma FeedStep(c: bv32, buf: seq<bv8>, i: nat)
    requires i < |buf|
    ensures Feed(c, buf[i..]) == Feed(FeedByte(c, buf[i]), buf[i + 1..])
  {
    assert buf[i..][1..] == buf[i + 1..];
  }

  lemma FeedWord(c: bv32, buf: seq<bv8>, i: nat)
    requires i + 4 <= |buf|
    ensures Feed(c, buf[i..]) == Feed(Shifts(32, Xor(c, WordAt(buf, i))), buf[i + 4..])
  {
    hide Xor, Shift, Shifts, FeedByte, Word;
    FeedStep(c, buf, i);
    FeedStep(FeedByte(c, buf[i]), buf, i + 1);
    FeedStep(FeedByte(FeedByte(c, buf[i]), buf[i + 1]), buf, i + 2);
    FeedStep(FeedByte(FeedByte(FeedByte(c, buf[i]), buf[i + 1]), buf[i + 2]), buf, i + 3);
    WordShifts(c, buf[i], buf[i + 1], buf[i + 2], buf[i + 3]);
  }

  function WordAt(buf: seq<bv8>, i: nat): bv32
    requires i + 4 <= |buf|
  {
    Word(buf[i], buf[i + 1], buf[i + 2], buf[i + 3])
  }

  /** DO1: the next byte through the first table. */
  method Do1(t: array2<bv32>, c: bv32, buf: seq<bv8>, i: nat) returns (r: bv32)
    requires TableOk(t) && i < |buf|
    ensures Feed(r, buf[i + 1..]) == Feed(c, buf[i..])
  {
    hide Xor, Shift, Shifts, FeedByte, Down, B0, T, Idx, Val, Swap;
    FeedStep(c, buf, i);
    ByteStep(c, buf[i]);
    IdxVal(Xor(c, buf[i] as bv32));
    r := Xor(t[0, Idx(Xor(c, buf[i] as bv32))], Down(c));
  }

  function Shr(c: bv32, k: nat): bv32
    requires k <= 24
  {
    if k == 8 then c >> 8 else if k == 16 then c >> 16 else c >> 24
  }

  lemma IdxVals(x: bv32)
    ensures Val(Idx(x)) == B0(x) && Val(Idx(Shr(x, 8))) == B1(x)
    ensures Val(Idx(Shr(x, 16))) == B2(x) && Val(Idx(Shr(x, 24))) == B3(x)
  {
    IdxVal(x);
    IdxVal(x >> 8);
    IdxVal(x >> 16);
    IdxVal(x >> 24);
    assert (x >> 24) & 0xff == x >> 24;
  }

  /** DOLIT4: the next four bytes through four tables. */
  method Lit4(t: array2<bv32>, c: bv32, buf: seq<bv8>, i: nat) returns (r: bv32)
    requires TableOk(t) && i + 4 <= |buf|
    ensures Feed(r, buf[i + 4..]) == Feed(c, buf[i..])
  {
    hide Xor, Shift, Shifts, Join, WordAt, B0, B1, B2, B3, T, Idx, Val, Shr, Feed, Swap;
    var x := Xor(c, WordAt(buf, i));
    FeedWord(c, buf, i);
    WordTable(x);
    IdxVals(x);
    r := Join(t[3, Idx(x)], t[2, Idx(Shr(x, 8))], t[1, Idx(Shr(x, 16))], t[0, Idx(Shr(x, 24))]);
  }

  /** crc32_little: bytes up to a word boundary, words eight at a time, words, bytes. */
  method CrcLittle(t: array2<bv32>, crc: bv32, buf: seq<bv8>, address: nat) returns (r: bv32)
    requires TableOk(t)
    ensures r == Crc(crc, buf)
  {
    hide Feed, TableOk;
    var c, i := Not(crc), 0;
    ghost var goal := Feed(c, buf);
    assert buf[0..] == buf;
    while i < |buf| && (address + i) % 4 != 0
      invariant i <= |buf| && Feed(c, buf[i..]) == goal
    {
      c := Do1(t, c, buf, i);
      i := i + 1;
    }
    while |buf| - i >= 32
      invariant i <= |buf| && Feed(c, buf[i..]) == goal
    {
      ghost var start := i;
      for k := 0 to 8
        invariant i == start + 4 * k && Feed(c, buf[i..]) == goal
      {
        c := Lit4(t, c, buf, i);
        i := i + 4;
      }
    }
    while |buf| - i >= 4
      invariant i <= |buf| && Feed(c, buf[i..]) == goal
    {
      c := Lit4(t, c, buf, i);
      i := i + 4;
    }
    while i < |buf|
      invariant i <= |buf| && Feed(c, buf[i..]) == goal
    {
      c := Do1(t, c, buf, i);
      i := i + 1;
    }
    FeedEnd(c, buf);
    r := Not(c);
  }

  lemma FeedEnd(c: bv32, buf: seq<bv8>)
    ensures Feed(c, buf[|buf|..]) == c
  {
  }

  // ---------------------------------------------------------------- big-endian machines

  function Up(c: bv32): bv32 { c << 8 }

  lemma SwapDown(c: bv32)
    ensures Swap(Down(c)) == Up(Swap(c))
  {
    SwapShift(c);
  }

  /** The byte step on a byte-reversed register. */
  lemma BigIndex(c: bv32, b: bv8)
    ensures Xor(Shr(Swap(c), 24), b as bv32) == B0(Xor(c, b as bv32))
  {
  }

  lemma SmallIdx(x: bv32)
    ensures Val(Idx(B0(x))) == B0(x)
  {
    IdxVal(B0(x));
    assert (x & 0xff) & 0xff == x & 0xff;
  }

  method BigDo1(t: array2<bv32>, c: bv32, buf: seq<bv8>, i: nat) returns (r: bv32)
    requires TableOk(t) && i < |buf|
    ensures Feed(Swap(r), buf[i + 1..]) == Feed(Swap(c), buf[i..])
  {
    hide Xor, Shift, Shifts, FeedByte, Down, Up, B0, T, Idx, Val, Swap, Shr, Feed;
    ghost var d := Swap(c);
    SwapInvolutive(c);
    FeedStep(d, buf, i);
    ByteStep(d, buf[i]);
    BigIndex(d, buf[i]);
    SmallIdx(Xor(d, buf[i] as bv32));
    SwapDown(d);
    var x := Xor(Shr(c, 24), buf[i] as bv32);
    r := Xor(t[4, Idx(x)], Up(c));
    SwapLinear(T(0, x), Down(d));
    SwapInvolutive(FeedByte(d, buf[i]));
  }

  /** A word as a big-endian machine loads it. */
  function BigWordAt(buf: seq<bv8>, i: nat): bv32
    requires i + 4 <= |buf|
  {
    Word(buf[i + 3], buf[i + 2], buf[i + 1], buf[i])
  }

  lemma BigWordIsSwap(b0: bv8, b1: bv8, b2: bv8, b3: bv8)
    ensures Word(b3, b2, b1, b0) == Swap(Word(b0, b1, b2, b3))
  {
    hide Xor, Swap, Join, Place0, Place1, Place2, Place3;
    SwapPlaces(b0);
    SwapPlaces(b1);
    SwapPlaces(b2);
    SwapPlaces(b3);
    SwapJoin(Place0(b0), Place1(b1), Place2(b2), Place3(b3));
    JoinReversed(Place3(b0), Place2(b1), Place1(b2), Place0(b3));
  }

  lemma SwapPlaces(b: bv8)
    ensures Swap(Place0(b)) == Place3(b) && Swap(Place1(b)) == Place2(b)
    ensures Swap(Place2(b)) == Place1(b) && Swap(Place3(b)) == Place0(b)
  {
  }

  /** DOBIG4 on a byte-reversed register. */
  method Big4(t: array2<bv32>, c: bv32, buf: seq<bv8>, i: nat) returns (r: bv32)
    requires TableOk(t) && i + 4 <= |buf|
    ensures Feed(Swap(r), buf[i + 4..]) == Feed(Swap(c), buf[i..])
  {
    hide Xor, Shift, Shifts, Join, Word, B0, B1, B2, B3, T, Idx, Val, Shr, Feed, Swap;
    ghost var d := Swap(c);
    ghost var y := Xor(d, WordAt(buf, i));
    var x := Xor(c, BigWordAt(buf, i));
    SwapInvolutive(c);
    BigWordIsSwap(buf[i], buf[i + 1], buf[i + 2], buf[i + 3]);
    SwapLinear(d, WordAt(buf, i));
    assert x == Swap(y);
    FeedWord(d, buf, i);
    WordTable(y);
    SwapBytes(y);
    SwapBytes'(y);
    IdxVals(x);
    r := Join(t[4, Idx(x)], t[5, Idx(Shr(x, 8))], t[6, Idx(Shr(x, 16))], t[7, Idx(Shr(x, 24))]);
    SwapJoin(T(3, B0(y)), T(2, B1(y)), T(1, B2(y)), T(0, B3(y)));
    JoinReversed(Swap(T(3, B0(y))), Swap(T(2, B1(y))), Swap(T(1, B2(y))), Swap(T(0, B3(y))));
    SwapInvolutive(Shifts(32, y));
  }

  /** crc32_big: the same walk on the byte-reversed register. */
  method CrcBig(t: array2<bv32>, crc: bv32, buf: seq<bv8>, address: nat) returns (r: bv32)
    requires TableOk(t)
    ensures r == Crc(crc, buf)
  {
    hide Feed, TableOk, Swap, Not;
    var c, i := Not(Swap(crc)), 0;
    SwapNot(Swap(crc));
    SwapInvolutive(crc);
    ghost var goal := Feed(Not(crc), buf);
    assert buf[0..] == buf;
    while i < |buf| && (address + i) % 4 != 0
      invariant i <= |buf| && Feed(Swap(c), buf[i..]) == goal
    {
      c := BigDo1(t, c, buf, i);
      i := i + 1;
    }
    while |buf| - i >= 32
      invariant i <= |buf| && Feed(Swap(c), buf[i..]) == goal
    {
      ghost var start := i;
      for k := 0 to 8
        invariant i == start + 4 * k && Feed(Swap(c), buf[i..]) == goal
      {
        c := Big4(t, c, buf, i);
        i := i + 4;
      }
    }
    while |buf| - i >= 4
      invariant i <= |buf| && Feed(Swap(c), buf[i..]) == goal
    {
      c := Big4(t, c, buf, i);
      i := i + 4;
    }
    while i < |buf|
      invariant i <= |buf| && Feed(Swap(c), buf[i..]) == goal
    {
      c := BigDo1(t, c, buf, i);
      i := i + 1;
    }
    FeedEnd(Swap(c), buf);
    SwapNot(c);
    r := Swap(Not(c));
  }

  /** The loop of the byte-at-a-time build: DO8 while eight bytes remain, then DO1. */
  method RegisterBytes(t: array2<bv32>, c0: bv32, buf: seq<bv8>) returns (c: bv32)
    requires TableOk(t)
    ensures c == Feed(c0, buf)
  {
    hide Feed, TableOk;
    var i := 0;
    c := c0;
    assert buf[0..] == buf;
    while |buf| - i >= 8
      invariant i <= |buf| && Feed(c, buf[i..]) == Feed(c0, buf)
    {
      ghost var start := i;
      for k := 0 to 8
        invariant i == start + k && Feed(c, buf[i..]) == Feed(c0, buf)
      {
        c := Do1(t, c, buf, i);
        i := i + 1;
      }
    }
    while i < |buf|
      invariant i <= |buf| && Feed(c, buf[i..]) == Feed(c0, buf)
    {
      c := Do1(t, c, buf, i);
      i := i + 1;
    }
    FeedEnd(c, buf);
  }

  /** crc32_z built without the word tables. */
  method CrcBytes(t: array2<bv32>, crc: bv32, buf: seq<bv8>) returns (r: bv32)
    requires TableOk(t)
    ensures r == Crc(crc, buf)
  {
    hide Feed, TableOk, Xor, Not;
    XorOnes(crc);
    var c := RegisterBytes(t, Xor(crc, 0xffff_ffff), buf);
    XorOnes(c);
    r := Xor(c, 0xffff_ffff);
  }

  lemma XorOnes(c: bv32)
    ensures Xor(c, 0xffff_ffff) == Not(c)
  {
  }

  /** crc32_z: a null buffer gives 0, else the variant for the machine's byte order. */
  method CrcZ(t: array2<bv32>, crc: bv32, buf: Option<seq<bv8>>, address: nat, littleEndian: bool) returns (r: bv32)
    requires TableOk(t)
    ensures r == if buf.None? then 0 else Crc(crc, buf.value)
  {
    if buf.None? { return 0; }
    if littleEndian {
      r := CrcLittle(t, crc, buf.value, address);
    } else {
      r := CrcBig(t, crc, buf.value, address);
    }
  }

  lemma {:induction false} FeedConcat(c: bv32, a: seq<bv8>, b: seq<bv8>)
    ensures Feed(c, a + b) == Feed(Feed(c, a), b)
    decreases |a|
  {
    hide FeedBits;
    if a == [] {
      assert a + b == b;
    } else {
      assert (a + b)[1..] == a[1..] + b;
      FeedConcat(FeedBits(c, a[0] as bv32, 8), a[1..], b);
    }
  }

  /** A CRC can be continued: the CRC of a + b is that of b continued from that of a. */
  lemma CrcContinues(crc: bv32, a: seq<bv8>, b: seq<bv8>)
    ensures Crc(crc, a + b) == Crc(Crc(crc, a), b)
  {
    FeedConcat(Not(crc), a, b);
  }

  // ---------------------------------------------------------------- matrices over GF(2)

  /** A matrix times a vector: the sum of the rows selected by the bits of v. */
  function Times(rows: seq<bv32>, v: bv32): bv32
    decreases |rows|
  {
    if rows == [] then 0 else Xor(Pick(v, rows[0]), Times(rows[1..], Half(v)))
  }

  function Pick(v: bv32, row: bv32): bv32 { if v & 1 == 1 then row else 0 }

  function Double(c: bv32): bv32 { c << 1 }

  /** w moved up by j places. */
  function Place(w: bv32, j: nat): bv32
    decreases j
  {
    if j == 0 then w else Double(Place(w, j - 1))
  }

  /** The matrix of n register steps: its columns are the images of the unit vectors. */
  function Op(n: nat): seq<bv32> { seq(32, i requires 0 <= i => Shifts(n, Place(1, i))) }

  lemma PlaceEight(w: bv32)
    ensures Place(w, 8) == w << 8
  {
    assert Double(w) == w << 1;
    assert Double(w << 1) == w << 2;
    assert Double(w << 2) == w << 3;
    assert Double(w << 3) == w << 4;
    assert Double(w << 4) == w << 5;
    assert Double(w << 5) == w << 6;
    assert Double(w << 6) == w << 7;
    assert Double(w << 7) == w << 8;
    assert Place(w, 1) == w << 1;
    assert Place(w, 2) == w << 2;
    assert Place(w, 3) == w << 3;
    assert Place(w, 4) == w << 4;
    assert Place(w, 5) == w << 5;
    assert Place(w, 6) == w << 6;
    assert Place(w, 7) == w << 7;
    assert Place(w, 8) == w << 8;
  }

  lemma {:induction false} PlaceAdd(w: bv32, i: nat, j: nat)
    ensures Place(w, i + j) == Place(Place(w, i), j)
    decreases j
  {
    hide Double;
    if j > 0 { PlaceAdd(w, i, j - 1); }
  }

  /** Nothing is left of a register moved up by its whole width. */
  lemma PlaceOut(w: bv32)
    ensures Place(w, 32) == 0
  {
    hide Place;
    PlaceAdd(w, 8, 8);
    PlaceAdd(w, 16, 8);
    PlaceAdd(w, 24, 8);
    PlaceEight(w);
    PlaceEight(w << 8);
    PlaceEight(w << 8 << 8);
    PlaceEight(w << 8 << 8 << 8);
    assert w << 8 << 8 << 8 << 8 == 0;
  }

  lemma DoubleXor(a: bv32, b: bv32)
    ensures Double(Xor(a, b)) == Xor(Double(a), Double(b))
  {
  }

  lemma {:induction false} PlaceLinear(a: bv32, b: bv32, j: nat)
    ensures Place(Xor(a, b), j) == Xor(Place(a, j), Place(b, j))
    decreases j
  {
    hide Double, Xor;
    if j > 0 {
      PlaceLinear(a, b, j - 1);
      DoubleXor(Place(a, j - 1), Place(b, j - 1));
    }
  }

  lemma BitAndRest(w: bv32)
    ensures w == Xor(Pick(w, 1), Double(Half(w)))
  {
  }

  lemma {:induction false} PlaceZero(j: nat)
    ensures Place(0, j) == 0
    decreases j
  {
    if j > 0 { PlaceZero(j - 1); }
  }

  lemma ShiftsPick(n: nat, w: bv32, j: nat)
    ensures Shifts(n, Place(Pick(w, 1), j)) == Pick(w, Shifts(n, Place(1, j)))
  {
    PlaceZero(j);
    ShiftsZero(n);
  }

  lemma {:induction false} TimesOpFrom(n: nat, j: nat, w: bv32)
    requires j <= 32
    ensures Times(Op(n)[j..], w) == Shifts(n, Place(w, j))
    decreases 32 - j
  {
    hide Xor, Shift, Shifts, Half, Double, Pick, Place;
    if j == 32 {
      PlaceOut(w);
      ShiftsZero(n);
    } else {
      assert Op(n)[j..][1..] == Op(n)[j + 1..];
      TimesOpFrom(n, j + 1, Half(w));
      ShiftsPick(n, w, j);
      BitAndRest(w);
      PlaceLinear(Pick(w, 1), Double(Half(w)), j);
      PlaceUnder(Half(w), j);
      ShiftsLinear(n, Place(Pick(w, 1), j), Place(Half(w), j + 1));
    }
  }

  lemma PlaceUnder(h: bv32, j: nat)
    ensures Place(Double(h), j) == Place(h, j + 1)
  {
    hide Double;
    PlaceAdd(h, 1, j);
    assert Place(h, 1) == Double(Place(h, 0));
  }

  /** Multiplying by the matrix of n steps performs the n steps. */
  lemma TimesOp(n: nat, v: bv32)
    ensures Times(Op(n), v) == Shifts(n, v)
  {
    hide Xor, Shift, Shifts, Half, Double, Pick;
    assert Op(n)[0..] == Op(n);
    TimesOpFrom(n, 0, v);
  }

  function Halves(v: bv32, i: nat): bv32
    decreases i
  {
    if i == 0 then v else Half(Halves(v, i - 1))
  }

  lemma HalvesEight(w: bv32)
    ensures Halves(w, 8) == w >> 8
  {
    assert Half(w) == w >> 1;
    assert Half(w >> 1) == w >> 2;
    assert Half(w >> 2) == w >> 3;
    assert Half(w >> 3) == w >> 4;
    assert Half(w >> 4) == w >> 5;
    assert Half(w >> 5) == w >> 6;
    assert Half(w >> 6) == w >> 7;
    assert Half(w >> 7) == w >> 8;
    assert Halves(w, 1) == w >> 1;
    assert Halves(w, 2) == w >> 2;
    assert Halves(w, 3) == w >> 3;
    assert Halves(w, 4) == w >> 4;
    assert Halves(w, 5) == w >> 5;
    assert Halves(w, 6) == w >> 6;
    assert Halves(w, 7) == w >> 7;
    assert Halves(w, 8) == w >> 8;
  }

  lemma {:induction false} HalvesAdd(v: bv32, i: nat, j: nat)
    ensures Halves(v, i + j) == Halves(Halves(v, i), j)
    decreases j
  {
    hide Half;
    if j > 0 { HalvesAdd(v, i, j - 1); }
  }

  lemma HalvesOut(v: bv32)
    ensures Halves(v, 32) == 0
  {
    hide Halves;
    HalvesAdd(v, 8, 8);
    HalvesAdd(v, 16, 8);
    HalvesAdd(v, 24, 8);
    HalvesEight(v);
    HalvesEight(v >> 8);
    HalvesEight(v >> 8 >> 8);
    HalvesEight(v >> 8 >> 8 >> 8);
    assert v >> 8 >> 8 >> 8 >> 8 == 0;
  }

  lemma {:induction false} TimesZero(rows: seq<bv32>)
    ensures Times(rows, 0) == 0
    decreases |rows|
  {
    if rows != [] { TimesZero(rows[1..]); }
  }

  /** gf2_matrix_times: stops at the last set bit. */
  method MatrixTimes(mat: array<bv32>, vec: bv32) returns (sum: bv32)
    requires mat.Length == 32
    ensures sum == Times(mat[..], vec)
  {
    hide Xor, Half, Pick, Halves;
    sum := 0;
    var v, i := vec, 0;
    HalvesStart(vec);
    XorFromZero(Times(mat[..], vec));
    assert mat[0..] == mat[..];
    while v != 0
      invariant i <= 32 && v == Halves(vec, i)
      invariant Xor(sum, Times(mat[i..], v)) == Times(mat[..], vec)
      decreases 32 - i
    {
      HalvesOut(vec);
      HalvesNext(vec, i);
      assert mat[i..][1..] == mat[i + 1..];
      XorAssoc(sum, Pick(v, mat[i]), Times(mat[i + 1..], Half(v)));
      sum := Xor(sum, Pick(v, mat[i]));
      v := Half(v);
      i := i + 1;
    }
    TimesZero(mat[i..]);
    XorZero(sum);
  }

  lemma HalvesStart(v: bv32)
    ensures Halves(v, 0) == v
  {
  }

  lemma HalvesNext(v: bv32, i: nat)
    ensures Halves(v, i + 1) == Half(Halves(v, i))
  {
  }

  lemma XorFromZero(c: bv32)
    ensures Xor(0, c) == c
  {
  }

  ghost predicate IsOp(a: array<bv32>, n: nat)
    reads a
  {
    a.Length == 32 && a[..] == Op(n)
  }

  /** gf2_matrix_square: squaring the matrix of n steps gives that of 2n steps. */
  method MatrixSquare(square: array<bv32>, mat: array<bv32>, ghost n: nat)
    requires IsOp(mat, n) && square.Length == 32 && square != mat
    modifies square
    ensures IsOp(square, 2 * n)
  {
    hide Shifts, Place, Times;
    for k := 0 to 32
      invariant forall i | 0 <= i < k :: square[i] == Op(2 * n)[i]
      invariant IsOp(mat, n)
    {
      assert mat[k] == mat[..][k];
      TimesOp(n, mat[k]);
      ShiftsAdd(n, n, Place(1, k));
      square[k] := MatrixTimes(mat, mat[k]);
    }
    assert square[..] == Op(2 * n);
  }

  // ---------------------------------------------------------------- crc32_combine_

  /** The operator for one zero bit: the polynomial, then the unit vectors one place down. */
  method OneBitMatrix(odd: array<bv32>)
    requires odd.Length == 32
    modifies odd
    ensures IsOp(odd, 1)
  {
    hide Place, Shifts, Double;
    odd[0] := POLY;
    var row: bv32 := 1;
    UnitImages();
    for n := 1 to 32
      invariant row == Place(1, n - 1)
      invariant forall i | 0 <= i < n :: odd[i] == Op(1)[i]
    {
      UnitImage(n);
      odd[n] := row;
      row := Double(row);
    }
    assert odd[..] == Op(1);
  }

  lemma UnitImages()
    ensures Shifts(1, Place(1, 0)) == POLY && Place(1, 0) == 1
  {
    assert Shifts(1, 1) == Shifts(0, Shift(1));
  }

  function DoubleOne(c: bv32): bv32 { (c << 1) | 1 }

  /** The k low bits. */
  function Ones(k: nat): bv32
    decreases k
  {
    if k == 0 then 0 else DoubleOne(Ones(k - 1))
  }

  predicate Inside(a: bv32, b: bv32) { a & b == a }

  lemma InsideDouble(a: bv32, b: bv32)
    requires Inside(a, b)
    ensures Inside(Double(a), DoubleOne(b)) && Inside(DoubleOne(a), DoubleOne(b))
  {
  }

  lemma InsideBase()
    ensures Inside(Place(1, 0), Ones(1))
  {
    assert Ones(1) == DoubleOne(Ones(0)) && Ones(0) == 0;
  }

  lemma OnesNext(k: nat)
    ensures Ones(k + 1) == DoubleOne(Ones(k))
  {
  }

  lemma {:induction false} UnitInside(j: nat)
    ensures Inside(Place(1, j), Ones(j + 1))
    decreases j
  {
    hide Double, DoubleOne, Inside, Ones, Place;
    if j == 0 {
      InsideBase();
    } else {
      UnitInside(j - 1);
      InsideDouble(Place(1, j - 1), Ones(j));
      UnitNext(j);
      OnesNext(j);
    }
  }

  lemma InsideZero(b: bv32)
    ensures Inside(Ones(0), b)
  {
  }

  lemma {:induction false} OnesInside(k: nat, m: nat)
    requires k <= m
    ensures Inside(Ones(k), Ones(m))
    decreases k
  {
    hide Double, DoubleOne, Inside, Ones;
    if k == 0 {
      InsideZero(Ones(m));
    } else {
      OnesInside(k - 1, m - 1);
      InsideDouble(Ones(k - 1), Ones(m - 1));
      OnesNext(k - 1);
      OnesNext(m - 1);
    }
  }

  lemma InsideTop(a: bv32, b: bv32)
    requires Inside(a, b) && Inside(b, 0x7fff_ffff)
    ensures Shift(Double(a)) == a
  {
  }

  lemma OnesTop()
    ensures Ones(31) == 0x7fff_ffff
  {
    assert Ones(8) == 0xff;
    assert Ones(16) == 0xffff;
    assert Ones(24) == 0xff_ffff;
  }

  lemma UnitImage(n: nat)
    requires 1 <= n < 32
    ensures Shifts(1, Place(1, n)) == Place(1, n - 1) && Place(1, n) == Double(Place(1, n - 1))
  {
    hide Place, Ones, Shift, Double, Inside;
    UnitInside(n - 1);
    OnesInside(n, 31);
    OnesTop();
    var u := Place(1, n - 1);
    InsideTop(u, Ones(n));
    UnitNext(n);
    OneShift(Double(u));
  }

  lemma UnitNext(n: nat)
    requires 1 <= n
    ensures Place(1, n) == Double(Place(1, n - 1))
  {
  }

  lemma OneShift(c: bv32)
    ensures Shifts(1, c) == Shift(c)
  {
    assert Shifts(0, Shift(c)) == Shift(c);
  }

  /** The even / odd loop applies exactly len2 zero bytes. */
  method CombineLoop(crc: bv32, len: nat, even: array<bv32>, odd: array<bv32>) returns (r: bv32)
    requires len > 0 && even != odd && even.Length == 32 && IsOp(odd, 4)
    modifies even, odd
    ensures r == Shifts(8 * len, crc)
  {
    hide Shifts, Op, Times;
    r := crc;
    var len2 := len;
    ghost var w, done := 4, 0;   // odd applies w zero bits; done of them have been applied
    Nothing(crc);
    while true
      invariant even.Length == 32 && IsOp(odd, w) && r == Shifts(done, crc)
      invariant len2 > 0 && done + 2 * w * len2 == 8 * len
      decreases len2
    {
      MatrixSquare(even, odd, w);
      if len2 % 2 == 1 {
        TimesOp(2 * w, r);
        ShiftsAdd(done, 2 * w, crc);
        r := MatrixTimes(even, r);
        done := done + 2 * w;
      }
      HalfStep(2 * w, len2);
      len2 := len2 / 2;
      if len2 == 0 { break; }
      MatrixSquare(odd, even, 2 * w);
      if len2 % 2 == 1 {
        TimesOp(4 * w, r);
        ShiftsAdd(done, 4 * w, crc);
        r := MatrixTimes(odd, r);
        done := done + 4 * w;
      }
      HalfStep(4 * w, len2);
      len2 := len2 / 2;
      w := 4 * w;
      if len2 == 0 { break; }
    }
  }

  lemma Nothing(c: bv32)
    ensures Shifts(0, c) == c
  {
  }

  lemma HalfStep(w: nat, n: nat)
    ensures w * n == (if n % 2 == 1 then w else 0) + 2 * w * (n / 2)
  {
    assert n == 2 * (n / 2) + n % 2;
    assert w * n == w * (2 * (n / 2)) + w * (n % 2);
  }

  lemma {:induction false} FeedSum(c: bv32, d: bv32, b: seq<bv8>)
    ensures Feed(Xor(c, d), b) == Xor(Shifts(8 * |b|, c), Feed(d, b))
    decreases |b|
  {
    hide Xor, Shift, Shifts, FeedBits;
    if b == [] {
      Nothing(c);
    } else {
      var x := b[0] as bv32;
      FeedByteIsShifts(Xor(c, d), b[0]);
      FeedByteIsShifts(d, b[0]);
      XorAssoc(c, d, x);
      ShiftsLinear(8, c, Xor(d, x));
      FeedSum(Shifts(8, c), FeedByte(d, b[0]), b[1..]);
      ShiftsAdd(8, 8 * |b[1..]|, c);
    }
  }

  lemma NotIsXor(c: bv32)
    ensures Not(c) == Xor(c, 0xffff_ffff)
  {
  }

  lemma NotXor(a: bv32, b: bv32)
    ensures Not(Xor(a, b)) == Xor(a, Not(b))
  {
  }

  /** The CRC of a concatenation, from the two CRCs and the length of the second part. */
  lemma CrcOfConcat(crc: bv32, a: seq<bv8>, b: seq<bv8>)
    ensures Crc(crc, a + b) == Xor(Shifts(8 * |b|, Crc(crc, a)), Crc(0, b))
  {
    hide Xor, Shift, Shifts, Feed, Not;
    CrcContinues(crc, a, b);
    var ca := Crc(crc, a);
    NotIsXor(ca);
    NotNot(Feed(Not(crc), a));
    FeedSum(ca, 0xffff_ffff, b);
    NotXor(Shifts(8 * |b|, ca), Feed(0xffff_ffff, b));
    Complement();
  }

  lemma NotNot(c: bv32)
    ensures Not(Not(c)) == c
  {
  }

  lemma Complement()
    ensures Not(0) == 0xffff_ffff
  {
  }

  /** crc32_combine_. */
  method Combine(crc1: bv32, crc2: bv32, len2: int) returns (r: bv32)
    ensures len2 <= 0 ==> r == crc1
    ensures forall crc: bv32, a: seq<bv8>, b: seq<bv8> ::
      crc1 == Crc(crc, a) && crc2 == Crc(0, b) && len2 == |b| ==> r == Crc(crc, a + b)
  {
    hide Crc, Xor, Shifts, Op;
    if len2 <= 0 {
      forall crc: bv32, a: seq<bv8>, b: seq<bv8> | crc1 == Crc(crc, a) && crc2 == Crc(0, b) && len2 == |b|
        ensures crc1 == Crc(crc, a + b)
      {
        assert a + b == a;
      }
      return crc1;
    }
    var even, odd := new bv32[32], new bv32[32];
    OneBitMatrix(odd);
    MatrixSquare(even, odd, 1);
    MatrixSquare(odd, even, 2);
    r := CombineLoop(crc1, len2, even, odd);
    r := Xor(r, crc2);
    forall crc: bv32, a: seq<bv8>, b: seq<bv8> | crc1 == Crc(crc, a) && crc2 == Crc(0, b) && len2 == |b|
      ensures r == Crc(crc, a + b)
    {
      CrcOfConcat(crc, a, b);
    }
  }

  // ---------------------------------------------------------------- the check value

  const CHECK: seq<bv8> := [0x31, 0x32, 0x33, 0x34, 0x35, 0x36, 0x37, 0x38, 0x39]

  lemma FirstRegisters()
    ensures FeedByte(0xffff_ffff, 0x31) == 0x7c23_1048
    ensures FeedByte(0x7c23_1048, 0x32) == 0xb0ac_bb32
    ensures FeedByte(0xb0ac_bb32, 0x33) == 0x77b7_9c2d
    ensures FeedByte(0x77b7_9c2d, 0x34) == 0x641c_1f5c
    ensures FeedByte(0x641c_1f5c, 0x35) == 0x340a_c5e3
  {
  }

  lemma LastRegisters()
    ensures FeedByte(0x340a_c5e3, 0x36) == 0xf68d_2c9e
    ensures FeedByte(0xf68d_2c9e, 0x37) == 0xaffc_9660
    ensures FeedByte(0xaffc_9660, 0x38) == 0x651f_2550
    ensures FeedByte(0x651f_2550, 0x39) == 0x340b_c6d9
  {
  }

  /** The CRC of the digits 1 to 9, by which CRC-32 is told from its variants. */
  lemma CheckValue()
    ensures Crc(0, CHECK) == 0xcbf4_3926
  {
    hide Feed, FeedByte;
    FirstRegisters();
    LastRegisters();
    FeedStep(0xffff_ffff, CHECK, 0);
    FeedStep(0x7c23_1048, CHECK, 1);
    FeedStep(0xb0ac_bb32, CHECK, 2);
    FeedStep(0x77b7_9c2d, CHECK, 3);
    FeedStep(0x641c_1f5c, CHECK, 4);
    FeedStep(0x340a_c5e3, CHECK, 5);
    FeedStep(0xf68d_2c9e, CHECK, 6);
    FeedStep(0xaffc_9660, CHECK, 7);
    FeedStep(0x651f_2550, CHECK, 8);
    FeedEnd(0x340b_c6d9, CHECK);
    assert CHECK[0..] == CHECK;
  }
}
