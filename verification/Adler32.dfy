/** Adler-32 of src/base/zlib/adler32.c: the sums of sections 2.2 and 9 of RFC 1950 reduced after
    every byte as the definition, and the deferred reduction and the combination proved equal. */
module Adler32 {
  import opened Common

  type Byte = x: int | 0 <= x < 256

  /** A buffer argument: bytes, or a null pointer with some length. */
  datatype Buffer = Bytes(bytes: seq<Byte>) | Null(length: nat)

  const BASE: nat := 65521
  const NMAX: nat := 5552
  const WORD: nat := 0x1_0000_0000

  /** The two component sums of a checksum. */
  datatype Sums = Sums(s1: nat, s2: nat)

  /** A checksum is any 32-bit word. */
  type Checksum = x: nat | x < 0x1_0000_0000

  function Split(adler: Checksum): (s: Sums)
    ensures s.s1 < 0x1_0000 && s.s2 < 0x1_0000 && Join(s) == adler
  {
    Sums(adler % 0x1_0000, adler / 0x1_0000)
  }

  /** adler | (sum2 << 16), both halves 16 bits wide. */
  function Join(s: Sums): (adler: Checksum)
    requires s.s1 < 0x1_0000 && s.s2 < 0x1_0000
    ensures adler % 0x1_0000 == s.s1 && adler / 0x1_0000 == s.s2
  {
    s.s1 + 0x1_0000 * s.s2
  }

  // ---------------------------------------------------------------- the definition

  function Mod(x: nat): (r: nat)
    ensures r < BASE
  {
    x % BASE
  }

  lemma ModAdd(x: nat, y: nat)
    ensures Mod(Mod(x) + y) == Mod(x + y) == Mod(x + Mod(y))
  {
  }

  lemma ModOnce(x: nat)
    ensures x < BASE ==> Mod(x) == x
    ensures BASE <= x < 2 * BASE ==> Mod(x) == x - BASE
    ensures 2 * BASE <= x < 3 * BASE ==> Mod(x) == x - 2 * BASE
    ensures 3 * BASE <= x < 4 * BASE ==> Mod(x) == x - 3 * BASE
  {
  }

  function Reduce(s: Sums): (r: Sums)
    ensures r.s1 < BASE && r.s2 < BASE
  {
    Sums(Mod(s.s1), Mod(s.s2))
  }

  function ByteStep(s: Sums, b: Byte): Sums {
    var s1 := Mod(s.s1 + b);
    Sums(s1, Mod(s.s2 + s1))
  }

  /** The sums after all bytes, reduced after each one. */
  function Update(s: Sums, buf: seq<Byte>): Sums
    decreases |buf|
  {
    if buf == [] then Reduce(s) else Update(ByteStep(s, buf[0]), buf[1..])
  }

  lemma {:induction false} UpdateReduced(s: Sums, buf: seq<Byte>)
    ensures Update(s, buf).s1 < BASE && Update(s, buf).s2 < BASE && Update(Reduce(s), buf) == Update(s, buf)
    decreases |buf|
  {
    hide Mod;
    ModOnce(Mod(s.s1));
    ModOnce(Mod(s.s2));
    if buf != [] {
      ModAdd(s.s1, buf[0]);
      ModAdd(s.s2, Mod(s.s1 + buf[0]));
      assert ByteStep(Reduce(s), buf[0]) == ByteStep(s, buf[0]);
      UpdateReduced(ByteStep(s, buf[0]), buf[1..]);
    }
  }

  /** The Adler-32 checksum of buf, continued from adler. */
  function Adler(adler: Checksum, buf: seq<Byte>): Checksum {
    UpdateReduced(Split(adler), buf);
    Join(Update(Split(adler), buf))
  }

  /** Continuing over the second half is the checksum of the whole. */
  lemma {:induction false} UpdateAppend(s: Sums, a: seq<Byte>, b: seq<Byte>)
    ensures Update(s, a + b) == Update(Update(s, a), b)
    decreases |a|
  {
    if a == [] {
      assert [] + b == b;
      UpdateReduced(s, b);
    } else {
      assert (a + b)[1..] == a[1..] + b;
      UpdateAppend(ByteStep(s, a[0]), a[1..], b);
    }
  }

  lemma AdlerContinues(adler: Checksum, a: seq<Byte>, b: seq<Byte>)
    ensures Adler(adler, a + b) == Adler(Adler(adler, a), b)
  {
    UpdateAppend(Split(adler), a, b);
    UpdateReduced(Split(adler), a);
  }

  // ---------------------------------------------------------------- deferred sums

  function RawStep(s: Sums, b: Byte): Sums { Sums(s.s1 + b, s.s2 + s.s1 + b) }

  /** The sums after all bytes without any reduction. */
  function Raw(s: Sums, buf: seq<Byte>): Sums
    decreases |buf|
  {
    if buf == [] then s else RawStep(Raw(s, buf[..|buf| - 1]), buf[|buf| - 1])
  }

  lemma {:induction false} RawAppend(s: Sums, a: seq<Byte>, b: seq<Byte>)
    ensures Raw(s, a + b) == Raw(Raw(s, a), b)
    decreases |b|
  {
    if b == [] {
      assert a + b == a;
    } else {
      assert (a + b)[..|a + b| - 1] == a + b[..|b| - 1];
      RawAppend(s, a, b[..|b| - 1]);
    }
  }

  lemma UpdateSnoc(s: Sums, buf: seq<Byte>, b: Byte)
    ensures Update(s, buf + [b]) == ByteStep(Update(s, buf), b)
  {
    hide Mod;
    UpdateAppend(s, buf, [b]);
    var t := ByteStep(Update(s, buf), b);
    assert Update(Update(s, buf), [b]) == Update(t, [b][1..]) == Reduce(t);
    ModOnce(t.s1);
    ModOnce(t.s2);
  }

  /** Reducing at the end is reducing after every byte. */
  lemma {:induction false} RawReduces(s: Sums, buf: seq<Byte>)
    ensures Reduce(Raw(s, buf)) == Update(s, buf)
    decreases |buf|
  {
    hide Mod;
    if buf != [] {
      var front, b := buf[..|buf| - 1], buf[|buf| - 1];
      RawReduces(s, front);
      assert buf == front + [b];
      UpdateSnoc(s, front, b);
      var r := Raw(s, front);
      ModAdd(r.s1, b);
      ModAdd(r.s2, Mod(r.s1 + b));
      ModAdd(r.s2, r.s1 + b);
    }
  }

  /** The largest second sum n bytes can give, starting from sums of at most m. */
  function Peak(n: nat, m: nat): nat { 255 * (n * (n + 1) / 2) + (n + 1) * m }

  lemma PeakStep(n: nat, m: nat)
    ensures Peak(n + 1, m) == Peak(n, m) + 255 * (n + 1) + m
  {
    assert (n + 1) * (n + 2) == n * (n + 1) + 2 * (n + 1);
    assert (n + 2) * m == (n + 1) * m + m;
  }

  lemma {:induction false} PeakMono(k: nat, n: nat, m: nat)
    requires k <= n
    ensures Peak(k, m) <= Peak(n, m)
  {
    if k < n {
      PeakMono(k, n - 1, m);
      PeakStep(n - 1, m);
    }
  }

  lemma {:induction false} RawBound(s: Sums, buf: seq<Byte>, m: nat)
    requires s.s1 <= m && s.s2 <= m
    ensures Raw(s, buf).s1 <= m + 255 * |buf| && Raw(s, buf).s2 <= Peak(|buf|, m)
    decreases |buf|
  {
    if buf != [] {
      RawBound(s, buf[..|buf| - 1], m);
      PeakStep(|buf| - 1, m);
    }
  }

  /** NMAX bytes never overflow 32 bits, whatever the 16-bit halves they start from. */
  lemma RawFits(s: Sums, buf: seq<Byte>)
    requires s.s1 < 0x1_0000 && s.s2 < 0x1_0000 && |buf| <= NMAX
    ensures Raw(s, buf).s1 < WORD && Raw(s, buf).s2 < WORD
  {
    RawBound(s, buf, 65535);
    PeakMono(|buf|, NMAX, 65535);
  }

  function Full(n: nat): (buf: seq<Byte>)
    ensures |buf| == n
  {
    if n == 0 then [] else Full(n - 1) + [255]
  }

  lemma {:induction false} FullReachesPeak(n: nat)
    ensures Raw(Sums(BASE - 1, BASE - 1), Full(n)) == Sums(BASE - 1 + 255 * n, Peak(n, BASE - 1))
  {
    if n > 0 {
      FullReachesPeak(n - 1);
      PeakStep(n - 1, BASE - 1);
      assert Full(n)[..n - 1] == Full(n - 1);
    }
  }

  /** NMAX is the largest number of bytes that may be summed before reducing. */
  lemma NmaxIsLargest(n: nat)
    ensures n <= NMAX
       <==> (forall buf: seq<Byte>, s: Sums | |buf| == n && s.s1 < BASE && s.s2 < BASE :: Raw(s, buf).s2 < WORD)
  {
    if n <= NMAX {
      forall buf: seq<Byte>, s: Sums | |buf| == n && s.s1 < BASE && s.s2 < BASE
        ensures Raw(s, buf).s2 < WORD
      {
        RawFits(s, buf);
      }
    } else {
      FullReachesPeak(n);
      PeakMono(NMAX + 1, n, BASE - 1);
      var s := Sums(BASE - 1, BASE - 1);
      assert |Full(n)| == n && s.s1 < BASE && s.s2 < BASE && Raw(s, Full(n)).s2 >= WORD;
    }
  }

  // ---------------------------------------------------------------- adler32_z

  /** 32-bit unsigned addition. */
  function Add32(a: nat, b: nat): (r: nat)
    ensures r < WORD
  {
    (a + b) % WORD
  }

  ghost predicate Fits(s: Sums) { s.s1 < WORD && s.s2 < WORD }

  lemma {:induction false} RawGrows(s: Sums, buf: seq<Byte>, k: nat)
    requires k <= |buf|
    ensures Raw(s, buf[..k]).s1 <= Raw(s, buf).s1 && Raw(s, buf[..k]).s2 <= Raw(s, buf).s2
    decreases |buf|
  {
    if k < |buf| {
      var front := buf[..|buf| - 1];
      assert front[..k] == buf[..k];
      RawGrows(s, front, k);
    } else {
      assert buf[..k] == buf;
    }
  }

  /** DO1 over a run of bytes. */
  method AddBytes(s: Sums, p: seq<Byte>) returns (r: Sums)
    requires Fits(Raw(s, p))
    ensures r == Raw(s, p)
  {
    var adler, sum2 := s.s1, s.s2;
    for i := 0 to |p|
      invariant Sums(adler, sum2) == Raw(s, p[..i])
    {
      assert p[..i + 1][..i] == p[..i];
      RawGrows(s, p, i + 1);
      adler := Add32(adler, p[i]);
      sum2 := Add32(sum2, adler);
    }
    assert p[..|p|] == p;
    r := Sums(adler, sum2);
  }

  /** Adds the bytes of one block, sixteen at a time and then one by one. */
  method AddBlock(s: Sums, p: seq<Byte>) returns (r: Sums)
    requires s.s1 < 0x1_0000 && s.s2 < 0x1_0000 && |p| <= NMAX
    ensures r == Raw(s, p)
  {
    r := s;
    var i := 0;
    assert Raw(s, p[..0]) == s;
    while i + 16 <= |p|
      invariant 0 <= i <= |p| && r == Raw(s, p[..i])
    {
      Extend(s, p, i, i + 16);
      r := AddBytes(r, p[i .. i + 16]);
      i := i + 16;
    }
    Extend(s, p, i, |p|);
    r := AddBytes(r, p[i .. |p|]);
    assert p[..|p|] == p;
  }

  lemma Extend(s: Sums, p: seq<Byte>, i: nat, j: nat)
    requires s.s1 < 0x1_0000 && s.s2 < 0x1_0000 && i <= j <= |p| <= NMAX
    ensures Raw(Raw(s, p[..i]), p[i .. j]) == Raw(s, p[..j]) && Fits(Raw(s, p[..j]))
  {
    assert p[..j] == p[..i] + p[i .. j];
    RawAppend(s, p[..i], p[i .. j]);
    RawFits(s, p[..j]);
  }

  /** One block, reduced, continues the checksum. */
  lemma BlockUpdates(s: Sums, done: Sums, buf: seq<Byte>, i: nat, j: nat)
    requires i <= j <= |buf| && Reduce(done) == Update(s, buf[..i])
    ensures Reduce(Raw(done, buf[i .. j])) == Update(s, buf[..j])
    ensures Reduce(Update(s, buf[..j])) == Update(s, buf[..j])
  {
    hide Mod, Raw, Update;
    UpdateReduced(s, buf[..j]);
    ModOnce(Update(s, buf[..j]).s1);
    ModOnce(Update(s, buf[..j]).s2);
    RawReduces(done, buf[i .. j]);
    assert buf[..j] == buf[..i] + buf[i .. j];
    UpdateAppend(s, buf[..i], buf[i .. j]);
    UpdateReduced(done, buf[i .. j]);
  }

  /** A checksum word whose second half is too large for one subtraction to reduce. */
  predicate SinglePathUnreduced(adler: Checksum, buf: seq<Byte>) {
    |buf| == 1 && Split(adler).s2 + Mod(Split(adler).s1 + buf[0]) >= 2 * BASE
  }

  /** The single-byte path does return an unreduced sum: one given second half 65535 and no increment. */
  lemma UnreducedWitness()
    ensures SinglePathUnreduced(65520 + 0x1_0000 * 65535, [0])
  {
  }

  /** adler32_z: a null buffer gives the initial value - a length of one is read before the null
      test, so callers must not pass it with a null buffer; otherwise the checksum, except that the
      single-byte path may return a sum that is congruent to it and not below BASE. */
  method Adler32Z(adler: Checksum, buf: Buffer) returns (r: Checksum)
    requires buf.Null? ==> buf.length != 1
    ensures buf.Null? ==> r == 1
    ensures buf.Bytes? ==> (r == Adler(adler, buf.bytes) <==> !SinglePathUnreduced(adler, buf.bytes))
    ensures buf.Bytes? ==> Reduce(Split(r)) == Update(Split(adler), buf.bytes)
  {
    hide Mod, Update, Raw;
    var s := Split(adler);
    match buf
    case Null(_) => return 1;
    case Bytes(p) =>
      UpdateReduced(s, p);
      var t: Sums;
      if |p| == 1 {
        t := SingleByte(s, p);
      } else {
        if |p| < 16 { t := FewBytes(s, p); } else { t := Blocks(s, p); }
        ModOnce(t.s1);
        ModOnce(t.s2);
      }
      return Join(t);
  }

  method SingleByte(s: Sums, p: seq<Byte>) returns (t: Sums)
    requires s.s1 < 0x1_0000 && s.s2 < 0x1_0000 && |p| == 1
    ensures t.s1 < 0x1_0000 && t.s2 < 0x1_0000 && Reduce(t) == Update(s, p)
    ensures t == Update(s, p) <==> s.s2 + Mod(s.s1 + p[0]) < 2 * BASE
  {
    hide Mod;
    assert Update(s, p) == Reduce(ByteStep(s, p[0])) by { assert p[1..] == []; }
    var s1 := s.s1 + p[0];
    ModOnce(s1);
    if s1 >= BASE { s1 := s1 - BASE; }
    var s2 := s.s2 + s1;
    ModOnce(s1);
    ModOnce(s2);
    ModOnce(Mod(s2));
    if s2 >= BASE { s2 := s2 - BASE; }
    ModOnce(s2);
    t := Sums(s1, s2);
  }

  method FewBytes(s: Sums, p: seq<Byte>) returns (t: Sums)
    requires s.s1 < 0x1_0000 && s.s2 < 0x1_0000 && |p| < 16
    ensures t == Update(s, p)
  {
    hide Mod;
    RawFits(s, p);
    RawBound(s, p, 65535);
    RawReduces(s, p);
    var u := AddBytes(s, p);
    ModOnce(u.s1);
    var s1 := if u.s1 >= BASE then u.s1 - BASE else u.s1;
    t := Sums(s1, Mod(u.s2));
  }

  method Blocks(s: Sums, p: seq<Byte>) returns (t: Sums)
    requires s.s1 < 0x1_0000 && s.s2 < 0x1_0000 && |p| > 0
    ensures t == Update(s, p)
  {
    hide Mod, Raw;
    t := s;
    var i := 0;
    assert p[..0] == [];
    while |p| - i >= NMAX
      invariant 0 <= i <= |p| && t.s1 < 0x1_0000 && t.s2 < 0x1_0000
      invariant Reduce(t) == Update(s, p[..i])
      invariant i > 0 ==> t == Reduce(t)
    {
      var u := AddBlock(t, p[i .. i + NMAX]);
      BlockUpdates(s, t, p, i, i + NMAX);
      t := Reduce(u);
      i := i + NMAX;
    }
    if i < |p| {
      var u := AddBlock(t, p[i .. |p|]);
      BlockUpdates(s, t, p, i, |p|);
      t := Reduce(u);
    }
    assert p[..|p|] == p;
  }

  // ---------------------------------------------------------------- adler32_combine_

  /** The raw sums from any start, in terms of the raw sums from (1, 0). */
  lemma {:induction false} RawFromOne(s: Sums, buf: seq<Byte>)
    ensures var r := Raw(Sums(1, 0), buf);
      && r.s1 >= 1 && Raw(s, buf).s1 == s.s1 + r.s1 - 1
      && Raw(s, buf).s2 == s.s2 + |buf| * s.s1 + r.s2 - |buf|
    decreases |buf|
  {
    if buf != [] {
      RawFromOne(s, buf[..|buf| - 1]);
      assert |buf| * s.s1 == (|buf| - 1) * s.s1 + s.s1;
    }
  }

  /** adler32_combine_: a negative length gives an invalid checksum. */
  function Combine(adler1: Checksum, adler2: Checksum, len2: int): Checksum {
    if len2 < 0 then 0xffff_ffff
    else
      var a, b := Split(adler1), Split(adler2);
      var rem := Mod(len2);
      var sum1 := a.s1 + b.s1 + BASE - 1;
      var sum2 := Mod(Mul32(rem, a.s1)) + a.s2 + b.s2 + BASE - rem;
      var t1 := if sum1 >= BASE then sum1 - BASE else sum1;
      var r1 := if t1 >= BASE then t1 - BASE else t1;
      var t2 := if sum2 >= 2 * BASE then sum2 - 2 * BASE else sum2;
      var r2 := if t2 >= BASE then t2 - BASE else t2;
      Or16(r1, r2)
  }

  /** 32-bit unsigned multiplication. */
  function Mul32(a: nat, b: nat): nat { (a * b) % WORD }

  /** sum1 | (sum2 << 16) in 32 bits, for a first sum of at most 17 bits. */
  function Or16(s1: nat, s2: nat): (r: Checksum)
    ensures s1 < 0x1_0000 && s2 < 0x1_0000 ==> r == Join(Sums(s1, s2))
  {
    var low, carry := s1 % 0x1_0000, s1 / 0x1_0000;
    low + 0x1_0000 * ((if carry % 2 == 1 && s2 % 2 == 0 then s2 + 1 else s2) % 0x1_0000)
  }

  /** The product of the length and the first sum needs only the length modulo BASE. */
  lemma ProductMod(len: nat, x: nat)
    requires x < 0x1_0000
    ensures Mul32(Mod(len), x) == Mod(len) * x && Mod(Mod(len) * x) == Mod(len * x)
  {
    var q, rem := len / BASE, len % BASE;
    assert rem * x <= 65520 * x by { ProductMono(rem, 65520, x); }
    SmallWord(rem * x);
    SplitProduct(q, rem, x);
    MultipleVanishes(rem * x, q * x);
  }

  lemma SmallWord(x: nat)
    requires x < WORD
    ensures x % WORD == x
  {
  }

  lemma SplitProduct(q: nat, rem: nat, x: nat)
    ensures (q * BASE + rem) * x == (q * x) * BASE + rem * x
  {
  }

  lemma MultipleVanishes(y: nat, k: nat)
    ensures Mod(k * BASE + y) == Mod(y)
  {
  }

  /** The checksum of A ++ B follows from those of A and B and the length of B, for every start. */
  lemma CombineIsConcat(start: Checksum, a: seq<Byte>, b: seq<Byte>)
    ensures Combine(Adler(start, a), Adler(1, b), |b|) == Adler(start, a + b)
  {
    hide Mod, Update, Combine;
    AdlerContinues(start, a, b);
    UpdateReduced(Split(start), a);
    CombineContinues(Adler(start, a), b);
  }

  lemma CombineContinues(adler: Checksum, b: seq<Byte>)
    requires Split(adler).s1 < BASE && Split(adler).s2 < BASE
    ensures Combine(adler, Adler(1, b), |b|) == Adler(adler, b)
  {
    hide Raw, Update, Mod, Mul32, Or16;
    var s, n := Split(adler), |b|;
    assert Split(1) == Sums(1, 0);
    UpdateReduced(Sums(1, 0), b);
    UpdateReduced(s, b);
    RawFromOne(s, b);
    RawReduces(s, b);
    RawReduces(Sums(1, 0), b);
    ProductMod(n, s.s1);
    var r := Raw(Sums(1, 0), b);
    var product := n * s.s1;
    FirstSum(s.s1, r.s1);
    SecondSum(s, r.s2, n, product);
    ModOnce(s.s1 + Mod(r.s1) + BASE - 1);
    ModOnce(Mod(product) + s.s2 + Mod(r.s2) + BASE - Mod(n));
  }

  lemma FirstSum(s1: nat, r1: nat)
    requires r1 >= 1
    ensures Mod(s1 + Mod(r1) + BASE - 1) == Mod(s1 + r1 - 1)
  {
  }

  lemma SecondSum(s: Sums, r2: nat, n: nat, product: nat)
    requires s.s2 + product + r2 - n >= 0
    ensures Mod(Mod(product) + s.s2 + Mod(r2) + BASE - Mod(n)) == Mod(s.s2 + product + r2 - n)
  {
  }

  // ---------------------------------------------------------------- the check value

  const CHECK: seq<Byte> := [0x31, 0x32, 0x33, 0x34, 0x35, 0x36, 0x37, 0x38, 0x39]

  lemma UpdateSmall(s1: nat, s2: nat, buf: seq<Byte>, i: nat)
    requires i < |buf| && s2 + s1 + buf[i] < BASE
    ensures Update(Sums(s1, s2), buf[i..]) == Update(Sums(s1 + buf[i], s2 + s1 + buf[i]), buf[i + 1..])
  {
    ModOnce(s1 + buf[i]);
    ModOnce(s2 + s1 + buf[i]);
    hide Mod;
    assert buf[i..][1..] == buf[i + 1..];
  }

  lemma FirstDigits()
    ensures Update(Sums(1, 0), CHECK) == Update(Sums(256, 760), CHECK[5..])
  {
    hide Update, Mod;
    assert CHECK[0..] == CHECK;
    UpdateSmall(1, 0, CHECK, 0);
    UpdateSmall(50, 50, CHECK, 1);
    UpdateSmall(100, 150, CHECK, 2);
    UpdateSmall(151, 301, CHECK, 3);
    UpdateSmall(203, 504, CHECK, 4);
  }

  lemma LastDigits()
    ensures Update(Sums(256, 760), CHECK[5..]) == Sums(478, 2334)
  {
    hide Update, Mod;
    UpdateSmall(256, 760, CHECK, 5);
    UpdateSmall(310, 1070, CHECK, 6);
    UpdateSmall(365, 1435, CHECK, 7);
    UpdateSmall(421, 1856, CHECK, 8);
    assert CHECK[9..] == [];
    UpdateNothing(Sums(478, 2334));
  }

  /** The checksum of the digits 1 to 9. */
  lemma CheckValue()
    ensures Adler(1, CHECK) == 0x091e_01de
  {
    hide Update;
    FirstDigits();
    LastDigits();
  }

  lemma UpdateNothing(s: Sums)
    requires s.s1 < BASE && s.s2 < BASE
    ensures Update(s, []) == s
  {
    ModOnce(s.s1);
    ModOnce(s.s2);
  }
}
