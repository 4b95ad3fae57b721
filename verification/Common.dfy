/** What several modules share. */
module Common {

  datatype Option<+T> = None | Some(value: T)

  lemma {:induction false} SubsetSize<T>(a: set<T>, b: set<T>)
    requires a <= b
    ensures |a| <= |b|
    decreases |a|
  {
    if a != {} {
      var x :| x in a;
      SubsetSize(a - {x}, b - {x});
    }
  }

  predicate InRange(i: int, lo: int, hi: int) { lo <= i < hi }

  /** The numbers from lo up to, but not including, hi. */
  ghost function Interval(lo: int, hi: int): set<nat> { set i: nat | lo <= i < hi && InRange(i, lo, hi) }

  lemma {:induction false} IntervalSize(lo: nat, hi: nat)
    requires lo <= hi
    ensures |Interval(lo, hi)| == hi - lo
    decreases hi - lo
  {
    if lo == hi {
      assert Interval(lo, hi) == {};
    } else {
      IntervalSize(lo, hi - 1);
      assert Interval(lo, hi) == Interval(lo, hi - 1) + {hi - 1};
    }
  }

  lemma ProductMono(a: int, b: int, m: nat)
    ensures a <= b ==> a * m <= b * m
  {
  }
}

/** Bitwise operations on numbers, digit by digit in base two. */
module Bitwise {
  import opened Common

  ghost predicate PowerOfTwo(n: nat) { n == 1 || (n > 1 && n % 2 == 0 && PowerOfTwo(n / 2)) }

  /** x & y, where a negative x has infinitely many leading ones (two's complement). */
  function And(x: int, y: nat): nat
    decreases y
  {
    if y == 0 then 0 else (if x % 2 == 1 && y % 2 == 1 then 1 else 0) + 2 * And(x / 2, y / 2)
  }

  /** Masking with one less than a power of two is the remainder. */
  lemma {:induction false} AndMask(x: int, m: nat)
    requires PowerOfTwo(m)
    ensures And(x, m - 1) == x % m
    decreases m
  {
    if m > 1 {
      var h := m / 2;
      assert (m - 1) / 2 == h - 1 && (m - 1) % 2 == 1;
      AndMask(x / 2, h);
      LastDigit(x, h);
    }
  }

  /** The last binary digit of a remainder. */
  lemma LastDigit(x: int, h: nat)
    requires h > 0
    ensures x % (2 * h) == x % 2 + 2 * (x / 2 % h)
  {
    var q, r := x / 2 / h, x / 2 % h;
    assert x / 2 == q * h + r;
    assert q * (2 * h) == 2 * (q * h);
    RemainderIs(x, 2 * h, q, 2 * r + x % 2);
  }

  /** A remainder is the only one in range. */
  lemma RemainderIs(x: int, m: nat, q: int, r: nat)
    requires m > 0 && x == q * m + r && r < m
    ensures x % m == r && x / m == q
  {
    var q2, r2 := x / m, x % m;
    assert x == q2 * m + r2;
    ProductMono(q + 1, q2, m);
    ProductMono(q2 + 1, q, m);
    NextMultiple(q, m);
    NextMultiple(q2, m);
  }

  lemma NextMultiple(q: int, m: nat)
    ensures (q + 1) * m == q * m + m
  {
  }

  /** x ^ y. */
  function Xor(x: nat, y: nat): nat
    decreases x + y
  {
    if x == 0 && y == 0 then 0 else (if x % 2 != y % 2 then 1 else 0) + 2 * Xor(x / 2, y / 2)
  }

  /** Adding a power of two above the rest flips the top bit. */
  lemma {:induction false} XorTop(v: nat, m: nat)
    requires PowerOfTwo(m) && v < 2 * m
    ensures Xor(v, m) == if v < m then v + m else v - m
    decreases m
  {
    if m > 1 {
      XorTop(v / 2, m / 2);
    } else {
      assert Xor(0, 0) == 0;
    }
  }
}
