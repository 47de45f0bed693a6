/**
 * detail::next_pow2 of hw2/main5.cpp (the same definition appears in
 * hw2/main3.cpp, hw2/main2.cpp and hw2/main1.cpp): the smallest power of two
 * that is at least x, computed as 1 << (32 - countl_zero(unsigned(x - 1)))
 * for a 32-bit int x other than 1.
 */
module Pow2 {

  /** CHAR_BIT * sizeof(int) */
  const IntBits: nat := 32

  /** 2^32: unsigned conversion of an int is reduction modulo this. */
  const UnsignedRange: int := 0x1_0000_0000

  /** The largest argument whose result, 1 << 30, still fits a signed 32-bit int. */
  const MaxArg: int := 0x4000_0000

  function Pow2(k: nat): (r: nat)
    ensures r >= 1
  {
    if k == 0 then 1 else 2 * Pow2(k - 1)
  }

  ghost predicate IsPow2(n: int) {
    exists k: nat :: Pow2(k) == n
  }

  /** Number of binary digits of n; 32 - BitLength(u) is std::countl_zero of a 32-bit unsigned u. */
  function BitLength(n: nat): nat {
    if n == 0 then 0 else 1 + BitLength(n / 2)
  }

  lemma {:induction false} Pow2Monotone(j: nat, k: nat)
    requires j <= k
    ensures Pow2(j) <= Pow2(k)
  {
    if j < k {
      Pow2Monotone(j, k - 1);
    }
  }

  lemma {:induction false} Pow2Add(a: nat, b: nat)
    ensures Pow2(a + b) == Pow2(a) * Pow2(b)
  {
    if a > 0 {
      Pow2Add(a - 1, b);
    }
  }

  lemma Pow2Of32()
    ensures Pow2(IntBits) == UnsignedRange
    ensures Pow2(30) == MaxArg
    ensures Pow2(31) == 0x8000_0000
  {
    assert Pow2(2) == 4;
    Pow2Add(2, 2);
    Pow2Add(4, 4);
    Pow2Add(8, 8);
    Pow2Add(16, 16);
    Pow2Add(16, 8);
    Pow2Add(24, 4);
    Pow2Add(28, 2);
    Pow2Add(30, 1);
  }

  /** A number with k binary digits lies in [2^(k-1), 2^k). */
  lemma {:induction false} BitLengthBounds(n: nat)
    ensures n == 0 ==> BitLength(n) == 0
    ensures n > 0 ==> BitLength(n) >= 1 && Pow2(BitLength(n) - 1) <= n < Pow2(BitLength(n))
  {
    if n > 1 {
      var h := n / 2;
      assert 2 * h <= n <= 2 * h + 1 && h >= 1;
      BitLengthBounds(h);
      var k := BitLength(h);
      assert BitLength(n) == k + 1;
      var lo, hi := Pow2(k - 1), Pow2(k);
      assert lo <= h < hi && hi == 2 * lo;
      assert Pow2(k + 1) == 2 * hi;
    } else if n == 1 {
      assert BitLength(1) == 1 && Pow2(0) == 1 && Pow2(1) == 2;
    }
  }

  /** Conversely, a number in [2^(k-1), 2^k) has exactly k binary digits. */
  lemma {:induction false} BitLengthExact(n: nat, k: nat)
    requires k >= 1 && Pow2(k - 1) <= n < Pow2(k)
    ensures BitLength(n) == k
  {
    if k > 1 {
      BitLengthExact(n / 2, k - 1);
    }
  }

  lemma BitLengthBelow(n: nat, k: nat)
    requires n < Pow2(k)
    ensures BitLength(n) <= k
  {
    BitLengthBounds(n);
    if BitLength(n) > k {
      Pow2Monotone(k, BitLength(n) - 1);
    }
  }

  /** std::countl_zero for a 32-bit unsigned value. */
  function CountlZero(u: int): (r: int)
    requires 0 <= u < UnsignedRange
    ensures 0 <= r <= IntBits
    ensures u == 0 <==> r == IntBits
    ensures 0 < u ==> Pow2(IntBits - 1 - r) <= u < Pow2(IntBits - r)
  {
    Pow2Of32();
    BitLengthBelow(u, IntBits);
    BitLengthBounds(u);
    IntBits - BitLength(u)
  }

  /** The shift amount CHAR_BIT * sizeof(int) - countl_zero(unsigned(x - 1)), for an int x with x - 1 in range. */
  function ShiftAmount(x: int): (s: int)
    requires -0x8000_0000 < x < 0x8000_0000
    ensures 0 <= s <= IntBits
    ensures 1 <= x ==> s == BitLength(x - 1)
  {
    IntBits - CountlZero((x - 1) % UnsignedRange)
  }

  /** next_pow2 under its assumption x > 0 and below the overflow bound. */
  function NextPow2(x: int): (r: int)
    requires 1 <= x <= MaxArg
    ensures IsPow2(r) && x <= r <= MaxArg
    ensures r < 2 * x
  {
    if x == 1 then (assert Pow2(0) == 1; 1)
    else
      var s := ShiftAmount(x);
      BitLengthBounds(x - 1);
      Pow2Of32();
      assert s == BitLength(x - 1);
      BitLengthBelow(x - 1, 30);
      Pow2Monotone(s, 30);
      Pow2(s)
  }

  /** No power of two at least x is smaller than next_pow2(x). */
  lemma NextPow2IsLeast(x: int, k: nat)
    requires 1 <= x <= MaxArg && Pow2(k) >= x
    ensures NextPow2(x) <= Pow2(k)
  {
    var r := NextPow2(x);
    if x > 1 {
      var m: nat :| Pow2(m) == r;
      if k < m {
        Pow2Monotone(k, m - 1);
      } else {
        Pow2Monotone(m, k);
      }
    }
  }

  /** next_pow2 of a power of two is that power. */
  lemma NextPow2OfPow2(k: nat)
    requires Pow2(k) <= MaxArg
    ensures NextPow2(Pow2(k)) == Pow2(k)
  {
    NextPow2IsLeast(Pow2(k), k);
  }

  /**
   * hw2/main1.cpp assumes only x >= 0: for x == 0 (and for every negative x)
   * unsigned(x - 1) has no leading zero and the shift is 1 << 32, which is
   * undefined for a 32-bit int.
   */
  lemma NonPositiveShiftsByWidth(x: int)
    requires -0x8000_0000 < x <= 0
    ensures ShiftAmount(x) == IntBits
  {
    var u := (x - 1) % UnsignedRange;
    assert u == x - 1 + UnsignedRange;
    Pow2Of32();
    BitLengthExact(u, 32);
  }
}
