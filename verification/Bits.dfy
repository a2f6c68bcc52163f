/** Powers of two and bit counting on unsigned integers, as the BLAKE3 tree arithmetic uses them.
    Machine words are modelled as naturals; a bitwise "and" is defined bit by bit. */
module Bits {

  predicate IsPow2(n: nat)
  {
    n == 1 || (n > 0 && n % 2 == 0 && IsPow2(n / 2))
  }

  function Pow2(e: nat): (p: nat)
    ensures p >= 1
  {
    if e == 0 then 1 else 2 * Pow2(e - 1)
  }

  function PopCount(n: nat): (r: nat)
  {
    if n == 0 then 0 else PopCount(n / 2) + n % 2
  }

  function And(a: nat, b: nat): nat
  {
    if a == 0 || b == 0 then 0
    else 2 * And(a / 2, b / 2) + (if a % 2 == 1 && b % 2 == 1 then 1 else 0)
  }

  /** The largest power of two strictly below n: where a tree of n >= 2 leaves splits. */
  function SplitPoint(n: nat): (p: nat)
    requires n >= 2
    ensures IsPow2(p) && p < n <= 2 * p
  {
    if n == 2 then 1 else 2 * SplitPoint((n + 1) / 2)
  }

  /** SplitPoint is the only power of two in its range. */
  lemma {:induction false} SplitPointUnique(p: nat, n: nat)
    requires n >= 2 && IsPow2(p) && p < n <= 2 * p
    ensures SplitPoint(n) == p
  {
    if n > 2 {
      SplitPointUnique(p / 2, (n + 1) / 2);
    }
  }

  lemma {:induction false} Pow2DividesSmaller(p: nat, q: nat)
    requires IsPow2(p) && IsPow2(q) && p <= q
    ensures q % p == 0
  {
    if p > 1 {
      if q == 1 {
      } else {
        Pow2DividesSmaller(p / 2, q / 2);
        var d := (q / 2) / (p / 2);
        assert q / 2 == d * (p / 2);
        assert q == d * p;
        MultipleMod(d, p);
      }
    }
  }

  lemma MulLower(d: int, k: int)
    requires d > 0
    ensures k >= 1 ==> d * k >= d
    ensures k <= -1 ==> d * k <= -d
  {
    if k >= 1 { assert d * (k - 1) >= 0; }
    if k <= -1 { assert d * (-k - 1) >= 0; }
  }

  lemma DivModUnique(x: nat, d: nat, q: nat, r: nat)
    requires d > 0 && x == d * q + r && r < d
    ensures x / d == q && x % d == r
  {
    var q', r' := x / d, x % d;
    assert x == d * q' + r';
    assert d * (q - q') == r' - r;
    MulLower(d, q - q');
  }

  lemma MultipleMod(d: nat, p: nat)
    requires p > 0
    ensures (d * p) % p == 0 && (d * p) / p == d
  {
    DivModUnique(d * p, p, d, 0);
  }

  lemma {:induction false} PopCountBound(n: nat, e: nat)
    requires n < Pow2(e)
    ensures PopCount(n) <= e
  {
    if n > 0 {
      PopCountBound(n / 2, e - 1);
    }
  }

  /** Adding one never raises the population count by more than one. */
  lemma {:induction false} PopCountSucc(q: nat)
    ensures PopCount(q + 1) <= PopCount(q) + 1
  {
    if q % 2 == 1 {
      PopCountSucc(q / 2);
      assert (q + 1) / 2 == q / 2 + 1;
    }
  }

  lemma {:induction false} AndSelf(x: nat)
    ensures And(x, x) == x
  {
    if x > 0 { AndSelf(x / 2); }
  }

  /** x & (x - 1) removes exactly the lowest one bit. */
  lemma {:induction false} ClearLowest(x: nat)
    requires x > 0
    ensures And(x, x - 1) < x
    ensures PopCount(And(x, x - 1)) == PopCount(x) - 1
  {
    if x % 2 == 1 {
      AndSelf(x / 2);
      assert (x - 1) / 2 == x / 2;
      assert And(x, x - 1) == x - 1;
    } else {
      ClearLowest(x / 2);
      assert (x - 1) / 2 == x / 2 - 1;
      var h := And(x / 2, x / 2 - 1);
      assert And(x, x - 1) == 2 * h;
      assert (2 * h) / 2 == h;
    }
  }

  /** Masking with 2^k - 1 is the remainder. */
  lemma {:induction false} AndMask(x: nat, p: nat)
    requires IsPow2(p)
    ensures And(p - 1, x) == x % p
  {
    if p > 1 {
      AndMask(x / 2, p / 2);
      assert (p - 1) / 2 == p / 2 - 1;
      assert (p - 1) % 2 == 1;
      ModHalf(x, p / 2);
      if x == 0 || p == 2 {
      } else {
        assert And(p - 1, x) == 2 * And(p / 2 - 1, x / 2) + x % 2;
      }
    }
  }

  lemma ModHalf(x: nat, h: nat)
    requires h > 0
    ensures x % (2 * h) == 2 * ((x / 2) % h) + x % 2
    ensures (x / 2) / h == x / (2 * h)
  {
    var q := (x / 2) / h;
    var r := (x / 2) % h;
    assert x / 2 == h * q + r;
    var s := 2 * r + x % 2;
    assert x == 2 * (h * q) + s;
    assert 2 * (h * q) == (2 * h) * q;
    assert 0 <= s < 2 * h;
    DivModUnique(x, 2 * h, q, s);
  }

  lemma {:induction false} AndOnes(x: nat, p: nat)
    requires IsPow2(p) && x < p
    ensures And(x, p - 1) == x
  {
    if p > 1 {
      AndOnes(x / 2, p / 2);
      assert (p - 1) / 2 == p / 2 - 1;
    }
  }

  /** x shifted left by as many places as the power of two p has zeros. */
  function Shifted(x: nat, p: nat): nat
    requires IsPow2(p)
  {
    if p == 1 then x else 2 * Shifted(x, p / 2)
  }

  lemma ShiftedTwice(x: nat, p: nat)
    requires IsPow2(p)
    ensures IsPow2(2 * p) && Shifted(x, 2 * p) == 2 * Shifted(x, p)
  {
  }

  lemma ShiftedBy16(x: nat, p: nat)
    requires IsPow2(p)
    ensures IsPow2(16 * p) && Shifted(x, 16 * p) == 16 * Shifted(x, p)
  {
    hide *;
    ShiftedTwice(x, p);
    ShiftedTwice(x, 2 * p);
    ShiftedTwice(x, 4 * p);
    ShiftedTwice(x, 8 * p);
  }

  lemma ShiftedTable(x: nat)
    ensures IsPow2(2) && IsPow2(4) && IsPow2(0x10) && IsPow2(0x100) && IsPow2(0x1_0000) && IsPow2(0x1_0000_0000)
    ensures Shifted(x, 2) == 2 * x && Shifted(x, 4) == 4 * x && Shifted(x, 0x10) == 0x10 * x
    ensures Shifted(x, 0x100) == 0x100 * x && Shifted(x, 0x1_0000) == 0x1_0000 * x
    ensures Shifted(x, 0x1_0000_0000) == 0x1_0000_0000 * x
  {
    assert Shifted(x, 1) == x;
    assert Shifted(x, 2) == 2 * Shifted(x, 1);
    assert Shifted(x, 4) == 2 * Shifted(x, 2);
    ShiftedBy16(x, 1);
    ShiftedBy16(x, 0x10);
    ShiftedBy16(x, 0x100);
    ShiftedBy16(x, 0x1000);
    ShiftedBy16(x, 0x1_0000);
    ShiftedBy16(x, 0x10_0000);
    ShiftedBy16(x, 0x100_0000);
    ShiftedBy16(x, 0x1000_0000);
  }

  lemma AndEven(x: nat, m: nat)
    ensures And(x, 2 * m) == 2 * And(x / 2, m)
  {
    assert (2 * m) / 2 == m && (2 * m) % 2 == 0;
  }

  /** A run of ones starting at the bit of p picks out a nonzero part of x exactly when x reaches p,
      as long as x has no bits above the run. */
  lemma {:induction false} RunMask(x: nat, p: nat, r: nat)
    requires IsPow2(p) && IsPow2(r) && x < Shifted(r, p)
    ensures And(x, Shifted(r - 1, p)) != 0 <==> x >= p
  {
    if p == 1 {
      AndOnes(x, r);
    } else {
      RunMask(x / 2, p / 2, r);
      AndEven(x, Shifted(r - 1, p / 2));
    }
  }

  /** The portable population count: clear the lowest one bit until nothing is left. */
  method PopCnt(x0: nat) returns (count: nat)
    ensures count == PopCount(x0)
  {
    var x := x0;
    count := 0;
    while x != 0
      invariant count + PopCount(x) == PopCount(x0)
    {
      count := count + 1;
      ClearLowest(x);
      x := And(x, x - 1);
    }
  }

  /** Position of the highest one bit. */
  function HighBit(x: nat): (c: nat)
    requires x > 0
  {
    if x == 1 then 0 else 1 + HighBit(x / 2)
  }

  lemma {:induction false} HighBitRange(x: nat)
    requires x > 0
    ensures Pow2(HighBit(x)) <= x < 2 * Pow2(HighBit(x))
  {
    if x > 1 { HighBitRange(x / 2); }
  }

  lemma {:induction false} HighBitBound(x: nat, e: nat)
    requires 0 < x < Pow2(e)
    ensures HighBit(x) < e
  {
    if x > 1 { HighBitBound(x / 2, e - 1); }
  }

  /** Shifting right by k, with d = 2^k, lowers the highest one bit by k. */
  lemma {:induction false} HighBitShift(x: nat, k: nat, d: nat)
    requires d == Pow2(k) && x >= d
    ensures x / d > 0 && HighBit(x) == k + HighBit(x / d)
  {
    if k > 0 {
      ModHalf(x, d / 2);
      HighBitShift(x / 2, k - 1, d / 2);
    }
  }

  lemma {:induction false} Pow2Add(a: nat, b: nat)
    ensures Pow2(a + b) == Pow2(a) * Pow2(b)
  {
    if a > 0 {
      Pow2Add(a - 1, b);
      assert Pow2(a + b) == 2 * Pow2(a - 1 + b);
    }
  }

  lemma {:induction false} Pow2IsPow2(e: nat)
    ensures IsPow2(Pow2(e))
  {
    if e > 0 { Pow2IsPow2(e - 1); }
  }

  lemma PowersUsed()
    ensures Pow2(1) == 2 && Pow2(2) == 4 && Pow2(4) == 0x10 && Pow2(8) == 0x100 && Pow2(16) == 0x1_0000
    ensures Pow2(32) == 0x1_0000_0000 && Pow2(64) == 0x1_0000_0000_0000_0000
  {
    assert Pow2(4) == 0x10;
    assert Pow2(8) == 0x100;
    assert Pow2(16) == 0x1_0000;
    Pow2Add(16, 16);
    Pow2Add(32, 32);
  }

  lemma QuotientBound(x: nat, d: nat)
    requires 0 < d <= x < d * d
    ensures 0 < x / d < d
  {
    var q := x / d;
    assert x == d * q + x % d;
    MulLower(d, q - d);
    assert d * (q - d) == d * q - d * d;
    MulLower(d, 1 - q);
  }

  /** One probe of the binary search: d = 2^k splits the 2k remaining bits, and the mask covers the
      upper half. */
  lemma Probe(x: nat, k: nat, d: nat, mask: nat, limit: nat)
    requires d == Pow2(k) && IsPow2(d) && 0 < x < limit <= d * d
    requires mask == Shifted(d - 1, d) && limit == Shifted(d, d)
    ensures And(x, mask) != 0 <==> x >= d
    ensures x >= d ==> 0 < x / d < d && HighBit(x) == k + HighBit(x / d)
  {
    RunMask(x, d, d);
    if x >= d {
      QuotientBound(x, d);
      HighBitShift(x, k, d);
    }
  }

  lemma Probe32(x: nat)
    requires 0 < x < 0x1_0000_0000_0000_0000
    ensures And(x, 0xffffffff00000000) != 0 <==> x >= 0x1_0000_0000
    ensures x >= 0x1_0000_0000 ==> 0 < x / 0x1_0000_0000 < 0x1_0000_0000 && HighBit(x) == 32 + HighBit(x / 0x1_0000_0000)
  {
    PowersUsed();
    ShiftedTable(0x1_0000_0000);
    ShiftedTable(0x1_0000_0000 - 1);
    Probe(x, 32, 0x1_0000_0000, 0xffffffff00000000, 0x1_0000_0000_0000_0000);
  }

  lemma Probe16(x: nat)
    requires 0 < x < 0x1_0000_0000
    ensures And(x, 0x00000000ffff0000) != 0 <==> x >= 0x1_0000
    ensures x >= 0x1_0000 ==> 0 < x / 0x1_0000 < 0x1_0000 && HighBit(x) == 16 + HighBit(x / 0x1_0000)
  {
    PowersUsed();
    ShiftedTable(0x1_0000);
    ShiftedTable(0x1_0000 - 1);
    Probe(x, 16, 0x1_0000, 0x00000000ffff0000, 0x1_0000_0000);
  }

  lemma Probe8(x: nat)
    requires 0 < x < 0x1_0000
    ensures And(x, 0x000000000000ff00) != 0 <==> x >= 0x100
    ensures x >= 0x100 ==> 0 < x / 0x100 < 0x100 && HighBit(x) == 8 + HighBit(x / 0x100)
  {
    PowersUsed();
    ShiftedTable(0x100);
    ShiftedTable(0x100 - 1);
    Probe(x, 8, 0x100, 0x000000000000ff00, 0x1_0000);
  }

  lemma Probe4(x: nat)
    requires 0 < x < 0x100
    ensures And(x, 0x00000000000000f0) != 0 <==> x >= 0x10
    ensures x >= 0x10 ==> 0 < x / 0x10 < 0x10 && HighBit(x) == 4 + HighBit(x / 0x10)
  {
    PowersUsed();
    ShiftedTable(0x10);
    ShiftedTable(0x10 - 1);
    Probe(x, 4, 0x10, 0x00000000000000f0, 0x100);
  }

  lemma Probe2(x: nat)
    requires 0 < x < 0x10
    ensures And(x, 0x000000000000000c) != 0 <==> x >= 4
    ensures x >= 4 ==> 0 < x / 4 < 4 && HighBit(x) == 2 + HighBit(x / 4)
  {
    PowersUsed();
    ShiftedTable(4);
    ShiftedTable(4 - 1);
    Probe(x, 2, 4, 0x000000000000000c, 0x10);
  }

  lemma Probe1(x: nat)
    requires 0 < x < 4
    ensures And(x, 0x0000000000000002) != 0 <==> x >= 2
    ensures x >= 2 ==> 0 < x / 2 < 2 && HighBit(x) == 1 + HighBit(x / 2)
  {
    PowersUsed();
    ShiftedTable(2);
    ShiftedTable(2 - 1);
    Probe(x, 1, 2, 0x0000000000000002, 4);
  }

  /** The last three probes of HighestOne, on the byte the first three have left. */
  method HighestOneInByte(x0: nat) returns (c: nat)
    requires 0 < x0 < 0x100
    ensures c == HighBit(x0)
  {
    var x := x0;
    c := 0;
    Probe4(x);
    if And(x, 0x00000000000000f0) != 0 {
      x := x / 0x10;
      c := c + 4;
    }
    Probe2(x);
    if And(x, 0x000000000000000c) != 0 {
      x := x / 4;
      c := c + 2;
    }
    Probe1(x);
    if And(x, 0x0000000000000002) != 0 {
      c := c + 1;
    }
  }

  /** Index of the highest one bit of a nonzero 64-bit word, by the portable binary search. */
  method HighestOne(x0: nat) returns (c: nat)
    requires 0 < x0 < 0x1_0000_0000_0000_0000
    ensures c < 64 && c == HighBit(x0)
  {
    var x := x0;
    c := 0;
    Probe32(x);
    if And(x, 0xffffffff00000000) != 0 {
      x := x / 0x1_0000_0000;
      c := c + 32;
    }
    Probe16(x);
    if And(x, 0x00000000ffff0000) != 0 {
      x := x / 0x1_0000;
      c := c + 16;
    }
    Probe8(x);
    if And(x, 0x000000000000ff00) != 0 {
      x := x / 0x100;
      c := c + 8;
    }
    var rest := HighestOneInByte(x);
    c := c + rest;
    assert c < 64 by { PowersUsed(); HighBitBound(x0, 64); }
  }

  /** The largest power of two not above x, or 1 for x = 0. */
  method RoundDownToPowerOf2(x: nat) returns (p: nat)
    requires x < 0x1_0000_0000_0000_0000
    ensures IsPow2(p)
    ensures x > 0 ==> p <= x < 2 * p
    ensures x == 0 ==> p == 1
  {
    var c := HighestOne(if x % 2 == 0 then x + 1 else x);
    p := Pow2(c);
    HighBitRange(if x % 2 == 0 then x + 1 else x);
    Pow2IsPow2(c);
  }
}
