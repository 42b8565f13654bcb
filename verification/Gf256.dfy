// The field GF(2^8) modulo x^8 + x^4 + x^3 + x + 1 that the tables of
// crypto/aes.c are built from (section 4.2 of FIPS 197): a u8 is an element,
// exclusive or is addition, and 3 generates the nonzero elements.
module Gf256 {
  import opened Basics

  function Add(a: bv8, b: bv8): bv8 {
    a ^ b
  }

  // multiplication by the polynomial x, section 4.2.1 of FIPS 197
  function XTime(a: bv8): bv8 {
    if a & 0x80 == 0 then a << 1 else Add(a << 1, 0x1b)
  }

  function XPow(a: bv8, k: nat): bv8 {
    if k == 0 then a else XTime(XPow(a, k - 1))
  }

  // polynomial multiplication modulo 0x11b: the sum of x^k * a over the terms x^k of b
  function Mul(a: bv8, b: bv8): bv8 {
    PartialMul(a, b, 8)
  }

  function PartialMul(a: bv8, b: bv8, k: nat): bv8
    requires k <= 8
  {
    if k == 0 then 0 else Add(PartialMul(a, b, k - 1), Term(a, b, k - 1))
  }

  function Term(a: bv8, b: bv8, k: nat): bv8
    requires k < 8
  {
    if b & Bit(k) != 0 then XPow(a, k) else 0
  }

  function Bit(k: nat): bv8
    requires k < 8
  {
    [0x01, 0x02, 0x04, 0x08, 0x10, 0x20, 0x40, 0x80][k]
  }

  // ----------------------------------------------------------- linearity

  lemma AddCommutes(a: bv8, b: bv8)
    ensures Add(a, b) == Add(b, a)
  {
  }

  lemma AddAssociates(a: bv8, b: bv8, c: bv8)
    ensures Add(Add(a, b), c) == Add(a, Add(b, c))
  {
  }

  lemma AddExchange(a: bv8, b: bv8, c: bv8, d: bv8)
    ensures Add(Add(a, b), Add(c, d)) == Add(Add(a, c), Add(b, d))
  {
    hide Add;
    AddCommutes(b, c);
    AddAssociates(a, b, Add(c, d));
    AddAssociates(b, c, d);
    AddAssociates(c, b, d);
    AddAssociates(a, c, Add(b, d));
  }

  lemma XTimeAdd(a: bv8, b: bv8)
    ensures XTime(Add(a, b)) == Add(XTime(a), XTime(b))
  {
    assert (a & 0x80 == 0 || a & 0x80 == 0x80) && (b & 0x80 == 0 || b & 0x80 == 0x80);
    assert (a ^ b) & 0x80 == (a & 0x80) ^ (b & 0x80);
    assert (a ^ b) << 1 == (a << 1) ^ (b << 1);
  }

  lemma {:induction false} XPowAdd(a: bv8, b: bv8, k: nat)
    ensures XPow(Add(a, b), k) == Add(XPow(a, k), XPow(b, k))
  {
    hide XTime; hide Add;
    if k > 0 {
      XPowAdd(a, b, k - 1);
      XTimeAdd(XPow(a, k - 1), XPow(b, k - 1));
    }
  }

  lemma {:induction false} XPowXTime(a: bv8, k: nat)
    ensures XPow(XTime(a), k) == XTime(XPow(a, k))
  {
    hide XTime; hide Add;
    if k > 0 {
      XPowXTime(a, k - 1);
    }
  }

  // multiplication is linear in its left argument ...
  lemma {:induction false} PartialMulAdd(a: bv8, b: bv8, c: bv8, k: nat)
    requires k <= 8
    ensures PartialMul(Add(a, b), c, k) == Add(PartialMul(a, c, k), PartialMul(b, c, k))
  {
    AddZero(0);
    if k > 0 {
      hide Add; hide Term;
      PartialMulAdd(a, b, c, k - 1);
      TermAdd(a, b, c, k - 1);
      AddExchange(PartialMul(a, c, k - 1), PartialMul(b, c, k - 1), Term(a, c, k - 1), Term(b, c, k - 1));
    }
  }

  lemma TermAdd(a: bv8, b: bv8, c: bv8, k: nat)
    requires k < 8
    ensures Term(Add(a, b), c, k) == Add(Term(a, c, k), Term(b, c, k))
  {
    hide Add; hide XPow; hide Bit;
    XPowAdd(a, b, k);
    AddZero(0);
  }

  lemma AddZero(a: bv8)
    ensures Add(a, 0) == a
  {
  }

  // ... and commutes with multiplication by x
  lemma {:induction false} PartialMulXTime(a: bv8, b: bv8, k: nat)
    requires k <= 8
    ensures PartialMul(XTime(a), b, k) == XTime(PartialMul(a, b, k))
  {
    hide Add; hide XPow; hide Bit;
    if k > 0 {
      PartialMulXTime(a, b, k - 1);
      XPowXTime(a, k - 1);
      XTimeAdd(PartialMul(a, b, k - 1), Term(a, b, k - 1));
    }
  }

  lemma MulOne(b: bv8)
    ensures Mul(1, b) == b
  {
    PartialMulOne(b, 8);
    assert LowBits(b, 8) == b;
  }

  lemma {:induction false} PartialMulOne(b: bv8, k: nat)
    requires k <= 8
    ensures PartialMul(1, b, k) == LowBits(b, k)
  {
    if k > 0 {
      hide XTime; hide XPow; hide Bit; hide Add; hide LowBits; hide Term;
      PartialMulOne(b, k - 1);
      LowBitsStep(b, k);
    }
  }

  function LowBits(b: bv8, k: nat): bv8
    requires k <= 8
  {
    b & Low(k)
  }

  function Low(k: nat): bv8
    requires k <= 8
  {
    [0x00, 0x01, 0x03, 0x07, 0x0f, 0x1f, 0x3f, 0x7f, 0xff][k]
  }

  lemma LowBitsStep(b: bv8, k: nat)
    requires 0 < k <= 8
    ensures LowBits(b, k) == Add(LowBits(b, k - 1), Term(1, b, k - 1))
  {
    hide Term; hide Low; hide Bit;
    TermOne(b, k - 1);
    SplitMask(b, Low(k - 1), Bit(k - 1));
    LowStep(k);
  }

  lemma LowStep(k: nat)
    requires 0 < k <= 8
    ensures Low(k) == Low(k - 1) ^ Bit(k - 1)
  {
  }

  lemma TermOne(b: bv8, k: nat)
    requires k < 8
    ensures Term(1, b, k) == b & Bit(k)
  {
    Monomial(k);
    hide XPow;
    OneBit(b, Bit(k));
    hide Bit;
  }

  lemma SplitMask(b: bv8, low: bv8, bit: bv8)
    ensures b & (low ^ bit) == (b & low) ^ (b & bit)
  {
  }

  lemma OneBit(b: bv8, bit: bv8)
    requires bit in {0x01, 0x02, 0x04, 0x08, 0x10, 0x20, 0x40, 0x80}
    ensures b & bit == 0 || b & bit == bit
  {
  }

  lemma Monomial(k: nat)
    requires k < 8
    ensures XPow(1, k) == Bit(k)
  {
    if k > 0 { Monomial(k - 1); }
  }

  // ------------------------------------------------- the powers of three

  // p ^ (p << 1) ^ (p & 0x80 ? 0x1b : 0): multiplication by x + 1
  function Triple(p: bv8): bv8 {
    Add(p, XTime(p))
  }

  function Pow(i: nat): bv8 {
    if i == 0 then 1 else Triple(Pow(i - 1))
  }

  lemma {:induction false} PowAdd(i: nat, j: nat)
    ensures Mul(Pow(i), Pow(j)) == Pow(i + j)
  {
    hide XTime; hide Add; hide PartialMul;
    if i == 0 {
      MulOne(Pow(j));
    } else {
      PowAdd(i - 1, j);
      PartialMulAdd(Pow(i - 1), XTime(Pow(i - 1)), Pow(j), 8);
      PartialMulXTime(Pow(i - 1), Pow(j), 8);
    }
  }

  lemma SomePowers()
    ensures Pow(15) != 1 && Pow(51) != 1 && Pow(85) != 1 && Pow(85) == 0xbd
  {
    assert Pow(5) == 0x33; assert Pow(10) == 0x72; assert Pow(15) == 0x35; assert Pow(20) == 0xd8;
    assert Pow(25) == 0x02; assert Pow(30) == 0x66; assert Pow(35) == 0xe4; assert Pow(40) == 0x6a;
    assert Pow(45) == 0xab; assert Pow(50) == 0x04; assert Pow(55) == 0xcc; assert Pow(60) == 0xd3;
    assert Pow(65) == 0xd4; assert Pow(70) == 0x4d; assert Pow(75) == 0x08; assert Pow(80) == 0x83;
    assert Pow(85) == 0xbd;
  }

  // 3 to the 255 is 1
  lemma PowerCycle()
    ensures Pow(255) == 1
  {
    SomePowers();
    hide Pow;
    PowAdd(85, 85);
    Square();
    PowAdd(170, 85);
    Cube();
  }

  lemma Square()
    ensures Mul(0xbd, 0xbd) == 0xbc
  {
  }

  lemma Cube()
    ensures Mul(0xbc, 0xbd) == 1
  {
  }

  lemma PowCancels(i: nat, j: nat)
    requires Pow(i) == 1
    ensures Pow(i + j) == Pow(j)
  {
    hide Pow; hide Mul;
    PowAdd(i, j);
    MulOne(Pow(j));
  }

  lemma {:induction false} PowMultiple(g: nat, m: nat)
    requires Pow(g) == 1
    ensures Pow(g * m) == 1
  {
    if m > 0 {
      hide Pow;
      PowMultiple(g, m - 1);
      PowCancels(g, g * (m - 1));
      assert g * m == g + g * (m - 1);
    }
  }

  // two exponents of 1 have a common divisor that is one as well
  lemma {:induction false} Euclid(i: nat, j: nat) returns (g: nat, m: nat, n: nat)
    requires 0 < i && 0 < j && Pow(i) == 1 && Pow(j) == 1
    ensures 0 < g && Pow(g) == 1 && i == g * m && j == g * n
    decreases i + j
  {
    hide Pow;
    if i == j {
      g, m, n := i, 1, 1;
    } else if i < j {
      PowCancels(i, j - i);
      g, m, n := Euclid(i, j - i);
      n := m + n;
    } else {
      PowCancels(j, i - j);
      g, m, n := Euclid(i - j, j);
      m := m + n;
    }
  }

  lemma DivisorsOf255(g: nat, n: nat) returns (k: nat)
    requires g * n == 255 && n != 1
    ensures g * k == 85 || g * k == 51 || g * k == 15
  {
    LargeFactors(g, n);
    if g < 16 {
      SmallDivisorsOf255(g, n);
    } else {
      SmallDivisorsOf255(n, g);
    }
    k := if g == 1 then 85 else if g == 3 then 17 else if g == 5 then 17 else if g == 15 then 1
         else if g == 17 then 5 else 1;
  }

  lemma LargeFactors(g: nat, n: nat)
    ensures 16 <= g && 16 <= n ==> 256 <= g * n
  {
    if 16 <= g && 16 <= n {
      assert g * n >= 16 * n;
    }
  }

  lemma SmallDivisorsOf255(g: nat, n: nat)
    requires g * n == 255 && g < 16
    ensures (g, n) in {(1, 255), (3, 85), (5, 51), (15, 17)}
  {
    assert g == 0 || g == 1 || g == 2 || g == 3 || g == 4 || g == 5 || g == 6 || g == 7 ||
           g == 8 || g == 9 || g == 10 || g == 11 || g == 12 || g == 13 || g == 14 || g == 15;
  }

  // the order of 3 is exactly 255
  lemma OrderOfThree(i: nat)
    requires 0 < i < 255
    ensures Pow(i) != 1
  {
    hide Pow;
    if Pow(i) == 1 {
      PowerCycle();
      SomePowers();
      var g, m, n := Euclid(i, 255);
      SmallerMultiple(g, m, n);
      var k := DivisorsOf255(g, n);
      PowMultiple(g, k);
    }
  }

  lemma SmallerMultiple(g: nat, m: nat, n: nat)
    requires 0 < g * m < g * n
    ensures n != 1
  {
  }

  lemma PowInjective(i: nat, j: nat)
    requires i < j < 255
    ensures Pow(i) != Pow(j)
  {
    hide Pow; hide Mul;
    PowerCycle();
    OrderOfThree(j - i);
    PowAdd(i, 255 - i);
    PowAdd(j, 255 - i);
    PowCancels(255, j - i);
  }

  lemma {:induction false} PowNonzero(i: nat)
    ensures Pow(i) != 0
  {
    if i > 0 {
      PowNonzero(i - 1);
      TripleNonzero(Pow(i - 1));
    }
  }

  lemma TripleNonzero(p: bv8)
    requires p != 0
    ensures Triple(p) != 0
  {
  }

  // -------------------------------------------- logarithms and inverses

  function Powers(n: nat): set<int> {
    set i | 0 <= i < n :: Nat(Pow(i))
  }

  lemma {:induction false} PowersDistinct(n: nat)
    requires n <= 255
    ensures |Powers(n)| == n
  {
    if n > 0 {
      hide Pow;
      PowersDistinct(n - 1);
      assert Powers(n) == Powers(n - 1) + {Nat(Pow(n - 1))};
      forall i | 0 <= i < n - 1
        ensures Nat(Pow(i)) != Nat(Pow(n - 1))
      {
        PowInjective(i, n - 1);
        NumberInjective(Pow(i), Pow(n - 1));
      }
      assert Nat(Pow(n - 1)) !in Powers(n - 1);
    }
  }

  lemma NumberInjective(a: bv8, b: bv8)
    ensures Nat(a) == Nat(b) ==> a == b
  {
  }

  function Range(n: nat): set<int> {
    if n == 0 then {} else Range(n - 1) + {n}
  }

  lemma {:induction false} RangeSize(n: nat)
    ensures |Range(n)| == n && forall i :: i in Range(n) <==> 1 <= i <= n
  {
    if n > 0 {
      RangeSize(n - 1);
    }
  }

  lemma SubsetOfSameSize(s: set<int>, t: set<int>)
    requires s <= t && |s| == |t|
    ensures s == t
  {
    assert |t - s| == 0;
  }

  // every nonzero element is a power of 3
  lemma LogExists(a: bv8)
    requires a != 0
    ensures exists i | 0 <= i < 255 :: Pow(i) == a
  {
    hide Pow;
    PowersDistinct(255);
    RangeSize(255);
    forall i | 0 <= i < 255
      ensures Nat(Pow(i)) in Range(255)
    {
      PowNonzero(i);
      NumberNonzero(Pow(i));
    }
    assert Powers(255) <= Range(255);
    SubsetOfSameSize(Powers(255), Range(255));
    NumberNonzero(a);
    assert Nat(a) in Powers(255);
    var i :| 0 <= i < 255 && Nat(Pow(i)) == Nat(a);
    NumberInjective(Pow(i), a);
  }

  lemma NumberNonzero(a: bv8)
    requires a != 0
    ensures 1 <= Nat(a)
  {
    if Nat(a) == 0 {
      NumberInjective(a, 0);
    }
  }

  ghost function Log(a: bv8): (i: nat)
    requires a != 0
    ensures i < 255 && Pow(i) == a
  {
    LogExists(a);
    var i :| 0 <= i < 255 && Pow(i) == a;
    i
  }

  // the multiplicative inverse, with 0 sent to itself (section 5.1.1 of FIPS 197)
  ghost function Inv(a: bv8): bv8 {
    if a == 0 then 0 else Pow(255 - Log(a))
  }

  lemma InvIsInverse(a: bv8)
    requires a != 0
    ensures Mul(a, Inv(a)) == 1 && Inv(a) != 0
  {
    hide Pow; hide Mul;
    PowAdd(Log(a), 255 - Log(a));
    PowerCycle();
    PowNonzero(255 - Log(a));
  }

  lemma MulCommutes(a: bv8, b: bv8)
    requires a != 0 && b != 0
    ensures Mul(a, b) == Mul(b, a)
  {
    hide Pow; hide Mul;
    PowAdd(Log(a), Log(b));
    PowAdd(Log(b), Log(a));
  }

  lemma InvInjective(a: bv8, b: bv8)
    requires Inv(a) == Inv(b)
    ensures a == b
  {
    hide Pow; hide Mul;
    if a == 0 || b == 0 {
      if a != 0 { InvIsInverse(a); }
      if b != 0 { InvIsInverse(b); }
    } else {
      InvIsInverse(a);
      InvIsInverse(b);
      var i, j, k := Log(a), Log(b), Log(Inv(a));
      PowAdd(i, k);
      PowAdd(j, k);
      if i != j {
        SameExponent(i, j, k);
      }
    }
  }

  lemma SameExponent(i: nat, j: nat, k: nat)
    requires i < 255 && j < 255 && k < 255
    requires Pow(i + k) == 1 && Pow(j + k) == 1
    ensures i == j
  {
    OneOnlyAt(i + k);
    OneOnlyAt(j + k);
  }

  lemma OneOnlyAt(n: nat)
    requires n < 509 && Pow(n) == 1
    ensures n == 0 || n == 255
  {
    hide Pow;
    if 0 < n < 255 {
      OrderOfThree(n);
    } else if 255 < n {
      PowerCycle();
      PowCancels(255, n - 255);
      OrderOfThree(n - 255);
    }
  }
}
