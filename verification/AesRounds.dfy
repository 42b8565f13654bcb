// Columns, packed words and the round transformations of AES (section 5 of
// FIPS 197), with the algebra that makes the equivalent inverse cipher of
// crypto/aes.c work.  A column word holds row 0 in its least byte.
module AesRounds {
  import opened Basics
  import opened Gf256

  datatype Col = Col(r0: bv8, r1: bv8, r2: bv8, r3: bv8)
  datatype State = State(c0: Col, c1: Col, c2: Col, c3: Col)

  // -------------------------------------------------------- packed words

  function Pack4(a: bv8, b: bv8, c: bv8, d: bv8): bv32 {
    (a as bv32) | ((b as bv32) << 8) | ((c as bv32) << 16) | ((d as bv32) << 24)
  }

  function Pack(c: Col): bv32 {
    Pack4(c.r0, c.r1, c.r2, c.r3)
  }

  function Unpack(x: bv32): Col {
    Col(ByteOf(x, 0), ByteOf(x, 1), ByteOf(x, 2), ByteOf(x, 3))
  }

  // byte(x, n) of aes.c
  function ByteOf(x: bv32, n: nat): bv8
    requires n < 4
  {
    if n == 0 then (x & 0xff) as bv8
    else if n == 1 then ((x >> 8) & 0xff) as bv8
    else if n == 2 then ((x >> 16) & 0xff) as bv8
    else ((x >> 24) & 0xff) as bv8
  }

  function Rotl(x: bv32, n: nat): bv32
    requires 0 < n < 32
  {
    (x << n) | (x >> (32 - n))
  }

  function Rotr(x: bv32, n: nat): bv32
    requires 0 < n < 32
  {
    (x >> n) | (x << (32 - n))
  }

  // the packed doubling star_x of aes.c, four bytes at once
  function StarX(x: bv32): bv32 {
    ((x & 0x7f7f7f7f) << 1) ^ (((x & 0x80808080) >> 7) * 0x1b)
  }

  function AddCol(x: Col, y: Col): Col {
    Col(Add(x.r0, y.r0), Add(x.r1, y.r1), Add(x.r2, y.r2), Add(x.r3, y.r3))
  }

  function Spin(c: Col): Col {
    Col(c.r1, c.r2, c.r3, c.r0)
  }

  function Double(c: Col): Col {
    Col(XTime(c.r0), XTime(c.r1), XTime(c.r2), XTime(c.r3))
  }

  lemma UnpackOfPack(c: Col)
    ensures Unpack(Pack(c)) == c
  {
    Bytes4(c.r0, c.r1, c.r2, c.r3);
  }

  lemma Bytes4(a: bv8, b: bv8, c: bv8, d: bv8)
    ensures var x := Pack4(a, b, c, d);
      ByteOf(x, 0) == a && ByteOf(x, 1) == b && ByteOf(x, 2) == c && ByteOf(x, 3) == d
  {
  }

  lemma PackOfUnpack(x: bv32)
    ensures Pack(Unpack(x)) == x
  {
  }

  lemma PackXor(x: Col, y: Col)
    ensures Pack(x) ^ Pack(y) == Pack(AddCol(x, y))
  {
    Xor4(x.r0, x.r1, x.r2, x.r3, y.r0, y.r1, y.r2, y.r3);
  }

  lemma Xor4(a: bv8, b: bv8, c: bv8, d: bv8, a': bv8, b': bv8, c': bv8, d': bv8)
    ensures Pack4(a, b, c, d) ^ Pack4(a', b', c', d') == Pack4(a ^ a', b ^ b', c ^ c', d ^ d')
  {
  }

  lemma PackRotl(c: Col)
    ensures Rotl(Pack(c), 8) == Pack(Spin(Spin(Spin(c))))
    ensures Rotl(Pack(c), 16) == Pack(Spin(Spin(c)))
    ensures Rotl(Pack(c), 24) == Pack(Spin(c))
  {
    hide Pack4; hide Rotl;
    Rotl8(c.r0, c.r1, c.r2, c.r3);
    Rotl16(c.r0, c.r1, c.r2, c.r3);
    Rotl24(c.r0, c.r1, c.r2, c.r3);
  }

  lemma Rotl8(a: bv8, b: bv8, c: bv8, d: bv8)
    ensures Rotl(Pack4(a, b, c, d), 8) == Pack4(d, a, b, c)
  {
  }

  lemma Rotl16(a: bv8, b: bv8, c: bv8, d: bv8)
    ensures Rotl(Pack4(a, b, c, d), 16) == Pack4(c, d, a, b)
  {
  }

  lemma Rotl24(a: bv8, b: bv8, c: bv8, d: bv8)
    ensures Rotl(Pack4(a, b, c, d), 24) == Pack4(b, c, d, a)
  {
  }

  lemma PackRotr(c: Col)
    ensures Rotr(Pack(c), 8) == Pack(Spin(c))
    ensures Rotr(Pack(c), 16) == Pack(Spin(Spin(c)))
    ensures Rotr(Pack(c), 24) == Pack(Spin(Spin(Spin(c))))
  {
    hide Pack4; hide Rotr;
    Rotr8(c.r0, c.r1, c.r2, c.r3);
    Rotr16(c.r0, c.r1, c.r2, c.r3);
    Rotr24(c.r0, c.r1, c.r2, c.r3);
  }

  lemma Rotr8(a: bv8, b: bv8, c: bv8, d: bv8)
    ensures Rotr(Pack4(a, b, c, d), 8) == Pack4(b, c, d, a)
  {
  }

  lemma Rotr16(a: bv8, b: bv8, c: bv8, d: bv8)
    ensures Rotr(Pack4(a, b, c, d), 16) == Pack4(c, d, a, b)
  {
  }

  lemma Rotr24(a: bv8, b: bv8, c: bv8, d: bv8)
    ensures Rotr(Pack4(a, b, c, d), 24) == Pack4(d, a, b, c)
  {
  }

  // star_x doubles each of the four bytes in the field
  lemma PackStarX(c: Col)
    ensures StarX(Pack(c)) == Pack(Double(c))
  {
    hide StarX; hide Pack4; hide XTime;
    Star4(c.r0, c.r1, c.r2, c.r3);
  }

  lemma Star4(a: bv8, b: bv8, c: bv8, d: bv8)
    ensures StarX(Pack4(a, b, c, d)) == Pack4(XTime(a), XTime(b), XTime(c), XTime(d))
  {
    Shift4(a, b, c, d);
    Tops4(a, b, c, d);
    Reductions4(Top(a), Top(b), Top(c), Top(d));
    hide Pack4; hide Top; hide Reduction;
    XTimeByReduction(a); XTimeByReduction(b); XTimeByReduction(c); XTimeByReduction(d);
    Xor4(a << 1, b << 1, c << 1, d << 1,
         Reduction(Top(a)), Reduction(Top(b)), Reduction(Top(c)), Reduction(Top(d)));
  }

  function Top(a: bv8): bv8 {
    if a & 0x80 == 0 then 0 else 1
  }

  function Reduction(h: bv8): bv8 {
    if h == 0 then 0 else 0x1b
  }

  lemma XTimeByReduction(a: bv8)
    ensures XTime(a) == (a << 1) ^ Reduction(Top(a))
  {
  }

  lemma Shift4(a: bv8, b: bv8, c: bv8, d: bv8)
    ensures (Pack4(a, b, c, d) & 0x7f7f7f7f) << 1 == Pack4(a << 1, b << 1, c << 1, d << 1)
  {
  }

  lemma Tops4(a: bv8, b: bv8, c: bv8, d: bv8)
    ensures (Pack4(a, b, c, d) & 0x80808080) >> 7 == Pack4(Top(a), Top(b), Top(c), Top(d))
  {
  }

  lemma Reductions4(a: bv8, b: bv8, c: bv8, d: bv8)
    requires a <= 1 && b <= 1 && c <= 1 && d <= 1
    ensures Pack4(a, b, c, d) * 0x1b == Pack4(Reduction(a), Reduction(b), Reduction(c), Reduction(d))
  {
    assert (a == 0 || a == 1) && (b == 0 || b == 1) && (c == 0 || c == 1) && (d == 0 || d == 1);
  }

  // ------------------------------------------------ MixColumns and inverse

  // MixColumns on one column, as section 5.1.3 of FIPS 197 writes it
  function MixCol(c: Col): Col {
    Col(Add(Add(XTime(c.r0), Triple(c.r1)), Add(c.r2, c.r3)),
        Add(Add(c.r0, XTime(c.r1)), Add(Triple(c.r2), c.r3)),
        Add(Add(c.r0, c.r1), Add(XTime(c.r2), Triple(c.r3))),
        Add(Add(Triple(c.r0), c.r1), Add(c.r2, XTime(c.r3))))
  }

  predicate Coef(k: nat) {
    k == 9 || k == 11 || k == 13 || k == 14
  }

  // multiplication by the four coefficients of InvMixColumns
  function Times(k: nat, a: bv8): bv8
    requires Coef(k)
  {
    if k == 9 then Add(a, XPow(a, 3))
    else if k == 11 then Add(Add(a, XPow(a, 1)), XPow(a, 3))
    else if k == 13 then Add(Add(a, XPow(a, 2)), XPow(a, 3))
    else Add(Add(XPow(a, 1), XPow(a, 2)), XPow(a, 3))
  }

  function Row(k0: nat, k1: nat, k2: nat, k3: nat, c: Col): bv8
    requires Coef(k0) && Coef(k1) && Coef(k2) && Coef(k3)
  {
    Add(Add(Times(k0, c.r0), Times(k1, c.r1)), Add(Times(k2, c.r2), Times(k3, c.r3)))
  }

  // InvMixColumns on one column, section 5.3.3 of FIPS 197
  function InvMixCol(c: Col): Col {
    Col(Row(14, 11, 13, 9, c), Row(9, 14, 11, 13, c), Row(13, 9, 14, 11, c), Row(11, 13, 9, 14, c))
  }

  lemma TimesAdd(k: nat, a: bv8, b: bv8)
    requires Coef(k)
    ensures Times(k, Add(a, b)) == Add(Times(k, a), Times(k, b))
  {
    hide Add; hide XPow;
    XPowAdd(a, b, 1); XPowAdd(a, b, 2); XPowAdd(a, b, 3);
    AddExchange(a, b, XPow(a, 3), XPow(b, 3));
    AddExchange(a, b, XPow(a, 1), XPow(b, 1));
    AddExchange(Add(a, XPow(a, 1)), Add(b, XPow(b, 1)), XPow(a, 3), XPow(b, 3));
    AddExchange(a, b, XPow(a, 2), XPow(b, 2));
    AddExchange(Add(a, XPow(a, 2)), Add(b, XPow(b, 2)), XPow(a, 3), XPow(b, 3));
    AddExchange(XPow(a, 1), XPow(b, 1), XPow(a, 2), XPow(b, 2));
    AddExchange(Add(XPow(a, 1), XPow(a, 2)), Add(XPow(b, 1), XPow(b, 2)), XPow(a, 3), XPow(b, 3));
  }

  lemma RowAdd(k0: nat, k1: nat, k2: nat, k3: nat, x: Col, y: Col)
    requires Coef(k0) && Coef(k1) && Coef(k2) && Coef(k3)
    ensures Row(k0, k1, k2, k3, AddCol(x, y)) == Add(Row(k0, k1, k2, k3, x), Row(k0, k1, k2, k3, y))
  {
    hide Add; hide Times;
    TimesAdd(k0, x.r0, y.r0); TimesAdd(k1, x.r1, y.r1); TimesAdd(k2, x.r2, y.r2); TimesAdd(k3, x.r3, y.r3);
    var p0, p1, p2, p3 := Times(k0, x.r0), Times(k1, x.r1), Times(k2, x.r2), Times(k3, x.r3);
    var q0, q1, q2, q3 := Times(k0, y.r0), Times(k1, y.r1), Times(k2, y.r2), Times(k3, y.r3);
    AddExchange(p0, q0, p1, q1);
    AddExchange(p2, q2, p3, q3);
    AddExchange(Add(p0, p1), Add(q0, q1), Add(p2, p3), Add(q2, q3));
  }

  // InvMixColumns is linear
  lemma InvMixColAdd(x: Col, y: Col)
    ensures InvMixCol(AddCol(x, y)) == AddCol(InvMixCol(x), InvMixCol(y))
  {
    hide Add; hide Row;
    RowAdd(14, 11, 13, 9, x, y); RowAdd(9, 14, 11, 13, x, y); RowAdd(13, 9, 14, 11, x, y); RowAdd(11, 13, 9, 14, x, y);
  }

  // the image of one byte under MixColumns: (2a, a, a, 3a)
  function Spread(a: bv8): Col {
    Col(XTime(a), a, a, Triple(a))
  }

  // the product of a with the polynomial whose coefficients are m, degree at most 4
  datatype Poly = Poly(m0: bool, m1: bool, m2: bool, m3: bool, m4: bool)

  function When(c: bool, a: bv8): bv8 {
    if c then a else 0
  }

  function Of(m: Poly, a: bv8): bv8 {
    Add(When(m.m0, a), Add(When(m.m1, XPow(a, 1)), Add(When(m.m2, XPow(a, 2)), Add(When(m.m3, XPow(a, 3)), When(m.m4, XPow(a, 4))))))
  }

  function Sum(p: Poly, q: Poly): Poly {
    Poly(p.m0 != q.m0, p.m1 != q.m1, p.m2 != q.m2, p.m3 != q.m3, p.m4 != q.m4)
  }

  lemma WhenSum(c: bool, d: bool, a: bv8)
    ensures Add(When(c, a), When(d, a)) == When(c != d, a)
  {
  }

  lemma OfSum(p: Poly, q: Poly, a: bv8)
    ensures Add(Of(p, a), Of(q, a)) == Of(Sum(p, q), a)
  {
    hide Add; hide When; hide XPow;
    var a1, a2, a3, a4 := XPow(a, 1), XPow(a, 2), XPow(a, 3), XPow(a, 4);
    WhenSum(p.m0, q.m0, a); WhenSum(p.m1, q.m1, a1); WhenSum(p.m2, q.m2, a2); WhenSum(p.m3, q.m3, a3); WhenSum(p.m4, q.m4, a4);
    var p4, q4 := When(p.m4, a4), When(q.m4, a4);
    var p3, q3 := Add(When(p.m3, a3), p4), Add(When(q.m3, a3), q4);
    var p2, q2 := Add(When(p.m2, a2), p3), Add(When(q.m2, a2), q3);
    AddExchange(When(p.m3, a3), p4, When(q.m3, a3), q4);
    AddExchange(When(p.m2, a2), p3, When(q.m2, a2), q3);
    AddExchange(When(p.m1, a1), p2, When(q.m1, a1), q2);
    AddExchange(When(p.m0, a), Add(When(p.m1, a1), p2), When(q.m0, a), Add(When(q.m1, a1), q2));
  }

  lemma OfMonomials(a: bv8)
    ensures a == Of(Poly(true, false, false, false, false), a) && XPow(a, 1) == Of(Poly(false, true, false, false, false), a)
    ensures XPow(a, 2) == Of(Poly(false, false, true, false, false), a) && XPow(a, 3) == Of(Poly(false, false, false, true, false), a)
    ensures XPow(a, 4) == Of(Poly(false, false, false, false, true), a) && 0 == Of(Poly(false, false, false, false, false), a)
  {
    hide XPow;
  }

  function CoefPoly(k: nat): Poly
    requires Coef(k)
  {
    Poly(k % 2 == 1, (k / 2) % 2 == 1, (k / 4) % 2 == 1, k / 8 == 1, false)
  }

  function Shift(p: Poly): Poly {
    Poly(false, p.m0, p.m1, p.m2, p.m3)
  }

  lemma TimesIsPoly(k: nat, a: bv8)
    requires Coef(k)
    ensures Times(k, a) == Of(CoefPoly(k), a)
  {
    hide Add; hide XPow; hide Of;
    OfMonomials(a);
    var x0, x1 := Poly(true, false, false, false, false), Poly(false, true, false, false, false);
    var x2, x3 := Poly(false, false, true, false, false), Poly(false, false, false, true, false);
    match k {
      case 9 => OfSum(x0, x3, a);
      case 11 => OfSum(x0, x1, a); OfSum(Sum(x0, x1), x3, a);
      case 13 => OfSum(x0, x2, a); OfSum(Sum(x0, x2), x3, a);
      case 14 => OfSum(x1, x2, a); OfSum(Sum(x1, x2), x3, a);
    }
  }

  lemma TimesXTimeIsPoly(k: nat, a: bv8)
    requires Coef(k)
    ensures Times(k, XTime(a)) == Of(Shift(CoefPoly(k)), a)
  {
    hide Add; hide XPow; hide Of; hide XTime;
    OfMonomials(a);
    OneXTime(a);
    XPowXTime(a, 1); XPowXTime(a, 2); XPowXTime(a, 3);
    XPowNext(a, 1); XPowNext(a, 2); XPowNext(a, 3);
    var x1, x2 := Poly(false, true, false, false, false), Poly(false, false, true, false, false);
    var x3, x4 := Poly(false, false, false, true, false), Poly(false, false, false, false, true);
    match k {
      case 9 => OfSum(x1, x4, a);
      case 11 => OfSum(x1, x2, a); OfSum(Sum(x1, x2), x4, a);
      case 13 => OfSum(x1, x3, a); OfSum(Sum(x1, x3), x4, a);
      case 14 => OfSum(x2, x3, a); OfSum(Sum(x2, x3), x4, a);
    }
  }

  lemma XPowNext(a: bv8, k: nat)
    ensures XPow(a, k + 1) == XTime(XPow(a, k))
  {
  }

  lemma RowIsPoly(k0: nat, k1: nat, k2: nat, k3: nat, a: bv8)
    requires Coef(k0) && Coef(k1) && Coef(k2) && Coef(k3)
    ensures Row(k0, k1, k2, k3, Spread(a)) ==
            Of(Sum(Sum(Shift(CoefPoly(k0)), CoefPoly(k1)), Sum(CoefPoly(k2), Sum(CoefPoly(k3), Shift(CoefPoly(k3))))), a)
  {
    hide Add; hide XTime; hide Of; hide Times; hide CoefPoly;
    TimesXTimeIsPoly(k0, a); TimesIsPoly(k1, a); TimesIsPoly(k2, a); TimesIsPoly(k3, a); TimesXTimeIsPoly(k3, a);
    TimesAdd(k3, a, XTime(a));
    var c0, c1, c2, c3 := Shift(CoefPoly(k0)), CoefPoly(k1), CoefPoly(k2), CoefPoly(k3);
    OfSum(c0, c1, a);
    OfSum(c3, Shift(c3), a);
    OfSum(c2, Sum(c3, Shift(c3)), a);
    OfSum(Sum(c0, c1), Sum(c2, Sum(c3, Shift(c3))), a);
  }

  // the coefficients of InvMixColumns times those of MixColumns, modulo 2: the unit
  lemma RowOfSpread(a: bv8)
    ensures Row(14, 11, 13, 9, Spread(a)) == a && Row(9, 14, 11, 13, Spread(a)) == 0
    ensures Row(13, 9, 14, 11, Spread(a)) == 0 && Row(11, 13, 9, 14, Spread(a)) == 0
  {
    hide Row; hide Of; hide Spread;
    OfMonomials(a);
    RowIsPoly(14, 11, 13, 9, a);
    RowIsPoly(9, 14, 11, 13, a);
    RowIsPoly(13, 9, 14, 11, a);
    RowIsPoly(11, 13, 9, 14, a);
  }

  lemma OneXTime(a: bv8)
    ensures XPow(a, 1) == XTime(a)
  {
  }

  lemma RowSpins(k0: nat, k1: nat, k2: nat, k3: nat, c: Col)
    requires Coef(k0) && Coef(k1) && Coef(k2) && Coef(k3)
    ensures Row(k0, k1, k2, k3, c) == Row(k1, k2, k3, k0, Spin(c))
  {
    hide Times; hide Add;
    AddCycle(Times(k0, c.r0), Times(k1, c.r1), Times(k2, c.r2), Times(k3, c.r3));
  }

  lemma AddCycle(a: bv8, b: bv8, c: bv8, d: bv8)
    ensures Add(Add(a, b), Add(c, d)) == Add(Add(b, c), Add(d, a))
  {
    hide Add;
    AddCommutes(a, b);
    AddExchange(b, a, c, d);
    AddCommutes(a, d);
  }

  lemma InvMixOfSpread(a: bv8)
    ensures InvMixCol(Spread(a)) == Col(a, 0, 0, 0)
    ensures InvMixCol(Spin(Spread(a))) == Col(0, 0, 0, a)
    ensures InvMixCol(Spin(Spin(Spread(a)))) == Col(0, 0, a, 0)
    ensures InvMixCol(Spin(Spin(Spin(Spread(a))))) == Col(0, a, 0, 0)
  {
    hide Row; hide Spread;
    RowOfSpread(a);
    var c := Spread(a);
    InvMixSpins(c);
    InvMixSpins(Spin(c));
    InvMixSpins(Spin(Spin(c)));
  }

  lemma InvMixSpins(c: Col)
    ensures InvMixCol(Spin(c)) == Spin(InvMixCol(c))
  {
    hide Row;
    RowSpins(14, 11, 13, 9, c); RowSpins(9, 14, 11, 13, c); RowSpins(13, 9, 14, 11, c); RowSpins(11, 13, 9, 14, c);
  }

  // MixColumns is the sum of the images of the four bytes
  lemma MixColIsSum(c: Col)
    ensures MixCol(c) == AddCol(AddCol(Spread(c.r0), Spin(Spin(Spin(Spread(c.r1))))),
                                AddCol(Spin(Spin(Spread(c.r2))), Spin(Spread(c.r3))))
  {
    hide Add; hide XTime;
  }

  // the image of one byte under InvMixColumns: (14a, 9a, 13a, 11a)
  function InvSpread(a: bv8): Col {
    Col(Times(14, a), Times(9, a), Times(13, a), Times(11, a))
  }

  lemma InvMixColIsSum(c: Col)
    ensures InvMixCol(c) == AddCol(AddCol(InvSpread(c.r0), Spin(Spin(Spin(InvSpread(c.r1))))),
                                   AddCol(Spin(Spin(InvSpread(c.r2))), Spin(InvSpread(c.r3))))
  {
    hide Add; hide Times;
  }

  // InvMixColumns undoes MixColumns
  lemma InvMixColOfMix(c: Col)
    ensures InvMixCol(MixCol(c)) == c
  {
    hide InvMixCol; hide Spread; hide MixCol;
    MixColIsSum(c);
    var s0, s1, s2, s3 := Spread(c.r0), Spin(Spin(Spin(Spread(c.r1)))), Spin(Spin(Spread(c.r2))), Spin(Spread(c.r3));
    InvMixColAdd(AddCol(s0, s1), AddCol(s2, s3));
    InvMixColAdd(s0, s1);
    InvMixColAdd(s2, s3);
    InvMixOfSpread(c.r0); InvMixOfSpread(c.r1); InvMixOfSpread(c.r2); InvMixOfSpread(c.r3);
    AddZero(c.r0); AddZero(c.r1); AddZero(c.r2); AddZero(c.r3); AddZero(0);
    assert Add(0, c.r1) == c.r1 && Add(0, c.r2) == c.r2 && Add(0, c.r3) == c.r3;
  }

  // ---------------------------------------------------------- the S-box

  function Rot1(p: bv8): bv8 { (p >> 7) | (p << 1) }
  function Rot2(p: bv8): bv8 { (p >> 6) | (p << 2) }
  function Rot3(p: bv8): bv8 { (p >> 5) | (p << 3) }
  function Rot4(p: bv8): bv8 { (p >> 4) | (p << 4) }
  function Rot6(p: bv8): bv8 { (p >> 2) | (p << 6) }

  // the affine map of section 5.1.1 of FIPS 197
  function Affine(p: bv8): bv8 {
    p ^ Rot1(p) ^ Rot2(p) ^ Rot3(p) ^ Rot4(p) ^ 0x63
  }

  // the same map as gen_tabs of aes.c computes it
  function CodedAffine(p: bv8): bv8 {
    var q := Rot1(p) ^ Rot2(p);
    p ^ (0x63 ^ q ^ Rot2(q))
  }

  lemma AffineAsCoded(p: bv8)
    ensures CodedAffine(p) == Affine(p)
  {
  }

  lemma AffineInverse(p: bv8)
    ensures var s := Affine(p); Rot1(s) ^ Rot3(s) ^ Rot6(s) ^ 0x05 == p
  {
  }

  // the multiplicative inverse followed by the affine map
  ghost function SBox(a: bv8): bv8 {
    Affine(Inv(a))
  }

  lemma SBoxInjective(a: bv8, b: bv8)
    requires SBox(a) == SBox(b)
    ensures a == b
  {
    hide Affine; hide Inv;
    AffineInverse(Inv(a));
    AffineInverse(Inv(b));
    InvInjective(a, b);
  }

  // one more than the value of the S-box at the i-th byte
  ghost function Image(i: nat): int
    requires i < 256
  {
    Nat(SBox(i as bv8)) + 1
  }

  ghost function Images(n: nat): set<int>
    requires n <= 256
  {
    if n == 0 then {} else Images(n - 1) + {Image(n - 1)}
  }

  lemma ImagesDiffer(i: nat, j: nat)
    requires i < j < 256
    ensures Image(i) != Image(j)
  {
    hide SBox; hide Nat;
    ByteNumber(i);
    ByteNumber(j);
    NumberInjective(SBox(i as bv8), SBox(j as bv8));
    if SBox(i as bv8) == SBox(j as bv8) { SBoxInjective(i as bv8, j as bv8); }
  }

  lemma {:induction false} NewImage(n: nat, j: nat)
    requires n <= j < 256
    ensures Image(j) !in Images(n)
  {
    hide Image;
    if n > 0 {
      NewImage(n - 1, j);
      ImagesDiffer(n - 1, j);
    }
  }

  lemma {:induction false} ImagesCounted(n: nat)
    requires n <= 256
    ensures |Images(n)| == n && forall x | x in Images(n) :: 1 <= x <= 256
  {
    hide SBox; hide Nat;
    if n > 0 {
      ImagesCounted(n - 1);
      NewImage(n - 1, n - 1);
    }
  }

  lemma {:induction false} Preimage(n: nat, x: int) returns (i: nat)
    requires n <= 256 && x in Images(n)
    ensures i < n && Image(i) == x
  {
    hide Image;
    if Image(n - 1) == x { i := n - 1; } else { i := Preimage(n - 1, x); }
  }

  lemma {:induction false} InRange(n: nat, x: int)
    requires 1 <= x <= n
    ensures x in Range(n)
  {
    if x < n { InRange(n - 1, x); }
  }

  lemma SBoxSurjective(y: bv8)
    ensures exists a: bv8 :: SBox(a) == y
  {
    hide SBox; hide Nat; hide Images; hide Range; hide Image;
    ImagesCounted(256);
    RangeSize(256);
    forall x | x in Images(256)
      ensures x in Range(256)
    {
      InRange(256, x);
    }
    SubsetOfSameSize(Images(256), Range(256));
    InRange(256, Nat(y) + 1);
    var i := Preimage(256, Nat(y) + 1);
    SBoxOfImage(i, y);
  }

  lemma SBoxOfImage(i: nat, y: bv8)
    requires i < 256 && Image(i) == Nat(y) + 1
    ensures SBox(i as bv8) == y
  {
    hide SBox; hide Nat;
    NumberInjective(SBox(i as bv8), y);
  }

  ghost function InvSBox(y: bv8): (a: bv8)
    ensures SBox(a) == y
  {
    SBoxSurjective(y);
    var a: bv8 :| SBox(a) == y;
    a
  }

  // ------------------------------------------------ multiplications in tables

  // multiplying by an element below 16 sums at most four multiples
  lemma MulSmall(a: bv8, b: bv8)
    requires b <= 15
    ensures Mul(a, b) == Add(Add(Add(Term(a, b, 0), Term(a, b, 1)), Term(a, b, 2)), Term(a, b, 3))
  {
    HighBits(b);
    var t0, t1, t2, t3 := Term(a, b, 0), Term(a, b, 1), Term(a, b, 2), Term(a, b, 3);
    assert Term(a, b, 4) == 0 && Term(a, b, 5) == 0 && Term(a, b, 6) == 0 && Term(a, b, 7) == 0;
    hide Add; hide Term;
    AddCommutes(0, t0);
    AddZero(t0);
    AddZero(PartialMul(a, b, 4)); AddZero(PartialMul(a, b, 5)); AddZero(PartialMul(a, b, 6)); AddZero(PartialMul(a, b, 7));
    assert PartialMul(a, b, 1) == t0;
    assert PartialMul(a, b, 2) == Add(t0, t1);
    assert PartialMul(a, b, 3) == Add(Add(t0, t1), t2);
    assert PartialMul(a, b, 4) == Add(Add(Add(t0, t1), t2), t3);
    assert PartialMul(a, b, 5) == PartialMul(a, b, 4);
    assert PartialMul(a, b, 6) == PartialMul(a, b, 4);
    assert PartialMul(a, b, 7) == PartialMul(a, b, 4);
  }

  lemma HighBits(b: bv8)
    requires b <= 15
    ensures b & 0x10 == 0 && b & 0x20 == 0 && b & 0x40 == 0 && b & 0x80 == 0
  {
  }

  lemma MulTwoThree(a: bv8)
    ensures Mul(a, 2) == XTime(a) && Mul(a, 3) == Triple(a)
  {
    MulSmall(a, 2);
    MulSmall(a, 3);
    OneXTime(a);
    XPowZero(a);
    hide Mul; hide XPow; hide XTime;
    assert Term(a, 2, 0) == 0 && Term(a, 2, 1) == XPow(a, 1) && Term(a, 2, 2) == 0 && Term(a, 2, 3) == 0;
    assert Term(a, 3, 0) == a && Term(a, 3, 1) == XPow(a, 1) && Term(a, 3, 2) == 0 && Term(a, 3, 3) == 0;
    hide Add; hide Term;
    AddCommutes(0, XPow(a, 1));
    AddZero(XPow(a, 1));
    AddZero(Add(a, XPow(a, 1)));
  }

  lemma XPowZero(a: bv8)
    ensures XPow(a, 0) == a
  {
  }

  lemma MulBy9(a: bv8)
    ensures Mul(a, 9) == Times(9, a)
  {
    MulSmall(a, 9);
    XPowZero(a);
    hide Mul; hide XPow;
    var a3 := XPow(a, 3);
    assert Term(a, 9, 0) == a && Term(a, 9, 1) == 0 && Term(a, 9, 2) == 0 && Term(a, 9, 3) == a3;
    hide Add; hide Term;
    AddZero(a);
  }

  lemma MulBy11(a: bv8)
    ensures Mul(a, 11) == Times(11, a)
  {
    MulSmall(a, 11);
    XPowZero(a);
    hide Mul; hide XPow;
    var a1, a3 := XPow(a, 1), XPow(a, 3);
    assert Term(a, 11, 0) == a && Term(a, 11, 1) == a1 && Term(a, 11, 2) == 0 && Term(a, 11, 3) == a3;
    hide Add; hide Term;
    AddZero(Add(a, a1));
  }

  lemma MulBy13(a: bv8)
    ensures Mul(a, 13) == Times(13, a)
  {
    MulSmall(a, 13);
    XPowZero(a);
    hide Mul; hide XPow;
    var a2, a3 := XPow(a, 2), XPow(a, 3);
    assert Term(a, 13, 0) == a && Term(a, 13, 1) == 0 && Term(a, 13, 2) == a2 && Term(a, 13, 3) == a3;
    hide Add; hide Term;
    AddZero(a);
  }

  lemma MulBy14(a: bv8)
    ensures Mul(a, 14) == Times(14, a)
  {
    MulSmall(a, 14);
    XPowZero(a);
    hide Mul; hide XPow;
    var a1, a2, a3 := XPow(a, 1), XPow(a, 2), XPow(a, 3);
    assert Term(a, 14, 0) == 0 && Term(a, 14, 1) == a1 && Term(a, 14, 2) == a2 && Term(a, 14, 3) == a3;
    hide Add; hide Term;
    AddCommutes(0, a1);
    AddZero(a1);
  }

  // --------------------------------------------------- rounds on whole states

  function AddRoundKey(s: State, k: State): State {
    State(AddCol(s.c0, k.c0), AddCol(s.c1, k.c1), AddCol(s.c2, k.c2), AddCol(s.c3, k.c3))
  }

  ghost function SubCol(c: Col): Col {
    Col(SBox(c.r0), SBox(c.r1), SBox(c.r2), SBox(c.r3))
  }

  ghost function SubBytes(s: State): State {
    State(SubCol(s.c0), SubCol(s.c1), SubCol(s.c2), SubCol(s.c3))
  }

  function ShiftRows(s: State): State {
    State(Col(s.c0.r0, s.c1.r1, s.c2.r2, s.c3.r3), Col(s.c1.r0, s.c2.r1, s.c3.r2, s.c0.r3),
          Col(s.c2.r0, s.c3.r1, s.c0.r2, s.c1.r3), Col(s.c3.r0, s.c0.r1, s.c1.r2, s.c2.r3))
  }

  ghost function InvSubCol(c: Col): Col {
    Col(InvSBox(c.r0), InvSBox(c.r1), InvSBox(c.r2), InvSBox(c.r3))
  }

  ghost function InvSubBytes(s: State): State {
    State(InvSubCol(s.c0), InvSubCol(s.c1), InvSubCol(s.c2), InvSubCol(s.c3))
  }

  function InvShiftRows(s: State): State {
    State(Col(s.c0.r0, s.c3.r1, s.c2.r2, s.c1.r3), Col(s.c1.r0, s.c0.r1, s.c3.r2, s.c2.r3),
          Col(s.c2.r0, s.c1.r1, s.c0.r2, s.c3.r3), Col(s.c3.r0, s.c2.r1, s.c1.r2, s.c0.r3))
  }

  function MixColumns(s: State): State {
    State(MixCol(s.c0), MixCol(s.c1), MixCol(s.c2), MixCol(s.c3))
  }

  function InvMixColumns(s: State): State {
    State(InvMixCol(s.c0), InvMixCol(s.c1), InvMixCol(s.c2), InvMixCol(s.c3))
  }
}
