// gen_tabs of crypto/aes.c: the power, logarithm, S-box and round tables.
module AesTables {
  import opened Basics
  import opened Gf256
  import opened AesRounds

  class Tables {
    const pow_tab: array<bv8>
    const log_tab: array<nat>
    const sbx_tab: array<bv8>
    const isb_tab: array<bv8>
    const rco_tab: array<bv32>
    const ft_tab: array2<bv32>
    const it_tab: array2<bv32>
    const fl_tab: array2<bv32>
    const il_tab: array2<bv32>

    ghost predicate Shape() {
      && pow_tab.Length == log_tab.Length == sbx_tab.Length == isb_tab.Length == 256
      && rco_tab.Length == 10
      && ft_tab.Length0 == it_tab.Length0 == fl_tab.Length0 == il_tab.Length0 == 4
      && ft_tab.Length1 == it_tab.Length1 == fl_tab.Length1 == il_tab.Length1 == 256
      && pow_tab as object != log_tab as object && log_tab as object != sbx_tab as object
      && log_tab as object != isb_tab as object && pow_tab != sbx_tab && pow_tab != isb_tab && sbx_tab != isb_tab
      && ft_tab != it_tab && ft_tab != fl_tab && ft_tab != il_tab
      && it_tab != fl_tab && it_tab != il_tab && fl_tab != il_tab
    }

    constructor ()
      ensures Shape() && fresh(pow_tab) && fresh(log_tab) && fresh(sbx_tab) && fresh(isb_tab)
      ensures fresh(rco_tab) && fresh(ft_tab) && fresh(it_tab) && fresh(fl_tab) && fresh(il_tab)
    {
      pow_tab := new bv8[256](_ => 0);
      log_tab := new nat[256](_ => 0);
      sbx_tab := new bv8[256](_ => 0);
      isb_tab := new bv8[256](_ => 0);
      rco_tab := new bv32[10](_ => 0);
      ft_tab := new bv32[4, 256]((_, _) => 0);
      it_tab := new bv32[4, 256]((_, _) => 0);
      fl_tab := new bv32[4, 256]((_, _) => 0);
      il_tab := new bv32[4, 256]((_, _) => 0);
    }

    // pow_tab holds the powers of 3, and log_tab inverts it on the nonzero bytes
    ghost predicate FieldTables()
      reads pow_tab, log_tab
    {
      && Shape()
      && (forall j | 0 <= j < 256 :: pow_tab[j] == Pow(j))
      && (forall j | 0 <= j < 255 :: log_tab[Nat(Pow(j))] == j)
    }

    method GenPowers()
      requires Shape()
      modifies pow_tab, log_tab
      ensures FieldTables()
    {
      hide Pow;
      var p: bv8 := 1;
      PowFirst();
      for i := 0 to 256
        invariant p == Pow(i)
        invariant forall j | 0 <= j < i :: pow_tab[j] == Pow(j)
        invariant forall j | 1 <= j < i && j < 255 :: log_tab[Nat(Pow(j))] == j
      {
        pow_tab[i] := p;
        log_tab[Nat(p)] := i;
        OtherIndices(i);
        p := p ^ ((p << 1) ^ (if p & 0x80 != 0 then 0x1b else 0));
        PowStep(i, p);
      }
      log_tab[1] := 0;
      OtherIndices(255);
    }

    // f_mult: multiplication by adding logarithms, u8 wrap-around included
    method FMult(a: bv8, b: bv8) returns (r: bv8)
      requires FieldTables() && a != 0 && b != 0
      ensures r == Mul(a, b)
    {
      hide Pow; hide Mul;
      var aa := log_tab[Nat(a)];
      var cc := (aa + log_tab[Nat(b)]) % 256;
      assert aa == Log(a) && log_tab[Nat(b)] == Log(b);
      r := pow_tab[cc + if cc < aa then 1 else 0];
      PowAdd(Log(a), Log(b));
      if cc < aa {
        PowerCycle();
        PowCancels(255, Log(a) + Log(b) - 255);
      }
    }

    // the macro ff_mult
    method FFMult(a: bv8, b: bv8) returns (r: bv8)
      requires FieldTables()
      ensures r == Mul(b, a)
    {
      hide Mul;
      if a != 0 && b != 0 {
        r := FMult(a, b);
        MulCommutes(a, b);
      } else {
        r := 0;
        MulZero(a);
        MulByZero(b);
      }
    }

    // rco_tab holds the powers of x, in the low byte
    ghost predicate RoundConstants()
      reads rco_tab
    {
      Shape() && forall j | 0 <= j < 10 :: rco_tab[j] == Pack(Col(XPow(1, j), 0, 0, 0))
    }

    method GenRoundConstants()
      requires Shape()
      modifies rco_tab
      ensures RoundConstants()
    {
      hide XPow; hide Pack4;
      var p: bv8 := 1;
      XPowZero(1);
      for i := 0 to 10
        invariant p == XPow(1, i)
        invariant forall j | 0 <= j < i :: rco_tab[j] == Pack(Col(XPow(1, j), 0, 0, 0))
      {
        rco_tab[i] := p as bv32;
        LowByte(p);
        XPowNext(1, i);
        CodedXTime(p);
        p := (p << 1) ^ (if p & 0x80 != 0 then 0x1b else 0);
      }
    }

    // sbx_tab is the S-box and isb_tab inverts it
    ghost predicate Boxes()
      reads sbx_tab, isb_tab
    {
      && Shape()
      && (forall a: bv8 :: sbx_tab[Nat(a)] == SBox(a))
      && (forall y: bv8 :: isb_tab[Nat(y)] == InvSBox(y))
    }

    // the inverse by logarithms, then the affine map
    method BoxOf(i: nat) returns (p: bv8)
      requires FieldTables() && i < 256
      ensures p == SBox(i as bv8)
    {
      hide Pow; hide Affine; hide Nat;
      ghost var a := i as bv8;
      ByteNumber(i);
      if a != 0 {
        assert Pow(Log(a)) == a;
        assert log_tab[Nat(Pow(Log(a)))] == Log(a);
      }
      p := if i != 0 then pow_tab[255 - log_tab[i]] else 0;
      assert p == Inv(a);
      AffineAsCoded(p);
      var q := ((p >> 7) | (p << 1)) ^ ((p >> 6) | (p << 2));
      p := p ^ (0x63 ^ q ^ ((q >> 6) | (q << 2)));
    }

    method GenBoxes()
      requires FieldTables()
      modifies sbx_tab, isb_tab
      ensures Boxes()
    {
      hide SBox; hide Nat; hide Pow;
      for i := 0 to 256
        invariant FieldTables()
        invariant forall a: bv8 | Nat(a) < i :: sbx_tab[Nat(a)] == SBox(a) && isb_tab[Nat(SBox(a))] == a
      {
        var p := BoxOf(i);
        sbx_tab[i] := p;
        isb_tab[Nat(p)] := i as bv8;
        ByteNumber(i);
        OnlyThisByte(i);
        OtherBoxes(i as bv8);
      }
      forall y: bv8
        ensures isb_tab[Nat(y)] == InvSBox(y)
      {
        assert Nat(InvSBox(y)) < 256;
      }
    }

    // fl/ft hold the substituted byte and its MixColumns image, il/it the inverse
    // substituted byte and its InvMixColumns image; table k is table 0 turned by k bytes
    ghost predicate RoundTables()
      reads fl_tab, ft_tab, il_tab, it_tab
    {
      Shape() && forall a: bv8 ::
        && Holds(fl_tab, Nat(a), Col(SBox(a), 0, 0, 0)) && Holds(ft_tab, Nat(a), Spread(SBox(a)))
        && Holds(il_tab, Nat(a), Col(InvSBox(a), 0, 0, 0)) && Holds(it_tab, Nat(a), InvSpread(InvSBox(a)))
    }

    ghost predicate Forward(n: nat)
      reads sbx_tab, fl_tab, ft_tab
    {
      Shape() && n <= 256 && forall j | 0 <= j < n ::
        Holds(fl_tab, j, Col(sbx_tab[j], 0, 0, 0)) && Holds(ft_tab, j, Spread(sbx_tab[j]))
    }

    ghost predicate Inverse(n: nat)
      reads isb_tab, il_tab, it_tab
    {
      Shape() && n <= 256 && forall j | 0 <= j < n ::
        Holds(il_tab, j, Col(isb_tab[j], 0, 0, 0)) && Holds(it_tab, j, InvSpread(isb_tab[j]))
    }

    method GenForward(i: nat)
      requires FieldTables() && Forward(i) && i < 256
      modifies fl_tab, ft_tab
      ensures Forward(i + 1)
    {
      hide Pack4; hide SBox; hide Nat; hide Pow; hide Mul; hide XTime; hide Triple;
      var p := sbx_tab[i];
      LowByte(p);
      Fill(fl_tab, i, p as bv32, Col(p, 0, 0, 0));
      var two := FFMult(2, p);
      var three := FFMult(3, p);
      MulTwoThree(p);
      PackShifts(two, p, p, three);
      Fill(ft_tab, i, (two as bv32) | ((p as bv32) << 8) | ((p as bv32) << 16) | ((three as bv32) << 24), Spread(p));
    }

    method GenInverse(i: nat)
      requires FieldTables() && Inverse(i) && i < 256
      modifies il_tab, it_tab
      ensures Inverse(i + 1)
    {
      hide Pack4; hide SBox; hide Nat; hide Pow; hide Mul; hide Times;
      var p := isb_tab[i];
      LowByte(p);
      Fill(il_tab, i, p as bv32, Col(p, 0, 0, 0));
      var m14 := FFMult(14, p);
      var m9 := FFMult(9, p);
      var m13 := FFMult(13, p);
      var m11 := FFMult(11, p);
      MulBy9(p); MulBy11(p); MulBy13(p); MulBy14(p);
      PackShifts(m14, m9, m13, m11);
      Fill(it_tab, i, (m14 as bv32) | ((m9 as bv32) << 8) | ((m13 as bv32) << 16) | ((m11 as bv32) << 24), InvSpread(p));
    }

    ghost predicate Built()
      reads pow_tab, log_tab, sbx_tab, isb_tab, rco_tab, fl_tab, ft_tab, il_tab, it_tab
    {
      Shape() && FieldTables() && RoundConstants() && Boxes() && RoundTables()
    }

    method GenTabs()
      requires Shape()
      modifies pow_tab, log_tab, sbx_tab, isb_tab, rco_tab, fl_tab, ft_tab, il_tab, it_tab
      ensures Built()
    {
      hide SBox; hide Nat; hide Pow; hide Pack4; hide XPow; hide FieldTables; hide RoundConstants; hide Boxes;
      GenPowers();
      GenRoundConstants();
      GenBoxes();
      for i := 0 to 256
        invariant FieldTables() && RoundConstants() && Boxes() && Forward(i) && Inverse(i)
      {
        hide Forward; hide Inverse;
        GenForward(i);
        GenInverse(i);
      }
      TablesComplete();
    }

    lemma TablesComplete()
      requires Boxes() && Forward(256) && Inverse(256)
      ensures RoundTables()
    {
      hide SBox; hide InvSBox; hide Pack; hide Spread; hide InvSpread; hide Holds;
    }
  }

  ghost predicate Holds(tab: array2<bv32>, i: nat, c: Col)
    requires tab.Length0 == 4 && i < tab.Length1
    reads tab
  {
    && tab[0, i] == Pack(c) && tab[1, i] == Pack(Spin(Spin(Spin(c))))
    && tab[2, i] == Pack(Spin(Spin(c))) && tab[3, i] == Pack(Spin(c))
  }

  method Fill(tab: array2<bv32>, i: nat, t: bv32, ghost c: Col)
    requires tab.Length0 == 4 && i < tab.Length1 && t == Pack(c)
    modifies tab
    ensures Holds(tab, i, c)
    ensures forall k, j | 0 <= k < 4 && 0 <= j < tab.Length1 && j != i :: tab[k, j] == old(tab[k, j])
  {
    hide Pack; hide Rotl;
    PackRotl(c);
    tab[0, i] := t;
    tab[1, i] := Rotl(t, 8);
    tab[2, i] := Rotl(t, 16);
    tab[3, i] := Rotl(t, 24);
  }

  lemma PackShifts(a: bv8, b: bv8, c: bv8, d: bv8)
    ensures (a as bv32) | ((b as bv32) << 8) | ((c as bv32) << 16) | ((d as bv32) << 24) == Pack4(a, b, c, d)
  {
  }

  lemma OtherBoxes(a: bv8)
    ensures forall b: bv8 | Nat(b) < Nat(a) :: Nat(SBox(b)) != Nat(SBox(a))
  {
    hide SBox; hide Nat;
    forall b: bv8 | Nat(b) < Nat(a)
      ensures Nat(SBox(b)) != Nat(SBox(a))
    {
      NumberInjective(SBox(b), SBox(a));
      if SBox(b) == SBox(a) { SBoxInjective(a, b); }
    }
  }

  lemma MulZero(a: bv8)
    ensures Mul(0, a) == 0
  {
    PartialMulZero(a, 8);
  }

  lemma MulByZero(a: bv8)
    ensures Mul(a, 0) == 0
  {
    PartialMulByZero(a, 8);
  }

  lemma {:induction false} PartialMulByZero(a: bv8, k: nat)
    requires k <= 8
    ensures PartialMul(a, 0, k) == 0
  {
    hide Add; hide XPow;
    if k > 0 {
      PartialMulByZero(a, k - 1);
      NoBits(Bit(k - 1));
      AddZero(0);
    }
  }

  lemma NoBits(x: bv8)
    ensures 0 & x == 0
  {
  }

  lemma {:induction false} PartialMulZero(a: bv8, k: nat)
    requires k <= 8
    ensures PartialMul(0, a, k) == 0
  {
    hide Add; hide XPow;
    if k > 0 {
      PartialMulZero(a, k - 1);
      XPowOfZero(k - 1);
      AddZero(0);
    }
  }

  lemma {:induction false} XPowOfZero(k: nat)
    ensures XPow(0, k) == 0
  {
    if k > 0 {
      XPowOfZero(k - 1);
    }
  }

  lemma LowByte(p: bv8)
    ensures p as bv32 == Pack4(p, 0, 0, 0)
  {
  }

  lemma CodedXTime(p: bv8)
    ensures (p << 1) ^ (if p & 0x80 != 0 then 0x1b else 0) == XTime(p)
  {
  }

  lemma OnlyThisByte(i: nat)
    requires i < 256
    ensures forall b: bv8 | Nat(b) < i + 1 :: Nat(b) < i || b == i as bv8
  {
    ByteNumber(i);
    forall b: bv8 | Nat(b) < i + 1
      ensures Nat(b) < i || b == i as bv8
    {
      NumberInjective(b, i as bv8);
    }
  }

  lemma PowFirst()
    ensures Pow(0) == 1
  {
  }

  lemma PowStep(i: nat, q: bv8)
    requires q == Pow(i) ^ ((Pow(i) << 1) ^ (if Pow(i) & 0x80 != 0 then 0x1b else 0))
    ensures q == Pow(i + 1)
  {
  }

  // no entry of log_tab is written twice, except that of 1
  lemma OtherIndices(i: nat)
    requires i <= 255
    ensures forall j | 1 <= j < i :: Nat(Pow(j)) != Nat(Pow(i))
    ensures i == 255 ==> Nat(Pow(0)) == Nat(Pow(255)) == 1
  {
    hide Pow;
    PowFirst();
    PowerCycle();
    forall j | 1 <= j < i
      ensures Nat(Pow(j)) != Nat(Pow(i))
    {
      if i < 255 { PowInjective(j, i); } else { OrderOfThree(j); }
      NumberInjective(Pow(j), Pow(i));
    }
  }
}
