// aes_set_key, aes_encrypt and aes_decrypt of crypto/aes.c over the generated
// tables, against the cipher of section 5 of FIPS 197.
module Aes {
  import opened Basics
  import opened Gf256
  import opened AesRounds
  import opened AesTables

  // ------------------------------------------------------- the reference

  // round key r of an expanded key, four columns to a round
  function RoundKey(w: seq<Col>, r: nat): State
    requires 4 * r + 4 <= |w|
  {
    State(w[4 * r], w[4 * r + 1], w[4 * r + 2], w[4 * r + 3])
  }

  // the state after the key additions of rounds 0..r of an encryption
  ghost function EncState(w: seq<Col>, s: State, r: nat): State
    requires 4 * r + 4 <= |w|
  {
    if r == 0 then AddRoundKey(s, RoundKey(w, 0))
    else AddRoundKey(MixColumns(ShiftRows(SubBytes(EncState(w, s, r - 1)))), RoundKey(w, r))
  }

  // Cipher of section 5.1 of FIPS 197 with nr rounds
  ghost function Cipher(w: seq<Col>, nr: nat, s: State): State
    requires nr > 0 && 4 * nr + 4 <= |w|
  {
    AddRoundKey(ShiftRows(SubBytes(EncState(w, s, nr - 1))), RoundKey(w, nr))
  }

  // EqInvCipher of section 5.3.5: the inverse steps in the order of the forward
  // ones, with InvMixColumns applied to the middle round keys
  ghost function DecState(w: seq<Col>, nr: nat, s: State, j: nat): State
    requires j <= nr && 4 * nr + 4 <= |w|
  {
    if j == 0 then AddRoundKey(s, RoundKey(w, nr))
    else AddRoundKey(InvMixColumns(InvSubBytes(InvShiftRows(DecState(w, nr, s, j - 1)))),
                     InvMixColumns(RoundKey(w, nr - j)))
  }

  ghost function EqInvCipher(w: seq<Col>, nr: nat, s: State): State
    requires nr > 0 && 4 * nr + 4 <= |w|
  {
    AddRoundKey(InvSubBytes(InvShiftRows(DecState(w, nr, s, nr - 1))), RoundKey(w, 0))
  }

  function Words(b: seq<bv32>): State
    requires |b| == 4
  {
    State(Unpack(b[0]), Unpack(b[1]), Unpack(b[2]), Unpack(b[3]))
  }

  // --------------------------------------------------- decryption inverts

  lemma AddCancels(x: State, k: State)
    ensures AddRoundKey(AddRoundKey(x, k), k) == x
  {
    hide AddCol;
    ColCancels(x.c0, k.c0); ColCancels(x.c1, k.c1); ColCancels(x.c2, k.c2); ColCancels(x.c3, k.c3);
  }

  lemma ColCancels(x: Col, k: Col)
    ensures AddCol(AddCol(x, k), k) == x
  {
    hide Add;
    ByteCancels(x.r0, k.r0); ByteCancels(x.r1, k.r1); ByteCancels(x.r2, k.r2); ByteCancels(x.r3, k.r3);
  }

  lemma ByteCancels(a: bv8, k: bv8)
    ensures Add(Add(a, k), k) == a
  {
  }

  lemma ColUnboxes(c: Col)
    ensures InvSubCol(SubCol(c)) == c
  {
    hide SBox; hide InvSBox;
    SBoxInjective(c.r0, InvSBox(SBox(c.r0)));
    SBoxInjective(c.r1, InvSBox(SBox(c.r1)));
    SBoxInjective(c.r2, InvSBox(SBox(c.r2)));
    SBoxInjective(c.r3, InvSBox(SBox(c.r3)));
  }

  lemma SubShiftUndone(s: State)
    ensures InvSubBytes(InvShiftRows(ShiftRows(SubBytes(s)))) == s
  {
    hide SubCol; hide InvSubCol;
    assert InvShiftRows(ShiftRows(SubBytes(s))) == SubBytes(s);
    ColUnboxes(s.c0); ColUnboxes(s.c1); ColUnboxes(s.c2); ColUnboxes(s.c3);
  }

  // InvMixColumns of a whole encryption round, key addition included
  lemma MixUndone(s: State, k: State)
    ensures InvMixColumns(AddRoundKey(MixColumns(s), k)) == AddRoundKey(s, InvMixColumns(k))
  {
    hide AddCol; hide MixCol; hide InvMixCol;
    InvMixColAdd(MixCol(s.c0), k.c0); InvMixColAdd(MixCol(s.c1), k.c1);
    InvMixColAdd(MixCol(s.c2), k.c2); InvMixColAdd(MixCol(s.c3), k.c3);
    InvMixColOfMix(s.c0); InvMixColOfMix(s.c1); InvMixColOfMix(s.c2); InvMixColOfMix(s.c3);
  }

  // after j inverse rounds the state is what encryption had before round nr - j
  lemma {:induction false} InverseRounds(w: seq<Col>, nr: nat, s: State, j: nat)
    requires j < nr && 4 * nr + 4 <= |w|
    ensures DecState(w, nr, Cipher(w, nr, s), j) == ShiftRows(SubBytes(EncState(w, s, nr - 1 - j)))
  {
    hide AddRoundKey; hide ShiftRows; hide SubBytes; hide MixColumns; hide InvMixColumns; hide InvSubBytes;
    hide InvShiftRows; hide RoundKey;
    if j == 0 {
      AddCancels(ShiftRows(SubBytes(EncState(w, s, nr - 1))), RoundKey(w, nr));
    } else {
      InverseRounds(w, nr, s, j - 1);
      var before := ShiftRows(SubBytes(EncState(w, s, nr - 1 - j)));
      SubShiftUndone(EncState(w, s, nr - j));
      MixUndone(before, RoundKey(w, nr - j));
      AddCancels(before, InvMixColumns(RoundKey(w, nr - j)));
    }
  }

  // for every expanded key, number of rounds and block
  lemma DecryptInvertsEncrypt(w: seq<Col>, nr: nat, s: State)
    requires nr > 0 && 4 * nr + 4 <= |w|
    ensures EqInvCipher(w, nr, Cipher(w, nr, s)) == s
  {
    hide AddRoundKey; hide ShiftRows; hide SubBytes; hide MixColumns; hide InvMixColumns; hide InvSubBytes;
    hide InvShiftRows; hide RoundKey; hide DecState; hide Cipher;
    InverseRounds(w, nr, s, nr - 1);
    SubShiftUndone(EncState(w, s, 0));
    AddCancels(s, RoundKey(w, 0));
  }

  // ----------------------------------------------------- one table round

  lemma AddColAssociates(x: Col, y: Col, z: Col)
    ensures AddCol(AddCol(x, y), z) == AddCol(x, AddCol(y, z))
  {
    hide Add;
    AddAssociates(x.r0, y.r0, z.r0); AddAssociates(x.r1, y.r1, z.r1);
    AddAssociates(x.r2, y.r2, z.r2); AddAssociates(x.r3, y.r3, z.r3);
  }

  lemma XorOfFour(a: Col, b: Col, c: Col, d: Col, wa: bv32, wb: bv32, wc: bv32, wd: bv32, k: bv32)
    requires wa == Pack(a) && wb == Pack(b) && wc == Pack(c) && wd == Pack(d)
    ensures Unpack(wa ^ wb ^ wc ^ wd ^ k) == AddCol(AddCol(AddCol(a, b), AddCol(c, d)), Unpack(k))
  {
    hide Pack; hide Unpack; hide AddCol;
    PackOfUnpack(k);
    PackXor(a, b);
    PackXor(AddCol(a, b), c);
    PackXor(AddCol(AddCol(a, b), c), d);
    AddColAssociates(AddCol(a, b), c, d);
    PackXor(AddCol(AddCol(a, b), AddCol(c, d)), Unpack(k));
    UnpackOfPack(AddCol(AddCol(AddCol(a, b), AddCol(c, d)), Unpack(k)));
  }

  lemma ForwardEntries(t: Tables, a: bv8)
    requires t.Built()
    ensures Holds(t.fl_tab, Nat(a), Col(SBox(a), 0, 0, 0)) && Holds(t.ft_tab, Nat(a), Spread(SBox(a)))
  {
    hide SBox; hide Nat; hide Holds; hide Spread; hide InvSpread; hide Pow; hide XPow; hide Pack;
  }

  lemma InverseEntries(t: Tables, a: bv8)
    requires t.Built()
    ensures Holds(t.il_tab, Nat(a), Col(InvSBox(a), 0, 0, 0)) && Holds(t.it_tab, Nat(a), InvSpread(InvSBox(a)))
  {
    hide SBox; hide Nat; hide Holds; hide Spread; hide InvSpread; hide Pow; hide XPow; hide Pack;
  }

  // f_rn: one column of SubBytes, ShiftRows, MixColumns and AddRoundKey by four look-ups
  method FWord(t: Tables, x0: bv32, x1: bv32, x2: bv32, x3: bv32, k: bv32) returns (w: bv32)
    requires t.Built()
    ensures Unpack(w) == AddCol(MixCol(SubCol(Diagonal(x0, x1, x2, x3))), Unpack(k))
  {
    hide Pack; hide Unpack; hide AddCol; hide MixCol; hide Spread; hide Spin; hide SBox; hide Nat; hide ByteOf;
    hide Tables.FieldTables; hide Tables.RoundConstants; hide Tables.Boxes; hide Tables.RoundTables;
    ghost var c := Diagonal(x0, x1, x2, x3);
    ForwardEntries(t, c.r0); ForwardEntries(t, c.r1); ForwardEntries(t, c.r2); ForwardEntries(t, c.r3);
    var a, b := t.ft_tab[0, Nat(ByteOf(x0, 0))], t.ft_tab[1, Nat(ByteOf(x1, 1))];
    var d, e := t.ft_tab[2, Nat(ByteOf(x2, 2))], t.ft_tab[3, Nat(ByteOf(x3, 3))];
    w := a ^ b ^ d ^ e ^ k;
    XorOfFour(Spread(SBox(c.r0)), Spin(Spin(Spin(Spread(SBox(c.r1))))), Spin(Spin(Spread(SBox(c.r2)))), Spin(Spread(SBox(c.r3))), a, b, d, e, k);
    MixColIsSum(SubCol(c));
  }

  method IWord(t: Tables, x0: bv32, x1: bv32, x2: bv32, x3: bv32, k: bv32) returns (w: bv32)
    requires t.Built()
    ensures Unpack(w) == AddCol(InvMixCol(InvSubCol(Diagonal(x0, x1, x2, x3))), Unpack(k))
  {
    hide Pack; hide Unpack; hide AddCol; hide InvMixCol; hide InvSpread; hide Spin; hide SBox; hide InvSBox; hide Nat; hide ByteOf;
    hide Tables.FieldTables; hide Tables.RoundConstants; hide Tables.Boxes; hide Tables.RoundTables;
    ghost var c := Diagonal(x0, x1, x2, x3);
    InverseEntries(t, c.r0); InverseEntries(t, c.r1); InverseEntries(t, c.r2); InverseEntries(t, c.r3);
    var a, b := t.it_tab[0, Nat(ByteOf(x0, 0))], t.it_tab[1, Nat(ByteOf(x1, 1))];
    var d, e := t.it_tab[2, Nat(ByteOf(x2, 2))], t.it_tab[3, Nat(ByteOf(x3, 3))];
    w := a ^ b ^ d ^ e ^ k;
    ghost var s := InvSubCol(c);
    XorOfFour(InvSpread(s.r0), Spin(Spin(Spin(InvSpread(s.r1)))), Spin(Spin(InvSpread(s.r2))), Spin(InvSpread(s.r3)), a, b, d, e, k);
    InvMixColIsSum(s);
  }

  lemma ColOfBytes(a: bv8, b: bv8, c: bv8, d: bv8)
    ensures AddCol(AddCol(Col(a, 0, 0, 0), Spin(Spin(Spin(Col(b, 0, 0, 0))))),
                   AddCol(Spin(Spin(Col(c, 0, 0, 0))), Spin(Col(d, 0, 0, 0)))) == Col(a, b, c, d)
  {
    hide Add;
    AddZero(0); AddZero(a); AddZero(b); AddZero(c); AddZero(d);
    AddCommutes(0, a); AddCommutes(0, b); AddCommutes(0, c); AddCommutes(0, d);
  }

  // f_rl and, with a zero key, ls_box
  method FLastWord(t: Tables, x0: bv32, x1: bv32, x2: bv32, x3: bv32, k: bv32) returns (w: bv32)
    requires t.Built()
    ensures Unpack(w) == AddCol(SubCol(Diagonal(x0, x1, x2, x3)), Unpack(k))
  {
    hide Pack; hide Unpack; hide AddCol; hide Spin; hide SBox; hide Nat; hide ByteOf;
    hide Tables.FieldTables; hide Tables.RoundConstants; hide Tables.Boxes; hide Tables.RoundTables;
    ghost var c := Diagonal(x0, x1, x2, x3);
    ForwardEntries(t, c.r0); ForwardEntries(t, c.r1); ForwardEntries(t, c.r2); ForwardEntries(t, c.r3);
    var a, b := t.fl_tab[0, Nat(ByteOf(x0, 0))], t.fl_tab[1, Nat(ByteOf(x1, 1))];
    var d, e := t.fl_tab[2, Nat(ByteOf(x2, 2))], t.fl_tab[3, Nat(ByteOf(x3, 3))];
    w := a ^ b ^ d ^ e ^ k;
    ghost var s := SubCol(c);
    XorOfFour(Col(s.r0, 0, 0, 0), Spin(Spin(Spin(Col(s.r1, 0, 0, 0)))), Spin(Spin(Col(s.r2, 0, 0, 0))), Spin(Col(s.r3, 0, 0, 0)), a, b, d, e, k);
    ColOfBytes(s.r0, s.r1, s.r2, s.r3);
  }

  method ILastWord(t: Tables, x0: bv32, x1: bv32, x2: bv32, x3: bv32, k: bv32) returns (w: bv32)
    requires t.Built()
    ensures Unpack(w) == AddCol(InvSubCol(Diagonal(x0, x1, x2, x3)), Unpack(k))
  {
    hide Pack; hide Unpack; hide AddCol; hide Spin; hide SBox; hide InvSBox; hide Nat; hide ByteOf;
    hide Tables.FieldTables; hide Tables.RoundConstants; hide Tables.Boxes; hide Tables.RoundTables;
    ghost var c := Diagonal(x0, x1, x2, x3);
    InverseEntries(t, c.r0); InverseEntries(t, c.r1); InverseEntries(t, c.r2); InverseEntries(t, c.r3);
    var a, b := t.il_tab[0, Nat(ByteOf(x0, 0))], t.il_tab[1, Nat(ByteOf(x1, 1))];
    var d, e := t.il_tab[2, Nat(ByteOf(x2, 2))], t.il_tab[3, Nat(ByteOf(x3, 3))];
    w := a ^ b ^ d ^ e ^ k;
    ghost var s := InvSubCol(c);
    XorOfFour(Col(s.r0, 0, 0, 0), Spin(Spin(Spin(Col(s.r1, 0, 0, 0)))), Spin(Spin(Col(s.r2, 0, 0, 0))), Spin(Col(s.r3, 0, 0, 0)), a, b, d, e, k);
    ColOfBytes(s.r0, s.r1, s.r2, s.r3);
  }

  function Diagonal(x0: bv32, x1: bv32, x2: bv32, x3: bv32): Col {
    Col(ByteOf(x0, 0), ByteOf(x1, 1), ByteOf(x2, 2), ByteOf(x3, 3))
  }

  // ------------------------------------------------- whole table rounds

  // f_nround
  method FRound(t: Tables, b: seq<bv32>, k: seq<bv32>) returns (o: seq<bv32>)
    requires t.Built() && |b| == |k| == 4
    ensures |o| == 4
    ensures Words(o) == AddRoundKey(MixColumns(ShiftRows(SubBytes(Words(b)))), Words(k))
  {
    hide Tables.Built; hide AddCol; hide MixCol; hide SBox; hide ByteOf;
    var w0 := FWord(t, b[0], b[1], b[2], b[3], k[0]);
    var w1 := FWord(t, b[1], b[2], b[3], b[0], k[1]);
    var w2 := FWord(t, b[2], b[3], b[0], b[1], k[2]);
    var w3 := FWord(t, b[3], b[0], b[1], b[2], k[3]);
    o := [w0, w1, w2, w3];
  }

  // f_lround
  method FLast(t: Tables, b: seq<bv32>, k: seq<bv32>) returns (o: seq<bv32>)
    requires t.Built() && |b| == |k| == 4
    ensures |o| == 4
    ensures Words(o) == AddRoundKey(ShiftRows(SubBytes(Words(b))), Words(k))
  {
    hide Tables.Built; hide AddCol; hide SBox; hide ByteOf;
    var w0 := FLastWord(t, b[0], b[1], b[2], b[3], k[0]);
    var w1 := FLastWord(t, b[1], b[2], b[3], b[0], k[1]);
    var w2 := FLastWord(t, b[2], b[3], b[0], b[1], k[2]);
    var w3 := FLastWord(t, b[3], b[0], b[1], b[2], k[3]);
    o := [w0, w1, w2, w3];
  }

  // i_nround
  method IRound(t: Tables, b: seq<bv32>, k: seq<bv32>) returns (o: seq<bv32>)
    requires t.Built() && |b| == |k| == 4
    ensures |o| == 4
    ensures Words(o) == AddRoundKey(InvMixColumns(InvSubBytes(InvShiftRows(Words(b)))), Words(k))
  {
    hide Tables.Built; hide AddCol; hide InvMixCol; hide InvSBox; hide ByteOf;
    var w0 := IWord(t, b[0], b[3], b[2], b[1], k[0]);
    var w1 := IWord(t, b[1], b[0], b[3], b[2], k[1]);
    var w2 := IWord(t, b[2], b[1], b[0], b[3], k[2]);
    var w3 := IWord(t, b[3], b[2], b[1], b[0], k[3]);
    o := [w0, w1, w2, w3];
  }

  // i_lround
  method ILast(t: Tables, b: seq<bv32>, k: seq<bv32>) returns (o: seq<bv32>)
    requires t.Built() && |b| == |k| == 4
    ensures |o| == 4
    ensures Words(o) == AddRoundKey(InvSubBytes(InvShiftRows(Words(b))), Words(k))
  {
    hide Tables.Built; hide AddCol; hide InvSBox; hide ByteOf;
    var w0 := ILastWord(t, b[0], b[3], b[2], b[1], k[0]);
    var w1 := ILastWord(t, b[1], b[0], b[3], b[2], k[1]);
    var w2 := ILastWord(t, b[2], b[1], b[0], b[3], k[2]);
    var w3 := ILastWord(t, b[3], b[2], b[1], b[0], k[3]);
    o := [w0, w1, w2, w3];
  }

  // ls_box: the S-box on each byte of a word
  method LsBox(t: Tables, x: bv32) returns (w: bv32)
    requires t.Built()
    ensures Unpack(w) == SubCol(Unpack(x))
  {
    hide Tables.Built; hide AddCol; hide SBox; hide ByteOf;
    w := FLastWord(t, x, x, x, x, 0);
    ZeroWord();
    AddZeroCol(SubCol(Unpack(x)));
  }

  lemma ZeroWord()
    ensures Unpack(0) == Col(0, 0, 0, 0)
  {
  }

  lemma AddZeroCol(c: Col)
    ensures AddCol(c, Col(0, 0, 0, 0)) == c
  {
    hide Add;
    AddZero(c.r0); AddZero(c.r1); AddZero(c.r2); AddZero(c.r3);
  }
}
