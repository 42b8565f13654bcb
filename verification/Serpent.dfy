// The bitsliced Serpent of crypto/serpent.c.  Its S-box macros, its linear
// transformation and its register renaming are set against the published
// S-box tables applied at every bit position.  No operation of the cipher is an
// addition, so a 32-bit word is modelled exactly by its 32 bits, index 0 least.
module Serpent {
  import opened Basics

  type Word = w: seq<bool> | |w| == 32 witness seq(32, _ => false)

  datatype Block = Block(a: Word, b: Word, c: Word, d: Word)

  // ---------------------------------------------------------------- words

  function Xor(x: Word, y: Word): (z: Word)
    ensures forall i {:trigger z[i]} | 0 <= i < 32 :: z[i] == (x[i] != y[i])
  {
    seq(32, i requires 0 <= i < 32 => x[i] != y[i])
  }

  function And(x: Word, y: Word): (z: Word)
    ensures forall i {:trigger z[i]} | 0 <= i < 32 :: z[i] == (x[i] && y[i])
  {
    seq(32, i requires 0 <= i < 32 => x[i] && y[i])
  }

  function Or(x: Word, y: Word): (z: Word)
    ensures forall i {:trigger z[i]} | 0 <= i < 32 :: z[i] == (x[i] || y[i])
  {
    seq(32, i requires 0 <= i < 32 => x[i] || y[i])
  }

  function Not(x: Word): (z: Word)
    ensures forall i {:trigger z[i]} | 0 <= i < 32 :: z[i] == !x[i]
  {
    seq(32, i requires 0 <= i < 32 => !x[i])
  }

  function Rol(x: Word, r: nat): Word
    requires r <= 32
  {
    x[32 - r..] + x[..32 - r]
  }

  function Ror(x: Word, r: nat): Word
    requires r <= 32
  {
    x[r..] + x[..r]
  }

  function Shl(x: Word, r: nat): Word
    requires r <= 32
  {
    seq(r, _ => false) + x[..32 - r]
  }

  lemma XorCancels(x: Word, y: Word)
    ensures Xor(Xor(x, y), y) == x
  {
    assert forall i | 0 <= i < 32 :: Xor(Xor(x, y), y)[i] == x[i];
  }

  lemma RotationsCancel(x: Word, r: nat)
    requires r <= 32
    ensures Ror(Rol(x, r), r) == x && Rol(Ror(x, r), r) == x
  {
  }

  // ---------------------------------------------------------------- bytes

  // the bits of a byte, index 0 least
  function Bits(b: Byte): (w: seq<bool>)
    ensures |w| == 8
  {
    [b & 1 != 0, b & 2 != 0, b & 4 != 0, b & 8 != 0, b & 16 != 0, b & 32 != 0, b & 64 != 0, b & 128 != 0]
  }

  function Weight(bit: bool, w: Byte): Byte {
    if bit then w else 0
  }

  function FromBits(w: seq<bool>): Byte
    requires |w| == 8
  {
    Weight(w[0], 1) | Weight(w[1], 2) | Weight(w[2], 4) | Weight(w[3], 8)
    | Weight(w[4], 16) | Weight(w[5], 32) | Weight(w[6], 64) | Weight(w[7], 128)
  }

  lemma BitsBack(b: Byte)
    ensures FromBits(Bits(b)) == b
  {
  }

  lemma BitsOf(w: seq<bool>)
    requires |w| == 8
    ensures Bits(FromBits(w)) == w
  {
  }

  // le32_to_cpu and cpu_to_le32
  function LoadWord(s: Bytes): Word
    requires |s| == 4
  {
    Bits(s[0]) + Bits(s[1]) + Bits(s[2]) + Bits(s[3])
  }

  function StoreWord(w: Word): (s: Bytes)
    ensures |s| == 4
  {
    [FromBits(w[..8]), FromBits(w[8..16]), FromBits(w[16..24]), FromBits(w[24..])]
  }

  lemma WordBack(s: Bytes)
    requires |s| == 4
    ensures StoreWord(LoadWord(s)) == s
  {
    hide Bits; hide FromBits;
    BitsBack(s[0]);
    BitsBack(s[1]);
    BitsBack(s[2]);
    BitsBack(s[3]);
    var w := LoadWord(s);
    assert w[..8] == Bits(s[0]) && w[8..16] == Bits(s[1]) && w[16..24] == Bits(s[2]) && w[24..] == Bits(s[3]);
  }

  lemma WordOf(w: Word)
    ensures LoadWord(StoreWord(w)) == w
  {
    hide Bits; hide FromBits;
    BitsOf(w[..8]);
    BitsOf(w[8..16]);
    BitsOf(w[16..24]);
    BitsOf(w[24..]);
  }

  function LoadBlock(s: Bytes): Block
    requires |s| == 16
  {
    Block(LoadWord(s[..4]), LoadWord(s[4..8]), LoadWord(s[8..12]), LoadWord(s[12..]))
  }

  function StoreBlock(x: Block): (s: Bytes)
    ensures |s| == 16
  {
    StoreWord(x.a) + StoreWord(x.b) + StoreWord(x.c) + StoreWord(x.d)
  }

  lemma BlockBack(s: Bytes)
    requires |s| == 16
    ensures StoreBlock(LoadBlock(s)) == s
  {
    hide LoadWord; hide StoreWord;
    WordBack(s[..4]);
    WordBack(s[4..8]);
    WordBack(s[8..12]);
    WordBack(s[12..]);
    assert s == s[..4] + s[4..8] + s[8..12] + s[12..];
  }

  lemma BlockOf(x: Block)
    ensures LoadBlock(StoreBlock(x)) == x
  {
    hide LoadWord; hide StoreWord;
    WordOf(x.a);
    WordOf(x.b);
    WordOf(x.c);
    WordOf(x.d);
    var s := StoreBlock(x);
    assert s[..4] == StoreWord(x.a) && s[4..8] == StoreWord(x.b) && s[8..12] == StoreWord(x.c) && s[12..] == StoreWord(x.d);
  }

  // ------------------------------------------------------- the reference

  // The eight S-boxes as published; entry n of a row is the image of nibble n.
  const SBOX: seq<seq<nat>> := [
    [3, 8, 15, 1, 10, 6, 5, 11, 14, 13, 4, 2, 7, 0, 9, 12],
    [15, 12, 2, 7, 9, 0, 5, 10, 1, 11, 14, 8, 6, 13, 3, 4],
    [8, 6, 7, 9, 3, 12, 10, 15, 13, 1, 14, 4, 0, 11, 5, 2],
    [0, 15, 11, 8, 12, 9, 6, 3, 13, 1, 2, 4, 10, 7, 5, 14],
    [1, 15, 8, 3, 12, 0, 11, 6, 2, 5, 4, 10, 9, 14, 7, 13],
    [15, 5, 2, 11, 4, 10, 9, 12, 0, 3, 14, 8, 13, 6, 7, 1],
    [7, 2, 12, 5, 8, 4, 6, 11, 14, 9, 1, 15, 13, 3, 10, 0],
    [1, 13, 15, 0, 14, 8, 2, 11, 7, 4, 12, 10, 9, 3, 5, 6]
  ]

  // The nibble that the four words of a block hold at bit position i.
  function Nibble(x: Block, i: nat): nat
    requires i < 32
  {
    (if x.a[i] then 1 else 0) + (if x.b[i] then 2 else 0) +
    (if x.c[i] then 4 else 0) + (if x.d[i] then 8 else 0)
  }

  function TableBit(box: nat, x: Block, i: nat, weight: nat): bool
    requires box < 8 && i < 32 && weight in {1, 2, 4, 8}
  {
    (SBOX[box][Nibble(x, i)] / weight) % 2 == 1
  }

  // S-box `box` applied to the nibble at every bit position.
  function Sub(box: nat, x: Block): Block
    requires box < 8
  {
    Block(seq(32, i requires 0 <= i < 32 => TableBit(box, x, i, 1)),
          seq(32, i requires 0 <= i < 32 => TableBit(box, x, i, 2)),
          seq(32, i requires 0 <= i < 32 => TableBit(box, x, i, 4)),
          seq(32, i requires 0 <= i < 32 => TableBit(box, x, i, 8)))
  }

  lemma SubIsTheTable(box: nat, x: Block, y: Block)
    requires box < 8
    requires forall i | 0 <= i < 32 :: Nibble(y, i) == SBOX[box][Nibble(x, i)]
    ensures y == Sub(box, x)
  {
    forall i | 0 <= i < 32
      ensures y.a[i] == TableBit(box, x, i, 1) && y.b[i] == TableBit(box, x, i, 2)
      ensures y.c[i] == TableBit(box, x, i, 4) && y.d[i] == TableBit(box, x, i, 8)
    {
      NibbleBits(y, i);
    }
  }

  lemma NibbleBits(x: Block, i: nat)
    requires i < 32
    ensures x.a[i] == (Nibble(x, i) % 2 == 1) && x.b[i] == ((Nibble(x, i) / 2) % 2 == 1)
    ensures x.c[i] == ((Nibble(x, i) / 4) % 2 == 1) && x.d[i] == ((Nibble(x, i) / 8) % 2 == 1)
  {
  }

  lemma SubInjective(box: nat, x: Block, y: Block)
    requires box < 8 && Sub(box, x) == Sub(box, y)
    ensures x == y
  {
    forall i | 0 <= i < 32
      ensures x.a[i] == y.a[i] && x.b[i] == y.b[i] && x.c[i] == y.c[i] && x.d[i] == y.d[i]
    {
      SubAt(box, x, i);
      SubAt(box, y, i);
      TablesInjective(box, Nibble(x, i), Nibble(y, i));
      NibbleBits(x, i);
      NibbleBits(y, i);
    }
  }

  lemma SubAt(box: nat, x: Block, i: nat)
    requires box < 8 && i < 32
    ensures Nibble(Sub(box, x), i) == SBOX[box][Nibble(x, i)]
  {
    var n := SBOX[box][Nibble(x, i)];
    TablesInvert(box, Nibble(x, i));
    FourBits(n);
  }

  lemma FourBits(n: nat)
    requires n < 16
    ensures n == n % 2 + 2 * ((n / 2) % 2) + 4 * ((n / 4) % 2) + 8 * ((n / 8) % 2)
  {
  }

  lemma TablesInjective(box: nat, m: nat, n: nat)
    requires box < 8 && m < 16 && n < 16 && SBOX[box][m] == SBOX[box][n]
    ensures m == n
  {
    TablesInvert(box, m);
    TablesInvert(box, n);
  }

  const INVERSE: seq<seq<nat>> := [
    [13, 3, 11, 0, 10, 6, 5, 12, 1, 14, 4, 7, 15, 9, 8, 2],
    [5, 8, 2, 14, 15, 6, 12, 3, 11, 4, 7, 9, 1, 13, 10, 0],
    [12, 9, 15, 4, 11, 14, 1, 2, 0, 3, 6, 13, 5, 8, 10, 7],
    [0, 9, 10, 7, 11, 14, 6, 13, 3, 5, 12, 2, 4, 8, 15, 1],
    [5, 0, 8, 3, 10, 9, 7, 14, 2, 12, 11, 6, 4, 15, 13, 1],
    [8, 15, 2, 9, 4, 1, 13, 14, 11, 6, 5, 3, 7, 12, 10, 0],
    [15, 10, 1, 13, 5, 3, 6, 0, 4, 9, 14, 7, 2, 12, 8, 11],
    [3, 0, 6, 13, 9, 14, 15, 8, 5, 12, 11, 7, 10, 1, 4, 2]
  ]

  lemma TablesInvert(box: nat, m: nat)
    requires box < 8 && m < 16
    ensures SBOX[box][m] < 16 && INVERSE[box][SBOX[box][m]] == m
  {
    if box < 2 { Tables01Invert(box, m); }
    else if box < 4 { Tables23Invert(box, m); }
    else if box < 6 { Tables45Invert(box, m); }
    else { Tables67Invert(box, m); }
  }

  lemma Tables01Invert(box: nat, m: nat)
    requires 0 <= box <= 1 && m < 16
    ensures SBOX[box][m] < 16 && INVERSE[box][SBOX[box][m]] == m
  {
  }

  lemma Tables23Invert(box: nat, m: nat)
    requires 2 <= box <= 3 && m < 16
    ensures SBOX[box][m] < 16 && INVERSE[box][SBOX[box][m]] == m
  {
  }

  lemma Tables45Invert(box: nat, m: nat)
    requires 4 <= box <= 5 && m < 16
    ensures SBOX[box][m] < 16 && INVERSE[box][SBOX[box][m]] == m
  {
  }

  lemma Tables67Invert(box: nat, m: nat)
    requires 6 <= box <= 7 && m < 16
    ensures SBOX[box][m] < 16 && INVERSE[box][SBOX[box][m]] == m
  {
  }

  // The linear transformation, as published.
  function LT(x: Block): Block {
    var x0 := Rol(x.a, 13);
    var x2 := Rol(x.c, 3);
    var x1 := Rol(Xor(Xor(x.b, x0), x2), 1);
    var x3 := Rol(Xor(Xor(x.d, x2), Shl(x0, 3)), 7);
    Block(Rol(Xor(Xor(x0, x1), x3), 5), x1, Rol(Xor(Xor(x2, x3), Shl(x1, 7)), 22), x3)
  }

  function InvLT(y: Block): Block {
    var x0 := Xor(Xor(Ror(y.a, 5), y.d), y.b);
    var x2 := Xor(Xor(Ror(y.c, 22), y.d), Shl(y.b, 7));
    Block(Ror(x0, 13), Xor(Xor(Ror(y.b, 1), x0), x2), Ror(x2, 3), Xor(Xor(Ror(y.d, 7), Shl(x0, 3)), x2))
  }

  lemma LTInverse(x: Block)
    ensures InvLT(LT(x)) == x
  {
    hide Xor; hide Rol; hide Ror; hide Shl;
    var x0, x2 := Rol(x.a, 13), Rol(x.c, 3);
    var y1, y3 := Xor(Xor(x.b, x0), x2), Xor(Xor(x.d, x2), Shl(x0, 3));
    var x1, x3 := Rol(y1, 1), Rol(y3, 7);
    RotationsCancel(x.a, 13); RotationsCancel(x.c, 3); RotationsCancel(y1, 1); RotationsCancel(y3, 7);
    RotationsCancel(Xor(Xor(x0, x1), x3), 5); RotationsCancel(Xor(Xor(x2, x3), Shl(x1, 7)), 22);
    XorSwapsOut(x0, x1, x3); XorUndoes(x2, x3, Shl(x1, 7)); XorUndoes(x.b, x0, x2); XorSwapsOut(x.d, x2, Shl(x0, 3));
  }

  lemma XorUndoes(x: Word, y: Word, z: Word)
    ensures Xor(Xor(Xor(Xor(x, y), z), y), z) == x
  {
    assert forall i | 0 <= i < 32 :: Xor(Xor(Xor(Xor(x, y), z), y), z)[i] == x[i];
  }

  lemma XorSwapsOut(x: Word, y: Word, z: Word)
    ensures Xor(Xor(Xor(Xor(x, y), z), z), y) == x
  {
    assert forall i | 0 <= i < 32 :: Xor(Xor(Xor(Xor(x, y), z), z), y)[i] == x[i];
  }

  lemma InvLTInverse(y: Block)
    ensures LT(InvLT(y)) == y
  {
    hide Xor; hide Rol; hide Ror; hide Shl;
    var x0, x2 := Xor(Xor(Ror(y.a, 5), y.d), y.b), Xor(Xor(Ror(y.c, 22), y.d), Shl(y.b, 7));
    RotationsCancel(x0, 13); RotationsCancel(x2, 3); RotationsCancel(y.b, 1); RotationsCancel(y.d, 7);
    RotationsCancel(y.a, 5); RotationsCancel(y.c, 22);
    XorSwapsOut(Ror(y.a, 5), y.d, y.b); XorUndoes(Ror(y.c, 22), y.d, Shl(y.b, 7));
    XorUndoes(Ror(y.b, 1), x0, x2); XorSwapsOut(Ror(y.d, 7), Shl(x0, 3), x2);
  }

  function XorBlock(x: Block, y: Block): Block {
    Block(Xor(x.a, y.a), Xor(x.b, y.b), Xor(x.c, y.c), Xor(x.d, y.d))
  }

  lemma XorBlockCancels(x: Block, y: Block)
    ensures XorBlock(XorBlock(x, y), y) == x
  {
    XorCancels(x.a, y.a);
    XorCancels(x.b, y.b);
    XorCancels(x.c, y.c);
    XorCancels(x.d, y.d);
  }

  type Key = k: seq<Word> | |k| == 132 witness seq(132, _ => seq(32, _ => false))

  function RoundKey(k: Key, i: nat): Block
    requires i < 33
  {
    Block(k[4 * i], k[4 * i + 1], k[4 * i + 2], k[4 * i + 3])
  }

  // The block that enters S-box layer n when p is encrypted.
  function State(k: Key, p: Block, n: nat): Block
    requires n < 32
  {
    if n == 0 then XorBlock(p, RoundKey(k, 0))
    else XorBlock(LT(Sub((n - 1) % 8, State(k, p, n - 1))), RoundKey(k, n))
  }

  // What is left of an encryption whose S-box layer n is about to see x.
  function Finish(k: Key, x: Block, n: nat): Block
    requires n < 32
    decreases 32 - n
  {
    if n == 31 then XorBlock(Sub(7, x), RoundKey(k, 32))
    else Finish(k, XorBlock(LT(Sub(n % 8, x)), RoundKey(k, n + 1)), n + 1)
  }

  // Serpent: 32 rounds of key mixing and substitution, the linear
  // transformation after all but the last, and a closing round key.
  function Cipher(k: Key, p: Block): Block {
    XorBlock(Sub(7, State(k, p, 31)), RoundKey(k, 32))
  }

  lemma FirstState(k: Key, p: Block)
    ensures State(k, p, 0) == XorBlock(p, RoundKey(k, 0))
  {
  }

  lemma LastRound(k: Key, c: Block, x: Block)
    requires XorBlock(Sub(7, x), RoundKey(k, 32)) == c
    ensures Finish(k, x, 31) == c
  {
  }

  lemma StateStep(k: Key, p: Block, n: nat, box: nat, x: Block, y: Block)
    requires n < 31 && box == n % 8 && x == State(k, p, n) && y == XorBlock(LT(Sub(box, x)), RoundKey(k, n + 1))
    ensures y == State(k, p, n + 1)
  {
  }

  lemma FinishStep(k: Key, c: Block, n: nat, x: Block, y: Block)
    requires n < 31 && Finish(k, y, n + 1) == c && y == XorBlock(LT(Sub(n % 8, x)), RoundKey(k, n + 1))
    ensures Finish(k, x, n) == c
  {
  }

  lemma {:induction false} FinishOfState(k: Key, p: Block, n: nat)
    requires n < 32
    ensures Finish(k, State(k, p, n), n) == Cipher(k, p)
    decreases 32 - n
  {
    hide Sub; hide LT; hide XorBlock; hide RoundKey;
    if n < 31 {
      FinishOfState(k, p, n + 1);
    }
  }

  lemma {:induction false} FinishInjective(k: Key, x: Block, y: Block, n: nat)
    requires n < 32 && Finish(k, x, n) == Finish(k, y, n)
    ensures x == y
    decreases 32 - n
  {
    hide Sub; hide LT; hide XorBlock; hide RoundKey;
    if n == 31 {
      XorBlockCancels(Sub(7, x), RoundKey(k, 32));
      XorBlockCancels(Sub(7, y), RoundKey(k, 32));
      SubInjective(7, x, y);
    } else {
      var u, v := Sub(n % 8, x), Sub(n % 8, y);
      FinishInjective(k, XorBlock(LT(u), RoundKey(k, n + 1)), XorBlock(LT(v), RoundKey(k, n + 1)), n + 1);
      XorBlockCancels(LT(u), RoundKey(k, n + 1));
      XorBlockCancels(LT(v), RoundKey(k, n + 1));
      LTInverse(u);
      LTInverse(v);
      SubInjective(n % 8, x, y);
    }
  }

  // Distinct plaintexts have distinct ciphertexts under every expanded key.
  lemma CipherInjective(k: Key, p: Block, q: Block)
    requires Cipher(k, p) == Cipher(k, q)
    ensures p == q
  {
    hide Sub; hide LT; hide XorBlock; hide RoundKey; hide Cipher; hide Finish;
    FinishOfState(k, p, 0);
    FinishOfState(k, q, 0);
    FinishInjective(k, State(k, p, 0), State(k, q, 0), 0);
    XorBlockCancels(p, RoundKey(k, 0));
    XorBlockCancels(q, RoundKey(k, 0));
  }

  // ------------------------------------------------ the macros of serpent.c

  method S0(a: Word, b: Word, c: Word, d: Word) returns (x0: Word, x1: Word, x2: Word, x3: Word, x4: Word)
    ensures Block(x2, x1, x3, x0) == Sub(0, Block(a, b, c, d))
  {
    hide Xor; hide And; hide Or; hide Not; hide Sub;
    x0, x1, x2, x3 := a, b, c, d;
    x4 := x3; x3 := Or(x3, x0); x0 := Xor(x0, x4); x4 := Xor(x4, x2);
    x4 := Not(x4); x3 := Xor(x3, x1); x1 := And(x1, x0); x1 := Xor(x1, x4);
    x2 := Xor(x2, x0); x0 := Xor(x0, x3); x4 := Or(x4, x0); x0 := Xor(x0, x2);
    x2 := And(x2, x1); x3 := Xor(x3, x2); x1 := Not(x1); x2 := Xor(x2, x4);
    x1 := Xor(x1, x2);
    SubIsTheTable(0, Block(a, b, c, d), Block(x2, x1, x3, x0));
  }

  method S1(a: Word, b: Word, c: Word, d: Word) returns (x0: Word, x1: Word, x2: Word, x3: Word, x4: Word)
    ensures Block(x4, x2, x3, x0) == Sub(1, Block(a, b, c, d))
  {
    hide Xor; hide And; hide Or; hide Not; hide Sub;
    x0, x1, x2, x3 := a, b, c, d;
    x4 := x1; x1 := Xor(x1, x0); x0 := Xor(x0, x3); x3 := Not(x3);
    x4 := And(x4, x1); x0 := Or(x0, x1); x3 := Xor(x3, x2); x0 := Xor(x0, x3);
    x1 := Xor(x1, x3); x3 := Xor(x3, x4); x1 := Or(x1, x4); x4 := Xor(x4, x2);
    x2 := And(x2, x0); x2 := Xor(x2, x1); x1 := Or(x1, x0); x0 := Not(x0);
    x0 := Xor(x0, x2); x4 := Xor(x4, x1);
    SubIsTheTable(1, Block(a, b, c, d), Block(x4, x2, x3, x0));
  }

  method S2(a: Word, b: Word, c: Word, d: Word) returns (x0: Word, x1: Word, x2: Word, x3: Word, x4: Word)
    ensures Block(x4, x1, x0, x3) == Sub(2, Block(a, b, c, d))
  {
    hide Xor; hide And; hide Or; hide Not; hide Sub;
    x0, x1, x2, x3 := a, b, c, d;
    x3 := Not(x3); x1 := Xor(x1, x0); x4 := x0; x0 := And(x0, x2);
    x0 := Xor(x0, x3); x3 := Or(x3, x4); x2 := Xor(x2, x1); x3 := Xor(x3, x1);
    x1 := And(x1, x0); x0 := Xor(x0, x2); x2 := And(x2, x3); x3 := Or(x3, x1);
    x0 := Not(x0); x3 := Xor(x3, x0); x4 := Xor(x4, x0); x0 := Xor(x0, x2);
    x1 := Or(x1, x2);
    SubIsTheTable(2, Block(a, b, c, d), Block(x4, x1, x0, x3));
  }

  method S3(a: Word, b: Word, c: Word, d: Word) returns (x0: Word, x1: Word, x2: Word, x3: Word, x4: Word)
    ensures Block(x3, x4, x1, x0) == Sub(3, Block(a, b, c, d))
  {
    hide Xor; hide And; hide Or; hide Not; hide Sub;
    x0, x1, x2, x3 := a, b, c, d;
    x4 := x1; x1 := Xor(x1, x3); x3 := Or(x3, x0); x4 := And(x4, x0);
    x0 := Xor(x0, x2); x2 := Xor(x2, x1); x1 := And(x1, x3); x2 := Xor(x2, x3);
    x0 := Or(x0, x4); x4 := Xor(x4, x3); x1 := Xor(x1, x0); x0 := And(x0, x3);
    x3 := And(x3, x4); x3 := Xor(x3, x2); x4 := Or(x4, x1); x2 := And(x2, x1);
    x4 := Xor(x4, x3); x0 := Xor(x0, x3); x3 := Xor(x3, x2);
    SubIsTheTable(3, Block(a, b, c, d), Block(x3, x4, x1, x0));
  }

  method S4(a: Word, b: Word, c: Word, d: Word) returns (x0: Word, x1: Word, x2: Word, x3: Word, x4: Word)
    ensures Block(x1, x2, x3, x4) == Sub(4, Block(a, b, c, d))
  {
    hide Xor; hide And; hide Or; hide Not; hide Sub;
    x0, x1, x2, x3 := a, b, c, d;
    x4 := x3; x3 := And(x3, x0); x0 := Xor(x0, x4); x3 := Xor(x3, x2);
    x2 := Or(x2, x4); x0 := Xor(x0, x1); x4 := Xor(x4, x3); x2 := Or(x2, x0);
    x2 := Xor(x2, x1); x1 := And(x1, x0); x1 := Xor(x1, x4); x4 := And(x4, x2);
    x2 := Xor(x2, x3); x4 := Xor(x4, x0); x3 := Or(x3, x1); x1 := Not(x1);
    x3 := Xor(x3, x0);
    SubIsTheTable(4, Block(a, b, c, d), Block(x1, x2, x3, x4));
  }

  method S5(a: Word, b: Word, c: Word, d: Word) returns (x0: Word, x1: Word, x2: Word, x3: Word, x4: Word)
    ensures Block(x4, x0, x1, x3) == Sub(5, Block(a, b, c, d))
  {
    hide Xor; hide And; hide Or; hide Not; hide Sub;
    x0, x1, x2, x3 := a, b, c, d;
    x4 := x1; x1 := Or(x1, x0); x2 := Xor(x2, x1); x3 := Not(x3);
    x4 := Xor(x4, x0); x0 := Xor(x0, x2); x1 := And(x1, x4); x4 := Or(x4, x3);
    x4 := Xor(x4, x0); x0 := And(x0, x3); x1 := Xor(x1, x3); x3 := Xor(x3, x2);
    x0 := Xor(x0, x1); x2 := And(x2, x4); x1 := Xor(x1, x2); x2 := And(x2, x0);
    x3 := Xor(x3, x2);
    SubIsTheTable(5, Block(a, b, c, d), Block(x4, x0, x1, x3));
  }

  method S6(a: Word, b: Word, c: Word, d: Word) returns (x0: Word, x1: Word, x2: Word, x3: Word, x4: Word)
    ensures Block(x2, x4, x1, x3) == Sub(6, Block(a, b, c, d))
  {
    hide Xor; hide And; hide Or; hide Not; hide Sub;
    x0, x1, x2, x3 := a, b, c, d;
    x4 := x1; x3 := Xor(x3, x0); x1 := Xor(x1, x2); x2 := Xor(x2, x0);
    x0 := And(x0, x3); x1 := Or(x1, x3); x4 := Not(x4); x0 := Xor(x0, x1);
    x1 := Xor(x1, x2); x3 := Xor(x3, x4); x4 := Xor(x4, x0); x2 := And(x2, x0);
    x4 := Xor(x4, x1); x2 := Xor(x2, x3); x3 := And(x3, x1); x3 := Xor(x3, x0);
    x1 := Xor(x1, x2);
    SubIsTheTable(6, Block(a, b, c, d), Block(x2, x4, x1, x3));
  }

  method S7(a: Word, b: Word, c: Word, d: Word) returns (x0: Word, x1: Word, x2: Word, x3: Word, x4: Word)
    ensures Block(x4, x2, x3, x0) == Sub(7, Block(a, b, c, d))
  {
    hide Xor; hide And; hide Or; hide Not; hide Sub;
    x0, x1, x2, x3 := a, b, c, d;
    x1 := Not(x1); x4 := x1; x0 := Not(x0); x1 := And(x1, x2);
    x1 := Xor(x1, x3); x3 := Or(x3, x4); x4 := Xor(x4, x2); x2 := Xor(x2, x3);
    x3 := Xor(x3, x0); x0 := Or(x0, x1); x2 := And(x2, x0); x0 := Xor(x0, x4);
    x4 := Xor(x4, x3); x3 := And(x3, x0); x4 := Xor(x4, x1); x2 := Xor(x2, x4);
    x3 := Xor(x3, x1); x4 := Or(x4, x0); x4 := Xor(x4, x1);
    SubIsTheTable(7, Block(a, b, c, d), Block(x4, x2, x3, x0));
  }

  method SI0(a: Word, b: Word, c: Word, d: Word) returns (x0: Word, x1: Word, x2: Word, x3: Word, x4: Word)
    ensures Block(a, b, c, d) == Sub(0, Block(x2, x4, x1, x0))
  {
    hide Xor; hide And; hide Or; hide Not; hide Sub;
    x0, x1, x2, x3 := a, b, c, d;
    x4 := x3; x1 := Xor(x1, x0); x3 := Or(x3, x1); x4 := Xor(x4, x1);
    x0 := Not(x0); x2 := Xor(x2, x3); x3 := Xor(x3, x0); x0 := And(x0, x1);
    x0 := Xor(x0, x2); x2 := And(x2, x3); x3 := Xor(x3, x4); x2 := Xor(x2, x3);
    x1 := Xor(x1, x3); x3 := And(x3, x0); x1 := Xor(x1, x0); x0 := Xor(x0, x2);
    x4 := Xor(x4, x3);
    SubIsTheTable(0, Block(x2, x4, x1, x0), Block(a, b, c, d));
  }

  method SI1(a: Word, b: Word, c: Word, d: Word) returns (x0: Word, x1: Word, x2: Word, x3: Word, x4: Word)
    ensures Block(a, b, c, d) == Sub(1, Block(x4, x1, x2, x3))
  {
    hide Xor; hide And; hide Or; hide Not; hide Sub;
    x0, x1, x2, x3 := a, b, c, d;
    x1 := Xor(x1, x3); x4 := x0; x0 := Xor(x0, x2); x2 := Not(x2);
    x4 := Or(x4, x1); x4 := Xor(x4, x3); x3 := And(x3, x1); x1 := Xor(x1, x2);
    x2 := And(x2, x4); x4 := Xor(x4, x1); x1 := Or(x1, x3); x3 := Xor(x3, x0);
    x2 := Xor(x2, x0); x0 := Or(x0, x4); x2 := Xor(x2, x4); x1 := Xor(x1, x0);
    x4 := Xor(x4, x1);
    SubIsTheTable(1, Block(x4, x1, x2, x3), Block(a, b, c, d));
  }

  method SI2(a: Word, b: Word, c: Word, d: Word) returns (x0: Word, x1: Word, x2: Word, x3: Word, x4: Word)
    ensures Block(a, b, c, d) == Sub(2, Block(x1, x4, x3, x2))
  {
    hide Xor; hide And; hide Or; hide Not; hide Sub;
    x0, x1, x2, x3 := a, b, c, d;
    x2 := Xor(x2, x1); x4 := x3; x3 := Not(x3); x3 := Or(x3, x2);
    x2 := Xor(x2, x4); x4 := Xor(x4, x0); x3 := Xor(x3, x1); x1 := Or(x1, x2);
    x2 := Xor(x2, x0); x1 := Xor(x1, x4); x4 := Or(x4, x3); x2 := Xor(x2, x3);
    x4 := Xor(x4, x2); x2 := And(x2, x1); x2 := Xor(x2, x3); x3 := Xor(x3, x4);
    x4 := Xor(x4, x0);
    SubIsTheTable(2, Block(x1, x4, x3, x2), Block(a, b, c, d));
  }

  method SI3(a: Word, b: Word, c: Word, d: Word) returns (x0: Word, x1: Word, x2: Word, x3: Word, x4: Word)
    ensures Block(a, b, c, d) == Sub(3, Block(x2, x0, x4, x3))
  {
    hide Xor; hide And; hide Or; hide Not; hide Sub;
    x0, x1, x2, x3 := a, b, c, d;
    x2 := Xor(x2, x1); x4 := x1; x1 := And(x1, x2); x1 := Xor(x1, x0);
    x0 := Or(x0, x4); x4 := Xor(x4, x3); x0 := Xor(x0, x3); x3 := Or(x3, x1);
    x1 := Xor(x1, x2); x1 := Xor(x1, x3); x0 := Xor(x0, x2); x2 := Xor(x2, x3);
    x3 := And(x3, x1); x1 := Xor(x1, x0); x0 := And(x0, x2); x4 := Xor(x4, x3);
    x3 := Xor(x3, x0); x0 := Xor(x0, x1);
    SubIsTheTable(3, Block(x2, x0, x4, x3), Block(a, b, c, d));
  }

  method SI4(a: Word, b: Word, c: Word, d: Word) returns (x0: Word, x1: Word, x2: Word, x3: Word, x4: Word)
    ensures Block(a, b, c, d) == Sub(4, Block(x0, x2, x4, x3))
  {
    hide Xor; hide And; hide Or; hide Not; hide Sub;
    x0, x1, x2, x3 := a, b, c, d;
    x2 := Xor(x2, x3); x4 := x0; x0 := And(x0, x1); x0 := Xor(x0, x2);
    x2 := Or(x2, x3); x4 := Not(x4); x1 := Xor(x1, x0); x0 := Xor(x0, x2);
    x2 := And(x2, x4); x2 := Xor(x2, x0); x0 := Or(x0, x4); x0 := Xor(x0, x3);
    x3 := And(x3, x2); x4 := Xor(x4, x3); x3 := Xor(x3, x1); x1 := And(x1, x0);
    x4 := Xor(x4, x1); x0 := Xor(x0, x3);
    SubIsTheTable(4, Block(x0, x2, x4, x3), Block(a, b, c, d));
  }

  method SI5(a: Word, b: Word, c: Word, d: Word) returns (x0: Word, x1: Word, x2: Word, x3: Word, x4: Word)
    ensures Block(a, b, c, d) == Sub(5, Block(x1, x4, x0, x2))
  {
    hide Xor; hide And; hide Or; hide Not; hide Sub;
    x0, x1, x2, x3 := a, b, c, d;
    x4 := x1; x1 := Or(x1, x2); x2 := Xor(x2, x4); x1 := Xor(x1, x3);
    x3 := And(x3, x4); x2 := Xor(x2, x3); x3 := Or(x3, x0); x0 := Not(x0);
    x3 := Xor(x3, x2); x2 := Or(x2, x0); x4 := Xor(x4, x1); x2 := Xor(x2, x4);
    x4 := And(x4, x0); x0 := Xor(x0, x1); x1 := Xor(x1, x3); x0 := And(x0, x2);
    x2 := Xor(x2, x3); x0 := Xor(x0, x2); x2 := Xor(x2, x4); x4 := Xor(x4, x3);
    SubIsTheTable(5, Block(x1, x4, x0, x2), Block(a, b, c, d));
  }

  method SI6(a: Word, b: Word, c: Word, d: Word) returns (x0: Word, x1: Word, x2: Word, x3: Word, x4: Word)
    ensures Block(a, b, c, d) == Sub(6, Block(x2, x4, x3, x0))
  {
    hide Xor; hide And; hide Or; hide Not; hide Sub;
    x0, x1, x2, x3 := a, b, c, d;
    x0 := Xor(x0, x2); x4 := x0; x0 := And(x0, x3); x2 := Xor(x2, x3);
    x0 := Xor(x0, x2); x3 := Xor(x3, x1); x2 := Or(x2, x4); x2 := Xor(x2, x3);
    x3 := And(x3, x0); x0 := Not(x0); x3 := Xor(x3, x1); x1 := And(x1, x2);
    x4 := Xor(x4, x0); x3 := Xor(x3, x4); x4 := Xor(x4, x2); x0 := Xor(x0, x1);
    x2 := Xor(x2, x0);
    SubIsTheTable(6, Block(x2, x4, x3, x0), Block(a, b, c, d));
  }

  method SI7(a: Word, b: Word, c: Word, d: Word) returns (x0: Word, x1: Word, x2: Word, x3: Word, x4: Word)
    ensures Block(a, b, c, d) == Sub(7, Block(x1, x3, x0, x4))
  {
    hide Xor; hide And; hide Or; hide Not; hide Sub;
    x0, x1, x2, x3 := a, b, c, d;
    x4 := x3; x3 := And(x3, x0); x0 := Xor(x0, x2); x2 := Or(x2, x4);
    x4 := Xor(x4, x1); x0 := Not(x0); x1 := Or(x1, x3); x4 := Xor(x4, x0);
    x0 := And(x0, x2); x0 := Xor(x0, x1); x1 := And(x1, x2); x3 := Xor(x3, x2);
    x4 := Xor(x4, x3); x2 := And(x2, x3); x3 := Or(x3, x0); x1 := Xor(x1, x4);
    x3 := Xor(x3, x4); x4 := And(x4, x0); x4 := Xor(x4, x2);
    SubIsTheTable(7, Block(x1, x3, x0, x4), Block(a, b, c, d));
  }

  method MixKey(k: Key, a: Word, b: Word, c: Word, d: Word, i: nat) returns (x0: Word, x1: Word, x2: Word, x3: Word)
    requires i < 33
    ensures Block(x0, x1, x2, x3) == XorBlock(Block(a, b, c, d), RoundKey(k, i))
  {
    x3 := Xor(d, k[4 * i + 3]); x2 := Xor(c, k[4 * i + 2]);
    x1 := Xor(b, k[4 * i + 1]); x0 := Xor(a, k[4 * i + 0]);
  }

  method LK(k: Key, a: Word, b: Word, c: Word, d: Word, i: nat)
    returns (x0: Word, x1: Word, x2: Word, x3: Word, x4: Word)
    requires i < 33
    ensures Block(x0, x1, x2, x3) == XorBlock(LT(Block(a, b, c, d)), RoundKey(k, i))
  {
    hide Xor; hide Rol; hide Shl;
    x0, x1, x2, x3 := a, b, c, d;
    x0 := Rol(x0, 13);
    x2 := Rol(x2, 3); x1 := Xor(x1, x0); x4 := Shl(x0, 3);
    x3 := Xor(x3, x2); x1 := Xor(x1, x2);
    x1 := Rol(x1, 1); x3 := Xor(x3, x4);
    x3 := Rol(x3, 7); x4 := x1;
    x0 := Xor(x0, x1); x4 := Shl(x4, 7); x2 := Xor(x2, x3);
    x0 := Xor(x0, x3); x2 := Xor(x2, x4); x3 := Xor(x3, k[4 * i + 3]);
    x1 := Xor(x1, k[4 * i + 1]); x0 := Rol(x0, 5); x2 := Rol(x2, 22);
    x0 := Xor(x0, k[4 * i + 0]); x2 := Xor(x2, k[4 * i + 2]);
  }

  method KL(k: Key, a: Word, b: Word, c: Word, d: Word, i: nat)
    returns (x0: Word, x1: Word, x2: Word, x3: Word, x4: Word)
    requires i < 33
    ensures XorBlock(LT(Block(x0, x1, x2, x3)), RoundKey(k, i)) == Block(a, b, c, d)
  {
    hide Xor; hide Rol; hide Ror; hide Shl; hide LT;
    x0, x1, x2, x3 := a, b, c, d;
    x0 := Xor(x0, k[4 * i + 0]); x1 := Xor(x1, k[4 * i + 1]); x2 := Xor(x2, k[4 * i + 2]);
    x3 := Xor(x3, k[4 * i + 3]); x0 := Ror(x0, 5); x2 := Ror(x2, 22);
    x4 := x1; x2 := Xor(x2, x3); x0 := Xor(x0, x3);
    x4 := Shl(x4, 7); x0 := Xor(x0, x1); x1 := Ror(x1, 1);
    x2 := Xor(x2, x4); x3 := Ror(x3, 7); x4 := Shl(x0, 3);
    x1 := Xor(x1, x0); x3 := Xor(x3, x4); x0 := Ror(x0, 13);
    x1 := Xor(x1, x2); x3 := Xor(x3, x2); x2 := Ror(x2, 3);
    ghost var y := XorBlock(Block(a, b, c, d), RoundKey(k, i));
    assert Block(x0, x1, x2, x3) == InvLT(y);
    InvLTInverse(y);
    XorBlockCancels(Block(a, b, c, d), RoundKey(k, i));
  }

  // ------------------------------------------------------ whole blocks

  method EncryptRounds0(k: Key, ghost p: Block, a0: Word, a1: Word, a2: Word, a3: Word, a4: Word)
    returns (r0: Word, r1: Word, r2: Word, r3: Word, r4: Word)
    requires Block(a0, a1, a2, a3) == State(k, p, 0)
    ensures Block(r2, r0, r3, r1) == State(k, p, 4)
  {
    hide Sub; hide LT; hide XorBlock; hide RoundKey; hide State; hide Finish; hide Cipher;
    r0, r1, r2, r3, r4 := a0, a1, a2, a3, a4;
    ghost var x: Block;
    x := Block(r0, r1, r2, r3); r0, r1, r2, r3, r4 := S0(r0, r1, r2, r3);
    r2, r1, r3, r0, r4 := LK(k, r2, r1, r3, r0, 1); StateStep(k, p, 0, 0, x, Block(r2, r1, r3, r0));
    x := Block(r2, r1, r3, r0); r2, r1, r3, r0, r4 := S1(r2, r1, r3, r0);
    r4, r3, r0, r2, r1 := LK(k, r4, r3, r0, r2, 2); StateStep(k, p, 1, 1, x, Block(r4, r3, r0, r2));
    x := Block(r4, r3, r0, r2); r4, r3, r0, r2, r1 := S2(r4, r3, r0, r2);
    r1, r3, r4, r2, r0 := LK(k, r1, r3, r4, r2, 3); StateStep(k, p, 2, 2, x, Block(r1, r3, r4, r2));
    x := Block(r1, r3, r4, r2); r1, r3, r4, r2, r0 := S3(r1, r3, r4, r2);
    r2, r0, r3, r1, r4 := LK(k, r2, r0, r3, r1, 4); StateStep(k, p, 3, 3, x, Block(r2, r0, r3, r1));
  }

  method EncryptRounds4(k: Key, ghost p: Block, a0: Word, a1: Word, a2: Word, a3: Word, a4: Word)
    returns (r0: Word, r1: Word, r2: Word, r3: Word, r4: Word)
    requires Block(a2, a0, a3, a1) == State(k, p, 4)
    ensures Block(r2, r0, r4, r3) == State(k, p, 8)
  {
    hide Sub; hide LT; hide XorBlock; hide RoundKey; hide State; hide Finish; hide Cipher;
    r0, r1, r2, r3, r4 := a0, a1, a2, a3, a4;
    ghost var x: Block;
    x := Block(r2, r0, r3, r1); r2, r0, r3, r1, r4 := S4(r2, r0, r3, r1);
    r0, r3, r1, r4, r2 := LK(k, r0, r3, r1, r4, 5); StateStep(k, p, 4, 4, x, Block(r0, r3, r1, r4));
    x := Block(r0, r3, r1, r4); r0, r3, r1, r4, r2 := S5(r0, r3, r1, r4);
    r2, r0, r3, r4, r1 := LK(k, r2, r0, r3, r4, 6); StateStep(k, p, 5, 5, x, Block(r2, r0, r3, r4));
    x := Block(r2, r0, r3, r4); r2, r0, r3, r4, r1 := S6(r2, r0, r3, r4);
    r3, r1, r0, r4, r2 := LK(k, r3, r1, r0, r4, 7); StateStep(k, p, 6, 6, x, Block(r3, r1, r0, r4));
    x := Block(r3, r1, r0, r4); r3, r1, r0, r4, r2 := S7(r3, r1, r0, r4);
    r2, r0, r4, r3, r1 := LK(k, r2, r0, r4, r3, 8); StateStep(k, p, 7, 7, x, Block(r2, r0, r4, r3));
  }

  method EncryptRounds8(k: Key, ghost p: Block, a0: Word, a1: Word, a2: Word, a3: Word, a4: Word)
    returns (r0: Word, r1: Word, r2: Word, r3: Word, r4: Word)
    requires Block(a2, a0, a4, a3) == State(k, p, 8)
    ensures Block(r4, r2, r3, r0) == State(k, p, 12)
  {
    hide Sub; hide LT; hide XorBlock; hide RoundKey; hide State; hide Finish; hide Cipher;
    r0, r1, r2, r3, r4 := a0, a1, a2, a3, a4;
    ghost var x: Block;
    x := Block(r2, r0, r4, r3); r2, r0, r4, r3, r1 := S0(r2, r0, r4, r3);
    r4, r0, r3, r2, r1 := LK(k, r4, r0, r3, r2, 9); StateStep(k, p, 8, 0, x, Block(r4, r0, r3, r2));
    x := Block(r4, r0, r3, r2); r4, r0, r3, r2, r1 := S1(r4, r0, r3, r2);
    r1, r3, r2, r4, r0 := LK(k, r1, r3, r2, r4, 10); StateStep(k, p, 9, 1, x, Block(r1, r3, r2, r4));
    x := Block(r1, r3, r2, r4); r1, r3, r2, r4, r0 := S2(r1, r3, r2, r4);
    r0, r3, r1, r4, r2 := LK(k, r0, r3, r1, r4, 11); StateStep(k, p, 10, 2, x, Block(r0, r3, r1, r4));
    x := Block(r0, r3, r1, r4); r0, r3, r1, r4, r2 := S3(r0, r3, r1, r4);
    r4, r2, r3, r0, r1 := LK(k, r4, r2, r3, r0, 12); StateStep(k, p, 11, 3, x, Block(r4, r2, r3, r0));
  }

  method EncryptRounds12(k: Key, ghost p: Block, a0: Word, a1: Word, a2: Word, a3: Word, a4: Word)
    returns (r0: Word, r1: Word, r2: Word, r3: Word, r4: Word)
    requires Block(a4, a2, a3, a0) == State(k, p, 12)
    ensures Block(r4, r2, r1, r3) == State(k, p, 16)
  {
    hide Sub; hide LT; hide XorBlock; hide RoundKey; hide State; hide Finish; hide Cipher;
    r0, r1, r2, r3, r4 := a0, a1, a2, a3, a4;
    ghost var x: Block;
    x := Block(r4, r2, r3, r0); r4, r2, r3, r0, r1 := S4(r4, r2, r3, r0);
    r2, r3, r0, r1, r4 := LK(k, r2, r3, r0, r1, 13); StateStep(k, p, 12, 4, x, Block(r2, r3, r0, r1));
    x := Block(r2, r3, r0, r1); r2, r3, r0, r1, r4 := S5(r2, r3, r0, r1);
    r4, r2, r3, r1, r0 := LK(k, r4, r2, r3, r1, 14); StateStep(k, p, 13, 5, x, Block(r4, r2, r3, r1));
    x := Block(r4, r2, r3, r1); r4, r2, r3, r1, r0 := S6(r4, r2, r3, r1);
    r3, r0, r2, r1, r4 := LK(k, r3, r0, r2, r1, 15); StateStep(k, p, 14, 6, x, Block(r3, r0, r2, r1));
    x := Block(r3, r0, r2, r1); r3, r0, r2, r1, r4 := S7(r3, r0, r2, r1);
    r4, r2, r1, r3, r0 := LK(k, r4, r2, r1, r3, 16); StateStep(k, p, 15, 7, x, Block(r4, r2, r1, r3));
  }

  method EncryptRounds16(k: Key, ghost p: Block, a0: Word, a1: Word, a2: Word, a3: Word, a4: Word)
    returns (r0: Word, r1: Word, r2: Word, r3: Word, r4: Word)
    requires Block(a4, a2, a1, a3) == State(k, p, 16)
    ensures Block(r1, r4, r3, r2) == State(k, p, 20)
  {
    hide Sub; hide LT; hide XorBlock; hide RoundKey; hide State; hide Finish; hide Cipher;
    r0, r1, r2, r3, r4 := a0, a1, a2, a3, a4;
    ghost var x: Block;
    x := Block(r4, r2, r1, r3); r4, r2, r1, r3, r0 := S0(r4, r2, r1, r3);
    r1, r2, r3, r4, r0 := LK(k, r1, r2, r3, r4, 17); StateStep(k, p, 16, 0, x, Block(r1, r2, r3, r4));
    x := Block(r1, r2, r3, r4); r1, r2, r3, r4, r0 := S1(r1, r2, r3, r4);
    r0, r3, r4, r1, r2 := LK(k, r0, r3, r4, r1, 18); StateStep(k, p, 17, 1, x, Block(r0, r3, r4, r1));
    x := Block(r0, r3, r4, r1); r0, r3, r4, r1, r2 := S2(r0, r3, r4, r1);
    r2, r3, r0, r1, r4 := LK(k, r2, r3, r0, r1, 19); StateStep(k, p, 18, 2, x, Block(r2, r3, r0, r1));
    x := Block(r2, r3, r0, r1); r2, r3, r0, r1, r4 := S3(r2, r3, r0, r1);
    r1, r4, r3, r2, r0 := LK(k, r1, r4, r3, r2, 20); StateStep(k, p, 19, 3, x, Block(r1, r4, r3, r2));
  }

  method EncryptRounds20(k: Key, ghost p: Block, a0: Word, a1: Word, a2: Word, a3: Word, a4: Word)
    returns (r0: Word, r1: Word, r2: Word, r3: Word, r4: Word)
    requires Block(a1, a4, a3, a2) == State(k, p, 20)
    ensures Block(r1, r4, r0, r3) == State(k, p, 24)
  {
    hide Sub; hide LT; hide XorBlock; hide RoundKey; hide State; hide Finish; hide Cipher;
    r0, r1, r2, r3, r4 := a0, a1, a2, a3, a4;
    ghost var x: Block;
    x := Block(r1, r4, r3, r2); r1, r4, r3, r2, r0 := S4(r1, r4, r3, r2);
    r4, r3, r2, r0, r1 := LK(k, r4, r3, r2, r0, 21); StateStep(k, p, 20, 4, x, Block(r4, r3, r2, r0));
    x := Block(r4, r3, r2, r0); r4, r3, r2, r0, r1 := S5(r4, r3, r2, r0);
    r1, r4, r3, r0, r2 := LK(k, r1, r4, r3, r0, 22); StateStep(k, p, 21, 5, x, Block(r1, r4, r3, r0));
    x := Block(r1, r4, r3, r0); r1, r4, r3, r0, r2 := S6(r1, r4, r3, r0);
    r3, r2, r4, r0, r1 := LK(k, r3, r2, r4, r0, 23); StateStep(k, p, 22, 6, x, Block(r3, r2, r4, r0));
    x := Block(r3, r2, r4, r0); r3, r2, r4, r0, r1 := S7(r3, r2, r4, r0);
    r1, r4, r0, r3, r2 := LK(k, r1, r4, r0, r3, 24); StateStep(k, p, 23, 7, x, Block(r1, r4, r0, r3));
  }

  method EncryptRounds24(k: Key, ghost p: Block, a0: Word, a1: Word, a2: Word, a3: Word, a4: Word)
    returns (r0: Word, r1: Word, r2: Word, r3: Word, r4: Word)
    requires Block(a1, a4, a0, a3) == State(k, p, 24)
    ensures Block(r0, r1, r3, r4) == State(k, p, 28)
  {
    hide Sub; hide LT; hide XorBlock; hide RoundKey; hide State; hide Finish; hide Cipher;
    r0, r1, r2, r3, r4 := a0, a1, a2, a3, a4;
    ghost var x: Block;
    x := Block(r1, r4, r0, r3); r1, r4, r0, r3, r2 := S0(r1, r4, r0, r3);
    r0, r4, r3, r1, r2 := LK(k, r0, r4, r3, r1, 25); StateStep(k, p, 24, 0, x, Block(r0, r4, r3, r1));
    x := Block(r0, r4, r3, r1); r0, r4, r3, r1, r2 := S1(r0, r4, r3, r1);
    r2, r3, r1, r0, r4 := LK(k, r2, r3, r1, r0, 26); StateStep(k, p, 25, 1, x, Block(r2, r3, r1, r0));
    x := Block(r2, r3, r1, r0); r2, r3, r1, r0, r4 := S2(r2, r3, r1, r0);
    r4, r3, r2, r0, r1 := LK(k, r4, r3, r2, r0, 27); StateStep(k, p, 26, 2, x, Block(r4, r3, r2, r0));
    x := Block(r4, r3, r2, r0); r4, r3, r2, r0, r1 := S3(r4, r3, r2, r0);
    r0, r1, r3, r4, r2 := LK(k, r0, r1, r3, r4, 28); StateStep(k, p, 27, 3, x, Block(r0, r1, r3, r4));
  }

  method EncryptRounds28(k: Key, ghost p: Block, a0: Word, a1: Word, a2: Word, a3: Word, a4: Word)
    returns (r0: Word, r1: Word, r2: Word, r3: Word, r4: Word)
    requires Block(a0, a1, a3, a4) == State(k, p, 28)
    ensures Block(r0, r1, r2, r3) == Sub(7, State(k, p, 31))
  {
    hide Sub; hide LT; hide XorBlock; hide RoundKey; hide State; hide Finish; hide Cipher;
    r0, r1, r2, r3, r4 := a0, a1, a2, a3, a4;
    ghost var x: Block;
    x := Block(r0, r1, r3, r4); r0, r1, r3, r4, r2 := S4(r0, r1, r3, r4);
    r1, r3, r4, r2, r0 := LK(k, r1, r3, r4, r2, 29); StateStep(k, p, 28, 4, x, Block(r1, r3, r4, r2));
    x := Block(r1, r3, r4, r2); r1, r3, r4, r2, r0 := S5(r1, r3, r4, r2);
    r0, r1, r3, r2, r4 := LK(k, r0, r1, r3, r2, 30); StateStep(k, p, 29, 5, x, Block(r0, r1, r3, r2));
    x := Block(r0, r1, r3, r2); r0, r1, r3, r2, r4 := S6(r0, r1, r3, r2);
    r3, r4, r1, r2, r0 := LK(k, r3, r4, r1, r2, 31); StateStep(k, p, 30, 6, x, Block(r3, r4, r1, r2));
    x := Block(r3, r4, r1, r2); r3, r4, r1, r2, r0 := S7(r3, r4, r1, r2);
  }

  method DecryptRounds31(k: Key, ghost c: Block, a0: Word, a1: Word, a2: Word, a3: Word, a4: Word)
    returns (r0: Word, r1: Word, r2: Word, r3: Word, r4: Word)
    requires XorBlock(Block(a0, a1, a2, a3), RoundKey(k, 32)) == c
    ensures Finish(k, XorBlock(LT(Block(r4, r2, r0, r1)), RoundKey(k, 24)), 24) == c
  {
    hide Sub; hide LT; hide XorBlock; hide RoundKey; hide State; hide Finish; hide Cipher;
    r0, r1, r2, r3, r4 := a0, a1, a2, a3, a4;
    ghost var y: Block;
    r0, r1, r2, r3, r4 := SI7(r0, r1, r2, r3);
    LastRound(k, c, Block(r1, r3, r0, r4));
    y := Block(r1, r3, r0, r4); r1, r3, r0, r4, r2 := KL(k, r1, r3, r0, r4, 31);
    r1, r3, r0, r4, r2 := SI6(r1, r3, r0, r4);
    FinishStep(k, c, 30, Block(r0, r2, r4, r1), y);
    y := Block(r0, r2, r4, r1); r0, r2, r4, r1, r3 := KL(k, r0, r2, r4, r1, 30);
    r0, r2, r4, r1, r3 := SI5(r0, r2, r4, r1);
    FinishStep(k, c, 29, Block(r2, r3, r0, r4), y);
    y := Block(r2, r3, r0, r4); r2, r3, r0, r4, r1 := KL(k, r2, r3, r0, r4, 29);
    r2, r3, r0, r4, r1 := SI4(r2, r3, r0, r4);
    FinishStep(k, c, 28, Block(r2, r0, r1, r4), y);
    y := Block(r2, r0, r1, r4); r2, r0, r1, r4, r3 := KL(k, r2, r0, r1, r4, 28);
    r2, r0, r1, r4, r3 := SI3(r2, r0, r1, r4);
    FinishStep(k, c, 27, Block(r1, r2, r3, r4), y);
    y := Block(r1, r2, r3, r4); r1, r2, r3, r4, r0 := KL(k, r1, r2, r3, r4, 27);
    r1, r2, r3, r4, r0 := SI2(r1, r2, r3, r4);
    FinishStep(k, c, 26, Block(r2, r0, r4, r3), y);
    y := Block(r2, r0, r4, r3); r2, r0, r4, r3, r1 := KL(k, r2, r0, r4, r3, 26);
    r2, r0, r4, r3, r1 := SI1(r2, r0, r4, r3);
    FinishStep(k, c, 25, Block(r1, r0, r4, r3), y);
    y := Block(r1, r0, r4, r3); r1, r0, r4, r3, r2 := KL(k, r1, r0, r4, r3, 25);
    r1, r0, r4, r3, r2 := SI0(r1, r0, r4, r3);
    FinishStep(k, c, 24, Block(r4, r2, r0, r1), y);
    y := Block(r4, r2, r0, r1); r4, r2, r0, r1, r3 := KL(k, r4, r2, r0, r1, 24);
  }

  method DecryptRounds23(k: Key, ghost c: Block, a0: Word, a1: Word, a2: Word, a3: Word, a4: Word)
    returns (r0: Word, r1: Word, r2: Word, r3: Word, r4: Word)
    requires Finish(k, XorBlock(LT(Block(a4, a2, a0, a1)), RoundKey(k, 24)), 24) == c
    ensures Finish(k, XorBlock(LT(Block(r3, r0, r4, r2)), RoundKey(k, 16)), 16) == c
  {
    hide Sub; hide LT; hide XorBlock; hide RoundKey; hide State; hide Finish; hide Cipher;
    r0, r1, r2, r3, r4 := a0, a1, a2, a3, a4;
    ghost var y: Block;
    y := XorBlock(LT(Block(r4, r2, r0, r1)), RoundKey(k, 24));
    r4, r2, r0, r1, r3 := SI7(r4, r2, r0, r1);
    FinishStep(k, c, 23, Block(r2, r1, r4, r3), y);
    y := Block(r2, r1, r4, r3); r2, r1, r4, r3, r0 := KL(k, r2, r1, r4, r3, 23);
    r2, r1, r4, r3, r0 := SI6(r2, r1, r4, r3);
    FinishStep(k, c, 22, Block(r4, r0, r3, r2), y);
    y := Block(r4, r0, r3, r2); r4, r0, r3, r2, r1 := KL(k, r4, r0, r3, r2, 22);
    r4, r0, r3, r2, r1 := SI5(r4, r0, r3, r2);
    FinishStep(k, c, 21, Block(r0, r1, r4, r3), y);
    y := Block(r0, r1, r4, r3); r0, r1, r4, r3, r2 := KL(k, r0, r1, r4, r3, 21);
    r0, r1, r4, r3, r2 := SI4(r0, r1, r4, r3);
    FinishStep(k, c, 20, Block(r0, r4, r2, r3), y);
    y := Block(r0, r4, r2, r3); r0, r4, r2, r3, r1 := KL(k, r0, r4, r2, r3, 20);
    r0, r4, r2, r3, r1 := SI3(r0, r4, r2, r3);
    FinishStep(k, c, 19, Block(r2, r0, r1, r3), y);
    y := Block(r2, r0, r1, r3); r2, r0, r1, r3, r4 := KL(k, r2, r0, r1, r3, 19);
    r2, r0, r1, r3, r4 := SI2(r2, r0, r1, r3);
    FinishStep(k, c, 18, Block(r0, r4, r3, r1), y);
    y := Block(r0, r4, r3, r1); r0, r4, r3, r1, r2 := KL(k, r0, r4, r3, r1, 18);
    r0, r4, r3, r1, r2 := SI1(r0, r4, r3, r1);
    FinishStep(k, c, 17, Block(r2, r4, r3, r1), y);
    y := Block(r2, r4, r3, r1); r2, r4, r3, r1, r0 := KL(k, r2, r4, r3, r1, 17);
    r2, r4, r3, r1, r0 := SI0(r2, r4, r3, r1);
    FinishStep(k, c, 16, Block(r3, r0, r4, r2), y);
    y := Block(r3, r0, r4, r2); r3, r0, r4, r2, r1 := KL(k, r3, r0, r4, r2, 16);
  }

  method DecryptRounds15(k: Key, ghost c: Block, a0: Word, a1: Word, a2: Word, a3: Word, a4: Word)
    returns (r0: Word, r1: Word, r2: Word, r3: Word, r4: Word)
    requires Finish(k, XorBlock(LT(Block(a3, a0, a4, a2)), RoundKey(k, 16)), 16) == c
    ensures Finish(k, XorBlock(LT(Block(r1, r4, r3, r0)), RoundKey(k, 8)), 8) == c
  {
    hide Sub; hide LT; hide XorBlock; hide RoundKey; hide State; hide Finish; hide Cipher;
    r0, r1, r2, r3, r4 := a0, a1, a2, a3, a4;
    ghost var y: Block;
    y := XorBlock(LT(Block(r3, r0, r4, r2)), RoundKey(k, 16));
    r3, r0, r4, r2, r1 := SI7(r3, r0, r4, r2);
    FinishStep(k, c, 15, Block(r0, r2, r3, r1), y);
    y := Block(r0, r2, r3, r1); r0, r2, r3, r1, r4 := KL(k, r0, r2, r3, r1, 15);
    r0, r2, r3, r1, r4 := SI6(r0, r2, r3, r1);
    FinishStep(k, c, 14, Block(r3, r4, r1, r0), y);
    y := Block(r3, r4, r1, r0); r3, r4, r1, r0, r2 := KL(k, r3, r4, r1, r0, 14);
    r3, r4, r1, r0, r2 := SI5(r3, r4, r1, r0);
    FinishStep(k, c, 13, Block(r4, r2, r3, r1), y);
    y := Block(r4, r2, r3, r1); r4, r2, r3, r1, r0 := KL(k, r4, r2, r3, r1, 13);
    r4, r2, r3, r1, r0 := SI4(r4, r2, r3, r1);
    FinishStep(k, c, 12, Block(r4, r3, r0, r1), y);
    y := Block(r4, r3, r0, r1); r4, r3, r0, r1, r2 := KL(k, r4, r3, r0, r1, 12);
    r4, r3, r0, r1, r2 := SI3(r4, r3, r0, r1);
    FinishStep(k, c, 11, Block(r0, r4, r2, r1), y);
    y := Block(r0, r4, r2, r1); r0, r4, r2, r1, r3 := KL(k, r0, r4, r2, r1, 11);
    r0, r4, r2, r1, r3 := SI2(r0, r4, r2, r1);
    FinishStep(k, c, 10, Block(r4, r3, r1, r2), y);
    y := Block(r4, r3, r1, r2); r4, r3, r1, r2, r0 := KL(k, r4, r3, r1, r2, 10);
    r4, r3, r1, r2, r0 := SI1(r4, r3, r1, r2);
    FinishStep(k, c, 9, Block(r0, r3, r1, r2), y);
    y := Block(r0, r3, r1, r2); r0, r3, r1, r2, r4 := KL(k, r0, r3, r1, r2, 9);
    r0, r3, r1, r2, r4 := SI0(r0, r3, r1, r2);
    FinishStep(k, c, 8, Block(r1, r4, r3, r0), y);
    y := Block(r1, r4, r3, r0); r1, r4, r3, r0, r2 := KL(k, r1, r4, r3, r0, 8);
  }

  method DecryptRounds7(k: Key, ghost c: Block, a0: Word, a1: Word, a2: Word, a3: Word, a4: Word)
    returns (r0: Word, r1: Word, r2: Word, r3: Word, r4: Word)
    requires Finish(k, XorBlock(LT(Block(a1, a4, a3, a0)), RoundKey(k, 8)), 8) == c
    ensures Finish(k, Block(r2, r3, r1, r4), 0) == c
  {
    hide Sub; hide LT; hide XorBlock; hide RoundKey; hide State; hide Finish; hide Cipher;
    r0, r1, r2, r3, r4 := a0, a1, a2, a3, a4;
    ghost var y: Block;
    y := XorBlock(LT(Block(r1, r4, r3, r0)), RoundKey(k, 8));
    r1, r4, r3, r0, r2 := SI7(r1, r4, r3, r0);
    FinishStep(k, c, 7, Block(r4, r0, r1, r2), y);
    y := Block(r4, r0, r1, r2); r4, r0, r1, r2, r3 := KL(k, r4, r0, r1, r2, 7);
    r4, r0, r1, r2, r3 := SI6(r4, r0, r1, r2);
    FinishStep(k, c, 6, Block(r1, r3, r2, r4), y);
    y := Block(r1, r3, r2, r4); r1, r3, r2, r4, r0 := KL(k, r1, r3, r2, r4, 6);
    r1, r3, r2, r4, r0 := SI5(r1, r3, r2, r4);
    FinishStep(k, c, 5, Block(r3, r0, r1, r2), y);
    y := Block(r3, r0, r1, r2); r3, r0, r1, r2, r4 := KL(k, r3, r0, r1, r2, 5);
    r3, r0, r1, r2, r4 := SI4(r3, r0, r1, r2);
    FinishStep(k, c, 4, Block(r3, r1, r4, r2), y);
    y := Block(r3, r1, r4, r2); r3, r1, r4, r2, r0 := KL(k, r3, r1, r4, r2, 4);
    r3, r1, r4, r2, r0 := SI3(r3, r1, r4, r2);
    FinishStep(k, c, 3, Block(r4, r3, r0, r2), y);
    y := Block(r4, r3, r0, r2); r4, r3, r0, r2, r1 := KL(k, r4, r3, r0, r2, 3);
    r4, r3, r0, r2, r1 := SI2(r4, r3, r0, r2);
    FinishStep(k, c, 2, Block(r3, r1, r2, r0), y);
    y := Block(r3, r1, r2, r0); r3, r1, r2, r0, r4 := KL(k, r3, r1, r2, r0, 2);
    r3, r1, r2, r0, r4 := SI1(r3, r1, r2, r0);
    FinishStep(k, c, 1, Block(r4, r1, r2, r0), y);
    y := Block(r4, r1, r2, r0); r4, r1, r2, r0, r3 := KL(k, r4, r1, r2, r0, 1);
    r4, r1, r2, r0, r3 := SI0(r4, r1, r2, r0);
    FinishStep(k, c, 0, Block(r2, r3, r1, r4), y);
  }

  // serpent_encrypt
  method Encrypt(k: Key, src: Bytes) returns (dst: Bytes)
    requires |src| == 16
    ensures |dst| == 16 && LoadBlock(dst) == Cipher(k, LoadBlock(src))
  {
    hide Sub; hide LT; hide XorBlock; hide RoundKey; hide State; hide LoadWord; hide StoreWord; hide StoreBlock;
    var p := LoadBlock(src);
    FirstState(k, p);
    var r0, r1, r2, r3 := MixKey(k, p.a, p.b, p.c, p.d, 0);
    var r4 := p.a;
    r0, r1, r2, r3, r4 := EncryptRounds0(k, p, r0, r1, r2, r3, r4);
    r0, r1, r2, r3, r4 := EncryptRounds4(k, p, r0, r1, r2, r3, r4);
    r0, r1, r2, r3, r4 := EncryptRounds8(k, p, r0, r1, r2, r3, r4);
    r0, r1, r2, r3, r4 := EncryptRounds12(k, p, r0, r1, r2, r3, r4);
    r0, r1, r2, r3, r4 := EncryptRounds16(k, p, r0, r1, r2, r3, r4);
    r0, r1, r2, r3, r4 := EncryptRounds20(k, p, r0, r1, r2, r3, r4);
    r0, r1, r2, r3, r4 := EncryptRounds24(k, p, r0, r1, r2, r3, r4);
    r0, r1, r2, r3, r4 := EncryptRounds28(k, p, r0, r1, r2, r3, r4);
    r0, r1, r2, r3 := MixKey(k, r0, r1, r2, r3, 32);
    BlockOf(Block(r0, r1, r2, r3));
    dst := StoreBlock(Block(r0, r1, r2, r3));
  }

  // serpent_decrypt
  method Decrypt(k: Key, src: Bytes) returns (dst: Bytes)
    requires |src| == 16
    ensures |dst| == 16 && Cipher(k, LoadBlock(dst)) == LoadBlock(src)
  {
    hide Sub; hide LT; hide XorBlock; hide RoundKey; hide Cipher; hide Finish; hide State; hide LoadBlock; hide StoreBlock;
    var c := LoadBlock(src);
    var r0, r1, r2, r3 := MixKey(k, c.a, c.b, c.c, c.d, 32);
    XorBlockCancels(c, RoundKey(k, 32));
    var r4 := c.a;
    r0, r1, r2, r3, r4 := DecryptRounds31(k, c, r0, r1, r2, r3, r4);
    r0, r1, r2, r3, r4 := DecryptRounds23(k, c, r0, r1, r2, r3, r4);
    r0, r1, r2, r3, r4 := DecryptRounds15(k, c, r0, r1, r2, r3, r4);
    r0, r1, r2, r3, r4 := DecryptRounds7(k, c, r0, r1, r2, r3, r4);
    ghost var s := Block(r2, r3, r1, r4);
    r2, r3, r1, r4 := MixKey(k, r2, r3, r1, r4, 0);
    ghost var p := Block(r2, r3, r1, r4);
    XorBlockCancels(s, RoundKey(k, 0));
    FirstState(k, p);
    FinishOfState(k, p, 0);
    BlockOf(p);
    dst := StoreBlock(Block(r2, r3, r1, r4));
  }

  // Decryption undoes encryption, for every expanded key and every block of bytes.
  method RoundTrip(k: Key, src: Bytes) returns (back: Bytes)
    requires |src| == 16
    ensures back == src
  {
    hide LoadBlock; hide StoreBlock; hide Cipher;
    var dst := Encrypt(k, src);
    back := Decrypt(k, dst);
    CipherInjective(k, LoadBlock(back), LoadBlock(src));
    BlockBack(back);
    BlockBack(src);
  }
}
