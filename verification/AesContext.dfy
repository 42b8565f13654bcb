// struct aes_ctx of crypto/aes.c and the operations on it: aes_set_key,
// aes_encrypt and aes_decrypt.
module AesContext {
  import Basics
  import opened Gf256
  import opened AesRounds
  import opened AesTables
  import opened Aes

  // ------------------------------------------------------ key expansion

  // word i of KeyExpansion, section 5.2 of FIPS 197
  ghost function KeyCol(key: seq<Col>, i: nat): Col
    requires |key| > 0
    decreases i, 1
  {
    if i < |key| then key[i] else AddCol(KeyTemp(key, i), KeyCol(key, i - |key|))
  }

  ghost function KeyTemp(key: seq<Col>, i: nat): Col
    requires 0 < |key| <= i
    decreases i, 0
  {
    if i % |key| == 0 then AddCol(SubCol(Spin(KeyCol(key, i - 1))), Col(XPow(1, i / |key| - 1), 0, 0, 0))
    else if |key| > 6 && i % |key| == 4 then SubCol(KeyCol(key, i - 1))
    else KeyCol(key, i - 1)
  }

  ghost predicate KeySize(key: seq<Col>) {
    |key| == 4 || |key| == 6 || |key| == 8
  }

  // ten, twelve or fourteen rounds
  ghost function Rounds(key: seq<Col>): nat {
    |key| + 6
  }

  ghost function Expand(key: seq<Col>): seq<Col>
    requires |key| > 0
  {
    seq(4 * Rounds(key) + 4, i requires i >= 0 => KeyCol(key, i))
  }

  // bytes n..n+3 of a buffer as a column; u32_in reads it as a little-endian word
  function ColAt(b: seq<bv8>, n: nat): Col
    requires n + 4 <= |b|
  {
    Col(b[n], b[n + 1], b[n + 2], b[n + 3])
  }

  function KeyCols(b: seq<bv8>): seq<Col> {
    seq(|b| / 4, i requires 0 <= i < |b| / 4 => ColAt(b, 4 * i))
  }

  function Block(b: seq<bv8>): State
    requires |b| == 16
  {
    State(ColAt(b, 0), ColAt(b, 4), ColAt(b, 8), ColAt(b, 12))
  }

  function U32In(b: seq<bv8>, n: nat): (w: bv32)
    requires n + 4 <= |b|
    ensures Unpack(w) == ColAt(b, n)
  {
    UnpackOfPack(ColAt(b, n));
    Pack(ColAt(b, n))
  }

  function U32Out(w: bv32): seq<bv8> {
    [ByteOf(w, 0), ByteOf(w, 1), ByteOf(w, 2), ByteOf(w, 3)]
  }

  // ---------------------------------------------------------- imix_col

  function Xor(x: bv32, y: bv32): bv32 {
    x ^ y
  }

  function ImixCol(x: bv32): bv32 {
    var u := StarX(x);
    var v := StarX(u);
    var w := StarX(v);
    var t := Xor(w, x);
    Xor(Xor(Xor(u, v), w), Xor(Xor(Rotr(Xor(u, t), 8), Rotr(Xor(v, t), 16)), Rotr(t, 24)))
  }

  lemma UnpackXor(x: bv32, y: bv32)
    ensures Unpack(Xor(x, y)) == AddCol(Unpack(x), Unpack(y))
  {
    Byte0Xor(x, y); Byte1Xor(x, y); Byte2Xor(x, y); Byte3Xor(x, y);
    hide Xor; hide ByteOf; hide Add;
  }

  lemma Byte0Xor(x: bv32, y: bv32)
    ensures ByteOf(Xor(x, y), 0) == Add(ByteOf(x, 0), ByteOf(y, 0))
  {
  }

  lemma Byte1Xor(x: bv32, y: bv32)
    ensures ByteOf(Xor(x, y), 1) == Add(ByteOf(x, 1), ByteOf(y, 1))
  {
  }

  lemma Byte2Xor(x: bv32, y: bv32)
    ensures ByteOf(Xor(x, y), 2) == Add(ByteOf(x, 2), ByteOf(y, 2))
  {
  }

  lemma Byte3Xor(x: bv32, y: bv32)
    ensures ByteOf(Xor(x, y), 3) == Add(ByteOf(x, 3), ByteOf(y, 3))
  {
  }

  lemma UnpackRotr(x: bv32)
    ensures Unpack(Rotr(x, 8)) == Spin(Unpack(x))
    ensures Unpack(Rotr(x, 16)) == Spin(Spin(Unpack(x)))
    ensures Unpack(Rotr(x, 24)) == Spin(Spin(Spin(Unpack(x))))
  {
    hide Pack; hide Unpack; hide Rotr; hide Spin;
    var c := Unpack(x);
    PackOfUnpack(x);
    PackRotr(c);
    UnpackOfPack(Spin(c)); UnpackOfPack(Spin(Spin(c))); UnpackOfPack(Spin(Spin(Spin(c))));
  }

  lemma UnpackStarX(x: bv32)
    ensures Unpack(StarX(x)) == Double(Unpack(x))
  {
    hide Pack; hide Unpack; hide StarX; hide Double;
    PackOfUnpack(x);
    PackStarX(Unpack(x));
    UnpackOfPack(Double(Unpack(x)));
  }

  // the sum imix_col forms, on columns
  function ImixSum(c: Col): Col {
    var u := Double(c);
    var v := Double(u);
    var w := Double(v);
    var t := AddCol(w, c);
    AddCol(AddCol(AddCol(u, v), w),
           AddCol(AddCol(Spin(AddCol(u, t)), Spin(Spin(AddCol(v, t)))), Spin(Spin(Spin(t)))))
  }

  lemma UnpackImixCol(x: bv32)
    ensures Unpack(ImixCol(x)) == ImixSum(Unpack(x))
  {
    hide Unpack; hide AddCol; hide StarX; hide Rotr; hide Spin; hide Double; hide Xor;
    var u := StarX(x);
    var v := StarX(u);
    var w := StarX(v);
    var t := Xor(w, x);
    UnpackStarX(x); UnpackStarX(u); UnpackStarX(v);
    UnpackXor(w, x);
    UnpackXor(u, v); UnpackXor(Xor(u, v), w);
    UnpackXor(u, t); UnpackXor(v, t);
    UnpackRotr(Xor(u, t)); UnpackRotr(Xor(v, t)); UnpackRotr(t);
    var r8, r16, r24 := Rotr(Xor(u, t), 8), Rotr(Xor(v, t), 16), Rotr(t, 24);
    UnpackXor(r8, r16); UnpackXor(Xor(r8, r16), r24);
    UnpackXor(Xor(Xor(u, v), w), Xor(Xor(r8, r16), r24));
  }

  lemma ImixRow(a: bv8, b: bv8, c: bv8, d: bv8)
    ensures
      var (a1, b1, c1, d1) := (XTime(a), XTime(b), XTime(c), XTime(d));
      var (a2, b2, c2, d2) := (XTime(a1), XTime(b1), XTime(c1), XTime(d1));
      var (a3, b3, c3, d3) := (XTime(a2), XTime(b2), XTime(c2), XTime(d2));
      Add(Add(Add(a1, a2), a3), Add(Add(Add(b1, Add(b3, b)), Add(c2, Add(c3, c))), Add(d3, d)))
      == Row(14, 11, 13, 9, Col(a, b, c, d))
  {
    XPows(a); XPows(b); XPows(c); XPows(d);
    hide Add; hide XTime; hide XPow;
    AddTurn(XPow(b, 1), XPow(b, 3), b);
    AddTurn(XPow(c, 2), XPow(c, 3), c);
    AddCommutes(XPow(d, 3), d);
    AddAssociates(Times(14, a), Times(11, b), Add(Times(13, c), Times(9, d)));
    AddAssociates(Times(11, b), Times(13, c), Times(9, d));
  }

  lemma XPows(a: bv8)
    ensures XPow(a, 1) == XTime(a) && XPow(a, 2) == XTime(XTime(a)) && XPow(a, 3) == XTime(XTime(XTime(a)))
  {
    hide XTime;
    XPowZero(a);
    XPowNext(a, 0); XPowNext(a, 1); XPowNext(a, 2);
  }

  lemma AddTurn(x: bv8, y: bv8, a: bv8)
    ensures Add(x, Add(y, a)) == Add(Add(a, x), y)
  {
  }

  // imix_col on a packed word is InvMixColumns on its column
  lemma ImixIsInvMixCol(x: bv32)
    ensures Unpack(ImixCol(x)) == InvMixCol(Unpack(x))
  {
    var c := Unpack(x);
    UnpackImixCol(x);
    hide Unpack; hide ImixCol; hide Add; hide XTime; hide Times; hide Row;
    ImixRow(c.r0, c.r1, c.r2, c.r3);
    ImixRow(c.r1, c.r2, c.r3, c.r0);
    ImixRow(c.r2, c.r3, c.r0, c.r1);
    ImixRow(c.r3, c.r0, c.r1, c.r2);
    InvMixSpins(c); InvMixSpins(Spin(c)); InvMixSpins(Spin(Spin(c)));
  }

  // -------------------------------------------------------- the context

  // E and D are 60 words each and adjacent in the structure: the last pass of the
  // 256-bit expansion runs four words past E, into the part of D written next.
  class AesCtx {
    var key_length: nat
    const buf: array<bv32>

    constructor ()
      ensures fresh(buf) && buf.Length == 120
    {
      key_length := 0;
      buf := new bv32[120](_ => 0);
    }

    // the generated tables, none of them stored in this context
    ghost predicate Ready(t: Tables)
      reads t.pow_tab, t.log_tab, t.sbx_tab, t.isb_tab, t.rco_tab, t.fl_tab, t.ft_tab, t.il_tab, t.it_tab
    {
      var b: object := buf;
      && t.Built() && buf.Length == 120
      && b != t.pow_tab && b != t.log_tab && b != t.sbx_tab && b != t.isb_tab && b != t.rco_tab
      && b != t.fl_tab && b != t.ft_tab && b != t.il_tab && b != t.it_tab
    }

    // the first n expanded words are those of the standard
    ghost predicate Expanded(key: seq<Col>, n: nat)
      reads buf
    {
      0 < |key| <= 8 && n <= 64 && buf.Length == 120 && forall j | 0 <= j < n :: Unpack(buf[j]) == KeyCol(key, j)
    }

    ghost predicate Scheduled(key: seq<Col>)
      reads this, buf
    {
      KeySize(key) && key_length == 4 * |key| && Inverted(key, key_length + 24)
    }

    // one "t ^= E_KEY[j - nk]; E_KEY[j] = t"
    method Extend(ghost key: seq<Col>, j: nat, nk: nat, t: bv32) returns (u: bv32)
      requires |key| == nk <= j < 64 && Expanded(key, j) && Unpack(t) == KeyTemp(key, j)
      modifies buf
      ensures Expanded(key, j + 1) && Unpack(u) == KeyCol(key, j)
    {
      hide Unpack; hide Xor; hide AddCol; hide KeyTemp;
      u := Xor(t, buf[j - nk]);
      UnpackXor(t, buf[j - nk]);
      buf[j] := u;
    }

    // the start of every pass: rotate, substitute, add round constant i
    method Turn(ghost key: seq<Col>, tabs: Tables, ghost j: nat, i: nat, t: bv32) returns (u: bv32)
      requires tabs.Built() && 0 < |key| <= j && j % |key| == 0 && j / |key| == i + 1 <= 10
      requires Unpack(t) == KeyCol(key, j - 1)
      ensures Unpack(u) == KeyTemp(key, j)
    {
      hide Unpack; hide Xor; hide AddCol; hide SubCol; hide Spin; hide KeyCol; hide Rotr; hide Tables.Built;
      UnpackRotr(t);
      u := LsBox(tabs, Rotr(t, 8));
      RoundConstant(tabs, i);
      UnpackXor(u, tabs.rco_tab[i]);
      u := Xor(u, tabs.rco_tab[i]);
    }

    // in the other positions the previous word is carried over
    lemma Carry(key: seq<Col>, j: nat, t: bv32)
      requires 0 < |key| <= j && j % |key| != 0 && !(|key| > 6 && j % |key| == 4) && Unpack(t) == KeyCol(key, j - 1)
      ensures Unpack(t) == KeyTemp(key, j)
    {
    }

    method Loop4(ghost key: seq<Col>, tabs: Tables, i: nat, s: bv32) returns (t: bv32)
      requires Ready(tabs) && |key| == 4 && i < 10 && Expanded(key, 4 * i + 4) && Unpack(s) == KeyCol(key, 4 * i + 3)
      modifies buf
      ensures Expanded(key, 4 * i + 8) && Unpack(t) == KeyCol(key, 4 * i + 7)
    {
      hide Unpack; hide KeyCol; hide KeyTemp; hide Expanded; hide Tables.Built;
      t := Turn(key, tabs, 4 * i + 4, i, s);
      t := Extend(key, 4 * i + 4, 4, t);
      Carry(key, 4 * i + 5, t);
      t := Extend(key, 4 * i + 5, 4, t);
      Carry(key, 4 * i + 6, t);
      t := Extend(key, 4 * i + 6, 4, t);
      Carry(key, 4 * i + 7, t);
      t := Extend(key, 4 * i + 7, 4, t);
    }

    method Loop6(ghost key: seq<Col>, tabs: Tables, i: nat, s: bv32) returns (t: bv32)
      requires Ready(tabs) && |key| == 6 && i < 8 && Expanded(key, 6 * i + 6) && Unpack(s) == KeyCol(key, 6 * i + 5)
      modifies buf
      ensures Expanded(key, 6 * i + 12) && Unpack(t) == KeyCol(key, 6 * i + 11)
    {
      hide Unpack; hide KeyCol; hide KeyTemp; hide Expanded; hide Tables.Built;
      t := Turn(key, tabs, 6 * i + 6, i, s);
      t := Extend(key, 6 * i + 6, 6, t);
      Carry(key, 6 * i + 7, t);
      t := Extend(key, 6 * i + 7, 6, t);
      Carry(key, 6 * i + 8, t);
      t := Extend(key, 6 * i + 8, 6, t);
      Carry(key, 6 * i + 9, t);
      t := Extend(key, 6 * i + 9, 6, t);
      Carry(key, 6 * i + 10, t);
      t := Extend(key, 6 * i + 10, 6, t);
      Carry(key, 6 * i + 11, t);
      t := Extend(key, 6 * i + 11, 6, t);
    }

    method Loop8(ghost key: seq<Col>, tabs: Tables, i: nat, s: bv32) returns (t: bv32)
      requires Ready(tabs) && |key| == 8 && i < 7 && Expanded(key, 8 * i + 8) && Unpack(s) == KeyCol(key, 8 * i + 7)
      modifies buf
      ensures Expanded(key, 8 * i + 16) && Unpack(t) == KeyCol(key, 8 * i + 15)
    {
      hide Unpack; hide KeyCol; hide KeyTemp; hide Expanded; hide Tables.Built;
      t := Turn(key, tabs, 8 * i + 8, i, s);
      t := Extend(key, 8 * i + 8, 8, t);
      Carry(key, 8 * i + 9, t);
      t := Extend(key, 8 * i + 9, 8, t);
      Carry(key, 8 * i + 10, t);
      t := Extend(key, 8 * i + 10, 8, t);
      Carry(key, 8 * i + 11, t);
      t := Extend(key, 8 * i + 11, 8, t);
      t := Loop8Rest(key, tabs, i, t);
    }

    method Loop8Rest(ghost key: seq<Col>, tabs: Tables, i: nat, s: bv32) returns (t: bv32)
      requires Ready(tabs) && |key| == 8 && i < 7 && Expanded(key, 8 * i + 12) && Unpack(s) == KeyCol(key, 8 * i + 11)
      modifies buf
      ensures Expanded(key, 8 * i + 16) && Unpack(t) == KeyCol(key, 8 * i + 15)
    {
      hide Unpack; hide KeyCol; hide Expanded; hide Tables.Built;
      t := LsBox(tabs, s);
      assert Unpack(t) == KeyTemp(key, 8 * i + 12);
      hide KeyTemp;
      t := Extend(key, 8 * i + 12, 8, t);
      Carry(key, 8 * i + 13, t);
      t := Extend(key, 8 * i + 13, 8, t);
      Carry(key, 8 * i + 14, t);
      t := Extend(key, 8 * i + 14, 8, t);
      Carry(key, 8 * i + 15, t);
      t := Extend(key, 8 * i + 15, 8, t);
    }

    method LoadWord(ghost key: seq<Col>, in_key: seq<bv8>, j: nat) returns (t: bv32)
      requires key == KeyCols(in_key) && Expanded(key, j) && j < |key|
      modifies buf
      ensures Expanded(key, j + 1) && Unpack(t) == KeyCol(key, j)
    {
      hide Unpack; hide Pack;
      t := U32In(in_key, 4 * j);
      buf[j] := t;
    }

    // the words of the key itself; a copy of the last one starts the first pass
    method LoadKey(ghost key: seq<Col>, in_key: seq<bv8>) returns (t: bv32)
      requires key == KeyCols(in_key) && KeySize(key) && 4 * |key| == |in_key| && Expanded(key, 0)
      modifies buf
      ensures Expanded(key, |key|) && Unpack(t) == KeyCol(key, |key| - 1)
    {
      hide Unpack; hide KeyCol; hide KeyCols; hide Expanded;
      t := LoadWord(key, in_key, 0);
      t := LoadWord(key, in_key, 1);
      t := LoadWord(key, in_key, 2);
      t := LoadWord(key, in_key, 3);
      if |in_key| > 16 {
        t := LoadWord(key, in_key, 4);
        t := LoadWord(key, in_key, 5);
      }
      if |in_key| > 24 {
        t := LoadWord(key, in_key, 6);
        t := LoadWord(key, in_key, 7);
      }
    }

    method ExpandKey(tabs: Tables, in_key: seq<bv8>)
      requires Ready(tabs) && (|in_key| == 16 || |in_key| == 24 || |in_key| == 32)
      modifies buf
      ensures Expanded(KeyCols(in_key), |in_key| + 28)
    {
      hide Unpack; hide KeyCol; hide Expanded; hide Tables.Built; hide ColAt;
      ghost var key := KeyCols(in_key);
      Nothing(key);
      var t := LoadKey(key, in_key);
      if |in_key| == 16 {
        for i := 0 to 10
          invariant Expanded(key, 4 * i + 4) && Unpack(t) == KeyCol(key, 4 * i + 3)
        {
          t := Loop4(key, tabs, i, t);
        }
      } else if |in_key| == 24 {
        for i := 0 to 8
          invariant Expanded(key, 6 * i + 6) && Unpack(t) == KeyCol(key, 6 * i + 5)
        {
          t := Loop6(key, tabs, i, t);
        }
        Shorter(key, 54, 52);
      } else {
        for i := 0 to 7
          invariant Expanded(key, 8 * i + 8) && Unpack(t) == KeyCol(key, 8 * i + 7)
        {
          t := Loop8(key, tabs, i, t);
        }
        Shorter(key, 64, 60);
      }
    }

    lemma Nothing(key: seq<Col>)
      requires KeySize(key) && buf.Length == 120
      ensures Expanded(key, 0)
    {
    }

    lemma Shorter(key: seq<Col>, n: nat, m: nat)
      requires m <= n && Expanded(key, n)
      ensures Expanded(key, m)
    {
      hide Unpack; hide KeyCol;
    }

    // the first n words of the decryption key are in place
    ghost predicate Inverted(key: seq<Col>, n: nat)
      reads buf
    {
      && KeySize(key) && Expanded(key, 4 * |key| + 28) && n <= 4 * |key| + 24
      && (forall j | 0 <= j < 4 :: buf[60 + j] == buf[j])
      && (forall j | 4 <= j < n :: Unpack(buf[60 + j]) == InvMixCol(KeyCol(key, j)))
    }

    method InvertWord(ghost key: seq<Col>, i: nat)
      requires Inverted(key, i) && 4 <= i < 4 * |key| + 24
      modifies buf
      ensures Inverted(key, i + 1)
    {
      hide Unpack; hide KeyCol; hide InvMixCol; hide ImixCol;
      ImixIsInvMixCol(buf[i]);
      buf[60 + i] := ImixCol(buf[i]);
    }

    method InvertKey(ghost key: seq<Col>, key_len: nat)
      requires KeySize(key) && key_len == 4 * |key| && Expanded(key, key_len + 28)
      modifies buf
      ensures Inverted(key, key_len + 24)
    {
      hide Unpack; hide KeyCol; hide InvMixCol;
      buf[60] := buf[0];
      buf[61] := buf[1];
      buf[62] := buf[2];
      buf[63] := buf[3];
      for i := 4 to key_len + 24
        invariant Inverted(key, i)
      {
        hide Inverted; hide Expanded;
        InvertWord(key, i);
      }
    }

    // aes_set_key; badLength is CRYPTO_TFM_RES_BAD_KEY_LEN in the caller's flags
    method SetKey(tabs: Tables, in_key: seq<bv8>) returns (ret: int, badLength: bool)
      requires Ready(tabs)
      modifies this, buf
      ensures badLength == (|in_key| != 16 && |in_key| != 24 && |in_key| != 32)
      ensures ret == if badLength then -Basics.EINVAL else 0
      ensures !badLength ==> Scheduled(KeyCols(in_key))
      ensures badLength ==> key_length == old(key_length) && buf[..] == old(buf[..])
    {
      hide Unpack; hide KeyCol; hide InvMixCol; hide Expanded; hide Inverted; hide Tables.Built;
      if |in_key| != 16 && |in_key| != 24 && |in_key| != 32 {
        return -Basics.EINVAL, true;
      }
      key_length := |in_key|;
      ExpandKey(tabs, in_key);
      InvertKey(KeyCols(in_key), |in_key|);
      return 0, false;
    }

    // ------------------------------------------------------- one block

    lemma Shape(key: seq<Col>)
      requires Scheduled(key)
      ensures KeySize(key) && key_length == 4 * |key| && buf.Length == 120 && |Expand(key)| == 4 * Rounds(key) + 4
    {
    }

    // the words the rounds use are the round keys of the standard
    lemma EncKey(key: seq<Col>, r: nat)
      requires Scheduled(key) && r <= Rounds(key)
      ensures Words(buf[4 * r..4 * r + 4]) == RoundKey(Expand(key), r)
    {
      hide Unpack; hide KeyCol; hide InvMixCol;
    }

    lemma DecKey(key: seq<Col>, r: nat)
      requires Scheduled(key) && r < Rounds(key)
      ensures Words(buf[60 + 4 * r..64 + 4 * r])
           == if r == 0 then RoundKey(Expand(key), 0) else InvMixColumns(RoundKey(Expand(key), r))
    {
      hide Unpack; hide KeyCol; hide InvMixCol;
    }

    // two rounds of aes_encrypt
    method EncPair(tabs: Tables, b: seq<bv32>, kp: nat, ghost r: nat, ghost key: seq<Col>, ghost s: State) returns (o: seq<bv32>)
      requires tabs.Built() && Scheduled(key) && |b| == 4
      requires kp == 4 * r && 0 < r < Rounds(key) - 1 && Words(b) == EncState(Expand(key), s, r - 1)
      ensures |o| == 4 && Words(o) == EncState(Expand(key), s, r + 1)
    {
      hide Unpack; hide KeyCol; hide Expand; hide Words; hide Tables.Built; hide RoundKey; hide AddRoundKey;
      hide MixColumns; hide ShiftRows; hide SubBytes;
      var b1 := FRound(tabs, b, buf[kp..kp + 4]);
      EncKey(key, r);
      o := FRound(tabs, b1, buf[kp + 4..kp + 8]);
      EncKey(key, r + 1);
    }

    // the input block with round key kp added
    method Whiten(b: seq<bv8>, kp: nat) returns (o: seq<bv32>)
      requires |b| == 16 && kp + 4 <= buf.Length
      ensures |o| == 4 && Words(o) == AddRoundKey(Block(b), Words(buf[kp..kp + 4]))
    {
      hide Unpack; hide Xor; hide AddCol;
      UnpackXor(U32In(b, 0), buf[kp]);
      UnpackXor(U32In(b, 4), buf[kp + 1]);
      UnpackXor(U32In(b, 8), buf[kp + 2]);
      UnpackXor(U32In(b, 12), buf[kp + 3]);
      o := [Xor(U32In(b, 0), buf[kp]), Xor(U32In(b, 4), buf[kp + 1]), Xor(U32In(b, 8), buf[kp + 2]), Xor(U32In(b, 12), buf[kp + 3])];
    }

    // aes_encrypt is the cipher of the standard under the expanded key
    method Encrypt(tabs: Tables, block: seq<bv8>, ghost key: seq<Col>) returns (out: seq<bv8>)
      requires tabs.Built() && Scheduled(key) && |block| == 16
      ensures |out| == 16 && Block(out) == Cipher(Expand(key), Rounds(key), Block(block))
    {
      hide Unpack; hide KeyCol; hide Expand; hide Words; hide Tables.Built; hide RoundKey; hide AddRoundKey;
      hide MixColumns; hide ShiftRows; hide SubBytes; hide Block; hide Scheduled;
      Shape(key);
      ghost var s := Block(block);
      ghost var r := 1;
      var kp := 4;
      var b := Whiten(block, 0);
      EncKey(key, 0);
      if key_length > 24 {
        b := EncPair(tabs, b, kp, r, key, s);
        kp, r := kp + 8, r + 2;
      }
      if key_length > 16 {
        b := EncPair(tabs, b, kp, r, key, s);
        kp, r := kp + 8, r + 2;
      }
      b := EncPair(tabs, b, kp, r, key, s);
      b := EncPair(tabs, b, kp + 8, r + 2, key, s);
      b := EncPair(tabs, b, kp + 16, r + 4, key, s);
      b := EncPair(tabs, b, kp + 24, r + 6, key, s);
      b := FRound(tabs, b, buf[kp + 32..kp + 36]);
      EncKey(key, r + 8);
      b := FLast(tabs, b, buf[kp + 36..kp + 40]);
      EncKey(key, r + 9);
      out := Output(b);
    }

    // two rounds of aes_decrypt
    method DecPair(tabs: Tables, b: seq<bv32>, kp: nat, ghost j: nat, ghost key: seq<Col>, ghost s: State) returns (o: seq<bv32>)
      requires tabs.Built() && Scheduled(key) && |b| == 4 && 0 < j < Rounds(key) - 1
      requires kp == 60 + 4 * (Rounds(key) - j) && Words(b) == DecState(Expand(key), Rounds(key), s, j - 1)
      ensures |o| == 4 && Words(o) == DecState(Expand(key), Rounds(key), s, j + 1)
    {
      hide Unpack; hide KeyCol; hide Expand; hide Words; hide Tables.Built; hide RoundKey; hide AddRoundKey;
      hide InvMixColumns; hide InvShiftRows; hide InvSubBytes;
      var b1 := IRound(tabs, b, buf[kp..kp + 4]);
      DecKey(key, Rounds(key) - j);
      o := IRound(tabs, b1, buf[kp - 4..kp]);
      DecKey(key, Rounds(key) - j - 1);
    }

    // aes_decrypt is the equivalent inverse cipher of the standard, so it undoes Encrypt
    method Decrypt(tabs: Tables, block: seq<bv8>, ghost key: seq<Col>) returns (out: seq<bv8>)
      requires tabs.Built() && Scheduled(key) && |block| == 16
      ensures |out| == 16 && Block(out) == EqInvCipher(Expand(key), Rounds(key), Block(block))
      ensures forall p: State | Block(block) == Cipher(Expand(key), Rounds(key), p) :: Block(out) == p
    {
      hide Unpack; hide KeyCol; hide Expand; hide Words; hide Tables.Built; hide RoundKey; hide AddRoundKey;
      hide InvMixColumns; hide InvShiftRows; hide InvSubBytes; hide Block; hide Scheduled; hide Cipher;
      Shape(key);
      ghost var s := Block(block);
      ghost var j := 1;
      var kp := 60 + key_length + 20;
      var b := Whiten(block, key_length + 24);
      EncKey(key, Rounds(key));
      if key_length > 24 {
        b := DecPair(tabs, b, kp, j, key, s);
        kp, j := kp - 8, j + 2;
      }
      if key_length > 16 {
        b := DecPair(tabs, b, kp, j, key, s);
        kp, j := kp - 8, j + 2;
      }
      b := DecPair(tabs, b, kp, j, key, s);
      b := DecPair(tabs, b, kp - 8, j + 2, key, s);
      b := DecPair(tabs, b, kp - 16, j + 4, key, s);
      b := DecPair(tabs, b, kp - 24, j + 6, key, s);
      b := IRound(tabs, b, buf[kp - 32..kp - 28]);
      DecKey(key, 1);
      b := ILast(tabs, b, buf[kp - 36..kp - 32]);
      DecKey(key, 0);
      out := Output(b);
      forall p: State | s == Cipher(Expand(key), Rounds(key), p)
        ensures Block(out) == p
      {
        DecryptInvertsEncrypt(Expand(key), Rounds(key), p);
      }
    }
  }

  // with freshly generated tables, decrypting an encrypted block gives it back, for
  // every key of 16, 24 or 32 bytes and every block
  method RoundTrip(in_key: seq<bv8>, block: seq<bv8>) returns (back: seq<bv8>)
    requires (|in_key| == 16 || |in_key| == 24 || |in_key| == 32) && |block| == 16
    ensures back == block
  {
    hide Tables.Built; hide AesCtx.Scheduled; hide Cipher; hide EqInvCipher;
    var tabs := new Tables();
    tabs.GenTabs();
    var ctx := new AesCtx();
    var ret, bad := ctx.SetKey(tabs, in_key);
    ghost var key := KeyCols(in_key);
    var cipher := ctx.Encrypt(tabs, block, key);
    back := ctx.Decrypt(tabs, cipher, key);
    SameBlock(back, block);
  }

  lemma SameBlock(a: seq<bv8>, b: seq<bv8>)
    requires |a| == |b| == 16 && Block(a) == Block(b)
    ensures a == b
  {
  }

  method Output(b: seq<bv32>) returns (out: seq<bv8>)
    requires |b| == 4
    ensures |out| == 16 && Block(out) == Words(b)
  {
    hide ByteOf;
    out := U32Out(b[0]) + U32Out(b[1]) + U32Out(b[2]) + U32Out(b[3]);
  }

  lemma RoundConstant(t: Tables, i: nat)
    requires t.Built() && i < 10
    ensures t.rco_tab.Length == 10 && Unpack(t.rco_tab[i]) == Col(XPow(1, i), 0, 0, 0)
  {
    hide Pack; hide Unpack; hide XPow; hide SBox; hide InvSBox; hide Holds; hide Pow; hide Basics.Nat;
    UnpackOfPack(Col(XPow(1, i), 0, 0, 0));
  }
}
