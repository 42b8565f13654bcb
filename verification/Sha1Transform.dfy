// sha1_transform of crypto/sha1.c: eighty unrolled steps over a circular 16-word
// schedule and renamed registers, against section 6.1.2 of FIPS 180-2.
module Sha1Transform {
  import opened Basics

  datatype Regs = Regs(a: bv32, b: bv32, c: bv32, d: bv32, e: bv32)

  // ------------------------------------------------------------ the standard

  function Rol1(x: bv32): bv32 { (x << 1) | (x >> 31) }
  function Rol5(x: bv32): bv32 { (x << 5) | (x >> 27) }
  function Rol30(x: bv32): bv32 { (x << 30) | (x >> 2) }

  function Ch(x: bv32, y: bv32, z: bv32): bv32 { (x & y) ^ (!x & z) }
  function Parity(x: bv32, y: bv32, z: bv32): bv32 { x ^ y ^ z }
  function Maj(x: bv32, y: bv32, z: bv32): bv32 { (x & y) ^ (x & z) ^ (y & z) }

  function F(t: nat, x: bv32, y: bv32, z: bv32): bv32 {
    if t < 20 then Ch(x, y, z) else if t < 40 then Parity(x, y, z) else if t < 60 then Maj(x, y, z) else Parity(x, y, z)
  }

  function K(t: nat): bv32 {
    if t < 20 then 0x5a827999 else if t < 40 then 0x6ed9eba1 else if t < 60 then 0x8f1bbcdc else 0xca62c1d6
  }

  function Mixed(p: bv32, q: bv32, r: bv32, s: bv32): bv32 { Rol1(p ^ q ^ r ^ s) }

  // the message schedule of eighty words
  function W(m: seq<bv32>, t: nat): bv32
    requires |m| == 16
  {
    if t < 16 then m[t] else Mixed(W(m, t - 3), W(m, t - 8), W(m, t - 14), W(m, t - 16))
  }

  function Plus(x: bv32, y: bv32): bv32 { x + y }

  function Sum(r: bv32, f: bv32, e: bv32, k: bv32, w: bv32): bv32 { r + f + e + k + w }

  // one step with shifting registers
  function Step(s: Regs, t: nat, w: bv32): Regs {
    Regs(Sum(Rol5(s.a), F(t, s.b, s.c, s.d), s.e, K(t), w), s.a, Rol30(s.b), s.c, s.d)
  }

  // the registers after t steps
  function After(m: seq<bv32>, h: Regs, t: nat): Regs
    requires |m| == 16
  {
    if t == 0 then h else Step(After(m, h, t - 1), t - 1, W(m, t - 1))
  }

  // the new chaining value
  function Compress(h: Regs, m: seq<bv32>): Regs
    requires |m| == 16
  {
    var s := After(m, h, 80);
    Regs(Plus(h.a, s.a), Plus(h.b, s.b), Plus(h.c, s.c), Plus(h.d, s.d), Plus(h.e, s.e))
  }

  // section 5.2.1: a block is sixteen words, most significant byte first
  function Be32(b0: Byte, b1: Byte, b2: Byte, b3: Byte): bv32 {
    (b0 as bv32 << 24) | (b1 as bv32 << 16) | (b2 as bv32 << 8) | b3 as bv32
  }

  function WordAt(input: Bytes, i: nat): bv32
    requires |input| == 64 && i < 16
  {
    Be32(input[4 * i], input[4 * i + 1], input[4 * i + 2], input[4 * i + 3])
  }

  function WordsIn(input: Bytes): (m: seq<bv32>)
    requires |input| == 64
    ensures |m| == 16
  {
    seq(16, i requires 0 <= i < 16 => WordAt(input, i))
  }

  // the chaining value as numbers; the function over blocks that the hash folds
  function Number(x: bv32): (n: nat)
    ensures n < TWO32
  {
    x as int
  }

  function Word(n: nat): bv32
    requires n < TWO32
  {
    n as bv32
  }

  lemma WordOfNumber(x: bv32)
    ensures Word(Number(x)) == x
  {
  }

  predicate FiveWords(h: Words) {
    |h| == 5 && forall i | 0 <= i < 5 :: h[i] < TWO32
  }

  function Numbers(r: Regs): (h: Words)
    ensures FiveWords(h)
  {
    [Number(r.a), Number(r.b), Number(r.c), Number(r.d), Number(r.e)]
  }

  function CompressBlock(h: Words, block: Bytes): (r: Words)
    ensures FiveWords(h) ==> FiveWords(r)
  {
    if FiveWords(h) && |block| == 64 then
      Numbers(Compress(Regs(Word(h[0]), Word(h[1]), Word(h[2]), Word(h[3]), Word(h[4])), WordsIn(block)))
    else h
  }

  lemma CompressNumbers(r: Regs, block: Bytes)
    requires |block| == 64
    ensures CompressBlock(Numbers(r), block) == Numbers(Compress(r, WordsIn(block)))
  {
    hide Word; hide Number; hide Compress; hide WordsIn;
    WordOfNumber(r.a);
    WordOfNumber(r.b);
    WordOfNumber(r.c);
    WordOfNumber(r.d);
    WordOfNumber(r.e);
  }

  // ---------------------------------------------------------------- the code

  // the round functions as sha1.c writes them
  function CodedF(t: nat, w: bv32, x: bv32, y: bv32): bv32 {
    if t < 20 then (w & (x ^ y)) ^ y else if t < 40 then w ^ x ^ y else if t < 60 then ((w | x) & y) | (w & x) else w ^ x ^ y
  }

  lemma CodedCh(w: bv32, x: bv32, y: bv32)
    ensures (w & (x ^ y)) ^ y == Ch(w, x, y)
  {
  }

  lemma CodedMaj(w: bv32, x: bv32, y: bv32)
    ensures ((w | x) & y) | (w & x) == Maj(w, x, y)
  {
  }

  lemma CodedIsF(t: nat, w: bv32, x: bv32, y: bv32)
    ensures CodedF(t, w, x, y) == F(t, w, x, y)
  {
    CodedCh(w, x, y);
    CodedMaj(w, x, y);
    hide Ch; hide Maj;
  }

  function CodedSum(z: bv32, f: bv32, w: bv32, k: bv32, r: bv32): bv32 { z + (f + w + k + r) }

  lemma SumOrder(z: bv32, f: bv32, w: bv32, k: bv32, r: bv32)
    ensures CodedSum(z, f, w, k, r) == Sum(r, f, z, k, w)
  {
  }

  // before step t the sixteen words hold the message, or the last sixteen schedule words
  ghost predicate Circular(block32: array<bv32>, m: seq<bv32>, t: nat)
    reads block32
  {
    && block32.Length == 16 && |m| == 16
    && if t < 16 then block32[..] == m else forall u | t - 16 <= u < t :: block32[u % 16] == W(m, u)
  }

  // blk0 and blk: the schedule word of step i, overwriting the word it replaces
  method Blk(block32: array<bv32>, i: nat, ghost m: seq<bv32>) returns (w: bv32)
    requires Circular(block32, m, i)
    modifies block32
    ensures w == W(m, i) && Circular(block32, m, i + 1)
  {
    hide Mixed;
    if i < 16 {
      w := block32[i];
      if i == 15 { Filled(block32, m); }
    } else {
      Neighbours(i);
      assert block32[(i - 3) % 16] == W(m, i - 3) && block32[(i - 8) % 16] == W(m, i - 8);
      assert block32[(i - 14) % 16] == W(m, i - 14) && block32[(i - 16) % 16] == W(m, i - 16);
      w := Mixed(block32[(i + 13) % 16], block32[(i + 8) % 16], block32[(i + 2) % 16], block32[i % 16]);
      block32[i % 16] := w;
      Others(i);
    }
  }

  lemma Filled(block32: array<bv32>, m: seq<bv32>)
    requires block32.Length == 16 && |m| == 16 && block32[..] == m
    ensures forall u | 0 <= u < 16 :: block32[u % 16] == W(m, u)
  {
    assert forall u | 0 <= u < 16 :: block32[u] == m[u];
  }

  lemma Neighbours(i: nat)
    requires i >= 16
    ensures (i + 13) % 16 == (i - 3) % 16 && (i + 8) % 16 == (i - 8) % 16
    ensures (i + 2) % 16 == (i - 14) % 16 && i % 16 == (i - 16) % 16
  {
  }

  lemma Others(i: nat)
    requires i >= 16
    ensures forall u {:trigger u % 16} | i - 15 <= u < i :: u % 16 != i % 16
  {
  }

  // R0 to R4
  method Round(block32: array<bv32>, v: bv32, w: bv32, x: bv32, y: bv32, z: bv32, i: nat, ghost m: seq<bv32>, ghost h: Regs)
    returns (z': bv32, w': bv32)
    requires Circular(block32, m, i) && Regs(v, w, x, y, z) == After(m, h, i)
    modifies block32
    ensures Circular(block32, m, i + 1) && Regs(z', v, w', x, y) == After(m, h, i + 1)
  {
    hide Circular; hide W; hide CodedF; hide F; hide Sum; hide CodedSum; hide Rol5; hide Rol30; hide K;
    var word := Blk(block32, i, m);
    var f := CodedF(i, w, x, y);
    CodedIsF(i, w, x, y);
    SumOrder(z, f, word, K(i), Rol5(v));
    z' := CodedSum(z, f, word, K(i), Rol5(v));
    w' := Rol30(w);
  }

  method Rounds0(block32: array<bv32>, a0: bv32, b0: bv32, c0: bv32, d0: bv32, e0: bv32, ghost m: seq<bv32>, ghost h: Regs)
    returns (a: bv32, b: bv32, c: bv32, d: bv32, e: bv32)
    requires Circular(block32, m, 0) && Regs(a0, b0, c0, d0, e0) == After(m, h, 0)
    modifies block32
    ensures Circular(block32, m, 20) && Regs(a, b, c, d, e) == After(m, h, 20)
  {
    hide After; hide Circular;
    a, b, c, d, e := a0, b0, c0, d0, e0;
    e, b := Round(block32, a, b, c, d, e, 0, m, h);
    d, a := Round(block32, e, a, b, c, d, 1, m, h);
    c, e := Round(block32, d, e, a, b, c, 2, m, h);
    b, d := Round(block32, c, d, e, a, b, 3, m, h);
    a, c := Round(block32, b, c, d, e, a, 4, m, h);
    e, b := Round(block32, a, b, c, d, e, 5, m, h);
    d, a := Round(block32, e, a, b, c, d, 6, m, h);
    c, e := Round(block32, d, e, a, b, c, 7, m, h);
    b, d := Round(block32, c, d, e, a, b, 8, m, h);
    a, c := Round(block32, b, c, d, e, a, 9, m, h);
    e, b := Round(block32, a, b, c, d, e, 10, m, h);
    d, a := Round(block32, e, a, b, c, d, 11, m, h);
    c, e := Round(block32, d, e, a, b, c, 12, m, h);
    b, d := Round(block32, c, d, e, a, b, 13, m, h);
    a, c := Round(block32, b, c, d, e, a, 14, m, h);
    e, b := Round(block32, a, b, c, d, e, 15, m, h);
    d, a := Round(block32, e, a, b, c, d, 16, m, h);
    c, e := Round(block32, d, e, a, b, c, 17, m, h);
    b, d := Round(block32, c, d, e, a, b, 18, m, h);
    a, c := Round(block32, b, c, d, e, a, 19, m, h);
  }

  method Rounds20(block32: array<bv32>, a0: bv32, b0: bv32, c0: bv32, d0: bv32, e0: bv32, ghost m: seq<bv32>, ghost h: Regs)
    returns (a: bv32, b: bv32, c: bv32, d: bv32, e: bv32)
    requires Circular(block32, m, 20) && Regs(a0, b0, c0, d0, e0) == After(m, h, 20)
    modifies block32
    ensures Circular(block32, m, 40) && Regs(a, b, c, d, e) == After(m, h, 40)
  {
    hide After; hide Circular;
    a, b, c, d, e := a0, b0, c0, d0, e0;
    e, b := Round(block32, a, b, c, d, e, 20, m, h);
    d, a := Round(block32, e, a, b, c, d, 21, m, h);
    c, e := Round(block32, d, e, a, b, c, 22, m, h);
    b, d := Round(block32, c, d, e, a, b, 23, m, h);
    a, c := Round(block32, b, c, d, e, a, 24, m, h);
    e, b := Round(block32, a, b, c, d, e, 25, m, h);
    d, a := Round(block32, e, a, b, c, d, 26, m, h);
    c, e := Round(block32, d, e, a, b, c, 27, m, h);
    b, d := Round(block32, c, d, e, a, b, 28, m, h);
    a, c := Round(block32, b, c, d, e, a, 29, m, h);
    e, b := Round(block32, a, b, c, d, e, 30, m, h);
    d, a := Round(block32, e, a, b, c, d, 31, m, h);
    c, e := Round(block32, d, e, a, b, c, 32, m, h);
    b, d := Round(block32, c, d, e, a, b, 33, m, h);
    a, c := Round(block32, b, c, d, e, a, 34, m, h);
    e, b := Round(block32, a, b, c, d, e, 35, m, h);
    d, a := Round(block32, e, a, b, c, d, 36, m, h);
    c, e := Round(block32, d, e, a, b, c, 37, m, h);
    b, d := Round(block32, c, d, e, a, b, 38, m, h);
    a, c := Round(block32, b, c, d, e, a, 39, m, h);
  }

  method Rounds40(block32: array<bv32>, a0: bv32, b0: bv32, c0: bv32, d0: bv32, e0: bv32, ghost m: seq<bv32>, ghost h: Regs)
    returns (a: bv32, b: bv32, c: bv32, d: bv32, e: bv32)
    requires Circular(block32, m, 40) && Regs(a0, b0, c0, d0, e0) == After(m, h, 40)
    modifies block32
    ensures Circular(block32, m, 60) && Regs(a, b, c, d, e) == After(m, h, 60)
  {
    hide After; hide Circular;
    a, b, c, d, e := a0, b0, c0, d0, e0;
    e, b := Round(block32, a, b, c, d, e, 40, m, h);
    d, a := Round(block32, e, a, b, c, d, 41, m, h);
    c, e := Round(block32, d, e, a, b, c, 42, m, h);
    b, d := Round(block32, c, d, e, a, b, 43, m, h);
    a, c := Round(block32, b, c, d, e, a, 44, m, h);
    e, b := Round(block32, a, b, c, d, e, 45, m, h);
    d, a := Round(block32, e, a, b, c, d, 46, m, h);
    c, e := Round(block32, d, e, a, b, c, 47, m, h);
    b, d := Round(block32, c, d, e, a, b, 48, m, h);
    a, c := Round(block32, b, c, d, e, a, 49, m, h);
    e, b := Round(block32, a, b, c, d, e, 50, m, h);
    d, a := Round(block32, e, a, b, c, d, 51, m, h);
    c, e := Round(block32, d, e, a, b, c, 52, m, h);
    b, d := Round(block32, c, d, e, a, b, 53, m, h);
    a, c := Round(block32, b, c, d, e, a, 54, m, h);
    e, b := Round(block32, a, b, c, d, e, 55, m, h);
    d, a := Round(block32, e, a, b, c, d, 56, m, h);
    c, e := Round(block32, d, e, a, b, c, 57, m, h);
    b, d := Round(block32, c, d, e, a, b, 58, m, h);
    a, c := Round(block32, b, c, d, e, a, 59, m, h);
  }

  method Rounds60(block32: array<bv32>, a0: bv32, b0: bv32, c0: bv32, d0: bv32, e0: bv32, ghost m: seq<bv32>, ghost h: Regs)
    returns (a: bv32, b: bv32, c: bv32, d: bv32, e: bv32)
    requires Circular(block32, m, 60) && Regs(a0, b0, c0, d0, e0) == After(m, h, 60)
    modifies block32
    ensures Circular(block32, m, 80) && Regs(a, b, c, d, e) == After(m, h, 80)
  {
    hide After; hide Circular;
    a, b, c, d, e := a0, b0, c0, d0, e0;
    e, b := Round(block32, a, b, c, d, e, 60, m, h);
    d, a := Round(block32, e, a, b, c, d, 61, m, h);
    c, e := Round(block32, d, e, a, b, c, 62, m, h);
    b, d := Round(block32, c, d, e, a, b, 63, m, h);
    a, c := Round(block32, b, c, d, e, a, 64, m, h);
    e, b := Round(block32, a, b, c, d, e, 65, m, h);
    d, a := Round(block32, e, a, b, c, d, 66, m, h);
    c, e := Round(block32, d, e, a, b, c, 67, m, h);
    b, d := Round(block32, c, d, e, a, b, 68, m, h);
    a, c := Round(block32, b, c, d, e, a, 69, m, h);
    e, b := Round(block32, a, b, c, d, e, 70, m, h);
    d, a := Round(block32, e, a, b, c, d, 71, m, h);
    c, e := Round(block32, d, e, a, b, c, 72, m, h);
    b, d := Round(block32, c, d, e, a, b, 73, m, h);
    a, c := Round(block32, b, c, d, e, a, 74, m, h);
    e, b := Round(block32, a, b, c, d, e, 75, m, h);
    d, a := Round(block32, e, a, b, c, d, 76, m, h);
    c, e := Round(block32, d, e, a, b, c, 77, m, h);
    b, d := Round(block32, c, d, e, a, b, 78, m, h);
    a, c := Round(block32, b, c, d, e, a, 79, m, h);
  }

  ghost function Held(state: array<bv32>): Regs
    requires state.Length == 5
    reads state
  {
    Regs(state[0], state[1], state[2], state[3], state[4])
  }

  // sha1_transform
  method Transform(state: array<bv32>, input: Bytes)
    requires state.Length == 5 && |input| == 64
    modifies state
    ensures Held(state) == Compress(old(Held(state)), WordsIn(input))
    ensures Numbers(Held(state)) == CompressBlock(Numbers(old(Held(state))), input)
  {
    hide After; hide Circular; hide Plus; hide WordAt; hide WordsIn; hide Numbers;
    var block32 := Load(input);
    ghost var words := WordsIn(input);
    ghost var h := Held(state);
    CompressNumbers(h, input);
    Start(block32, words, h);
    var a, b, c, d, e := state[0], state[1], state[2], state[3], state[4];
    a, b, c, d, e := Rounds0(block32, a, b, c, d, e, words, h);
    a, b, c, d, e := Rounds20(block32, a, b, c, d, e, words, h);
    a, b, c, d, e := Rounds40(block32, a, b, c, d, e, words, h);
    a, b, c, d, e := Rounds60(block32, a, b, c, d, e, words, h);
    state[0] := Plus(state[0], a);
    state[1] := Plus(state[1], b);
    state[2] := Plus(state[2], c);
    state[3] := Plus(state[3], d);
    state[4] := Plus(state[4], e);
  }

  // the loop that reads the block
  method Load(input: Bytes) returns (block32: array<bv32>)
    requires |input| == 64
    ensures fresh(block32) && block32[..] == WordsIn(input)
  {
    hide WordAt;
    block32 := new bv32[16](_ => 0);
    for a := 0 to 16
      invariant forall i | 0 <= i < a :: block32[i] == WordAt(input, i)
    {
      block32[a] := WordAt(input, a);
    }
  }

  lemma Start(block32: array<bv32>, m: seq<bv32>, h: Regs)
    requires |m| == 16 && block32[..] == m
    ensures Circular(block32, m, 0) && After(m, h, 0) == h
  {
  }
}
