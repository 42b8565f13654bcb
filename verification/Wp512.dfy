// wp512_update and wp512_final of crypto/wp512.c: a bit-oriented interface used
// on whole bytes, with a 256-bit counter kept as 32 bytes.  wp512_process_buffer
// is a parameter.
module Wp512 {
  import opened Arithmetic
  import opened Basics
  import opened Digest

  const TWO29 := 0x2000_0000

  // the number whose bytes, most significant first, are s
  ghost function ValueOf(s: Bytes): nat {
    if s == [] then 0 else 256 * ValueOf(s[..|s| - 1]) + Nat(s[|s| - 1])
  }

  lemma {:induction false} ValueOfUpdate(s: Bytes, i: nat, v: Byte)
    requires i < |s|
    ensures ValueOf(s[i := v]) == ValueOf(s) + (Nat(v) - Nat(s[i])) * Pow256(|s| - 1 - i)
  {
    hide Nat;
    var n := |s| - 1;
    if i == n {
      assert s[i := v][..n] == s[..n];
    } else {
      assert s[i := v][..n] == s[..n][i := v];
      ValueOfUpdate(s[..n], i, v);
      Rescale(Nat(v) - Nat(s[i]), Pow256(n - 1 - i));
    }
  }

  lemma Rescale(d: int, p: nat)
    ensures 256 * (d * p) == d * (256 * p)
  {
  }

  lemma {:induction false} BytesOfValue(s: Bytes)
    ensures BigEndian(ValueOf(s), |s|) == s && ValueOf(s) < Pow256(|s|)
  {
    hide Nat; hide ToByte;
    if s != [] {
      var n := |s| - 1;
      BytesOfValue(s[..n]);
      DivIs(ValueOf(s), 256, ValueOf(s[..n]), Nat(s[n]));
      ModIs(ValueOf(s), 256, ValueOf(s[..n]), Nat(s[n]));
      ByteOfNat(s[n]);
      Grows(256, ValueOf(s[..n]) + 1, Pow256(n));
    }
  }

  // the operations on bytes; a shift is by at most the width
  function Or(x: Byte, y: Byte): Byte {
    x | y
  }

  function Shr(x: Byte, n: nat): Byte
    requires n <= 8
  {
    x >> n
  }

  function Shl(x: Byte, n: nat): Byte
    requires n <= 8
  {
    x << n
  }

  lemma OrZero(x: Byte)
    ensures Or(0, x) == x && Or(x, 0) == x
  {
  }

  // at a byte boundary nothing is moved and nothing is left over
  lemma Shifts(b: Byte)
    ensures Shr(b, 0) == b && Shl(b, 8) == 0 && Shl(b, 0) == b && Shr(b, 8) == 0
  {
  }

  // struct wp512_ctx; the core holds the buffer and the hash words
  class Ctx {
    const bitLength: array<Byte>
    const core: Absorber<Words>
    var bufferBits: nat
    var bufferPos: nat

    ghost predicate Valid()
      reads this, core, core.buf
    {
      && core.Valid() && core.b == 64 && bitLength.Length == 32 && bitLength != core.buf
      && bufferPos == |core.msg| % 64 && bufferBits == 8 * bufferPos && core.buf[bufferPos] == 0
    }

    // the counter holds the number of bits, modulo 2^256
    ghost predicate Counted(bits: nat)
      reads bitLength
    {
      bitLength[..] == BigEndian(bits, 32)
    }

    constructor (f: (Words, Bytes) -> Words, init: Words)
      ensures Valid() && Counted(0) && core.msg == [] && core.f == f && core.init == init
      ensures fresh(core) && fresh(core.buf) && fresh(bitLength)
    {
      hide BigEndian; hide Fold; hide Absorber<Words>.Valid;
      core := new Absorber(f, 64, init);
      bitLength := new Byte[32](_ => 0);
      bufferBits, bufferPos := 0, 0;
      new;
      core.Parts(0);
      core.buf[0] := 0;
      core.Whole(0);
      ZeroBytes(bitLength[..]);
    }

    // the carry loop, which stops as soon as nothing is left to add
    method AddBits(bits: nat)
      requires bitLength.Length == 32
      modifies bitLength
      ensures ValueOf(bitLength[..]) == (old(ValueOf(bitLength[..])) + bits) % Pow256(32)
    {
      hide ValueOf; hide Pow256; hide BigEndian; hide Nat; hide ToByte;
      ghost var start := ValueOf(bitLength[..]);
      var i, carry, value := 31, 0, bits;
      FirstPower(bits);
      while i >= 0 && (carry != 0 || value != 0)
        invariant -1 <= i <= 31 && 0 <= carry && 0 <= value
        invariant Adding(bitLength[..], carry + value, 31 - i, start + bits)
      {
        hide Adding;
        ghost var s := bitLength[..];
        var t := carry + Nat(bitLength[i]) + value % 256;
        CarryStep(s, i, carry, value, start + bits);
        bitLength[i] := ToByte(t % 256);
        assert bitLength[..] == s[i := ToByte(t % 256)];
        carry := t / 256;
        value := value / 256;
        i := i - 1;
      }
      CarryEnd(bitLength[..], carry + value, 31 - i, start + bits);
    }

    // one byte goes into the buffer, which is hashed when full; the next position is cleared
    method PutByte(b: Byte, bufferRem: nat)
      requires Valid() && bufferRem == bufferBits % 8
      modifies this, core, core.buf
      ensures Valid() && core.msg == old(core.msg) + [b]
    {
      hide Absorber<Words>.Valid; hide Fold; hide Or; hide Shr; hide Shl;
      Shifts(b);
      OrZero(b);
      AtBoundary();
      core.Parts(bufferPos);
      NextIndex(|core.msg|);
      ghost var front := core.msg[..|core.msg| - bufferPos];
      SplitAt(core.msg, |core.msg| - bufferPos, b);
      core.buf[bufferPos] := Or(core.buf[bufferPos], Shr(b, bufferRem));
      bufferPos := bufferPos + 1;
      bufferBits := bufferBits + (8 - bufferRem);
      core.msg := core.msg + [b];
      assert core.buf[..bufferPos] == old(core.buf[..bufferPos]) + [b];
      if bufferBits == 64 * 8 {
        HashFull(front);
        bufferBits, bufferPos := 0, 0;
      }
      Clear(Shl(b, 8 - bufferRem));
      bufferBits := bufferBits + bufferRem;
    }

    method Clear(rest: Byte)
      requires rest == 0 && core.b == core.buf.Length == 64 && bufferPos == |core.msg| % 64
      requires core.state == Fold(core.f, 64, core.init, core.msg[..|core.msg| - bufferPos])
      requires core.buf[..bufferPos] == core.msg[|core.msg| - bufferPos..]
      modifies core.buf
      ensures core.Valid() && core.buf[bufferPos] == 0
    {
      hide Fold; hide Absorber<Words>.Valid;
      core.buf[bufferPos] := rest;
      assert core.buf[..bufferPos] == old(core.buf[..bufferPos]);
      core.Whole(bufferPos);
    }

    // wp512_process_buffer on a full buffer
    method HashFull(ghost front: Bytes)
      requires core.b == core.buf.Length == 64 && |front| % 64 == 0 && core.msg == front + core.buf[..64]
      requires core.state == Fold(core.f, 64, core.init, front)
      modifies core`state
      ensures core.state == Fold(core.f, 64, core.init, core.msg[..|core.msg|]) && |core.msg| % 64 == 0
    {
      hide Fold;
      assert core.buf[..] == core.buf[..64];
      FoldSnoc(core.f, 64, core.init, front, core.buf[..]);
      assert core.msg[..|core.msg|] == core.msg;
      core.state := core.f(core.state, core.buf[..]);
    }

    // the loop over the source and the step for its last byte, which moves the bits of
    // source and buffer into line: both are at a byte boundary
    method PutBytes(source: Bytes, bits: nat)
      requires Valid() && bits % 8 == 0 && bits <= 8 * |source|
      modifies this, core, core.buf
      ensures Valid() && core.msg == old(core.msg) + source[..bits / 8]
    {
      hide Absorber<Words>.Valid;
      var bits_len := bits;
      var sourceGap := (8 - bits_len % 8) % 8;
      var bufferRem := bufferBits % 8;
      var sourcePos := 0;
      ghost var m := core.msg;
      assert m + source[..0] == m;
      while bits_len > 8
        invariant Valid() && bufferRem == bufferBits % 8 && bits_len == bits - 8 * sourcePos && 0 <= sourcePos
        invariant sourcePos <= bits / 8 && core.msg == m + source[..sourcePos]
      {
        hide Or; hide Shr; hide Shl; hide Valid;
        SourceByte(source[sourcePos], source[sourcePos + 1]);
        var b := Or(Shl(source[sourcePos], sourceGap), Shr(source[sourcePos + 1], 8 - sourceGap));
        PutByte(b, bufferRem);
        AtBoundary();
        assert source[..sourcePos + 1] == source[..sourcePos] + [source[sourcePos]];
        bits_len := bits_len - 8;
        sourcePos := sourcePos + 1;
      }
      if bits_len > 0 {
        hide Or; hide Shr; hide Shl; hide Valid;
        SourceByte(source[sourcePos], 0);
        PutByte(Shl(source[sourcePos], sourceGap), bufferRem);
        assert source[..bits / 8] == source[..sourcePos] + [source[sourcePos]];
      }
    }

    lemma AtBoundary()
      requires Valid()
      ensures bufferBits % 8 == 0
    {
    }

    // wp512_update.  The length in bits is taken modulo 2^32, so the bytes appended
    // are all those of source if and only if there are fewer than 2^29.
    method Update(source: Bytes)
      requires Valid() && Counted(8 * |core.msg|) && |source| < 8 * TWO29
      modifies this, core, core.buf, bitLength
      ensures Valid() && Counted(8 * |core.msg|)
      ensures core.msg == old(core.msg) + source[..|source| % TWO29]
      ensures core.msg == old(core.msg) + source <==> |source| < TWO29
    {
      hide Absorber<Words>.Valid; hide Valid; hide BigEndian; hide Pow256; hide ValueOf;
      var bits_len := 8 * |source| % (8 * TWO29);
      Taken(core.msg, source);
      Shape();
      CountMore(8 * |core.msg|, bits_len, bitLength[..]);
      AddBits(bits_len);
      CountIs(8 * |core.msg| + bits_len, bitLength[..]);
      PutBytes(source, bits_len);
    }

    lemma Shape()
      requires Valid()
      ensures bitLength.Length == 32 && bitLength != core.buf
    {
    }

    // wp512_final: 0x80, zeros - hashing a block in between when the counter does not
    // fit - and the counter
    method Final() returns (digest: Bytes)
      requires Valid() && Counted(8 * |core.msg|)
      modifies this, core, core.buf
      ensures digest == StoreWords(Hash(core.f, 64, core.init, old(core.msg), BigEndian(8 * old(|core.msg|), 32)), 8)
    {
      hide Absorber<Words>.Valid; hide Fold; hide Or; hide Shr; hide BigEndian; hide Padded; hide StoreWords;
      AtBoundary();
      core.Parts(bufferPos);
      Shifts(0x80);
      OrZero(0x80);
      core.buf[bufferPos] := Or(core.buf[bufferPos], Shr(0x80, bufferBits % 8));
      assert core.buf[..bufferPos] == old(core.buf[..bufferPos]);
      core.Whole(bufferPos);
      core.PadInPlace(bufferPos, bitLength[..]);
      bufferPos := 32;
      digest := Store(core.state, 8);
    }
  }

  lemma SplitAt(m: Bytes, n: nat, b: Byte)
    requires n <= |m|
    ensures (m + [b])[..n] == m[..n] && (m + [b])[n..] == m[n..] + [b] && m + [b] == m[..n] + (m[n..] + [b])
  {
  }

  lemma SourceByte(x: Byte, y: Byte)
    ensures Or(Shl(x, 0), Shr(y, 8)) == x && Shl(x, 0) == x
  {
    hide Or; hide Shr; hide Shl;
    Shifts(x);
    Shifts(y);
    OrZero(x);
  }

  // the bytes that the number of bits modulo 2^32 covers
  lemma Taken(m: Bytes, source: Bytes)
    ensures var k := |source| % TWO29;
      && k <= |source| && 8 * |source| % (8 * TWO29) == 8 * k && |m + source[..k]| == |m| + k
      && (m + source[..k] == m + source <==> |source| < TWO29)
  {
    var n, k := |source|, |source| % TWO29;
    ModIs(8 * n, 8 * TWO29, n / TWO29, 8 * k);
    if n < TWO29 { assert source[..k] == source; }
  }

  lemma {:induction false} ValueOfBytes(n: nat, k: nat)
    ensures ValueOf(BigEndian(n, k)) == n % Pow256(k)
  {
    BigEndianMod(n, k);
    ValueUnique(n % Pow256(k), k);
  }

  lemma {:induction false} ValueUnique(n: nat, k: nat)
    requires n < Pow256(k)
    ensures ValueOf(BigEndian(n, k)) == n
  {
    hide Nat; hide ToByte;
    if k > 0 {
      Smaller(n, Pow256(k - 1));
      ValueUnique(n / 256, k - 1);
      assert BigEndian(n, k)[..k - 1] == BigEndian(n / 256, k - 1);
    }
  }

  lemma CountMore(n: nat, bits: nat, s: Bytes)
    requires s == BigEndian(n, 32)
    ensures (ValueOf(s) + bits) % Pow256(32) == (n + bits) % Pow256(32)
  {
    hide Pow256; hide BigEndian; hide ValueOf;
    ValueOfBytes(n, 32);
    SameMod(n + bits, n % Pow256(32) + bits, Pow256(32), n / Pow256(32));
  }

  lemma CountIs(n: nat, s: Bytes)
    requires |s| == 32
    ensures ValueOf(s) == n % Pow256(32) ==> s == BigEndian(n, 32)
  {
    hide Pow256; hide BigEndian; hide ValueOf;
    BytesOfValue(s);
    BigEndianMod(n, 32);
  }

  lemma NextIndex(n: nat)
    ensures (n + 1) % 64 == if n % 64 == 63 then 0 else n % 64 + 1
  {
  }

  // rest is still to be added from byte k up, counted from the low end
  ghost predicate Adding(s: Bytes, rest: nat, k: nat, total: nat) {
    ValueOf(s) + rest * Pow256(k) == total
  }

  lemma FirstPower(bits: nat)
    ensures bits * Pow256(0) == bits
  {
  }

  lemma CarryStep(s: Bytes, i: nat, carry: nat, value: nat, total: nat)
    requires |s| == 32 && i < 32 && Adding(s, carry + value, 31 - i, total)
    ensures var t := carry + Nat(s[i]) + value % 256; Adding(s[i := ToByte(t % 256)], t / 256 + value / 256, 32 - i, total)
  {
    hide ValueOf; hide Pow256; hide Nat; hide ToByte;
    var t := carry + Nat(s[i]) + value % 256;
    ValueOfUpdate(s, i, ToByte(t % 256));
    Carried(ValueOf(s), carry, value, Nat(s[i]), 31 - i);
  }

  lemma CarryEnd(s: Bytes, rest: nat, k: nat, total: nat)
    requires |s| == 32 && k <= 32 && Adding(s, rest, k, total) && (k == 32 || rest == 0)
    ensures ValueOf(s) == total % Pow256(32)
  {
    hide ValueOf; hide Pow256;
    BytesOfValue(s);
    if k == 32 {
      ModIs(total, Pow256(32), rest, ValueOf(s));
    } else {
      ModIs(total, Pow256(32), 0, ValueOf(s));
    }
  }

  // the total is unchanged by one turn of the carry loop
  lemma Carried(v: int, carry: nat, value: nat, byte: nat, k: nat)
    ensures var t := carry + byte + value % 256;
      v + (t % 256 - byte) * Pow256(k) + (t / 256 + value / 256) * Pow256(k + 1) == v + (carry + value) * Pow256(k)
  {
    var t, p := carry + byte + value % 256, Pow256(k);
    assert Pow256(k + 1) == 256 * p;
    Rescale(t / 256 + value / 256, p);
    assert t % 256 - byte + 256 * (t / 256 + value / 256) == carry + value;
    Distribute(t % 256 - byte, 256 * (t / 256 + value / 256), p);
  }

  lemma Distribute(a: int, b: int, p: int)
    ensures a * p + b * p == (a + b) * p
  {
  }

  lemma {:induction false} ZeroValue(s: Bytes)
    requires forall i | 0 <= i < |s| :: s[i] == 0
    ensures ValueOf(s) == 0
  {
    if s != [] { ZeroValue(s[..|s| - 1]); }
  }

  lemma ZeroBytes(s: Bytes)
    requires forall i | 0 <= i < |s| :: s[i] == 0
    ensures s == BigEndian(0, |s|)
  {
    ZeroValue(s);
    BytesOfValue(s);
  }

  // what wp512_update takes of a piece
  function Taking(piece: Bytes): Bytes {
    piece[..|piece| % TWO29]
  }

  function Cut(pieces: seq<Bytes>): (r: seq<Bytes>)
    ensures |r| == |pieces|
  {
    seq(|pieces|, i requires 0 <= i < |pieces| => Taking(pieces[i]))
  }

  lemma TakesAll(piece: Bytes)
    ensures Taking(piece) == piece <==> |piece| < TWO29
  {
    if |piece| < TWO29 { assert piece[..|piece|] == piece; }
  }

  // half a gigabyte at once is dropped whole
  lemma HalfGigabyteLost(piece: Bytes)
    requires |piece| == TWO29
    ensures Taking(piece) == [] != piece
  {
  }

  lemma ShortUncut(pieces: seq<Bytes>)
    requires forall i | 0 <= i < |pieces| :: |pieces[i]| < TWO29
    ensures Cut(pieces) == pieces
  {
    forall i | 0 <= i < |pieces|
      ensures Cut(pieces)[i] == pieces[i]
    {
      TakesAll(pieces[i]);
    }
  }

  // the digest is that of what was taken of the pieces, for pieces of every length
  method InPieces(f: (Words, Bytes) -> Words, init: Words, pieces: seq<Bytes>) returns (digest: Bytes)
    requires forall i | 0 <= i < |pieces| :: |pieces[i]| < TWO32
    ensures var m := Concat(Cut(pieces)); digest == StoreWords(Hash(f, 64, init, m, BigEndian(8 * |m|, 32)), 8)
  {
    hide Concat; hide StoreWords; hide Hash; hide Ctx.Valid; hide Ctx.Counted; hide BigEndian;
    var ctx := new Ctx(f, init);
    ghost var cut := Cut(pieces);
    NoPieces(cut);
    for i := 0 to |pieces|
      invariant ctx.Valid() && ctx.Counted(8 * |ctx.core.msg|) && ctx.core.msg == Concat(cut[..i])
      invariant fresh(ctx) && fresh(ctx.core) && fresh(ctx.core.buf) && fresh(ctx.bitLength)
    {
      ConcatSnoc(cut, i);
      ctx.Update(pieces[i]);
    }
    assert cut[..|cut|] == cut;
    digest := ctx.Final();
  }

  // the digest depends on the message alone, however it is cut up into short pieces
  method InShortPieces(f: (Words, Bytes) -> Words, init: Words, pieces: seq<Bytes>) returns (digest: Bytes)
    requires forall i | 0 <= i < |pieces| :: |pieces[i]| < TWO29
    ensures var m := Concat(pieces); digest == StoreWords(Hash(f, 64, init, m, BigEndian(8 * |m|, 32)), 8)
  {
    hide Concat; hide StoreWords; hide Hash; hide BigEndian; hide Cut;
    ShortUncut(pieces);
    digest := InPieces(f, init, pieces);
  }
}
