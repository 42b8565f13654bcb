// Iterated hash functions as standards write them - padding, then the compression
// function folded over the blocks - and the buffering that sha1_update,
// sha256_update and sha512_update share.
module Digest {
  import opened Arithmetic
  import opened Basics

  // ------------------------------------------------------------ definition

  // f folded over the blocks of b bytes of m, from the chaining value h
  function Fold<H>(f: (H, Bytes) -> H, b: nat, h: H, m: Bytes): H
    requires b > 0 && |m| % b == 0
    decreases |m|
  {
    if m == [] then h
    else
      LastBlock(|m|, b);
      f(Fold(f, b, h, m[..|m| - b]), m[|m| - b..])
  }

  lemma FoldSnoc<H>(f: (H, Bytes) -> H, b: nat, h: H, m: Bytes, block: Bytes)
    requires b > 0 && |m| % b == 0 && |block| == b
    ensures |m + block| % b == 0 && Fold(f, b, h, m + block) == f(Fold(f, b, h, m), block)
  {
    AddBlock(|m|, b);
    assert (m + block)[..|m|] == m && (m + block)[|m|..] == block;
  }

  // a message given in pieces
  ghost function Concat(pieces: seq<Bytes>): Bytes {
    if pieces == [] then [] else Concat(pieces[..|pieces| - 1]) + pieces[|pieces| - 1]
  }

  lemma NoPieces(pieces: seq<Bytes>)
    ensures Concat(pieces[..0]) == []
  {
  }

  lemma ConcatSnoc(pieces: seq<Bytes>, i: nat)
    requires i < |pieces|
    ensures Concat(pieces[..i + 1]) == Concat(pieces[..i]) + pieces[i]
  {
    assert pieces[..i + 1][..i] == pieces[..i];
  }

  // the k low-order bytes of n, most significant first
  function BigEndian(n: nat, k: nat): (r: Bytes)
    ensures |r| == k
  {
    if k == 0 then [] else BigEndian(n / 256, k - 1) + [ToByte(n % 256)]
  }

  // least significant first
  function LittleEndian(n: nat, k: nat): (r: Bytes)
    ensures |r| == k
  {
    if k == 0 then [] else [ToByte(n % 256)] + LittleEndian(n / 256, k - 1)
  }

  function Pow256(k: nat): (p: nat)
    ensures p > 0
  {
    if k == 0 then 1 else 256 * Pow256(k - 1)
  }

  lemma Pow256Values()
    ensures Pow256(4) == 0x1_0000_0000 && Pow256(8) == 0x1_0000_0000_0000_0000
    ensures Pow256(16) == 0x1_0000_0000_0000_0000_0000_0000_0000_0000
  {
    assert Pow256(2) == 0x1_0000;
    assert Pow256(4) == 256 * Pow256(3) && Pow256(3) == 256 * Pow256(2);
    assert Pow256(6) == 256 * Pow256(5) && Pow256(5) == 256 * Pow256(4);
    assert Pow256(8) == 256 * Pow256(7) && Pow256(7) == 256 * Pow256(6);
    assert Pow256(10) == 256 * Pow256(9) && Pow256(9) == 256 * Pow256(8);
    assert Pow256(12) == 256 * Pow256(11) && Pow256(11) == 256 * Pow256(10);
    assert Pow256(14) == 256 * Pow256(13) && Pow256(13) == 256 * Pow256(12);
    assert Pow256(16) == 256 * Pow256(15) && Pow256(15) == 256 * Pow256(14);
  }

  // only the value modulo 256^k matters
  lemma {:induction false} BigEndianMod(n: nat, k: nat)
    ensures BigEndian(n % Pow256(k), k) == BigEndian(n, k)
  {
    hide ToByte;
    if k > 0 {
      var p := Pow256(k - 1);
      var q, r := n / (256 * p), n % (256 * p);
      assert n == 256 * p * q + r;
      Associate(256, p, q);
      SameMod(n, r, 256, p * q);
      DivIs(n, 256, p * q + r / 256, r % 256);
      Smaller(r, p);
      ModIs(n / 256, p, q, r / 256);
      BigEndianMod(n / 256, k - 1);
    }
  }

  lemma Smaller(r: nat, p: nat)
    requires r < 256 * p
    ensures r / 256 < p
  {
  }

  // the low word of j bytes and the high word of k
  lemma {:induction false} BigEndianJoin(hi: nat, lo: nat, k: nat, j: nat)
    requires lo < Pow256(j)
    ensures BigEndian(hi * Pow256(j) + lo, k + j) == BigEndian(hi, k) + BigEndian(lo, j)
  {
    hide ToByte;
    if j > 0 {
      var p := Pow256(j - 1);
      assert hi * (256 * p) == 256 * (hi * p);
      DivIs(hi * (256 * p) + lo, 256, hi * p + lo / 256, lo % 256);
      SameMod(hi * (256 * p) + lo, lo, 256, hi * p);
      Smaller(lo, p);
      BigEndianJoin(hi, lo / 256, k, j - 1);
    }
  }

  lemma {:induction false} LittleEndianMod(n: nat, k: nat)
    ensures LittleEndian(n % Pow256(k), k) == LittleEndian(n, k)
  {
    hide ToByte;
    if k > 0 {
      var p := Pow256(k - 1);
      var q, r := n / (256 * p), n % (256 * p);
      assert n == 256 * p * q + r;
      Associate(256, p, q);
      SameMod(n, r, 256, p * q);
      DivIs(n, 256, p * q + r / 256, r % 256);
      Smaller(r, p);
      ModIs(n / 256, p, q, r / 256);
      LittleEndianMod(n / 256, k - 1);
    }
  }

  lemma {:induction false} LittleEndianJoin(hi: nat, lo: nat, k: nat, j: nat)
    requires lo < Pow256(j)
    ensures LittleEndian(hi * Pow256(j) + lo, j + k) == LittleEndian(lo, j) + LittleEndian(hi, k)
  {
    hide ToByte;
    if j > 0 {
      var p := Pow256(j - 1);
      assert hi * (256 * p) == 256 * (hi * p);
      DivIs(hi * (256 * p) + lo, 256, hi * p + lo / 256, lo % 256);
      SameMod(hi * (256 * p) + lo, lo, 256, hi * p);
      Smaller(lo, p);
      LittleEndianJoin(hi, lo / 256, k, j - 1);
    }
  }

  // four bytes taken off a word one after another
  method WordBytes(word: nat) returns (bytes: Bytes)
    ensures bytes == BigEndian(word, 4)
  {
    hide ToByte;
    var t := word;
    var b3 := ToByte(t % 256); t := t / 256;
    var b2 := ToByte(t % 256); t := t / 256;
    var b1 := ToByte(t % 256); t := t / 256;
    var b0 := ToByte(t % 256);
    bytes := [b0, b1, b2, b3];
    assert BigEndian(word / 256 / 256, 2) == [b0, b1];
  }

  // A message of n bytes is followed by 0x80, this many zero bytes and a length field
  // of l bytes, to a multiple of b bytes.
  function ZerosAfter(n: nat, b: nat, l: nat): nat
    requires l < b
  {
    (2 * b - 1 - l - n % b) % b
  }

  function Padded(m: Bytes, b: nat, length: Bytes): Bytes
    requires |length| < b
  {
    m + [0x80] + Zeros(ZerosAfter(|m|, b, |length|)) + length
  }

  lemma ZerosFill(n: nat, b: nat, l: nat)
    requires l < b
    ensures (n + 1 + ZerosAfter(n, b, l) + l) % b == 0
  {
    var q, r := n / b, n % b;
    assert n == b * q + r;
    var x := 2 * b - 1 - l - r;
    if x < b {
      ModIs(x, b, 0, x);
      assert b * (q + 2) == b * q + 2 * b;
      ModIs(b * q + 2 * b, b, q + 2, 0);
    } else {
      ModIs(x, b, 1, x - b);
      assert b * (q + 1) == b * q + b;
      ModIs(b * q + b, b, q + 1, 0);
    }
  }

  lemma ZerosLeast(n: nat, b: nat, l: nat, k: nat)
    requires l < b && k < ZerosAfter(n, b, l)
    ensures (n + 1 + k + l) % b != 0
  {
    ZerosFill(n, b, l);
    ModWindow(n + 1 + k + l, n + 1 + ZerosAfter(n, b, l) + l, b);
  }

  lemma PaddedFills(m: Bytes, b: nat, length: Bytes)
    requires |length| < b
    ensures |Padded(m, b, length)| % b == 0
  {
    ZerosFill(|m|, b, |length|);
  }

  // the digest of m: b bytes a block, a length field, an output function
  function Hash<H>(f: (H, Bytes) -> H, b: nat, h: H, m: Bytes, length: Bytes): H
    requires |length| < b
  {
    PaddedFills(m, b, length);
    Fold(f, b, h, Padded(m, b, length))
  }

  // ------------------------------------------------------------- buffering

  // state and buffer of a hash context with blocks of b bytes, and the message so far
  class Absorber<H(0)> {
    const f: (H, Bytes) -> H
    const b: nat
    const buf: array<Byte>
    var state: H
    const init: H
    ghost var msg: Bytes

    ghost predicate Valid()
      reads this, buf
    {
      && b > 0 && buf.Length == b
      && var p := |msg| - |msg| % b;
         && p % b == 0 && state == Fold(f, b, init, msg[..p]) && buf[..|msg| % b] == msg[p..]
    }

    constructor (f: (H, Bytes) -> H, b: nat, init: H)
      requires b > 0
      ensures Valid() && msg == [] && this.f == f && this.b == b && this.init == init && fresh(buf)
    {
      this.f, this.b, this.init := f, b, init;
      buf := new Byte[b](_ => 0);
      state := init;
      msg := [];
    }

    // back to the start, with a clear buffer
    method Reset()
      requires b > 0 && buf.Length == b
      modifies this, buf
      ensures Valid() && msg == []
    {
      for k := 0 to b {
        buf[k] := 0;
      }
      state := init;
      msg := [];
    }

    method CopyIn(at: nat, data: Bytes)
      requires at + |data| <= buf.Length
      modifies buf
      ensures buf[..] == old(buf[..at]) + data + old(buf[at + |data|..])
    {
      for k := 0 to |data|
        invariant forall x | 0 <= x < buf.Length :: buf[x] == if at <= x < at + k then data[x - at] else old(buf[x])
      {
        buf[at + k] := data[k];
      }
    }

    lemma Parts(index: nat)
      requires Valid() && index == |msg| % b
      ensures index < b == buf.Length && index <= |msg| && (|msg| - index) % b == 0
      ensures state == Fold(f, b, init, msg[..|msg| - index]) && buf[..index] == msg[|msg| - index..]
    {
    }

    lemma Whole(index: nat)
      requires index < b == buf.Length && index <= |msg| && (|msg| - index) % b == 0
      requires state == Fold(f, b, init, msg[..|msg| - index]) && buf[..index] == msg[|msg| - index..]
      ensures Valid()
    {
      hide Fold;
      Rest(|msg| - index, index, b);
    }

    lemma Complete()
      requires Valid() && |msg| % b == 0
      ensures state == Fold(f, b, init, msg)
    {
      hide Fold;
      assert msg[..|msg|] == msg;
    }

    // the buffer filled with the first bytes of data and hashed
    method FirstBlock(index: nat, data: Bytes)
      requires Valid() && index == |msg| % b && |data| == b - index
      modifies this`state, buf
      ensures |msg + data| % b == 0 && state == Fold(f, b, init, msg + data)
    {
      hide Fold; hide Valid;
      Parts(index);
      ghost var front, back := msg[..|msg| - index], msg[|msg| - index..];
      CopyIn(index, data);
      var block := buf[..];
      Joined(front, back, data, block, msg);
      state := f(state, block);
      FoldSnoc(f, b, init, front, block);
    }

    // whole blocks hashed where they are; the test of the loop is done in 32 bits
    method WholeBlocks(data: Bytes, start: nat, ghost front: Bytes) returns (i: nat)
      requires 0 < start <= b && start <= |data| && |front| % b == 0 && state == Fold(f, b, init, front)
      requires TWO32 % b == 0 && b - start + |data| < TWO32
      modifies this`state
      ensures start <= i <= |data| < i + b && |front + data[start..i]| % b == 0
      ensures state == Fold(f, b, init, front + data[start..i])
    {
      hide Fold;
      i := start;
      assert front + data[start..i] == front;
      FirstStop(start, b);
      NoWrap(b - start, |data|, i, b);
      while (i + (b - 1)) % TWO32 < |data|
        invariant start <= i <= |data| && |front + data[start..i]| % b == 0
        invariant Stops(b - start, i, b) && (i + (b - 1)) % TWO32 == i + (b - 1)
        invariant state == Fold(f, b, init, front + data[start..i])
        decreases |data| - i
      {
        NextStop(b - start, i, b);
        NoWrap(b - start, |data|, i + b, b);
        FoldSnoc(f, b, init, front + data[start..i], data[i..i + b]);
        assert front + data[start..i] + data[i..i + b] == front + data[start..i + b];
        state := f(state, data[i..i + b]);
        i := i + b;
      }
    }

    // a block filled with zeros and hashed
    method HashZeroFilled(p: nat, ghost front: Bytes)
      requires p <= b == buf.Length && b > 0 && |front| % b == 0 && state == Fold(f, b, init, front)
      modifies this`state, buf
      ensures |front + (old(buf[..p]) + Zeros(b - p))| % b == 0
      ensures state == Fold(f, b, init, front + (old(buf[..p]) + Zeros(b - p)))
    {
      hide Fold;
      CopyIn(p, Zeros(b - p));
      var block := buf[..];
      assert block == old(buf[..p]) + Zeros(b - p);
      FoldSnoc(f, b, init, front, block);
      state := f(state, block);
    }

    // a block filled with zeros up to the length field, completed and hashed
    method HashLast(p: nat, length: Bytes, ghost front: Bytes)
      requires p + |length| <= b == buf.Length && b > 0 && |front| % b == 0 && state == Fold(f, b, init, front)
      modifies this`state, buf
      ensures |front + (old(buf[..p]) + Zeros(b - |length| - p) + length)| % b == 0
      ensures state == Fold(f, b, init, front + (old(buf[..p]) + Zeros(b - |length| - p) + length))
    {
      hide Fold;
      CopyIn(p, Zeros(b - |length| - p));
      CopyIn(b - |length|, length);
      var block := buf[..];
      assert block == old(buf[..p]) + Zeros(b - |length| - p) + length;
      FoldSnoc(f, b, init, front, block);
      state := f(state, block);
    }

    // The end of md5_final and wp512_final: 0x80 is in place after the message; zeros
    // follow - hashing a block in between when the length does not fit - and the length.
    method PadInPlace(offset: nat, length: Bytes)
      requires Valid() && offset == |msg| % b && 0 < |length| < b && buf[offset] == 0x80
      modifies this`state, buf
      ensures state == Hash(f, b, init, msg, length)
    {
      hide Fold; hide Valid; hide Padded;
      Parts(offset);
      PaddedFills(msg, b, length);
      ghost var front, tail := msg[..|msg| - offset], msg[|msg| - offset..];
      var p := offset + 1;
      assert buf[..p] == tail + [0x80];
      PaddingInPlace(msg, b, offset, length);
      if p > b - |length| {
        HashZeroFilled(p, front);
        HashLast(0, length, front + (tail + [0x80] + Zeros(b - p)));
      } else {
        HashLast(p, length, front);
      }
    }

    // what is left of the message after its whole blocks goes into the buffer
    method KeepRest(rest: Bytes, ghost front: Bytes)
      requires |rest| < b == buf.Length && |front| % b == 0 && state == Fold(f, b, init, front)
      modifies this`msg, buf
      ensures Valid() && msg == front + rest
    {
      hide Fold; hide Valid;
      CopyIn(0, rest);
      msg := front + rest;
      assert msg[..|msg| - |rest|] == front && msg[|msg| - |rest|..] == rest;
      Whole(|rest|);
    }

    // data that does not fill the buffer is put behind what is there
    method KeepShort(index: nat, data: Bytes)
      requires Valid() && index == |msg| % b && index + |data| < b
      modifies this`msg, buf
      ensures Valid() && msg == old(msg) + data
    {
      hide Fold; hide Valid;
      Parts(index);
      CopyIn(index, data);
      msg := msg + data;
      assert msg[..|msg| - (index + |data|)] == old(msg[..|msg| - index]);
      Whole(index + |data|);
    }

    // fill the buffer and hash it, hash whole blocks, keep the rest; index is the
    // number of bytes in the buffer
    method Absorb(index: nat, data: Bytes)
      requires Valid() && index == |msg| % b && TWO32 % b == 0 && index + |data| < TWO32
      modifies this, buf
      ensures Valid() && msg == old(msg) + data
    {
      hide Fold; hide Valid;
      Parts(index);
      var part_len := b - index;
      if |data| >= part_len {
        FirstBlock(index, data[..part_len]);
        ghost var front := msg + data[..part_len];
        var i := WholeBlocks(data, part_len, front);
        KeepRest(data[i..], front + data[part_len..i]);
        assert data == data[..part_len] + data[part_len..i] + data[i..];
      } else {
        KeepShort(index, data);
      }
    }
  }

  // i bytes into the data, with index bytes in front of them, a block ends
  predicate Stops(index: nat, i: nat, b: nat)
    requires b > 0
  {
    (index + i) % b == 0
  }

  lemma FirstStop(start: nat, b: nat)
    requires 0 < start <= b
    ensures Stops(b - start, start, b)
  {
    AddBlock(0, b);
  }

  lemma NextStop(index: nat, i: nat, b: nat)
    requires b > 0 && Stops(index, i, b)
    ensures Stops(index, i + b, b)
  {
    AddBlock(index + i, b);
  }

  lemma NoWrap(index: nat, len: nat, i: nat, b: nat)
    requires index < b && TWO32 % b == 0 && index + len < TWO32 && Stops(index, i, b)
    ensures i <= len ==> (i + (b - 1)) % TWO32 == i + (b - 1) < TWO32
  {
    if i <= len {
      Remainder(TWO32, index + i, b);
      LastBlock(TWO32 - (index + i), b);
      ModIs(i + (b - 1), TWO32, 0, i + (b - 1));
    }
  }

  // The 32-bit sum in the test of the block loop never wraps if and only if the bytes
  // in the buffer and those of the call are fewer than 2^32.  One byte more, and the
  // loops of sha256_update and sha512_update run on past the end of the data.
  lemma LoopFits(index: nat, len: nat, b: nat)
    requires index < b && TWO32 % b == 0 && len < TWO32
    ensures index + len < TWO32 <==> forall i: nat | i <= len && Stops(index, i, b) :: i + (b - 1) < TWO32
  {
    if index + len < TWO32 {
      forall i: nat | i <= len && Stops(index, i, b) ensures i + (b - 1) < TWO32 {
        NoWrap(index, len, i, b);
      }
    } else {
      assert Stops(index, TWO32 - index, b);
    }
  }

  lemma Joined(front: Bytes, back: Bytes, data: Bytes, block: Bytes, m: Bytes)
    requires front + back == m && block == back + data + []
    ensures front + block == m + data && |block| == |back| + |data|
  {
  }

  lemma Rest(p: nat, r: nat, b: nat)
    requires b > 0 && p % b == 0 && r < b
    ensures (p + r) % b == r
  {
    assert p == b * (p / b);
    ModIs(p + r, b, p / b, r);
  }

  // the two ways the padding falls into blocks
  lemma PaddingInPlace(m: Bytes, b: nat, offset: nat, length: Bytes)
    requires 0 < |length| < b && offset == |m| % b <= |m|
    ensures var front, tail, l := m[..|m| - offset], m[|m| - offset..], |length|;
      Padded(m, b, length) ==
        if offset + 1 > b - l then front + (tail + [0x80] + Zeros(b - offset - 1)) + ([] + Zeros(b - l - 0) + length)
        else front + (tail + [0x80] + Zeros(b - l - (offset + 1)) + length)
  {
    var x := 2 * b - 1 - |length| - offset;
    if x < b { ModIs(x, b, 0, x); } else { ModIs(x, b, 1, x - b); }
  }

  // ------------------------------------------------------- final of the SHAs

  // the first bytes of the constant array { 0x80, 0, ... }
  function Padding(n: nat): (p: Bytes)
    requires n > 0
    ensures |p| == n
  {
    [0x80] + Zeros(n - 1)
  }

  // pad_len: up to the length field of this block, or of the next one
  function PadLen(index: nat, b: nat, l: nat): nat
    requires index < b && l < b
  {
    if index < b - l then b - l - index else 2 * b - l - index
  }

  lemma PadLenFits(m: Bytes, b: nat, length: Bytes)
    requires 0 < |length| < b
    ensures PadLen(|m| % b, b, |length|) == ZerosAfter(|m|, b, |length|) + 1
    ensures m + Padding(PadLen(|m| % b, b, |length|)) + length == Padded(m, b, length)
  {
    var index, l := |m| % b, |length|;
    var x := 2 * b - 1 - l - index;
    if x < b { ModIs(x, b, 0, x); } else { ModIs(x, b, 1, x - b); }
  }

  // the words of a chaining value, k bytes each, most significant byte first
  function StoreWords(ws: Words, k: nat): Bytes {
    if ws == [] then [] else StoreWords(ws[..|ws| - 1], k) + BigEndian(ws[|ws| - 1], k)
  }

  lemma {:induction false} StoredSize(ws: Words, k: nat)
    ensures |StoreWords(ws, k)| == k * |ws|
  {
    if ws != [] {
      StoredSize(ws[..|ws| - 1], k);
      assert k * |ws| == k * (|ws| - 1) + k;
    }
  }

  // the first n words are the first bytes
  lemma {:induction false} StoredPrefix(ws: Words, n: nat, k: nat)
    requires n <= |ws|
    ensures k * n <= |StoreWords(ws, k)| && StoreWords(ws, k)[..k * n] == StoreWords(ws[..n], k)
  {
    hide BigEndian;
    StoredSize(ws, k);
    Grows(k, n, |ws|);
    StoredSize(ws[..n], k);
    if n == |ws| {
      assert ws[..n] == ws;
    } else {
      StoredPrefix(ws[..|ws| - 1], n, k);
      assert ws[..|ws| - 1][..n] == ws[..n];
      assert StoreWords(ws, k) == StoreWords(ws[..|ws| - 1], k) + BigEndian(ws[|ws| - 1], k);
    }
  }

  method Store(ws: Words, k: nat) returns (out: Bytes)
    ensures out == StoreWords(ws, k)
  {
    out := [];
    for i := 0 to |ws|
      invariant out == StoreWords(ws[..i], k)
    {
      out := out + BigEndian(ws[i], k);
      assert ws[..i + 1][..i] == ws[..i];
    }
    assert ws[..|ws|] == ws;
  }
}
