// md5_update and md5_final of crypto/md5.c: the message is counted in bytes, and
// the padding is written straight into the block.
module Md5 {
  import opened Arithmetic
  import opened Basics
  import opened Digest

  // the words of the chaining value, least significant byte first
  ghost function Stored(ws: Words): Bytes {
    if ws == [] then [] else Stored(ws[..|ws| - 1]) + LittleEndian(ws[|ws| - 1], 4)
  }

  // sections 3.1 to 3.5 of RFC 1321: the length field and the digest are little-endian
  ghost function Standard(f: (Words, Bytes) -> Words, init: Words, m: Bytes): Bytes {
    Stored(Hash(f, 64, init, m, LittleEndian(8 * |m|, 8)))
  }

  // struct md5_ctx; hashing a block leaves it in the buffer
  class Md5Ctx {
    const core: Absorber<Words>
    var byte_count: nat

    ghost predicate Valid()
      reads this, core, core.buf
    {
      core.Valid() && core.b == 64 && byte_count == |core.msg| % TWO64
    }

    constructor (f: (Words, Bytes) -> Words, init: Words)
      ensures Valid() && core.msg == [] && core.f == f && core.init == init && fresh(core) && fresh(core.buf)
    {
      core := new Absorber(f, 64, init);
      byte_count := 0;
    }

    // whole blocks, each copied to the buffer and hashed there
    method WholeBlocks(data: Bytes, start: nat, ghost front: Bytes) returns (i: nat)
      requires core.b == core.buf.Length == 64 && start <= |data| && |front| % 64 == 0
      requires core.state == Fold(core.f, 64, core.init, front)
      modifies core`state, core.buf
      ensures start <= i <= |data| < i + 64 && |front + data[start..i]| % 64 == 0
      ensures core.state == Fold(core.f, 64, core.init, front + data[start..i])
    {
      hide Fold;
      i := start;
      assert front + data[start..i] == front;
      while |data| - i >= 64
        invariant start <= i <= |data| && |front + data[start..i]| % 64 == 0
        invariant core.state == Fold(core.f, 64, core.init, front + data[start..i])
      {
        var block := data[i..i + 64];
        core.CopyIn(0, block);
        assert core.buf[..] == block;
        FoldSnoc(core.f, 64, core.init, front + data[start..i], block);
        assert front + data[start..i] + block == front + data[start..i + 64];
        core.state := core.f(core.state, core.buf[..]);
        i := i + 64;
      }
    }

    method Update(data: Bytes)
      requires Valid()
      modifies this, core, core.buf
      ensures Valid() && core.msg == old(core.msg) + data
    {
      hide Absorber<Words>.Valid; hide Fold;
      CountIndex(byte_count, |core.msg|, |data|);
      var avail := 64 - byte_count % 64;
      byte_count := (byte_count + |data|) % TWO64;
      core.Parts(64 - avail);
      if avail > |data| {
        core.KeepShort(64 - avail, data);
        return;
      }
      core.FirstBlock(64 - avail, data[..avail]);
      ghost var front := core.msg + data[..avail];
      var i := WholeBlocks(data, avail, front);
      core.KeepRest(data[i..], front + data[avail..i]);
      assert data == data[..avail] + data[avail..i] + data[i..];
    }

    // md5_final: 0x80, zeros - hashing a block in between when the length does not
    // fit - and the bit length in the last two words; the state goes out word by word
    method Final() returns (out: Bytes)
      requires Valid()
      modifies this, core, core.buf
      ensures out == Standard(core.f, core.init, old(core.msg))
    {
      hide Absorber<Words>.Valid; hide Fold; hide LittleEndian; hide Padded; hide Stored;
      CountIndex(byte_count, |core.msg|, 0);
      var offset := byte_count % 64;
      core.Parts(offset);
      core.CopyIn(offset, [0x80]);
      core.Whole(offset);
      LengthWords(byte_count, |core.msg|);
      var length := LittleEndian(8 * byte_count % TWO32, 4) + LittleEndian(byte_count / 0x2000_0000 % TWO32, 4);
      core.PadInPlace(offset, length);
      out := StoreLittle(core.state);
    }
  }

  // cpu_to_le32_array and the copy to out
  method StoreLittle(ws: Words) returns (out: Bytes)
    ensures out == Stored(ws)
  {
    out := [];
    for i := 0 to |ws|
      invariant out == Stored(ws[..i])
    {
      out := out + LittleEndian(ws[i], 4);
      assert ws[..i + 1][..i] == ws[..i];
    }
    assert ws[..|ws|] == ws;
  }

  lemma LengthWords(count: nat, n: nat)
    requires count == n % TWO64
    ensures LittleEndian(8 * count % TWO32, 4) + LittleEndian(count / 0x2000_0000 % TWO32, 4) == LittleEndian(8 * n, 8)
  {
    hide LittleEndian; hide Pow256;
    Pow256Values();
    LittleEndianMod(count / 0x2000_0000, 4);
    DivIs(8 * count, TWO32, count / 0x2000_0000, 8 * (count % 0x2000_0000));
    LittleEndianJoin(8 * count / TWO32, 8 * count % TWO32, 4, 4);
    LittleEndianMod(8 * count, 8);
    LittleEndianMod(8 * n, 8);
    SameMod(8 * n, 8 * count, TWO64, 8 * (n / TWO64));
  }

  lemma CountIndex(count: nat, n: nat, len: nat)
    requires count == n % TWO64
    ensures count % 64 == n % 64 && (count + len) % TWO64 == (n + len) % TWO64
  {
    var k := n / TWO64;
    SameMod(n, count, 64, 0x400_0000_0000_0000 * k);
    SameMod(n + len, count + len, TWO64, k);
  }

  // the digest depends on the message alone, however it is cut up
  method InPieces(f: (Words, Bytes) -> Words, init: Words, pieces: seq<Bytes>) returns (out: Bytes)
    ensures out == Standard(f, init, Concat(pieces))
  {
    hide Standard; hide Concat; hide Md5Ctx.Valid;
    var ctx := new Md5Ctx(f, init);
    NoPieces(pieces);
    for i := 0 to |pieces|
      invariant ctx.Valid() && ctx.core.msg == Concat(pieces[..i])
      invariant ctx.core.f == f && ctx.core.init == init && fresh(ctx) && fresh(ctx.core) && fresh(ctx.core.buf)
    {
      ConcatSnoc(pieces, i);
      ctx.Update(pieces[i]);
    }
    assert pieces[..|pieces|] == pieces;
    out := ctx.Final();
  }
}
