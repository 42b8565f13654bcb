// crypto/digest.c and crypto/hmac.c: a digest fed from scatterlists page by page,
// and the keyed hash of RFC 2104 built on it.
module Hmac {
  import opened Basics
  import opened Scatterwalk
  import D = Digest
  import Sha
  import S = Sha1Digest
  import T = Sha1Transform

  // ------------------------------------------------- section 2 of RFC 2104

  // the key, hashed when longer than a block, filled with zeros to a block
  function BlockKey(hash: Bytes -> Bytes, b: nat, key: Bytes): (k: Bytes)
    requires |key| <= b || |hash(key)| <= b
    ensures |k| == b
  {
    var k := if |key| > b then hash(key) else key;
    k + Zeros(b - |k|)
  }

  function XorPad(k: Bytes, pad: Byte): (r: Bytes)
    ensures |r| == |k|
  {
    seq(|k|, i requires 0 <= i < |k| => k[i] ^ pad)
  }

  function Standard(hash: Bytes -> Bytes, b: nat, key: Bytes, m: Bytes): Bytes
    requires |key| <= b || |hash(key)| <= b
  {
    var k := BlockKey(hash, b, key);
    hash(XorPad(k, 0x5c) + hash(XorPad(k, 0x36) + m))
  }

  // ------------------------------------------------------- digest transform

  const TWO29 := 0x2000_0000

  // A digest algorithm: "sha1" on its context, or any other as the function it computes
  // of what it was fed since it was initialised.  The final of an algorithm wipes its
  // context; what a further final without an init puts out is no digest of anything.
  class Alg {
    const hash: Bytes -> Bytes
    const digestsize: nat
    const sha1: Sha.Sha1?
    ghost const Repr: set<object>
    var fed: Bytes
    var wiped: bool

    // the parts that stay
    ghost predicate Built() {
      && Repr == {this} + (if sha1 == null then {} else {sha1, sha1.core, sha1.core.buf})
      && (forall x: Bytes {:trigger hash(x)} :: |hash(x)| == digestsize)
      && (sha1 != null ==>
          && sha1.core.f == T.CompressBlock && sha1.core.init == S.INIT && sha1.core.b == sha1.core.buf.Length == 64
          && digestsize == 20 && forall x: Bytes {:trigger hash(x)} :: hash(x) == S.Sha1Of(x))
    }

    ghost predicate Valid()
      reads this, Repr
    {
      Built() && (sha1 != null && !wiped ==> sha1.Valid() && sha1.core.msg == fed)
    }

    // a final would give the digest of what was fed
    ghost predicate Ready()
      reads this, Repr
    {
      Valid() && !wiped && (sha1 != null ==> sha1.Exact())
    }

    // n more bytes do not wrap the loop index of sha1_update
    ghost predicate Fits(n: nat)
      reads this
    {
      sha1 != null ==> |fed| % 64 + n < TWO32
    }

    constructor (hash: Bytes -> Bytes, digestsize: nat)
      requires forall x: Bytes {:trigger hash(x)} :: |hash(x)| == digestsize
      ensures Ready() && fresh(Repr) && this.hash == hash && this.digestsize == digestsize && sha1 == null
    {
      this.hash, this.digestsize, sha1 := hash, digestsize, null;
      fed, wiped := [], false;
      Repr := {this};
    }

    constructor Sha1()
      ensures Ready() && fresh(Repr) && digestsize == 20 && sha1 != null && forall x: Bytes {:trigger hash(x)} :: hash(x) == S.Sha1Of(x)
    {
      hide S.Sha1Of; hide T.CompressBlock; hide D.Fold;
      var c := new Sha.Sha1(T.CompressBlock, S.INIT);
      hash, digestsize, sha1 := S.Sha1Of, 20, c;
      fed, wiped := [], false;
      Repr := {this, c, c.core, c.core.buf};
    }

    // dia_init
    method Init()
      requires Valid()
      modifies Repr
      ensures Ready() && fed == []
    {
      hide S.Sha1Of; hide T.CompressBlock; hide Sha.Sha1.Valid; hide Sha.Sha1.Exact;
      if sha1 != null { sha1.Init(); }
      fed, wiped := [], false;
    }

    // dia_update
    method Update(data: Bytes)
      requires Valid() && !wiped && Fits(|data|)
      modifies Repr
      ensures Valid() && !wiped && fed == old(fed) + data
      ensures old(Ready()) && (sha1 == null || |data| < TWO29) ==> Ready()
    {
      hide S.Sha1Of; hide T.CompressBlock; hide Sha.Sha1.Valid; hide Sha.Sha1.Exact; hide Sha.Count64;
      if sha1 != null { sha1.Update(data); }
      fed := fed + data;
    }

    // dia_final
    method Final() returns (d: Bytes)
      requires Valid()
      modifies Repr
      ensures Valid() && wiped && |d| == digestsize && (old(Ready()) ==> d == hash(old(fed)))
    {
      hide T.CompressBlock; hide Sha.Sha1.Valid; hide D.Hash; hide D.StoreWords; hide D.BigEndian;
      if wiped {
        var junk := new Byte[digestsize];
        d := junk[..];
      } else if sha1 == null {
        d := hash(fed);
      } else {
        S.DigestSize(fed, D.BigEndian(sha1.count, 8));
        d := sha1.Final();
      }
      fed, wiped := *, true;
    }
  }

  // struct crypto_tfm of a digest
  class Tfm {
    const alg: Alg
    const blocksize: nat
    const hmac_block: array<Byte>

    ghost predicate Valid()
      reads alg, alg.Repr
    {
      alg.Valid() && alg.digestsize <= blocksize && hmac_block.Length == blocksize && hmac_block !in alg.Repr
    }

    // keys of this length are hashed right in one piece
    ghost predicate Sound(keylen: nat) {
      alg.sha1 != null ==> keylen < TWO29
    }

    constructor (alg: Alg, blocksize: nat)
      requires alg.Valid() && alg.digestsize <= blocksize
      ensures Valid() && this.alg == alg && this.blocksize == blocksize && fresh(hmac_block)
    {
      this.alg, this.blocksize := alg, blocksize;
      hmac_block := new Byte[blocksize](_ => 0);
    }

    // one page, or part of one
    method FeedPage(mem: array<Byte>, start: nat, n: nat)
      requires Valid() && !alg.wiped && alg.Fits(n) && (n > 0 ==> start + n <= mem.Length) && mem !in alg.Repr
      modifies alg.Repr
      ensures Valid() && !alg.wiped && alg.fed == old(alg.fed) + if n > 0 then mem[start..start + n] else []
      ensures old(alg.Ready()) && Sound(n) ==> alg.Ready()
    {
      hide Alg.Built; hide Sha.Sha1.Valid; hide Sha.Sha1.Exact;
      alg.Update(if n > 0 then mem[start..start + n] else []);
    }

    method Final(out: array<Byte>)
      requires Valid() && alg.digestsize <= out.Length && out !in alg.Repr
      modifies alg.Repr, out
      ensures Valid() && alg.wiped && out[alg.digestsize..] == old(out[alg.digestsize..])
      ensures old(alg.Ready()) ==> out[..alg.digestsize] == alg.hash(old(alg.fed))
    {
      hide Alg.Built; hide Alg.Ready;
      var d := alg.Final();
      for i := 0 to alg.digestsize
        invariant forall x | 0 <= x < out.Length :: out[x] == if x < i then d[x] else old(out[x])
        invariant Valid() && alg.wiped
      {
        out[i] := d[i];
      }
    }

    // what segment after segment, page after page, is still to be fed
    ghost function Ahead(mem: array<Byte>, start: nat, l: nat, sgs: seq<Segment>, i: nat): Bytes
      requires i <= |sgs| && Within(Range(start, l) + Addresses(sgs, i), mem.Length)
      reads mem
    {
      Gather(mem[..], Range(start, l) + Addresses(sgs, i))
    }

    // update
    method Update(mem: array<Byte>, sgs: seq<Segment>)
      requires Valid() && !alg.wiped && OffsetsInPage(sgs) && Within(Flat(sgs), mem.Length) && mem !in alg.Repr
      modifies alg.Repr
      ensures Valid() && !alg.wiped && alg.fed == old(alg.fed) + Gather(mem[..], Flat(sgs)) && (old(alg.Ready()) ==> alg.Ready())
    {
      hide Gather; hide Addresses; hide Valid; hide Alg.Ready;
      ghost var total := alg.fed + Gather(mem[..], Flat(sgs));
      var i := 0;
      while i < |sgs|
        invariant 0 <= i <= |sgs| && Within(Addresses(sgs, i), mem.Length)
        invariant Valid() && !alg.wiped && (old(alg.Ready()) ==> alg.Ready())
        invariant alg.fed + Gather(mem[..], Addresses(sgs, i)) == total
      {
        NextSegment(sgs, i);
        FeedSegment(mem, sgs, i, total);
        i := i + 1;
      }
      NoSegment(mem[..], sgs);
    }

    // the do loop over the pages of one segment
    method FeedSegment(mem: array<Byte>, sgs: seq<Segment>, i: nat, ghost total: Bytes)
      requires Valid() && !alg.wiped && OffsetsInPage(sgs) && i < |sgs| && mem !in alg.Repr
      requires Within(Range(sgs[i].page * PAGE_SIZE + sgs[i].offset, sgs[i].length) + Addresses(sgs, i + 1), mem.Length)
      requires alg.fed + Ahead(mem, sgs[i].page * PAGE_SIZE + sgs[i].offset, sgs[i].length, sgs, i + 1) == total
      modifies alg.Repr
      ensures Valid() && !alg.wiped && (old(alg.Ready()) ==> alg.Ready()) && Within(Addresses(sgs, i + 1), mem.Length)
      ensures alg.fed + Gather(mem[..], Addresses(sgs, i + 1)) == total
    {
      hide Addresses; hide Range; hide Gather; hide Within; hide Ahead; hide Valid; hide Alg.Ready;
      var pg, offset, l := sgs[i].page, sgs[i].offset, sgs[i].length;
      var first := true;
      while first || l > 0
        invariant 0 <= l && 0 <= offset < PAGE_SIZE && 0 <= pg
        invariant Valid() && !alg.wiped && (old(alg.Ready()) ==> alg.Ready())
        invariant Within(Range(pg * PAGE_SIZE + offset, l) + Addresses(sgs, i + 1), mem.Length)
        invariant alg.fed + Ahead(mem, pg * PAGE_SIZE + offset, l, sgs, i + 1) == total
        decreases first, l
      {
        var bytes_from_page := if l <= PAGE_SIZE - offset then l else PAGE_SIZE - offset;
        PageAhead(mem, pg * PAGE_SIZE + offset, l, bytes_from_page, sgs, i + 1);
        ghost var was := alg.fed;
        FeedPage(mem, pg * PAGE_SIZE + offset, bytes_from_page);
        Regroup(was, alg.fed, Ahead(mem, pg * PAGE_SIZE + offset + bytes_from_page, l - bytes_from_page, sgs, i + 1));
        if bytes_from_page == l { NothingAhead(mem, pg * PAGE_SIZE + offset + l, (pg + 1) * PAGE_SIZE, sgs, i + 1); }
        offset := 0;
        pg := pg + 1;
        l := l - bytes_from_page;
        first := false;
      }
      SegmentDone(mem, pg * PAGE_SIZE + offset, sgs, i + 1);
    }

    lemma PageAhead(mem: array<Byte>, start: nat, l: nat, n: nat, sgs: seq<Segment>, i: nat)
      requires n <= l && i <= |sgs| && Within(Range(start, l) + Addresses(sgs, i), mem.Length)
      ensures n > 0 ==> start + n <= mem.Length
      ensures Within(Range(start + n, l - n) + Addresses(sgs, i), mem.Length)
      ensures Ahead(mem, start, l, sgs, i) == (if n > 0 then mem[start..start + n] else []) + Ahead(mem, start + n, l - n, sgs, i)
    {
      hide Addresses;
      var a := Range(start, l) + Addresses(sgs, i);
      assert a == Range(start, n) + (Range(start + n, l - n) + Addresses(sgs, i));
      assert a[n..] == Range(start + n, l - n) + Addresses(sgs, i);
      if n > 0 { assert a[n - 1] == start + n - 1; }
    }

    // where an empty rest would start does not matter
    lemma NothingAhead(mem: array<Byte>, x: nat, y: nat, sgs: seq<Segment>, i: nat)
      requires i <= |sgs| && Within(Range(x, 0) + Addresses(sgs, i), mem.Length)
      ensures Within(Range(y, 0) + Addresses(sgs, i), mem.Length) && Ahead(mem, x, 0, sgs, i) == Ahead(mem, y, 0, sgs, i)
    {
      hide Addresses;
      assert Range(x, 0) == Range(y, 0);
    }

    lemma SegmentDone(mem: array<Byte>, x: nat, sgs: seq<Segment>, i: nat)
      requires i <= |sgs| && Within(Range(x, 0) + Addresses(sgs, i), mem.Length)
      ensures Within(Addresses(sgs, i), mem.Length) && Ahead(mem, x, 0, sgs, i) == Gather(mem[..], Addresses(sgs, i))
    {
      hide Addresses;
      assert Range(x, 0) + Addresses(sgs, i) == Addresses(sgs, i);
    }

    // ------------------------------------------------------------- hmac.c

    // hash_key: the key is replaced by its digest
    method HashKey(key: array<Byte>, keylen: nat)
      requires Valid() && blocksize < keylen <= key.Length && key !in alg.Repr && (alg.sha1 != null ==> keylen < TWO32)
      modifies alg.Repr, key
      ensures Valid() && alg.wiped && (Sound(keylen) ==> key[..alg.digestsize] == alg.hash(old(key[..keylen])))
    {
      hide Alg.Valid; hide Alg.Ready;
      alg.Init();
      ReadyIsValid();
      FeedPage(key, 0, keylen);
      assert alg.fed == key[..keylen];
      Final(key);
    }

    lemma ReadyIsValid()
      requires alg.Ready()
      ensures alg.Valid() && !alg.wiped
    {
    }

    // the pad block: the key, zeros, and every byte xored with pad
    method PadBlock(key: array<Byte>, keylen: nat, pad: Byte)
      requires Valid() && keylen <= key.Length && keylen <= blocksize && key != hmac_block
      modifies hmac_block
      ensures hmac_block[..] == XorPad(key[..keylen] + Zeros(blocksize - keylen), pad)
    {
      hide Alg.Valid;
      for i := 0 to blocksize
        invariant forall x | 0 <= x < i :: hmac_block[x] == 0
      {
        hmac_block[i] := 0;
      }
      for i := 0 to keylen
        invariant forall x | 0 <= x < blocksize :: hmac_block[x] == if x < i then key[x] else 0
      {
        hmac_block[i] := key[i];
      }
      ghost var k := key[..keylen] + Zeros(blocksize - keylen);
      for i := 0 to blocksize
        invariant forall x | 0 <= x < blocksize :: hmac_block[x] == if x < i then k[x] ^ pad else k[x]
      {
        hmac_block[i] := hmac_block[i] ^ pad;
      }
    }

    // the pad block as a scatterlist of one segment
    method FeedBlock()
      requires Valid() && !alg.wiped
      modifies alg.Repr
      ensures Valid() && !alg.wiped && alg.fed == old(alg.fed) + hmac_block[..] && (old(alg.Ready()) ==> alg.Ready())
    {
      hide Alg.Valid; hide Alg.Ready; hide Gather; hide Flat;
      WholeBuffer(hmac_block[..], blocksize);
      Update(hmac_block, [Segment(0, 0, blocksize)]);
    }

    // crypto_hmac_init; the caller's key and key length are replaced when the key is long
    method HmacInit(key: array<Byte>, keylen: nat) returns (newlen: nat)
      requires Valid() && keylen <= key.Length && key != hmac_block && key !in alg.Repr && (alg.sha1 != null ==> keylen < TWO32)
      modifies alg.Repr, key, hmac_block
      ensures Valid() && alg.Ready()
      ensures newlen == (if keylen > blocksize then alg.digestsize else keylen) && newlen <= key.Length
      ensures Sound(keylen) ==> key[..newlen] == if keylen > blocksize then alg.hash(old(key[..keylen])) else old(key[..keylen])
      ensures Sound(keylen) ==> key[..newlen] + Zeros(blocksize - newlen) == BlockKey(alg.hash, blocksize, old(key[..keylen]))
      ensures alg.fed == XorPad(key[..newlen] + Zeros(blocksize - newlen), 0x36)
    {
      hide Alg.Valid; hide Alg.Ready; hide XorPad; hide Zeros;
      newlen := keylen;
      if keylen > blocksize {
        HashKey(key, keylen);
        newlen := alg.digestsize;
      }
      PadBlock(key, newlen, 0x36);
      alg.Init();
      ReadyIsValid();
      FeedBlock();
      assert [] + hmac_block[..] == hmac_block[..];
    }

    // the outer hash, over the pad block and the inner digest that is in out
    method Outer(key: array<Byte>, keylen: nat, out: array<Byte>)
      requires Valid() && keylen <= key.Length && keylen <= blocksize && alg.digestsize <= out.Length
      requires key != hmac_block && out != hmac_block && out != key && key !in alg.Repr && out !in alg.Repr
      modifies alg.Repr, hmac_block, out
      ensures Valid()
      ensures out[..alg.digestsize] == alg.hash(XorPad(key[..keylen] + Zeros(blocksize - keylen), 0x5c) + old(out[..alg.digestsize]))
    {
      hide XorPad; hide Zeros; hide Gather; hide Flat; hide Alg.Valid; hide Alg.Ready;
      PadBlock(key, keylen, 0x5c);
      alg.Init();
      ReadyIsValid();
      FeedBlock();
      WholeBuffer(out[..], alg.digestsize);
      Update(out, [Segment(0, 0, alg.digestsize)]);
      assert [] + hmac_block[..] + out[..alg.digestsize] == hmac_block[..] + out[..alg.digestsize];
      Final(out);
    }

    // crypto_hmac_final.  With a key no longer than a block inner is the digest of what
    // was fed; a longer one is hashed first, which wipes the context and loses it.
    method HmacFinal(key: array<Byte>, keylen: nat, out: array<Byte>) returns (newlen: nat, ghost inner: Bytes)
      requires Valid() && keylen <= key.Length && alg.digestsize <= out.Length && (alg.sha1 != null ==> keylen < TWO32)
      requires key != hmac_block && out != hmac_block && out != key && key !in alg.Repr && out !in alg.Repr
      modifies alg.Repr, key, hmac_block, out
      ensures Valid() && newlen == (if keylen > blocksize then alg.digestsize else keylen) && newlen <= key.Length
      ensures keylen <= blocksize ==> key[..] == old(key[..])
      ensures keylen > blocksize && Sound(keylen) ==> key[..newlen] == alg.hash(old(key[..keylen]))
      ensures |inner| == alg.digestsize && (keylen <= blocksize && old(alg.Ready()) ==> inner == alg.hash(old(alg.fed)))
      ensures out[..alg.digestsize] == alg.hash(XorPad(key[..newlen] + Zeros(blocksize - newlen), 0x5c) + inner)
    {
      hide Alg.Valid; hide Alg.Ready; hide XorPad; hide Zeros;
      newlen := keylen;
      if keylen > blocksize {
        HashKey(key, keylen);
        newlen := alg.digestsize;
      }
      Final(out);
      inner := out[..alg.digestsize];
      Outer(key, newlen, out);
    }

    // crypto_hmac
    method Hmac(key: array<Byte>, keylen: nat, mem: array<Byte>, sgs: seq<Segment>, out: array<Byte>) returns (newlen: nat)
      requires Valid() && keylen <= key.Length && alg.digestsize <= out.Length && (alg.sha1 != null ==> keylen < TWO32)
      requires OffsetsInPage(sgs) && Within(Flat(sgs), mem.Length)
      requires key != hmac_block && out != hmac_block && out != key && mem != hmac_block && mem != key && mem != out
      requires key !in alg.Repr && out !in alg.Repr && mem !in alg.Repr
      modifies alg.Repr, key, hmac_block, out
      ensures Sound(keylen) ==>
        out[..alg.digestsize] == Standard(alg.hash, blocksize, old(key[..keylen]), Gather(mem[..], Flat(sgs)))
      ensures newlen == if keylen > blocksize then alg.digestsize else keylen
    {
      hide Gather; hide Flat; hide BlockKey; hide Alg.Valid; hide Alg.Ready; hide XorPad; hide Zeros;
      newlen := HmacInit(key, keylen);
      ReadyIsValid();
      Update(mem, sgs);
      ghost var inner;
      newlen, inner := HmacFinal(key, newlen, out);
    }
  }

  // HMAC-SHA-1, crypto_hmac on the "sha1" algorithm and its context
  method Sha1Hmac(key: array<Byte>, keylen: nat, mem: array<Byte>, sgs: seq<Segment>, out: array<Byte>) returns (newlen: nat)
    requires keylen <= key.Length && keylen < TWO32 && 20 <= out.Length && OffsetsInPage(sgs) && Within(Flat(sgs), mem.Length)
    requires out != key && mem != key && mem != out
    modifies key, out
    ensures keylen < TWO29 ==> out[..20] == Standard(S.Sha1Of, 64, old(key[..keylen]), Gather(mem[..], Flat(sgs)))
    ensures newlen == if keylen > 64 then 20 else keylen
  {
    hide S.Sha1Of; hide Gather; hide Flat; hide Alg.Valid; hide Alg.Ready; hide XorPad; hide Zeros;
    var alg := new Alg.Sha1();
    ReadyAlg(alg);
    var tfm := new Tfm(alg, 64);
    newlen := tfm.Hmac(key, keylen, mem, sgs, out);
  }

  lemma ReadyAlg(alg: Alg)
    requires alg.Ready()
    ensures alg.Valid()
  {
  }

  lemma Regroup(was: Bytes, fed: Bytes, rest: Bytes)
    requires was <= fed
    ensures was + (fed[|was|..] + rest) == fed + rest
  {
  }

  lemma WholeBuffer(m: Bytes, n: nat)
    requires n <= |m|
    ensures Within(Flat([Segment(0, 0, n)]), |m|) && Gather(m, Flat([Segment(0, 0, n)])) == m[..n]
  {
    var sgs := [Segment(0, 0, n)];
    assert Addresses(sgs, 0) == Range(0, n) + Addresses(sgs, 1);
    assert Flat(sgs) == Range(0, n);
  }

  lemma NextSegment(sgs: seq<Segment>, i: nat)
    requires i < |sgs|
    ensures Addresses(sgs, i) == Range(sgs[i].page * PAGE_SIZE + sgs[i].offset, sgs[i].length) + Addresses(sgs, i + 1)
  {
  }

  lemma NoSegment(m: Bytes, sgs: seq<Segment>)
    ensures Addresses(sgs, |sgs|) == [] && Gather(m, []) == []
  {
  }
}
