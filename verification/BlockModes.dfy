// Electronic codebook and cipher block chaining over flat byte strings, sections
// 6.1 and 6.2 of NIST SP 800-38A: what crypto/cipher.c computes.
module BlockModes {
  import opened Arithmetic
  import opened Basics

  type BlockFn = Bytes -> Bytes

  datatype Mode = Ecb | CbcEncrypt | CbcDecrypt

  // fn maps blocks of b bytes to blocks of b bytes
  ghost predicate OnBlocks(fn: BlockFn, b: nat) {
    b > 0 && forall x: Bytes {:trigger fn(x)} | |x| == b :: |fn(x)| == b
  }

  // undo inverts fn on blocks of b bytes
  ghost predicate Inverts(undo: BlockFn, fn: BlockFn, b: nat) {
    OnBlocks(fn, b) && OnBlocks(undo, b) && forall x: Bytes {:trigger fn(x)} | |x| == b :: undo(fn(x)) == x
  }

  // xor_64 and xor_128, byte by byte
  function Xor(x: Bytes, y: Bytes): (z: Bytes)
    requires |x| == |y|
    ensures |z| == |x|
  {
    seq(|x|, i requires 0 <= i < |x| => x[i] ^ y[i])
  }

  // one block: the output, and the chaining value for the next
  ghost function StepOut(mode: Mode, fn: BlockFn, iv: Bytes, x: Bytes): Bytes
    requires OnBlocks(fn, |x|) && |iv| == |x|
  {
    match mode
    case Ecb => fn(x)
    case CbcEncrypt => fn(Xor(iv, x))
    case CbcDecrypt => Xor(fn(x), iv)
  }

  ghost function StepIv(mode: Mode, fn: BlockFn, iv: Bytes, x: Bytes): Bytes
    requires OnBlocks(fn, |x|) && |iv| == |x|
  {
    match mode
    case Ecb => iv
    case CbcEncrypt => fn(Xor(iv, x))
    case CbcDecrypt => x
  }

  // a whole number of blocks, with the chaining value that remains
  ghost function Run(mode: Mode, fn: BlockFn, iv: Bytes, x: Bytes): (r: (Bytes, Bytes))
    requires OnBlocks(fn, |iv|) && |x| % |iv| == 0
    ensures |r.0| == |x| && |r.1| == |iv|
    decreases |x|
  {
    if x == [] then ([], iv)
    else
      LastBlock(|x|, |iv|);
      var n := |x| - |iv|;
      var r := Run(mode, fn, iv, x[..n]);
      (r.0 + StepOut(mode, fn, r.1, x[n..]), StepIv(mode, fn, r.1, x[n..]))
  }

  lemma RunSnoc(mode: Mode, fn: BlockFn, iv: Bytes, x: Bytes, block: Bytes)
    requires OnBlocks(fn, |iv|) && |x| % |iv| == 0 && |block| == |iv|
    ensures |x + block| % |iv| == 0
    ensures var r := Run(mode, fn, iv, x);
      Run(mode, fn, iv, x + block) == (r.0 + StepOut(mode, fn, r.1, block), StepIv(mode, fn, r.1, block))
  {
    hide StepOut; hide StepIv;
    AddBlock(|x|, |iv|);
    assert (x + block)[..|x|] == x && (x + block)[|x|..] == block;
  }

  // one call over x + y is a call over x and then, with the value it left, over y
  lemma {:induction false} RunChains(mode: Mode, fn: BlockFn, iv: Bytes, x: Bytes, y: Bytes)
    requires OnBlocks(fn, |iv|) && |x| % |iv| == 0 && |y| % |iv| == 0
    ensures |x + y| % |iv| == 0
    ensures var r := Run(mode, fn, iv, x);
      Run(mode, fn, iv, x + y) == (r.0 + Run(mode, fn, r.1, y).0, Run(mode, fn, r.1, y).1)
    decreases |y|
  {
    hide StepOut; hide StepIv; hide Run;
    AddBlocks(|x|, |y|, |iv|);
    var r := Run(mode, fn, iv, x);
    if y == [] {
      assert x + y == x;
      RunNothing(mode, fn, r.1);
      assert r.0 + [] == r.0;
    } else {
      LastBlock(|y|, |iv|);
      var n := |y| - |iv|;
      var front, block := y[..n], y[n..];
      assert y == front + block;
      RunChains(mode, fn, iv, x, front);
      RunSnoc(mode, fn, iv, x + front, block);
      RunSnoc(mode, fn, r.1, front, block);
      assert x + front + block == x + y;
      var s := Run(mode, fn, r.1, front);
      assert r.0 + s.0 + StepOut(mode, fn, s.1, block) == r.0 + (s.0 + StepOut(mode, fn, s.1, block));
    }
  }

  lemma RunNothing(mode: Mode, fn: BlockFn, iv: Bytes)
    requires OnBlocks(fn, |iv|)
    ensures Run(mode, fn, iv, []) == ([], iv)
  {
  }

  lemma XorTwice(x: Bytes, y: Bytes)
    requires |x| == |y|
    ensures Xor(Xor(x, y), x) == y && Xor(Xor(y, x), x) == y
  {
  }

  // decrypting a CBC encryption under the same initial value gives the plaintext back
  lemma {:induction false} CbcRoundTrip(enc: BlockFn, dec: BlockFn, iv: Bytes, p: Bytes)
    requires Inverts(dec, enc, |iv|) && |p| % |iv| == 0
    ensures var c := Run(CbcEncrypt, enc, iv, p);
      Run(CbcDecrypt, dec, iv, c.0) == (p, c.1)
    decreases |p|
  {
    hide Run; hide Xor;
    if p == [] {
      RunNothing(CbcEncrypt, enc, iv);
      RunNothing(CbcDecrypt, dec, iv);
    } else {
      LastBlock(|p|, |iv|);
      var n := |p| - |iv|;
      var front, block := p[..n], p[n..];
      assert p == front + block;
      CbcRoundTrip(enc, dec, iv, front);
      var r := Run(CbcEncrypt, enc, iv, front);
      RunSnoc(CbcEncrypt, enc, iv, front, block);
      RunSnoc(CbcDecrypt, dec, iv, r.0, enc(Xor(r.1, block)));
      XorTwice(r.1, block);
    }
  }

  lemma {:induction false} EcbRoundTrip(enc: BlockFn, dec: BlockFn, iv: Bytes, p: Bytes)
    requires Inverts(dec, enc, |iv|) && |p| % |iv| == 0
    ensures Run(Ecb, dec, iv, Run(Ecb, enc, iv, p).0).0 == p
    decreases |p|
  {
    hide Run;
    if p == [] {
      RunNothing(Ecb, enc, iv);
      RunNothing(Ecb, dec, iv);
    } else {
      LastBlock(|p|, |iv|);
      var n := |p| - |iv|;
      var front, block := p[..n], p[n..];
      assert p == front + block;
      EcbRoundTrip(enc, dec, iv, front);
      RunSnoc(Ecb, enc, iv, front, block);
      RunSnoc(Ecb, dec, iv, Run(Ecb, enc, iv, front).0, enc(block));
    }
  }

  // the last block, or the initial value when there is none
  ghost function Last(iv: Bytes, x: Bytes): Bytes
    requires |x| >= |iv| || x == []
  {
    if x == [] then iv else x[|x| - |iv|..]
  }

  // the chaining value is the last ciphertext block
  lemma ChainValue(mode: Mode, fn: BlockFn, iv: Bytes, x: Bytes)
    requires OnBlocks(fn, |iv|) && |x| % |iv| == 0
    ensures |x| >= |iv| || x == []
    ensures mode == CbcEncrypt ==> Run(mode, fn, iv, x).1 == Last(iv, Run(mode, fn, iv, x).0)
    ensures mode == CbcDecrypt ==> Run(mode, fn, iv, x).1 == Last(iv, x)
  {
    if x != [] {
      LastBlock(|x|, |iv|);
    }
  }

  // The recurrences of the standard, at byte position n of the message: with C the
  // ciphertext and C before its start the initial value, C[j] = E(C[j-1] + P[j]) and
  // P[j] = D(C[j]) + C[j-1].
  lemma ModesByTheStandard(mode: Mode, fn: BlockFn, iv: Bytes, x: Bytes, n: nat)
    requires OnBlocks(fn, |iv|) && |x| % |iv| == 0 && n % |iv| == 0 && n + |iv| <= |x|
    ensures n >= |iv| || n == 0
    ensures
      var b, y := |iv|, Run(mode, fn, iv, x).0;
      match mode
      case Ecb => y[n..n + b] == fn(x[n..n + b])
      case CbcEncrypt => y[n..n + b] == fn(Xor(Last(iv, y[..n]), x[n..n + b]))
      case CbcDecrypt => y[n..n + b] == Xor(fn(x[n..n + b]), Last(iv, x[..n]))
  {
    hide Run;
    var b := |iv|;
    if n > 0 { LastBlock(n, b); }
    var r := Run(mode, fn, iv, x[..n]);
    var block := x[n..n + b];
    RunSnoc(mode, fn, iv, x[..n], block);
    assert x[..n] + block == x[..n + b];
    Remainder(|x|, n + b, b);
    RunChains(mode, fn, iv, x[..n + b], x[n + b..]);
    assert x[..n + b] + x[n + b..] == x;
    ChainValue(mode, fn, iv, x[..n]);
    var y := Run(mode, fn, iv, x).0;
    assert y[..n + b] == Run(mode, fn, iv, x[..n + b]).0;
    assert y[..n] == r.0;
  }
}
