// sha1_update and sha1_final, sha256_update and sha256_final, sha512_update,
// sha512_final and sha384_final: bit counters of different shapes around the
// same buffering.  The compression functions are parameters.
module Sha {
  import opened Arithmetic
  import opened Basics
  import opened Digest

  // the message length in bits, as a field of k bytes
  function BitLength(n: nat, k: nat): Bytes {
    BigEndian(8 * n, k)
  }

  // FIPS 180-2: sections 5.1.1 and 6.1.2 for 64-byte blocks, 5.1.2 and 6.3.2 for 128
  function Standard(f: (Words, Bytes) -> Words, b: nat, init: Words, m: Bytes): Words
    requires b == 64 || b == 128
  {
    Hash(f, b, init, m, BitLength(|m|, b / 8))
  }

  // ------------------------------------------------------------- counters

  // a 64-bit count to which a 32-bit shift of len is added
  function Count64(count: nat, len: nat): (r: nat)
    ensures r < TWO64
  {
    (count + 8 * len % TWO32) % TWO64
  }

  // the bytes in the buffer, read off the low bits of a bit count
  lemma IndexOf64(count: nat, n: nat)
    requires count % 512 == 8 * n % 512
    ensures count / 8 % 64 == n % 64
  {
    var c, k, m := count % 512, count / 512, 8 * n / 512;
    assert c == 8 * (n - 64 * m);
    DivIs(count, 8, 64 * k + (n - 64 * m), 0);
    ModIs(count / 8, 64, k, n - 64 * m);
    ModIs(n, 64, m, n - 64 * m);
  }

  lemma IndexOf128(count: nat, n: nat)
    requires count % 1024 == 8 * n % 1024
    ensures count / 8 % 128 == n % 128
  {
    var c, k, m := count % 1024, count / 1024, 8 * n / 1024;
    assert c == 8 * (n - 128 * m);
    DivIs(count, 8, 128 * k + (n - 128 * m), 0);
    ModIs(count / 8, 128, k, n - 128 * m);
    ModIs(n, 128, m, n - 128 * m);
  }

  lemma Count64Index(count: nat, n: nat, len: nat)
    requires count % 512 == 8 * n % 512
    ensures Count64(count, len) % 512 == 8 * (n + len) % 512
  {
    var a, b := 8 * len / TWO32, (count + 8 * len % TWO32) / TWO64;
    var k := count / 512 - 8 * n / 512;
    assert Count64(count, len) == 8 * (n + len) + 512 * (k - 0x80_0000 * a - 0x80_0000_0000_0000 * b);
    SameMod(Count64(count, len), 8 * (n + len), 512, k - 0x80_0000 * a - 0x80_0000_0000_0000 * b);
  }

  // the count stays exact if and only if the shift loses no bits
  lemma Count64Exact(n: nat, len: nat)
    requires len < TWO32
    ensures Count64(8 * n % TWO64, len) == 8 * (n + len) % TWO64 <==> len < 0x2000_0000
  {
    var count := 8 * n % TWO64;
    var a, b, e := 8 * len / TWO32, (count + 8 * len % TWO32) / TWO64, 8 * n / TWO64;
    CompareMod(8 * (n + len), Count64(count, len), TWO64, e + b, TWO32 * a);
  }

  // The test of sha1_update for a full block, done in 32 bits, is right if and only if
  // the sum does not wrap.  Where it wraps, all of the data is taken for the rest of a
  // block and copied into the buffer.
  lemma GuardFits(j: nat, len: nat)
    requires j < 64 && len < TWO32
    ensures ((j + len) % TWO32 > 63 <==> j + len > 63) <==> j + len < TWO32
  {
    if j + len < TWO32 { ModIs(j + len, TWO32, 0, j + len); } else { ModIs(j + len, TWO32, 1, j + len - TWO32); }
  }

  // half a gigabyte leaves the count where it was
  lemma Count64Loses()
    ensures Count64(0, 0x2000_0000) == 0 != 8 * 0x2000_0000 % TWO64
  {
  }

  // two words; the bits the shift loses are added only when the low word wraps
  function Count2(c: (nat, nat), len: nat): (nat, nat) {
    var add := 8 * len % TWO32;
    var low := (c.0 + add) % TWO32;
    if low < add then (low, ((c.1 + 1) % TWO32 + len / 0x2000_0000) % TWO32) else (low, c.1)
  }

  function Value2(c: (nat, nat)): nat {
    c.0 + TWO32 * c.1
  }

  ghost predicate Words2(c: (nat, nat)) {
    c.0 < TWO32 && c.1 < TWO32
  }

  // the low word wraps when len is added
  predicate Wraps(low: nat, len: nat) {
    low + 8 * len % TWO32 >= TWO32
  }

  // the bits that are not added
  function Lost2(c: (nat, nat), len: nat): nat {
    if Wraps(c.0, len) then 0 else TWO32 * (len / 0x2000_0000)
  }

  lemma Count2Value(c: (nat, nat), len: nat) returns (wraps: nat)
    requires Words2(c) && len < TWO32
    ensures Words2(Count2(c, len)) && Count2(c, len).0 == (c.0 + 8 * len % TWO32) % TWO32
    ensures Value2(c) + 8 * len == Value2(Count2(c, len)) + TWO64 * wraps + Lost2(c, len)
  {
    var add, a := 8 * len % TWO32, len / 0x2000_0000;
    assert 8 * len == TWO32 * a + add;
    LowWraps(c.0, add);
    OneWrap(c.1, a);
    wraps := if Wraps(c.0, len) then (c.1 + 1 + a) / TWO32 else 0;
  }

  lemma Lost2None(c: (nat, nat), len: nat)
    requires len < TWO32
    ensures Lost2(c, len) < TWO64
    ensures Lost2(c, len) == 0 <==> len < 0x2000_0000 || Wraps(c.0, len)
  {
  }

  lemma Value2Bound(c: (nat, nat))
    requires Words2(c)
    ensures Value2(c) < TWO64
  {
  }

  // the index stays right, and the count stays exact if and only if the shift loses
  // no bits or the low word wraps
  lemma Count2Exact(c: (nat, nat), n: nat, len: nat)
    requires Words2(c) && len < TWO32
    ensures Words2(Count2(c, len))
    ensures c.0 % 512 == 8 * n % 512 ==> Count2(c, len).0 % 512 == 8 * (n + len) % 512
    ensures Value2(c) == 8 * n % TWO64 ==>
      (Value2(Count2(c, len)) == 8 * (n + len) % TWO64 <==> len < 0x2000_0000 || Wraps(c.0, len))
  {
    hide Count2; hide Wraps; hide Value2; hide Lost2;
    LowWord(c.0, n, len);
    var wraps := Count2Value(c, len);
    Lost2None(c, len);
    Value2Bound(Count2(c, len));
    if Value2(c) == 8 * n % TWO64 {
      CompareMod(8 * (n + len), Value2(Count2(c, len)), TWO64, 8 * n / TWO64 + wraps, Lost2(c, len));
    }
  }

  lemma Count2Loses()
    ensures Count2((0, 0), 0x2000_0000) == (0, 0) && Value2((0, 0)) != 8 * 0x2000_0000 % TWO64
  {
  }

  lemma LowWraps(low: nat, add: nat)
    requires low < TWO32 && add < TWO32
    ensures (low + add) % TWO32 == if low + add >= TWO32 then low + add - TWO32 else low + add
  {
  }

  lemma OneWrap(x: nat, a: nat)
    requires x < TWO32 && a < 8
    ensures ((x + 1) % TWO32 + a) % TWO32 == (x + 1 + a) % TWO32
  {
  }

  lemma LowWord(low: nat, n: nat, len: nat)
    requires low < TWO32
    ensures low % 512 == 8 * n % 512 ==> (low + 8 * len % TWO32) % TWO32 % 512 == 8 * (n + len) % 512
  {
    if low % 512 == 8 * n % 512 {
      var next := (low + 8 * len % TWO32) % TWO32;
      var a, b, k := 8 * len / TWO32, (low + 8 * len % TWO32) / TWO32, low / 512 - 8 * n / 512;
      assert next == 8 * (n + len) + 512 * (k - 0x80_0000 * a - 0x80_0000 * b);
      SameMod(next, 8 * (n + len), 512, k - 0x80_0000 * a - 0x80_0000 * b);
    }
  }

  datatype Count4 = Count4(w0: nat, w1: nat, w2: nat, w3: nat) {
    ghost predicate Ok() {
      w0 < TWO32 && w1 < TWO32 && w2 < TWO32 && w3 < TWO32
    }

    function Value(): nat {
      w0 + TWO32 * (w1 + TWO32 * (w2 + TWO32 * w3))
    }

    // one more in the three high words
    function Carry(): Count4 {
      var v1 := (w1 + 1) % TWO32;
      if v1 >= 1 then Count4(w0, v1, w2, w3)
      else
        var v2 := (w2 + 1) % TWO32;
        if v2 >= 1 then Count4(w0, v1, v2, w3) else Count4(w0, v1, v2, (w3 + 1) % TWO32)
    }

    // four words; the bits the shift loses are added only when the low word wraps,
    // and then without a carry
    function Add(len: nat): Count4 {
      var add := 8 * len % TWO32;
      var low := (w0 + add) % TWO32;
      if low < add then
        var c := this.(w0 := low).Carry();
        c.(w1 := (c.w1 + len / 0x2000_0000) % TWO32)
      else this.(w0 := low)
    }
  }

  // a word with one added, and whether it wrapped
  lemma OneMore(w: nat) returns (wraps: nat)
    requires w < TWO32
    ensures (w + 1) % TWO32 < TWO32 && wraps <= 1 && w + 1 == (w + 1) % TWO32 + TWO32 * wraps
    ensures wraps == 1 <==> (w + 1) % TWO32 < 1
  {
    wraps := if w == TWO32 - 1 then 1 else 0;
  }

  lemma CarryValue(c: Count4) returns (wraps: nat)
    requires c.Ok()
    ensures c.Carry().Ok() && c.Carry().w0 == c.w0 && c.Carry().w1 == (c.w1 + 1) % TWO32
    ensures c.Value() + TWO32 == c.Carry().Value() + TWO128 * wraps
  {
    var k1 := OneMore(c.w1);
    var k2 := OneMore(c.w2);
    var k3 := OneMore(c.w3);
    wraps := if k1 == k2 == 1 then k3 else 0;
  }

  // the bits that adding len to the second word can lose
  function Lost(c: Count4, len: nat): nat {
    var a := len / 0x2000_0000;
    if Wraps(c.w0, len) then TWO64 * (((c.w1 + 1) % TWO32 + a) / TWO32) else TWO32 * a
  }

  lemma SetLow(c: Count4, low: nat)
    ensures c.(w0 := low).Value() == c.Value() + low - c.w0
  {
  }

  lemma SetSecond(c: Count4, second: nat)
    ensures c.(w1 := second).Value() == c.Value() + TWO32 * (second - c.w1)
  {
  }

  lemma SecondWraps(second: nat, a: nat)
    requires second < TWO32 && a < 8
    ensures TWO32 * a == TWO32 * ((second + a) % TWO32 - second) + TWO64 * ((second + a) / TWO32)
  {
  }

  lemma AddWraps(c: Count4, len: nat, add: nat, a: nat) returns (wraps: nat)
    requires c.Ok() && add == 8 * len % TWO32 && a == len / 0x2000_0000 < 8 && Wraps(c.w0, len)
    ensures c.Add(len).Ok() && c.Add(len).w0 == (c.w0 + add) % TWO32
    ensures c.Value() + add + TWO32 * a == c.Add(len).Value() + TWO128 * wraps + Lost(c, len)
  {
    hide Count4.Carry; hide Count4.Value;
    LowWraps(c.w0, add);
    var d := c.(w0 := c.w0 + add - TWO32);
    SetLow(c, d.w0);
    wraps := CarryValue(d);
    SetSecond(d.Carry(), (d.Carry().w1 + a) % TWO32);
    SecondWraps(d.Carry().w1, a);
  }

  lemma AddValue(c: Count4, len: nat) returns (wraps: nat)
    requires c.Ok() && len < TWO32
    ensures c.Add(len).Ok() && c.Add(len).w0 == (c.w0 + 8 * len % TWO32) % TWO32
    ensures c.Value() + 8 * len == c.Add(len).Value() + TWO128 * wraps + Lost(c, len)
  {
    var add, a := 8 * len % TWO32, len / 0x2000_0000;
    assert 8 * len == TWO32 * a + add;
    if Wraps(c.w0, len) {
      hide Count4.Add; hide Lost;
      wraps := AddWraps(c, len, add, a);
    } else {
      LowWraps(c.w0, add);
      wraps := 0;
    }
  }

  lemma LostNone(c: Count4, len: nat)
    requires c.Ok() && len < TWO32
    ensures Lost(c, len) < TWO128
    ensures Lost(c, len) == 0 <==>
      len < 0x2000_0000 || (Wraps(c.w0, len) && (c.w1 + 1) % TWO32 + len / 0x2000_0000 < TWO32)
  {
  }

  lemma ValueBound(c: Count4)
    requires c.Ok()
    ensures c.Value() < TWO128
  {
  }

  // the count stays exact if and only if the shift loses no bits, or the low word
  // wraps and the bits then added to the second word do not overflow it
  lemma AddExact(c: Count4, n: nat, len: nat)
    requires c.Ok() && len < TWO32
    ensures c.Add(len).Ok()
    ensures c.w0 % 1024 == 8 * n % 1024 ==> c.Add(len).w0 % 1024 == 8 * (n + len) % 1024
    ensures c.Value() == 8 * n % TWO128 ==>
      (c.Add(len).Value() == 8 * (n + len) % TWO128
       <==> len < 0x2000_0000 || (Wraps(c.w0, len) && (c.w1 + 1) % TWO32 + len / 0x2000_0000 < TWO32))
  {
    hide Count4.Add; hide Count4.Value; hide Lost; hide Wraps;
    var wraps := AddValue(c, len);
    LowWord1024(c.w0, n, len);
    LostNone(c, len);
    ValueBound(c.Add(len));
    if c.Value() == 8 * n % TWO128 {
      CompareMod(8 * (n + len), c.Add(len).Value(), TWO128, 8 * n / TWO128 + wraps, Lost(c, len));
    }
  }

  // Nothing wraps and the bits are dropped; or the low word wraps and the bits are
  // added, but what they carry out of the second word is dropped.
  lemma AddLoses()
    ensures Count4(0, 0, 0, 0).Add(0x2000_0000) == Count4(0, 0, 0, 0)
    ensures Count4(TWO32 - 8, TWO32 - 2, 0, 0).Add(0x2000_0001) == Count4(0, 0, 0, 0)
  {
  }

  lemma LowWord1024(low: nat, n: nat, len: nat)
    requires low < TWO32
    ensures low % 1024 == 8 * n % 1024 ==> (low + 8 * len % TWO32) % TWO32 % 1024 == 8 * (n + len) % 1024
  {
    if low % 1024 == 8 * n % 1024 {
      var next := (low + 8 * len % TWO32) % TWO32;
      var a, b, k := 8 * len / TWO32, (low + 8 * len % TWO32) / TWO32, low / 1024 - 8 * n / 1024;
      assert next == 8 * (n + len) + 1024 * (k - 0x40_0000 * a - 0x40_0000 * b);
      SameMod(next, 8 * (n + len), 1024, k - 0x40_0000 * a - 0x40_0000 * b);
    }
  }

  // ------------------------------------------------------------- contexts

  // struct sha1_ctx
  class Sha1 {
    const core: Absorber<Words>
    var count: nat

    ghost predicate Valid()
      reads this, core, core.buf
    {
      core.Valid() && core.b == 64 && count < TWO64 && count % 512 == 8 * |core.msg| % 512
    }

    // the counter is the number of bits hashed, modulo 2^64
    ghost predicate Exact()
      reads this, core
    {
      count == 8 * |core.msg| % TWO64
    }

    constructor (f: (Words, Bytes) -> Words, init: Words)
      ensures Valid() && Exact() && count == 0 && core.msg == [] && core.f == f && core.init == init
      ensures fresh(core) && fresh(core.buf)
    {
      core := new Absorber(f, 64, init);
      count := 0;
    }

    // sha1_init
    method Init()
      requires core.b == core.buf.Length == 64
      modifies this, core, core.buf
      ensures Valid() && Exact() && count == 0 && core.msg == []
    {
      core.Reset();
      count := 0;
    }

    // the shift is done in 32 bits
    method Update(data: Bytes)
      requires Valid() && |core.msg| % 64 + |data| < TWO32
      modifies this, core, core.buf
      ensures Valid() && core.msg == old(core.msg) + data
      ensures count == Count64(old(count), |data|)
      ensures old(Exact()) ==> (Exact() <==> |data| < 0x2000_0000)
    {
      hide Absorber<Words>.Valid; hide Count64;
      IndexOf64(count, |core.msg|);
      Count64Index(count, |core.msg|, |data|);
      Count64Exact(|core.msg|, |data|);
      var j := count / 8 % 64;
      count := Count64(count, |data|);
      core.Absorb(j, data);
    }

    // sha1_final: pad to 56 modulo 64, append the count, store the state
    method Final() returns (out: Bytes)
      requires Valid()
      modifies this, core, core.buf
      ensures out == StoreWords(Hash(core.f, 64, core.init, old(core.msg), BigEndian(old(count), 8)), 4)
      ensures old(Exact()) ==> out == StoreWords(Standard(core.f, 64, core.init, old(core.msg)), 4)
    {
      hide Absorber<Words>.Valid; hide Count64; hide BigEndian; hide Fold; hide Padded; hide StoreWords; hide Padding;
      ghost var m, c := core.msg, count;
      var high := WordBytes(count / TWO32);
      var low := WordBytes(count % TWO32);
      var bits := high + low;
      CountBytes(count);
      IndexOf64(count, |m|);
      var index := count / 8 % 64;
      Update(Padding(PadLen(index, 64, 8)));
      Update(bits);
      PadLenFits(m, 64, bits);
      PaddedFills(m, 64, bits);
      core.Complete();
      out := Store(core.state, 4);
      ExactLength(c, |m|);
    }
  }

  // struct sha256_ctx
  class Sha256 {
    const core: Absorber<Words>
    var count: (nat, nat)

    ghost predicate Valid()
      reads this, core, core.buf
    {
      core.Valid() && core.b == 64 && Words2(count) && count.0 % 512 == 8 * |core.msg| % 512
    }

    ghost predicate Exact()
      reads this, core
    {
      Value2(count) == 8 * |core.msg| % TWO64
    }

    constructor (f: (Words, Bytes) -> Words, init: Words)
      ensures Valid() && Exact() && count == (0, 0) && core.msg == [] && core.f == f && core.init == init
      ensures fresh(core) && fresh(core.buf)
    {
      core := new Absorber(f, 64, init);
      count := (0, 0);
    }

    method Update(data: Bytes)
      requires Valid() && |core.msg| % 64 + |data| < TWO32
      modifies this, core, core.buf
      ensures Valid() && core.msg == old(core.msg) + data
      ensures count == Count2(old(count), |data|)
      ensures old(Exact()) ==> (Exact() <==> |data| < 0x2000_0000 || Wraps(old(count.0), |data|))
    {
      hide Absorber<Words>.Valid; hide Count2; hide Value2; hide Words2; hide Wraps;
      Count2Exact(count, |core.msg|, |data|);
      IndexOf64(count.0, |core.msg|);
      var index := count.0 / 8 % 64;
      count := Count2(count, |data|);
      core.Absorb(index, data);
    }

    method Final() returns (out: Bytes)
      requires Valid()
      modifies this, core, core.buf
      ensures out == StoreWords(Hash(core.f, 64, core.init, old(core.msg), BigEndian(old(Value2(count)), 8)), 4)
      ensures old(Exact()) ==> out == StoreWords(Standard(core.f, 64, core.init, old(core.msg)), 4)
    {
      hide Absorber<Words>.Valid; hide BigEndian; hide Fold; hide Padded; hide StoreWords; hide Padding; hide Wraps;
      ghost var m, c := core.msg, count;
      var low := WordBytes(count.0);
      var high := WordBytes(count.1);
      var bits := high + low;
      Value2Bytes(count);
      IndexOf64(count.0, |m|);
      var index := count.0 / 8 % 64;
      Update(Padding(PadLen(index, 64, 8)));
      Update(bits);
      PadLenFits(m, 64, bits);
      PaddedFills(m, 64, bits);
      core.Complete();
      out := Store(core.state, 4);
      ExactLength(Value2(c), |m|);
    }
  }

  // struct sha512_ctx; sha384 differs in the initial state and the last step
  class Sha512 {
    const core: Absorber<Words>
    var count: Count4

    ghost predicate Valid()
      reads this, core, core.buf
    {
      core.Valid() && core.b == 128 && count.Ok() && count.w0 % 1024 == 8 * |core.msg| % 1024
    }

    ghost predicate Exact()
      reads this, core
    {
      count.Value() == 8 * |core.msg| % TWO128
    }

    constructor (f: (Words, Bytes) -> Words, init: Words)
      ensures Valid() && Exact() && count == Count4(0, 0, 0, 0) && core.msg == [] && core.f == f && core.init == init
      ensures fresh(core) && fresh(core.buf)
    {
      core := new Absorber(f, 128, init);
      count := Count4(0, 0, 0, 0);
    }

    method Update(data: Bytes)
      requires Valid() && |core.msg| % 128 + |data| < TWO32
      modifies this, core, core.buf
      ensures Valid() && core.msg == old(core.msg) + data
      ensures count == old(count).Add(|data|)
      ensures old(Exact()) ==>
        (Exact() <==> |data| < 0x2000_0000
                      || (Wraps(old(count.w0), |data|) && (old(count.w1) + 1) % TWO32 + |data| / 0x2000_0000 < TWO32))
    {
      hide Absorber<Words>.Valid; hide Count4.Add; hide Count4.Value; hide Count4.Ok; hide Wraps;
      AddExact(count, |core.msg|, |data|);
      IndexOf128(count.w0, |core.msg|);
      var index := count.w0 / 8 % 128;
      count := count.Add(|data|);
      core.Absorb(index, data);
    }

    method Final() returns (hash: Bytes)
      requires Valid()
      modifies this, core, core.buf
      ensures hash == StoreWords(Hash(core.f, 128, core.init, old(core.msg), BigEndian(old(count.Value()), 16)), 8)
      ensures old(Exact()) ==> hash == StoreWords(Standard(core.f, 128, core.init, old(core.msg)), 8)
    {
      hide Absorber<Words>.Valid; hide BigEndian; hide Fold; hide Padded; hide StoreWords; hide Padding; hide Wraps;
      hide Count4.Value; hide Count4.Ok;
      ghost var m, c := core.msg, count;
      var b0 := WordBytes(count.w0);
      var b1 := WordBytes(count.w1);
      var b2 := WordBytes(count.w2);
      var b3 := WordBytes(count.w3);
      var bits := b3 + b2 + b1 + b0;
      ValueBytes(count);
      IndexOf128(count.w0, |m|);
      var index := count.w0 / 8 % 128;
      Update(Padding(PadLen(index, 128, 16)));
      Update(bits);
      PadLenFits(m, 128, bits);
      PaddedFills(m, 128, bits);
      core.Complete();
      hash := Store(core.state, 8);
      ExactLength16(c.Value(), |m|);
    }

    // sha384_final: the first six of the eight words
    method Final384() returns (hash: Bytes)
      requires Valid() && EightWords(core.f, core.init)
      modifies this, core, core.buf
      ensures var h := Hash(core.f, 128, core.init, old(core.msg), BigEndian(old(count.Value()), 16));
        |h| == 8 && hash == StoreWords(h[..6], 8)
      ensures var h := Standard(core.f, 128, core.init, old(core.msg));
        old(Exact()) ==> |h| == 8 && hash == StoreWords(h[..6], 8)
    {
      hide Valid; hide Hash; hide BigEndian; hide StoreWords; hide EightWords; hide Count4.Value;
      ExactLength16(count.Value(), |core.msg|);
      ghost var length := BigEndian(count.Value(), 16);
      HashOfEight(core.f, core.init, core.msg, length);
      ghost var h := Hash(core.f, 128, core.init, core.msg, length);
      StoredSize(h, 8);
      StoredPrefix(h, 6, 8);
      var d := Final();
      hash := d[..48];
    }
  }

  // a chaining value of eight words, as the two hashes have
  ghost predicate EightWords(f: (Words, Bytes) -> Words, init: Words) {
    |init| == 8 && forall h: Words, block: Bytes | |h| == 8 :: |f(h, block)| == 8
  }

  lemma {:induction false} FoldOfEight(f: (Words, Bytes) -> Words, init: Words, m: Bytes)
    requires EightWords(f, init) && |m| % 128 == 0
    ensures |Fold(f, 128, init, m)| == 8
    decreases |m|
  {
    if m != [] {
      LastBlock(|m|, 128);
      FoldOfEight(f, init, m[..|m| - 128]);
    }
  }

  lemma HashOfEight(f: (Words, Bytes) -> Words, init: Words, m: Bytes, length: Bytes)
    requires EightWords(f, init) && |length| < 128
    ensures |Hash(f, 128, init, m, length)| == 8
  {
    hide Fold; hide Padded; hide EightWords;
    PaddedFills(m, 128, length);
    FoldOfEight(f, init, Padded(m, 128, length));
  }

  lemma ValueBytes(c: Count4)
    requires c.Ok()
    ensures BigEndian(c.w3, 4) + BigEndian(c.w2, 4) + BigEndian(c.w1, 4) + BigEndian(c.w0, 4) == BigEndian(c.Value(), 16)
  {
    hide BigEndian; hide Pow256;
    Pow256Values();
    BigEndianJoin(c.w3, c.w2, 4, 4);
    BigEndianJoin(c.w3 * TWO32 + c.w2, c.w1, 8, 4);
    BigEndianJoin((c.w3 * TWO32 + c.w2) * TWO32 + c.w1, c.w0, 12, 4);
  }

  lemma ExactLength16(count: nat, n: nat)
    ensures count == 8 * n % TWO128 ==> BigEndian(count, 16) == BitLength(n, 16)
  {
    hide BigEndian; hide Pow256;
    Pow256Values();
    BigEndianMod(8 * n, 16);
  }

  lemma Value2Bytes(c: (nat, nat))
    requires Words2(c)
    ensures BigEndian(c.1, 4) + BigEndian(c.0, 4) == BigEndian(Value2(c), 8)
  {
    hide BigEndian; hide Pow256;
    Pow256Values();
    BigEndianJoin(c.1, c.0, 4, 4);
  }

  lemma CountBytes(count: nat)
    ensures BigEndian(count / TWO32, 4) + BigEndian(count % TWO32, 4) == BigEndian(count, 8)
  {
    hide BigEndian; hide Pow256;
    Pow256Values();
    BigEndianJoin(count / TWO32, count % TWO32, 4, 4);
  }

  lemma ExactLength(count: nat, n: nat)
    ensures count == 8 * n % TWO64 ==> BigEndian(count, 8) == BitLength(n, 8)
  {
    hide BigEndian; hide Pow256;
    Pow256Values();
    BigEndianMod(8 * n, 8);
  }

  // ------------------------------------------------ any way of cutting it up

  // a counter to which the lengths of the pieces are added one after another
  ghost function Counted<C>(add: (C, nat) -> C, zero: C, pieces: seq<Bytes>): C {
    if pieces == [] then zero else add(Counted(add, zero, pieces[..|pieces| - 1]), |pieces[|pieces| - 1]|)
  }

  lemma CountedSnoc<C>(add: (C, nat) -> C, zero: C, pieces: seq<Bytes>, i: nat)
    requires i < |pieces|
    ensures Counted(add, zero, pieces[..i + 1]) == add(Counted(add, zero, pieces[..i]), |pieces[i]|)
  {
    assert pieces[..i + 1][..i] == pieces[..i];
  }

  // the pieces fit the 32-bit arithmetic of the block loop, see LoopFits
  ghost predicate Fit(pieces: seq<Bytes>, b: nat)
    requires b > 0
  {
    forall i | 0 <= i < |pieces| :: |Concat(pieces[..i])| % b + |pieces[i]| < TWO32
  }

  ghost predicate Short(pieces: seq<Bytes>) {
    forall i | 0 <= i < |pieces| :: |pieces[i]| < 0x2000_0000
  }

  lemma ShortFit(pieces: seq<Bytes>, b: nat)
    requires 0 < b <= 128 && Short(pieces)
    ensures Fit(pieces, b)
  {
  }

  function Add4(c: Count4, len: nat): Count4 {
    c.Add(len)
  }

  // the counters of any pieces shorter than 2^29 are exact
  lemma {:induction false} ShortExact64(pieces: seq<Bytes>)
    requires Short(pieces)
    ensures Counted(Count64, 0, pieces) == 8 * |Concat(pieces)| % TWO64
  {
    hide Count64;
    if pieces != [] {
      var front, last := pieces[..|pieces| - 1], pieces[|pieces| - 1];
      ShortExact64(front);
      Count64Exact(|Concat(front)|, |last|);
    }
  }

  lemma {:induction false} ShortExact2(pieces: seq<Bytes>)
    requires Short(pieces)
    ensures Words2(Counted(Count2, (0, 0), pieces)) && Value2(Counted(Count2, (0, 0), pieces)) == 8 * |Concat(pieces)| % TWO64
  {
    hide Count2; hide Wraps;
    if pieces != [] {
      var front, last := pieces[..|pieces| - 1], pieces[|pieces| - 1];
      ShortExact2(front);
      Count2Exact(Counted(Count2, (0, 0), front), |Concat(front)|, |last|);
    }
  }

  lemma {:induction false} ShortExact4(pieces: seq<Bytes>)
    requires Short(pieces)
    ensures Counted(Add4, Count4(0, 0, 0, 0), pieces).Ok()
    ensures Counted(Add4, Count4(0, 0, 0, 0), pieces).Value() == 8 * |Concat(pieces)| % TWO128
  {
    hide Count4.Add; hide Wraps;
    if pieces != [] {
      var front, last := pieces[..|pieces| - 1], pieces[|pieces| - 1];
      ShortExact4(front);
      AddExact(Counted(Add4, Count4(0, 0, 0, 0), front), |Concat(front)|, |last|);
    }
  }

  // The digest depends on the message and the counter alone, as digest of
  // crypto/digest.c feeds it; it is the standard one when the counter is exact.
  method Sha1InPieces(f: (Words, Bytes) -> Words, init: Words, pieces: seq<Bytes>) returns (out: Bytes)
    requires Fit(pieces, 64)
    ensures out == StoreWords(Hash(f, 64, init, Concat(pieces), BigEndian(Counted(Count64, 0, pieces), 8)), 4)
    ensures Counted(Count64, 0, pieces) == 8 * |Concat(pieces)| % TWO64 ==>
      out == StoreWords(Standard(f, 64, init, Concat(pieces)), 4)
  {
    hide Standard; hide Concat; hide StoreWords; hide Absorber<Words>.Valid; hide Hash; hide Counted; hide Count64; hide BigEndian;
    var ctx := new Sha1(f, init);
    NoPieces(pieces);
    NoCount(Count64, 0, pieces);
    for i := 0 to |pieces|
      invariant ctx.Valid() && ctx.core.msg == Concat(pieces[..i]) && ctx.count == Counted(Count64, 0, pieces[..i])
      invariant fresh(ctx) && fresh(ctx.core) && fresh(ctx.core.buf)
    {
      hide Sha1.Valid;
      ConcatSnoc(pieces, i);
      CountedSnoc(Count64, 0, pieces, i);
      ctx.Update(pieces[i]);
    }
    assert pieces[..|pieces|] == pieces;
    out := ctx.Final();
  }

  method Sha256InPieces(f: (Words, Bytes) -> Words, init: Words, pieces: seq<Bytes>) returns (out: Bytes)
    requires Fit(pieces, 64)
    ensures out == StoreWords(Hash(f, 64, init, Concat(pieces), BigEndian(Value2(Counted(Count2, (0, 0), pieces)), 8)), 4)
    ensures Value2(Counted(Count2, (0, 0), pieces)) == 8 * |Concat(pieces)| % TWO64 ==>
      out == StoreWords(Standard(f, 64, init, Concat(pieces)), 4)
  {
    hide Standard; hide Concat; hide StoreWords; hide Absorber<Words>.Valid; hide Hash; hide Counted; hide Count2; hide BigEndian;
    hide Value2; hide Wraps;
    var ctx := new Sha256(f, init);
    NoPieces(pieces);
    NoCount(Count2, (0, 0), pieces);
    for i := 0 to |pieces|
      invariant ctx.Valid() && ctx.core.msg == Concat(pieces[..i]) && ctx.count == Counted(Count2, (0, 0), pieces[..i])
      invariant fresh(ctx) && fresh(ctx.core) && fresh(ctx.core.buf)
    {
      hide Sha256.Valid;
      ConcatSnoc(pieces, i);
      CountedSnoc(Count2, (0, 0), pieces, i);
      ctx.Update(pieces[i]);
    }
    assert pieces[..|pieces|] == pieces;
    out := ctx.Final();
  }

  method Sha512InPieces(f: (Words, Bytes) -> Words, init: Words, pieces: seq<Bytes>) returns (out: Bytes)
    requires Fit(pieces, 128)
    ensures var c := Counted(Add4, Count4(0, 0, 0, 0), pieces).Value();
      && out == StoreWords(Hash(f, 128, init, Concat(pieces), BigEndian(c, 16)), 8)
      && (c == 8 * |Concat(pieces)| % TWO128 ==> out == StoreWords(Standard(f, 128, init, Concat(pieces)), 8))
  {
    hide Standard; hide Concat; hide StoreWords; hide Absorber<Words>.Valid; hide Hash; hide Counted; hide Count4.Add; hide BigEndian;
    hide Count4.Value; hide Wraps;
    var ctx := new Sha512(f, init);
    NoPieces(pieces);
    NoCount(Add4, Count4(0, 0, 0, 0), pieces);
    for i := 0 to |pieces|
      invariant ctx.Valid() && ctx.core.msg == Concat(pieces[..i])
      invariant ctx.count == Counted(Add4, Count4(0, 0, 0, 0), pieces[..i])
      invariant fresh(ctx) && fresh(ctx.core) && fresh(ctx.core.buf)
    {
      hide Sha512.Valid;
      ConcatSnoc(pieces, i);
      CountedSnoc(Add4, Count4(0, 0, 0, 0), pieces, i);
      ctx.Update(pieces[i]);
    }
    assert pieces[..|pieces|] == pieces;
    out := ctx.Final();
  }

  lemma NoCount<C>(add: (C, nat) -> C, zero: C, pieces: seq<Bytes>)
    ensures Counted(add, zero, pieces[..0]) == zero
  {
  }
}
