// The "sha1" algorithm with its compression function and initial state in place.
module Sha1Digest {
  import opened Arithmetic
  import opened Basics
  import opened Digest
  import opened Sha1Transform
  import Sha

  // section 5.3.1 of FIPS 180-2, and sha1_init
  const INIT: Words := [0x67452301, 0xEFCDAB89, 0x98BADCFE, 0x10325476, 0xC3D2E1F0]

  // SHA-1 of m
  function Sha1Of(m: Bytes): (d: Bytes)
    ensures |d| == 20
  {
    Sha1Size(m);
    StoreWords(Sha.Standard(CompressBlock, 64, INIT, m), 4)
  }

  lemma Sha1Size(m: Bytes)
    ensures |StoreWords(Sha.Standard(CompressBlock, 64, INIT, m), 4)| == 20
  {
    hide CompressBlock; hide Hash; hide StoreWords; hide BigEndian;
    DigestSize(m, Sha.BitLength(|m|, 8));
  }

  lemma {:induction false} FoldOfFive(m: Bytes)
    requires |m| % 64 == 0
    ensures FiveWords(Fold(CompressBlock, 64, INIT, m))
    decreases |m|
  {
    hide CompressBlock;
    if m != [] {
      LastBlock(|m|, 64);
      FoldOfFive(m[..|m| - 64]);
    }
  }

  lemma HashOfFive(m: Bytes, length: Bytes)
    requires |length| < 64
    ensures FiveWords(Hash(CompressBlock, 64, INIT, m, length))
  {
    hide Fold; hide Padded;
    PaddedFills(m, 64, length);
    FoldOfFive(Padded(m, 64, length));
  }

  // what sha1_final stores has twenty bytes, whatever the counter
  lemma DigestSize(m: Bytes, length: Bytes)
    requires |length| < 64
    ensures |StoreWords(Hash(CompressBlock, 64, INIT, m, length), 4)| == 20
  {
    hide CompressBlock; hide Hash; hide StoreWords;
    HashOfFive(m, length);
    StoredSize(Hash(CompressBlock, 64, INIT, m, length), 4);
  }

  // sha1_init, sha1_update on piece after piece, sha1_final
  method InPieces(pieces: seq<Bytes>) returns (out: Bytes)
    requires Sha.Short(pieces)
    ensures out == Sha1Of(Concat(pieces))
  {
    hide Sha.Counted; hide Sha.Count64; hide StoreWords; hide Hash; hide Concat; hide CompressBlock; hide BigEndian;
    Sha.ShortFit(pieces, 64);
    Sha.ShortExact64(pieces);
    out := Sha.Sha1InPieces(CompressBlock, INIT, pieces);
  }
}
