/**
 The buffering and padding of the SHA-1 class in lib/crow/include/crow/TinySHA1.hpp, against section 4 of RFC 3174,
 for any function that compresses a block into a digest.
 */
module Sha1Stream {
  import opened Common
  import opened Words32

  type Octet = x: nat | x < 256

  type Block = b: seq<Octet> | |b| == 64 witness seq(64, _ => 0)

  /** The result of compressing all blocks of a padded message, one after the other. */
  ghost function Fold<T>(compress: (T, Block) -> T, initial: T, m: seq<Octet>): T
    requires |m| % 64 == 0
    decreases |m|
  {
    if m == [] then initial else compress(Fold(compress, initial, m[..|m| - 64]), m[|m| - 64..])
  }

  /** The octet of a number above a power of two. */
  function OctetAt(n: nat, power: nat): Octet
    requires power != 0
  {
    (n / power) % 256
  }

  function Zeros(n: nat): seq<Octet> { seq(n, _ => 0) }

  /** How many zeros section 4 puts between the bit 1 and the length. */
  function ZerosAfter(length: nat): nat { (119 - length % 64) % 64 }

  lemma ZerosAreFewest(length: nat, z: nat)
    ensures (length + 1 + ZerosAfter(length)) % 64 == 56
    ensures (length + 1 + z) % 64 == 56 ==> z >= ZerosAfter(length)
  {
    var r := length % 64;
    assert length == 64 * (length / 64) + r;
    if z < ZerosAfter(length) {
      assert (length + 1 + z) % 64 == if r + 1 + z < 64 then r + 1 + z else r + 1 + z - 64;
    }
  }

  lemma PaddingAligns(length: nat)
    ensures (length + 1 + ZerosAfter(length) + 8) % 64 == 0
  {
  }

  function LengthOctets(bits: nat): seq<Octet> {
    [OctetAt(bits, 0x100_0000_0000_0000), OctetAt(bits, 0x1_0000_0000_0000), OctetAt(bits, 0x100_0000_0000),
     OctetAt(bits, 0x1_0000_0000), OctetAt(bits, 0x100_0000), OctetAt(bits, 0x1_0000), OctetAt(bits, 0x100),
       OctetAt(bits, 1)]
  }

  /** The padding of section 4: a one bit, zeros, and the length in bits as 64 bits. */
  function Padded(m: seq<Octet>): (r: seq<Octet>)
    ensures |r| % 64 == 0
  {
    PaddingAligns(|m|);
    m + [0x80] + Zeros(ZerosAfter(|m|)) + LengthOctets(8 * |m|)
  }

  // ---------------------------------------------------------------- what the code pads with

  const TWO_64: nat := 0x1_0000_0000_0000_0000

  /** The code writes four zeros and the low 32 bits of its 64-bit bit count. */
  function CodeLength(byteCount: nat): seq<Octet> {
    var bits := (byteCount * 8) % TWO_64;
    [0, 0, 0, 0, OctetAt(bits, 0x100_0000), OctetAt(bits, 0x1_0000), OctetAt(bits, 0x100), OctetAt(bits, 1)]
  }

  function CodePadded(m: seq<Octet>): (r: seq<Octet>)
    ensures |r| % 64 == 0
  {
    PaddingAligns(|m|);
    m + [0x80] + Zeros(ZerosAfter(|m|)) + CodeLength(|m|)
  }

  /** For every message RFC 3174 allows, the code's padding is the standard's exactly when the message is shorter
      than 2^32 bits. */
  lemma PaddingAgreesIff(m: seq<Octet>)
    requires 8 * |m| < TWO_64
    ensures CodePadded(m) == Padded(m) <==> 8 * |m| < TWO_32
  {
    hide Zeros, ZerosAfter, CodeLength, LengthOctets;
    LengthsAgree(|m|);
    Tails(m + [0x80] + Zeros(ZerosAfter(|m|)), CodeLength(|m|), LengthOctets(8 * |m|));
  }

  /** The two forms of the length agree exactly while the upper half is zero. */
  lemma LengthsAgree(n: nat)
    requires 8 * n < TWO_64
    ensures CodeLength(n) == LengthOctets(8 * n) <==> 8 * n < TWO_32
  {
    hide OctetAt;
    assert (n * 8) % TWO_64 == 8 * n;
    if 8 * n >= TWO_32 {
      UpperHalf(8 * n);
      assert CodeLength(n)[0] == CodeLength(n)[1] == CodeLength(n)[2] == CodeLength(n)[3] == 0;
    } else {
      LowerHalf(8 * n);
    }
  }

  lemma LowerHalf(bits: nat)
    requires bits < TWO_32
    ensures OctetAt(bits, 0x100_0000_0000_0000) == 0 && OctetAt(bits, 0x1_0000_0000_0000) == 0
    ensures OctetAt(bits, 0x100_0000_0000) == 0 && OctetAt(bits, 0x1_0000_0000) == 0
  {
  }

  lemma Tails(head: seq<Octet>, a: seq<Octet>, b: seq<Octet>)
    ensures head + a == head + b <==> a == b
  {
    assert (head + a)[|head|..] == a && (head + b)[|head|..] == b;
  }

  lemma UpperHalf(bits: nat)
    requires TWO_32 <= bits < TWO_64
    ensures OctetAt(bits, 0x100_0000_0000_0000) != 0 || OctetAt(bits, 0x1_0000_0000_0000) != 0
         || OctetAt(bits, 0x100_0000_0000) != 0 || OctetAt(bits, 0x1_0000_0000) != 0
  {
  }

  /** The SHA1 class around its compression function, which `Sha1` supplies. */
  class SHA1<T> {
    const compress: (T, Block) -> T
    const initial: T
    var digest: T
    const block: array<Octet>
    var blockByteIndex: nat
    var byteCount: nat
    ghost var fed: seq<Octet>   // everything processed since the last reset

    ghost predicate Valid()
      reads this, block
    {
      && block.Length == 64 && byteCount == |fed| && blockByteIndex == |fed| % 64
      && block[..blockByteIndex] == fed[|fed| - blockByteIndex..]
      && digest == Fold(compress, initial, fed[..|fed| - blockByteIndex])
    }

    constructor (compress: (T, Block) -> T, initial: T)
      ensures Valid() && fed == [] && fresh(block) && this.compress == compress && this.initial == initial
    {
      this.compress, this.initial := compress, initial;
      block := new Octet[64](_ => 0);
      digest, blockByteIndex, byteCount, fed := initial, 0, 0, [];
    }

    method Reset()
      requires block.Length == 64
      modifies this
      ensures Valid() && fed == []
    {
      digest, blockByteIndex, byteCount, fed := initial, 0, 0, [];
    }

    /** `processByte` */
    method ProcessByte(octet: Octet)
      requires Valid()
      modifies this, block
      ensures Valid() && fed == old(fed) + [octet]
      ensures blockByteIndex == if old(blockByteIndex) == 63 then 0 else old(blockByteIndex) + 1
    {
      NextIndex(|fed|);
      ghost var start := |fed| - blockByteIndex;
      block[blockByteIndex] := octet;
      blockByteIndex := blockByteIndex + 1;
      byteCount := byteCount + 1;
      fed := fed + [octet];
      assert block[..blockByteIndex] == old(block[..blockByteIndex]) + [octet];
      assert fed[start..] == old(fed)[start..] + [octet];
      assert fed[..start] == old(fed)[..start];
      if blockByteIndex == 64 {
        blockByteIndex := 0;
        assert block[..] == fed[start..];
        digest := compress(digest, block[..]);
        assert fed[..|fed| - 64] == fed[..start] && fed[..|fed|] == fed;
      }
    }

    /** `processBytes` */
    method ProcessBytes(data: seq<Octet>)
      requires Valid()
      modifies this, block
      ensures Valid() && fed == old(fed) + data
    {
      var k := 0;
      while k < |data|
        invariant 0 <= k <= |data| && Valid() && fed == old(fed) + data[..k]
      {
        ProcessByte(data[k]);
        assert data[..k + 1] == data[..k] + [data[k]];
        k := k + 1;
      }
      assert data[..k] == data;
    }

    method ProcessZeros(until: nat)
      requires Valid() && blockByteIndex <= until < 64
      modifies this, block
      ensures Valid() && fed == old(fed) + Zeros(until - old(blockByteIndex)) && blockByteIndex == until
    {
      ghost var n := 0;
      while blockByteIndex < until
        invariant Valid() && n == blockByteIndex - old(blockByteIndex) && blockByteIndex <= until
        invariant fed == old(fed) + Zeros(n)
        decreases until - blockByteIndex
      {
        ProcessByte(0);
        OneMoreZero(old(fed), n);
        n := n + 1;
      }
    }

    /** The first loop of getDigest: zeros to the end of the block. */
    method ProcessZerosToEnd()
      requires Valid() && blockByteIndex > 56
      modifies this, block
      ensures Valid() && fed == old(fed) + Zeros(64 - old(blockByteIndex)) && blockByteIndex == 0
    {
      ghost var n := 0;
      while blockByteIndex != 0
        invariant Valid() && fed == old(fed) + Zeros(n) && n <= 64 - old(blockByteIndex)
        invariant if blockByteIndex == 0 then n == 64 - old(blockByteIndex)
            else n == blockByteIndex - old(blockByteIndex)
        decreases 64 - old(blockByteIndex) - n
      {
        ProcessByte(0);
        OneMoreZero(old(fed), n);
        n := n + 1;
      }
    }

    /** `getDigest`: the padding is fed like data, so the object is left at the end of the padded message. */
    method GetDigest() returns (d: T)
      requires Valid()
      modifies this, block
      ensures Valid() && fed == CodePadded(old(fed)) && d == Fold(compress, initial, CodePadded(old(fed)))
      ensures 8 * |old(fed)| < TWO_32 ==> d == Fold(compress, initial, Padded(old(fed)))
    {
      ghost var m := fed;
      var bitCount := (byteCount * 8) % TWO_64;
      PadToLength();
      ProcessBytes([0, 0, 0, 0, OctetAt(bitCount, 0x100_0000), OctetAt(bitCount, 0x1_0000),
                    OctetAt(bitCount, 0x100), OctetAt(bitCount, 1)]);
      assert fed == CodePadded(m) && fed[..|fed|] == fed;
      if 8 * |m| < TWO_32 {
        PaddingAgreesIff(m);
      }
      d := digest;
    }

    /** The part of getDigest in front of the length. */
    method PadToLength()
      requires Valid()
      modifies this, block
      ensures Valid() && fed == old(fed) + [0x80] + Zeros(ZerosAfter(|old(fed)|))
    {
      ZerosByIndex(|fed|);
      ProcessByte(0x80);
      ghost var head, index := fed, blockByteIndex;
      if blockByteIndex > 56 {
        ProcessZerosToEnd();
        ProcessZeros(56);
        ZerosTwice(head, 64 - index, 56);
      } else {
        ProcessZeros(56);
      }
    }
  }

  lemma ZerosByIndex(length: nat)
    ensures var index := (length + 1) % 64;
            ZerosAfter(length) == if index > 56 then 64 - index + 56 else 56 - index
  {
  }

  lemma {:induction false} NextIndex(length: nat)
    ensures (length + 1) % 64 == if length % 64 == 63 then 0 else length % 64 + 1
  {
  }

  lemma OneMoreZero(head: seq<Octet>, n: nat)
    ensures head + Zeros(n) + [0] == head + Zeros(n + 1)
  {
    assert Zeros(n + 1) == Zeros(n) + [0];
  }

  lemma ZerosTwice(head: seq<Octet>, i: nat, j: nat)
    ensures head + Zeros(i) + Zeros(j) == head + Zeros(i + j)
  {
    assert Zeros(i) + Zeros(j) == Zeros(i + j);
    assert head + Zeros(i) + Zeros(j) == head + (Zeros(i) + Zeros(j));
  }

  /** Any way of cutting a message up, byte by byte or in pieces, gives the digest of the whole. */
  method DigestOfPieces<T>(compress: (T, Block) -> T, initial: T, pieces: seq<seq<Octet>>, bytewise: set<int>)
      returns (d: T)
    requires 8 * |Concat(pieces)| < TWO_32
    ensures d == Fold(compress, initial, Padded(Concat(pieces)))
  {
    var sha := new SHA1(compress, initial);
    var k := 0;
    assert pieces[0..] == pieces;
    while k < |pieces|
      invariant 0 <= k <= |pieces| && sha.Valid() && fresh(sha) && fresh(sha.block)
      invariant sha.fed + Concat(pieces[k..]) == Concat(pieces)
    {
      ConcatFrom(sha.fed, pieces, k);
      FeedPiece(sha, pieces[k], k in bytewise);
      k := k + 1;
    }
    assert pieces[k..] == [] && sha.fed + [] == sha.fed;
    d := sha.GetDigest();
  }

  lemma {:induction false} ConcatFrom(before: seq<Octet>, pieces: seq<seq<Octet>>, k: nat)
    requires k < |pieces|
    ensures before + Concat(pieces[k..]) == (before + pieces[k]) + Concat(pieces[k + 1..])
  {
    assert pieces[k..][1..] == pieces[k + 1..];
    assert (before + pieces[k]) + Concat(pieces[k + 1..]) == before + (pieces[k] + Concat(pieces[k + 1..]));
  }

  method FeedPiece<T>(sha: SHA1<T>, piece: seq<Octet>, bytewise: bool)
    requires sha.Valid()
    modifies sha, sha.block
    ensures sha.Valid() && sha.fed == old(sha.fed) + piece
  {
    if !bytewise {
      sha.ProcessBytes(piece);
      return;
    }
    var j := 0;
    while j < |piece|
      invariant 0 <= j <= |piece| && sha.Valid() && sha.fed == old(sha.fed) + piece[..j]
    {
      sha.ProcessByte(piece[j]);
      assert piece[..j + 1] == piece[..j] + [piece[j]];
      j := j + 1;
    }
    assert piece[..j] == piece;
  }
}
