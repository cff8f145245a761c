/**
 SHA-1 as in lib/crow/include/crow/TinySHA1.hpp against the definition of RFC 3174, section 6.1.
 */
module Sha1 {
  import opened Common
  import opened Words32
  import opened Sha1Stream

  // ---------------------------------------------------------------- the functions of RFC 3174

  /** Five words: the digest, or the variables A to E. */
  datatype Words = Words(a: Word, b: Word, c: Word, d: Word, e: Word)

  const INITIAL := Words(0x67452301, 0xEFCDAB89, 0x98BADCFE, 0x10325476, 0xC3D2E1F0)

  function F(t: nat, b: Word, c: Word, d: Word): Word {
    if t < 20 then Or(And(b, c), And(Not(b), d))
    else if t < 40 then Xor(Xor(b, c), d)
    else if t < 60 then Or(Or(And(b, c), And(b, d)), And(c, d))
    else Xor(Xor(b, c), d)
  }

  function K(t: nat): Word {
    if t < 20 then 0x5A827999 else if t < 40 then 0x6ED9EBA1 else if t < 60 then 0x8F1BBCDC else 0xCA62C1D6
  }

  /** Four octets as a word, the first the highest. */
  function WordOf(b0: Octet, b1: Octet, b2: Octet,
      b3: Octet): Word { b0 * 0x100_0000 + b1 * 0x1_0000 + b2 * 0x100 + b3 }

  function Mix(w3: Word, w8: Word, w14: Word, w16: Word): Word { RotateLeft(Xor(Xor(Xor(w3, w8), w14), w16), 1) }

  /** W(t) of a block. */
  function W(block: seq<Octet>, t: nat): Word
    requires |block| == 64 && t < 80
  {
    if t < 16 then WordOf(block[4 * t], block[4 * t + 1], block[4 * t + 2], block[4 * t + 3])
    else Mix(W(block, t - 3), W(block, t - 8), W(block, t - 14), W(block, t - 16))
  }

  /** The 80 words of a block. */
  function Schedule(block: seq<Octet>): (r: seq<Word>)
    requires |block| == 64
    ensures |r| == 80
  {
    seq(80, t requires 0 <= t < 80 => W(block, t))
  }

  /** One round: the new values of A to E. */
  function Round(v: Words, t: nat, w: Word): Words {
    var temp := Add(Add(Add(Add(RotateLeft(v.a, 5), F(t, v.b, v.c, v.d)), v.e), w), K(t));
    Words(temp, v.a, RotateLeft(v.b, 30), v.c, v.d)
  }

  /** The variables after one round for each word. */
  function Rounds(h: Words, words: seq<Word>): Words
    decreases |words|
  {
    if words == [] then h
    else Round(Rounds(h, words[..|words| - 1]), |words| - 1, words[|words| - 1])
  }

  function Plus(h: Words, v: Words): Words {
    Words(Add(h.a, v.a), Add(h.b, v.b), Add(h.c, v.c), Add(h.d, v.d), Add(h.e, v.e))
  }

  function Compress(h: Words, block: Block): Words {
    Plus(h, Rounds(h, Schedule(block)))
  }

  /** The digest of RFC 3174. */
  ghost function Digest(m: seq<Octet>): Words { Fold(Compress, INITIAL, Padded(m)) }

  // ---------------------------------------------------------------- what the functions and constants are

  /** In each place the functions choose, add up or take the majority of three bits. */
  lemma FunctionBits(t: nat, b: Word, c: Word, d: Word, i: nat)
    requires t < 80 && i < 32
    ensures var sum := Bit(b, i) + Bit(c, i) + Bit(d, i);
            Bit(F(t, b, c, d), i) ==
              if t < 20 then (if Bit(b, i) == 1 then Bit(c, i) else Bit(d, i))
              else if 40 <= t < 60 then (if sum >= 2 then 1 else 0)
              else sum % 2
  {
    hide And, Or, Xor, Not, Bit;
    BitByBit(b, c, i);
    BitByBit(b, d, i);
    BitByBit(c, d, i);
    if t < 20 {
      BitByBit(Not(b), d, i);
      BitByBit(And(b, c), And(Not(b), d), i);
    } else if 40 <= t < 60 {
      BitByBit(And(b, c), And(b, d), i);
      BitByBit(Or(And(b, c), And(b, d)), And(c, d), i);
    } else {
      BitByBit(Xor(b, c), d, i);
    }
  }

  /** The constants are the square roots of 2, 3, 5 and 10 in units of 2^-30, rounded down. */
  lemma ConstantsAreRoots(t: nat)
    requires t < 80
    ensures var n := if t < 20 then 2 else if t < 40 then 3 else if t < 60 then 5 else 10;
            K(t) * K(t) <= n * 0x1000_0000_0000_0000 < (K(t) + 1) * (K(t) + 1)
  {
  }

  /** Four octets as a word, the first the lowest. */
  function LowFirst(b0: Octet, b1: Octet, b2: Octet, b3: Octet): Word { WordOf(b3, b2, b1, b0) }

  /** Octet by octet the initial words count up, down, and from both ends at once. */
  lemma InitialIsCounted()
    ensures INITIAL.a == LowFirst(0x01, 0x23, 0x45, 0x67) && INITIAL.b == LowFirst(0x89, 0xAB, 0xCD, 0xEF)
    ensures INITIAL.c == LowFirst(0xFE, 0xDC, 0xBA, 0x98) && INITIAL.d == LowFirst(0x76, 0x54, 0x32, 0x10)
    ensures INITIAL.e == LowFirst(0xF0, 0xE1, 0xD2, 0xC3)
  {
  }

  // ---------------------------------------------------------------- the code

  /** `LeftRotate` joins the two shifted parts with exclusive or. */
  method LeftRotate(value: Word, count: nat) returns (r: Word)
    requires 0 < count < 32
    ensures r == RotateLeft(value, count)
  {
    RotateWithXor(value, count);
    r := Xor(ShiftLeft(value, count), ShiftRight(value, 32 - count));
  }

  /** Four octets shifted and joined with or. */
  method JoinOctets(b0: Octet, b1: Octet, b2: Octet, b3: Octet) returns (w: Word)
    ensures w == WordOf(b0, b1, b2, b3)
  {
    OctetShifts(b0, b1, b2);
    w := Or(Or(Or(ShiftLeft(b0, 24), ShiftLeft(b1, 16)), ShiftLeft(b2, 8)), b3);
    assert Or(b0 * 0x100_0000, b1 * 0x1_0000) == (b0 * 0x100 + b1) * 0x1_0000 by {
      JoinDisjoint(b0, b1 * 0x1_0000, 24);
    }
    assert Or((b0 * 0x100 + b1) * 0x1_0000, b2 * 0x100) == (b0 * 0x1_0000 + b1 * 0x100 + b2) * 0x100 by {
      JoinDisjoint(b0 * 0x100 + b1, b2 * 0x100, 16);
    }
    JoinDisjoint(b0 * 0x1_0000 + b1 * 0x100 + b2, b3, 8);
  }

  lemma {:induction false} OctetShifts(b0: Octet, b1: Octet, b2: Octet)
    ensures Pow2(8) == 0x100 && Pow2(16) == 0x1_0000 && Pow2(24) == 0x100_0000
    ensures ShiftLeft(b0, 24) == b0 * 0x100_0000 && ShiftLeft(b1, 16) == b1 * 0x1_0000 && ShiftLeft(b2, 8) == b2 * 0x100
  {
    assert Pow2(8) == 0x100 && Pow2(16) == 0x1_0000 && Pow2(24) == 0x100_0000;
  }

  method MixWords(w3: Word, w8: Word, w14: Word, w16: Word) returns (w: Word)
    ensures w == Mix(w3, w8, w14, w16)
  {
    w := LeftRotate(Xor(Xor(Xor(w3, w8), w14), w16), 1);
  }

  lemma {:induction false} NextRound(h: Words, words: seq<Word>, i: nat)
    requires i < |words|
    ensures Rounds(h, words[..i + 1]) == Round(Rounds(h, words[..i]), i, words[i])
  {
    assert words[..i + 1][..i] == words[..i];
  }

  /** One turn of the round loop. */
  method OneRound(v: Words, i: nat, w: Word) returns (r: Words)
    ensures r == Round(v, i, w)
  {
    var f: Word, k: Word := 0, 0;
    if i < 20 {
      f := Or(And(v.b, v.c), And(Not(v.b), v.d));
      k := 0x5A827999;
    } else if i < 40 {
      f := Xor(Xor(v.b, v.c), v.d);
      k := 0x6ED9EBA1;
    } else if i < 60 {
      f := Or(Or(And(v.b, v.c), And(v.b, v.d)), And(v.c, v.d));
      k := 0x8F1BBCDC;
    } else {
      f := Xor(Xor(v.b, v.c), v.d);
      k := 0xCA62C1D6;
    }
    var a5 := LeftRotate(v.a, 5);
    var temp := Add(Add(Add(Add(a5, f), v.e), k), w);
    AddOrder(Add(Add(a5, f), v.e), k, w);
    var b30 := LeftRotate(v.b, 30);
    r := Words(temp, v.a, b30, v.c, v.d);
  }

  /** `processBlock` */
  method ProcessBlock(digest: Words, block: array<Octet>) returns (r: Words)
    requires block.Length == 64
    ensures r == Compress(digest, block[..])
  {
    var w := FillSchedule(block);
    ghost var words := Schedule(block[..]);
    var v := digest;
    var i := 0;
    while i < 80
      invariant 0 <= i <= 80 && v == Rounds(digest, words[..i]) && w[..] == words
    {
      NextRound(digest, words, i);
      v := OneRound(v, i, w[i]);
      i := i + 1;
    }
    assert words[..i] == words;
    r := Words(Add(digest.a, v.a), Add(digest.b, v.b), Add(digest.c, v.c), Add(digest.d, v.d), Add(digest.e, v.e));
  }

  /** The first two loops of processBlock. */
  method FillSchedule(block: array<Octet>) returns (w: array<Word>)
    requires block.Length == 64
    ensures fresh(w) && w[..] == Schedule(block[..])
  {
    w := new Word[80];
    ghost var bytes := block[..];
    var i := 0;
    while i < 16
      invariant 0 <= i <= 16 && forall j :: 0 <= j < i ==> w[j] == W(bytes, j)
      modifies w
    {
      w[i] := JoinOctets(block[4 * i], block[4 * i + 1], block[4 * i + 2], block[4 * i + 3]);
      i := i + 1;
    }
    while i < 80
      invariant 16 <= i <= 80 && forall j :: 0 <= j < i ==> w[j] == W(bytes, j)
      modifies w
    {
      w[i] := MixWords(w[i - 3], w[i - 8], w[i - 14], w[i - 16]);
      i := i + 1;
    }
  }

  /** SHA-1 of a message shorter than 2^32 bits, in whatever pieces it comes. */
  method Sha1OfPieces(pieces: seq<seq<Octet>>, bytewise: set<int>) returns (d: Words)
    requires 8 * |Concat(pieces)| < TWO_32
    ensures d == Digest(Concat(pieces))
  {
    d := DigestOfPieces(Compress, INITIAL, pieces, bytewise);
  }
}
