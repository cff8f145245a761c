/**
 Unsigned 32-bit words and their operations, on numbers: addition wraps, the bit operations go bit by bit.
 */
module Words32 {

  const TWO_32: nat := 0x1_0000_0000

  type Word = x: nat | x < TWO_32

  function Pow2(n: nat): (r: nat)
    ensures r >= 1
  {
    if n == 0 then 1 else 2 * Pow2(n - 1)
  }

  lemma PowerOf32()
    ensures Pow2(32) == TWO_32
  {
    assert Pow2(8) == 256;
    assert Pow2(16) == 65536;
    assert Pow2(24) == 0x100_0000;
  }

  function AndBits(x: nat, y: nat): nat {
    if x == 0 || y == 0 then 0 else (x % 2) * (y % 2) + 2 * AndBits(x / 2, y / 2)
  }

  function OrBits(x: nat, y: nat): nat
    decreases x + y
  {
    if x == 0 then y else if y == 0 then x
    else (if x % 2 == 0 && y % 2 == 0 then 0 else 1) + 2 * OrBits(x / 2, y / 2)
  }

  function XorBits(x: nat, y: nat): nat
    decreases x + y
  {
    if x == 0 then y else if y == 0 then x
    else (if x % 2 == y % 2 then 0 else 1) + 2 * XorBits(x / 2, y / 2)
  }

  lemma {:induction false} BitsBound(x: nat, y: nat, n: nat)
    requires x < Pow2(n) && y < Pow2(n)
    ensures AndBits(x, y) < Pow2(n) && OrBits(x, y) < Pow2(n) && XorBits(x, y) < Pow2(n)
    decreases n
  {
    if x != 0 && y != 0 {
      BitsBound(x / 2, y / 2, n - 1);
    }
  }

  function And(x: Word, y: Word): Word {
    PowerOf32();
    BitsBound(x, y, 32);
    AndBits(x, y)
  }

  function Or(x: Word, y: Word): Word {
    PowerOf32();
    BitsBound(x, y, 32);
    OrBits(x, y)
  }

  function Xor(x: Word, y: Word): Word {
    PowerOf32();
    BitsBound(x, y, 32);
    XorBits(x, y)
  }

  function Not(x: Word): Word { TWO_32 - 1 - x }

  function Add(x: Word, y: Word): Word { (x + y) % TWO_32 }

  /** A shift to the left loses the high bits. */
  function ShiftLeft(x: Word, n: nat): Word { (x * Pow2(n)) % TWO_32 }

  lemma {:induction false} Times(p: nat, hi: nat, q: nat)
    requires p <= hi
    ensures p * q <= hi * q
  {
  }

  function ShiftRight(x: Word, n: nat): Word { if n == 0 then x else ShiftRight(x / 2, n - 1) }

  /** A shift to the right takes off the low bits. */
  lemma {:induction false} ShiftRightSplits(x: Word, n: nat) returns (low: nat)
    ensures low < Pow2(n) && x == ShiftRight(x, n) * Pow2(n) + low
    decreases n
  {
    if n == 0 {
      low := 0;
    } else {
      var rest := ShiftRightSplits(x / 2, n - 1);
      low := 2 * rest + x % 2;
      Doubled(ShiftRight(x / 2, n - 1), Pow2(n - 1));
    }
  }

  lemma {:induction false} Doubled(h: nat, p: nat)
    ensures h * (2 * p) == 2 * (h * p)
  {
  }

  /** A number with n low zero bits and one of n bits: all ways of joining them are their sum. */
  lemma {:induction false} JoinDisjoint(h: nat, y: nat, n: nat)
    requires y < Pow2(n)
    ensures OrBits(h * Pow2(n), y) == h * Pow2(n) + y && XorBits(h * Pow2(n), y) == h * Pow2(n) + y
    decreases n
  {
    var x := h * Pow2(n);
    if n > 0 {
      var half := h * Pow2(n - 1);
      assert x == 2 * half;
      if x != 0 && y != 0 {
        assert x / 2 == half && x % 2 == 0;
        JoinDisjoint(h, y / 2, n - 1);
        if y == 1 { assert OrBits(half, 0) == half && XorBits(half, 0) == half; }
      }
    }
  }

  lemma {:induction false} AddOrder(x: Word, y: Word, z: Word)
    ensures Add(Add(x, y), z) == Add(Add(x, z), y)
  {
    assert Add(Add(x, y), z) == (x + y + z) % TWO_32;
    assert Add(Add(x, z), y) == (x + z + y) % TWO_32;
  }

  // ---------------------------------------------------------------- rotation

  lemma {:induction false} PowerSplit(m: nat, n: nat)
    ensures Pow2(m + n) == Pow2(m) * Pow2(n)
    decreases m
  {
    if m > 0 {
      PowerSplit(m - 1, n);
    }
  }

  /** The part of a word shifted to the left is a multiple of the power, the other part is below it. */
  lemma {:induction false} ShiftParts(x: Word, n: nat) returns (low: nat)
    requires n <= 32
    ensures ShiftLeft(x, n) == low * Pow2(n)
    ensures ShiftRight(x, 32 - n) < Pow2(n)
  {
    var p, q := Pow2(n), Pow2(32 - n);
    assert q * p == TWO_32 by {
      PowerOf32();
      PowerSplit(32 - n, n);
    }
    low := ShiftRightSplits(x, 32 - n);
    ShiftedParts(ShiftRight(x, 32 - n), low, p, q);
  }

  lemma {:induction false} ShiftedParts(hi: nat, lo: nat, p: nat, q: nat)
    requires p > 0 && lo < q && q * p == TWO_32 && hi * q + lo < TWO_32
    ensures ((hi * q + lo) * p) % TWO_32 == lo * p && hi < p
  {
    Distribute(hi, q, lo, p);
    Below(lo, q, p);
    WrapMultiple(hi, lo * p);
    if hi >= p {
      Times(p, hi, q);
      assert false;
    }
  }

  lemma {:induction false} Distribute(hi: nat, q: nat, lo: nat, p: nat)
    ensures (hi * q + lo) * p == hi * (q * p) + lo * p
  {
    assert (hi * q + lo) * p == (hi * q) * p + lo * p;
  }

  lemma {:induction false} Below(lo: nat, q: nat, p: nat)
    requires lo < q && p > 0
    ensures lo * p < q * p
  {
  }

  lemma {:induction false} WrapMultiple(k: nat, r: nat)
    requires r < TWO_32
    ensures (k * TWO_32 + r) % TWO_32 == r
    decreases k
  {
    if k > 0 {
      WrapMultiple(k - 1, r);
      assert k * TWO_32 + r == (k - 1) * TWO_32 + r + TWO_32;
    }
  }

  /** The circular shift of section 3 of RFC 3174. */
  function RotateLeft(x: Word, n: nat): Word
    requires 0 < n < 32
  {
    Or(ShiftLeft(x, n), ShiftRight(x, 32 - n))
  }

  /** Joining the two parts with exclusive or is the same. */
  lemma {:induction false} RotateWithXor(x: Word, n: nat)
    requires 0 < n < 32
    ensures Xor(ShiftLeft(x, n), ShiftRight(x, 32 - n)) == RotateLeft(x, n)
  {
    var low := ShiftParts(x, n);
    JoinDisjoint(low, ShiftRight(x, 32 - n), n);
  }

  // ---------------------------------------------------------------- bit by bit

  function Bit(x: nat, i: nat): (b: nat)
    ensures b <= 1
  {
    if i == 0 then x % 2 else Bit(x / 2, i - 1)
  }

  lemma {:induction false} BitOfZero(i: nat)
    ensures Bit(0, i) == 0
    decreases i
  {
    if i > 0 {
      BitOfZero(i - 1);
    }
  }

  /** A number with a last bit. */
  lemma LastBit(h: nat, b: nat, i: nat)
    requires b <= 1
    ensures Bit(b + 2 * h, i) == if i == 0 then b else Bit(h, i - 1)
  {
    assert (b + 2 * h) / 2 == h;
  }

  lemma {:induction false} AndBit(x: nat, y: nat, i: nat)
    ensures Bit(AndBits(x, y), i) == Bit(x, i) * Bit(y, i)
    decreases i
  {
    BitOfZero(i);
    if x != 0 && y != 0 {
      LastBit(AndBits(x / 2, y / 2), (x % 2) * (y % 2), i);
      if i > 0 {
        AndBit(x / 2, y / 2, i - 1);
      }
    }
  }

  lemma {:induction false} OrBit(x: nat, y: nat, i: nat)
    ensures Bit(OrBits(x, y), i) == if Bit(x, i) + Bit(y, i) > 0 then 1 else 0
    decreases i
  {
    BitOfZero(i);
    if x != 0 && y != 0 {
      LastBit(OrBits(x / 2, y / 2), if x % 2 == 0 && y % 2 == 0 then 0 else 1, i);
      if i > 0 {
        OrBit(x / 2, y / 2, i - 1);
      }
    }
  }

  lemma {:induction false} XorBit(x: nat, y: nat, i: nat)
    ensures Bit(XorBits(x, y), i) == (Bit(x, i) + Bit(y, i)) % 2
    decreases i
  {
    BitOfZero(i);
    if x != 0 && y != 0 {
      LastBit(XorBits(x / 2, y / 2), if x % 2 == y % 2 then 0 else 1, i);
      if i > 0 {
        XorBit(x / 2, y / 2, i - 1);
      }
    }
  }

  lemma {:induction false} BitOfComplement(x: nat, n: nat, i: nat)
    requires x < Pow2(n) && i < n
    ensures Bit(Pow2(n) - 1 - x, i) == 1 - Bit(x, i)
    decreases i
  {
    assert Pow2(n) == 2 * Pow2(n - 1);
    if i > 0 {
      BitOfComplement(x / 2, n - 1, i - 1);
    }
  }

  /** What each operation does to the bits in one place. */
  lemma BitByBit(x: Word, y: Word, i: nat)
    requires i < 32
    ensures Bit(And(x, y), i) == 1 <==> Bit(x, i) == 1 && Bit(y, i) == 1
    ensures Bit(Or(x, y), i) == 1 <==> Bit(x, i) == 1 || Bit(y, i) == 1
    ensures Bit(Xor(x, y), i) == 1 <==> Bit(x, i) != Bit(y, i)
    ensures Bit(Not(x), i) == 1 <==> Bit(x, i) == 0
  {
    hide Bit, AndBits, OrBits, XorBits, Pow2;
    AndBit(x, y, i);
    OrBit(x, y, i);
    XorBit(x, y, i);
    PowerOf32();
    BitOfComplement(x, 32, i);
  }

  /** Two words with the same bits are the same. */
  lemma {:induction false} BitsDecide(x: nat, y: nat, n: nat)
    requires x < Pow2(n) && y < Pow2(n) && forall i :: 0 <= i < n ==> Bit(x, i) == Bit(y, i)
    ensures x == y
    decreases n
  {
    if n > 0 {
      forall i | 0 <= i < n - 1
        ensures Bit(x / 2, i) == Bit(y / 2, i)
      {
        assert Bit(x, i + 1) == Bit(x / 2, i) && Bit(y, i + 1) == Bit(y / 2, i);
      }
      BitsDecide(x / 2, y / 2, n - 1);
      assert Bit(x, 0) == x % 2 && Bit(y, 0) == y % 2;
    }
  }

  /** The bits of a number in two parts. */
  lemma {:induction false} BitOfParts(hi: nat, lo: nat, n: nat, i: nat)
    requires lo < Pow2(n)
    ensures Bit(hi * Pow2(n) + lo, i) == if i < n then Bit(lo, i) else Bit(hi, i - n)
    decreases n
  {
    if n > 0 {
      Doubled(hi, Pow2(n - 1));
      var x := hi * Pow2(n) + lo;
      assert x % 2 == lo % 2 && x / 2 == hi * Pow2(n - 1) + lo / 2;
      if i > 0 {
        BitOfParts(hi, lo / 2, n - 1, i - 1);
      }
    }
  }

  /** A circular shift moves each bit by n places. */
  lemma RotatedBit(x: Word, n: nat, i: nat)
    requires 0 < n < 32 && i < 32
    ensures Bit(RotateLeft(x, n), i) == Bit(x, if i < n then i + 32 - n else i - n)
  {
    var lo := ShiftRightSplits(x, 32 - n);
    var hi := ShiftRight(x, 32 - n);
    BitOfParts(hi, lo, 32 - n, if i < n then i + 32 - n else i - n);
    assert ShiftLeft(x, n) == lo * Pow2(n) && hi < Pow2(n) by {
      assert Pow2(32 - n) * Pow2(n) == TWO_32 by {
        PowerOf32();
        PowerSplit(32 - n, n);
      }
      ShiftedParts(hi, lo, Pow2(n), Pow2(32 - n));
    }
    JoinDisjoint(lo, hi, n);
    BitOfParts(lo, hi, n, i);
  }
}
