/** A 32-bit coremask and the logical cores it names. */
module Coremask {

  type Mask = m: nat | m < 0x1_0000_0000

  /** `mask` shifted right by `i` bits. */
  function Shifted(mask: nat, i: nat): nat {
    if i == 0 then mask else Shifted(mask / 2, i - 1)
  }

  predicate Bit(mask: nat, i: nat) {
    Shifted(mask, i) % 2 == 1
  }

  /** The set bits of `mask`, lowest first, counted from bit `i`. */
  function CoresFrom(mask: nat, i: nat): (s: seq<nat>)
    ensures forall k :: 0 <= k < |s| ==> i <= s[k]
    ensures forall k, l :: 0 <= k < l < |s| ==> s[k] < s[l]
  {
    if mask == 0 then []
    else (if mask % 2 == 1 then [i] else []) + CoresFrom(mask / 2, i + 1)
  }

  function Cores(mask: nat): seq<nat> {
    CoresFrom(mask, 0)
  }

  lemma {:induction false} SomeCore(mask: nat, i: nat)
    requires mask != 0
    ensures CoresFrom(mask, i) != []
  {
    if mask % 2 == 0 {
      SomeCore(mask / 2, i + 1);
    }
  }

  /** A coremask is zero exactly when it names no core. */
  lemma NoCoresIffZero(mask: nat)
    ensures Cores(mask) == [] <==> mask == 0
  {
    if mask != 0 {
      SomeCore(mask, 0);
    }
  }

  lemma {:induction false} ShiftOneMore(mask: nat, i: nat)
    ensures Shifted(mask, i + 1) == Shifted(mask, i) / 2
  {
    if i != 0 {
      ShiftOneMore(mask / 2, i - 1);
    }
  }

  /** What the loop over the bits has still to add after bit `i`. */
  lemma CoresStep(mask: nat, i: nat)
    ensures CoresFrom(Shifted(mask, i), i)
         == (if Bit(mask, i) then [i] else []) + CoresFrom(Shifted(mask, i + 1), i + 1)
  {
    ShiftOneMore(mask, i);
  }

  lemma CoresStepAfter(acc: seq<nat>, mask: nat, i: nat)
    ensures acc + CoresFrom(Shifted(mask, i), i)
         == (acc + if Bit(mask, i) then [i] else []) + CoresFrom(Shifted(mask, i + 1), i + 1)
  {
    CoresStep(mask, i);
  }

  function Pow2(n: nat): nat {
    if n == 0 then 1 else 2 * Pow2(n - 1)
  }

  lemma {:induction false} Pow2Sum(a: nat, b: nat)
    ensures Pow2(a + b) == Pow2(a) * Pow2(b)
  {
    if b != 0 {
      Pow2Sum(a, b - 1);
    }
  }

  lemma {:induction false} ShiftedOut(mask: nat, i: nat)
    requires mask < Pow2(i)
    ensures Shifted(mask, i) == 0
  {
    if i != 0 {
      ShiftedOut(mask / 2, i - 1);
    }
  }

  /** Thirty-two bits are all of them. */
  lemma CoresEnd(mask: Mask, bits: nat)
    requires bits == 32
    ensures CoresFrom(Shifted(mask, bits), bits) == []
  {
    Pow2Sum(8, 8);
    Pow2Sum(16, 16);
    assert Pow2(8) == 256;
    ShiftedOut(mask, bits);
  }

  lemma {:induction false} CoreIffBit(mask: nat, from: nat, i: nat)
    ensures from + i in CoresFrom(mask, from) <==> Bit(mask, i)
    decreases i
  {
    if mask == 0 && i != 0 {
      CoreIffBit(0, from + 1, i - 1);
    } else if mask != 0 && i != 0 {
      CoreIffBit(mask / 2, from + 1, i - 1);
    }
  }

  /** The cores are the set bits, in increasing order. */
  lemma CoresAreBits(mask: nat, i: nat)
    ensures i in Cores(mask) <==> Bit(mask, i)
  {
    CoreIffBit(mask, 0, i);
  }
}
