/**
 The growing array behind a parsed list or object: emplace_back of lib/crow/include/crow/json.h.
 */
module JsonList {

  const UINT16_MAX: nat := 0xFFFF
  const INT_MAX: nat := 0x7FFF_FFFF
  const UINT32: nat := 0x1_0000_0000

  /** A 32-bit unsigned number stored in an int. */
  function AsInt(x: int): int {
    if x % UINT32 <= INT_MAX then x % UINT32 else x % UINT32 - UINT32
  }

  /** The size of the array that replaces a full one of `size` elements. */
  method GrownSize(size: nat) returns (newSize: nat)
    requires size < UINT32
    ensures if size + 60000 <= INT_MAX then size < newSize <= size + 60000 else newSize < size
  {
    var n := AsInt(size + size);
    if (n - size) % UINT32 > 60000 {
      n := AsInt(size + 60000);
    }
    if n < 4 {
      n := 4;
    }
    newSize := n;
  }

  class Elements<T(0)> {
    var l: array<T>
    var lsize: nat     // elements in use, in 32 bits
    var lremain: nat   // elements still free, in 16 bits

    ghost predicate Valid()
      reads this
    {
      lsize + lremain == l.Length < UINT32 && lremain <= UINT16_MAX
    }

    ghost function Contents(): seq<T>
      reads this, l
      requires Valid()
    {
      l[..lsize]
    }

    constructor ()
      ensures Valid() && Contents() == [] && lsize == 0 && fresh(l)
    {
      l := new T[0];
      lsize, lremain := 0, 0;
    }

    /** Appends an element.  A full array is doubled, by no more than 60000 elements, so that the free count keeps
        within its 16 bits; the elements are moved over in order.  The new size passes through an int: when the old one
        is too large for that, the new array is the smaller one, and moving the elements over runs past its end. */
    method EmplaceBack(v: T) returns (fits: bool)
      requires Valid()
      modifies this, l
      ensures fits <==> old(lremain) > 0 || old(lsize) + 60000 <= INT_MAX
      ensures fits ==> Valid() && Contents() == old(Contents()) + [v] && lsize == old(lsize) + 1
      ensures l == old(l) || fresh(l)
      ensures fits ==> (l == old(l) <==> old(lremain) > 0)
    {
      if lremain == 0 {
        var newSize := GrownSize(lsize);
        if newSize < lsize {
          return false;
        }
        var p := new T[newSize];
        var k := 0;
        while k < lsize
          invariant 0 <= k <= lsize <= p.Length && p[..k] == l[..k]
          modifies p
        {
          p[k] := l[k];
          k := k + 1;
        }
        l := p;
        lremain := newSize - lsize;
      }
      l[lsize] := v;
      lsize := lsize + 1;
      lremain := lremain - 1;
      fits := true;
    }
  }
}
