/** Octets as the integers 0..255, with the C bit operators defined digit by digit. */
module Octets {

  type octet = x: int | 0 <= x < 256
  type septet = x: int | 0 <= x < 128

  /** Bit j, counted from the least significant one. */
  predicate Bit(x: nat, j: nat) {
    if j == 0 then x % 2 == 1 else Bit(x / 2, j - 1)
  }

  function Digit(b: bool): nat {
    if b then 1 else 0
  }

  /** `x | y`. */
  function Or(x: nat, y: nat): (r: nat)
    ensures r <= x + y
    decreases x + y
  {
    if x == 0 && y == 0 then 0
    else 2 * Or(x / 2, y / 2) + Digit(x % 2 == 1 || y % 2 == 1)
  }

  /** `x >> d`. */
  function ShiftRight(x: nat, d: nat): (r: nat)
    ensures r <= x
  {
    if d == 0 then x else ShiftRight(x / 2, d - 1)
  }

  /** `x << d` stored into an octet. */
  function ShiftLeft(x: octet, d: nat): octet {
    if d == 0 then x else 2 * ShiftLeft(x, d - 1) % 256
  }

  function Pow2(n: nat): (r: nat)
    ensures r > 0
  {
    if n == 0 then 1 else 2 * Pow2(n - 1)
  }

  lemma {:induction false} OrBit(x: nat, y: nat, j: nat)
    ensures Bit(Or(x, y), j) == (Bit(x, j) || Bit(y, j))
    decreases j
  {
    if x == 0 && y == 0 {
      ZeroBits(j);
    } else if j > 0 {
      OrBit(x / 2, y / 2, j - 1);
    }
  }

  lemma {:induction false} ZeroBits(j: nat)
    ensures !Bit(0, j)
  {
    if j > 0 {
      ZeroBits(j - 1);
    }
  }

  lemma {:induction false} OrBound(x: nat, y: nat, n: nat)
    requires x < Pow2(n) && y < Pow2(n)
    ensures Or(x, y) < Pow2(n)
  {
    if n > 0 {
      OrBound(x / 2, y / 2, n - 1);
    }
  }

  /** `x | y` on octets is an octet. */
  function OrOctet(x: octet, y: octet): (r: octet)
    ensures r == Or(x, y)
  {
    assert Pow2(8) == 256;
    OrBound(x, y, 8);
    Or(x, y)
  }

  lemma {:induction false} NoHighBit(x: nat, n: nat, j: nat)
    requires x < Pow2(n) && j >= n
    ensures !Bit(x, j)
  {
    if n > 0 {
      NoHighBit(x / 2, n - 1, j - 1);
    } else {
      ZeroBits(j);
    }
  }

  /** A number below 2^n is its n bits. */
  lemma {:induction false} SameBits(x: nat, y: nat, n: nat)
    requires x < Pow2(n) && y < Pow2(n)
    requires forall j: nat :: j < n ==> Bit(x, j) == Bit(y, j)
    ensures x == y
  {
    if n > 0 {
      assert Bit(x, 0) == Bit(y, 0);
      forall j: nat | j < n - 1
        ensures Bit(x / 2, j) == Bit(y / 2, j)
      {
        assert Bit(x, j + 1) == Bit(y, j + 1);
      }
      SameBits(x / 2, y / 2, n - 1);
    }
  }

  lemma {:induction false} ShiftRightBit(x: nat, d: nat, j: nat)
    ensures Bit(ShiftRight(x, d), j) == Bit(x, j + d)
  {
    if d > 0 {
      ShiftRightBit(x / 2, d - 1, j);
    }
  }

  lemma {:induction false} DropTop(y: nat, n: nat, j: nat)
    requires Pow2(n) <= y && j < n
    ensures Bit(y - Pow2(n), j) == Bit(y, j)
  {
    if j > 0 {
      assert (y - Pow2(n)) / 2 == y / 2 - Pow2(n - 1);
      DropTop(y / 2, n - 1, j - 1);
    }
  }

  lemma {:induction false} DoubleBit(y: octet, j: nat)
    requires j < 8
    ensures Bit(2 * y % 256, j) == (j > 0 && Bit(y, j - 1))
  {
    assert Pow2(7) == 128;
    var z := 2 * y % 256;
    assert z / 2 == (if y < 128 then y else y - 128) && z % 2 == 0;
    if j > 0 && y >= 128 {
      DropTop(y, 7, j - 1);
    }
  }

  lemma {:induction false} ShiftLeftBit(x: octet, d: nat, j: nat)
    requires j < 8
    ensures Bit(ShiftLeft(x, d), j) == (j >= d && Bit(x, j - d))
  {
    if d > 0 {
      DoubleBit(ShiftLeft(x, d - 1), j);
      if j > 0 {
        ShiftLeftBit(x, d - 1, j - 1);
      }
    }
  }

  /** Adding numbers that share no set bit never carries: it is the bitwise OR. */
  lemma {:induction false} DisjointSum(x: nat, y: nat, n: nat)
    requires x < Pow2(n) && y < Pow2(n)
    requires forall j: nat :: j < n ==> !(Bit(x, j) && Bit(y, j))
    ensures Or(x, y) == x + y
  {
    if n > 0 {
      assert !(Bit(x, 0) && Bit(y, 0));
      forall j: nat | j < n - 1
        ensures !(Bit(x / 2, j) && Bit(y / 2, j))
      {
        assert !(Bit(x, j + 1) && Bit(y, j + 1));
      }
      DisjointSum(x / 2, y / 2, n - 1);
    }
  }

  /** x with k zero bits appended. */
  function Scale(x: nat, k: nat): nat {
    if k == 0 then x else 2 * Scale(x, k - 1)
  }

  lemma {:induction false} OrZero(x: nat)
    ensures Or(0, x) == Or(x, 0) == x
  {
    if x > 0 {
      OrZero(x / 2);
    }
  }

  /** ORing into bits that are still clear appends them. */
  lemma {:induction false} OrScaled(x: nat, y: nat, k: nat)
    requires y < Pow2(k)
    ensures Or(Scale(x, k), y) == Scale(x, k) + y
  {
    if k == 0 {
      OrZero(x);
    } else {
      OrScaled(x, y / 2, k - 1);
      OrZero(0);
    }
  }

  /** A septet is an octet whose top bit is clear. */
  lemma {:induction false} SeptetTop(x: octet)
    ensures x < 128 <==> !Bit(x, 7)
  {
    assert Bit(x, 7) == Bit(x / 2, 6) == Bit(x / 2 / 2, 5) == Bit(x / 2 / 2 / 2, 4) == Bit(x / 2 / 2 / 2 / 2, 3);
    assert Bit(x / 2 / 2 / 2 / 2, 3) == Bit(x / 2 / 2 / 2 / 2 / 2 / 2 / 2, 0);
  }

  lemma {:induction false} ClearIsZero(x: octet)
    requires forall j: nat :: j < 8 ==> !Bit(x, j)
    ensures x == 0
  {
    assert Pow2(8) == 256;
    forall j: nat | j < 8
      ensures Bit(x, j) == Bit(0, j)
    {
      ZeroBits(j);
    }
    SameBits(x, 0, 8);
  }

  lemma {:induction false} NonZeroBit(x: nat) returns (j: nat)
    requires x != 0
    ensures Bit(x, j)
  {
    if x % 2 == 1 {
      j := 0;
    } else {
      var k := NonZeroBit(x / 2);
      j := k + 1;
    }
  }

  /** Nothing of a septet is left once its seven bits are shifted out. */
  lemma {:induction false} SeptetShiftedOut(x: octet)
    requires x < 128
    ensures ShiftRight(x, 7) == 0 && ShiftLeft(x, 8) == 0
  {
    assert Pow2(7) == 128;
    forall j: nat | j < 8
      ensures !Bit(ShiftRight(x, 7), j) && !Bit(ShiftLeft(x, 8), j)
    {
      ShiftRightBit(x, 7, j);
      ShiftLeftBit(x, 8, j);
      NoHighBit(x, 7, j + 7);
    }
    ClearIsZero(ShiftRight(x, 7));
    ClearIsZero(ShiftLeft(x, 8));
  }

  /** The n-bit number whose bit j is f(j). */
  function Number(f: nat -> bool, n: nat): (r: nat)
    ensures r < Pow2(n)
  {
    if n == 0 then 0 else Digit(f(0)) + 2 * Number((j: nat) => f(j + 1), n - 1)
  }

  lemma {:induction false} NumberBit(f: nat -> bool, n: nat, j: nat)
    requires j < n
    ensures Bit(Number(f, n), j) == f(j)
  {
    if j > 0 {
      NumberBit((k: nat) => f(k + 1), n - 1, j - 1);
    }
  }

  /** The d low bits of x, computed as the unpacker does. */
  function Low(x: octet, d: nat): octet {
    HighPart(x, d);
    x - ShiftLeft(ShiftRight(x, d), d)
  }

  /** Shifting right and back left is doubling what the same does to x / 2. */
  lemma {:induction false} HighPart(x: octet, d: nat)
    ensures ShiftLeft(ShiftRight(x, d), d) <= x
    ensures d > 0 ==> ShiftLeft(ShiftRight(x, d), d) == 2 * ShiftLeft(ShiftRight(x / 2, d - 1), d - 1)
  {
    if d > 0 {
      HighPart(x / 2, d - 1);
      var half := ShiftLeft(ShiftRight(x / 2, d - 1), d - 1);
      assert ShiftRight(x, d) == ShiftRight(x / 2, d - 1);
      assert 2 * half % 256 == 2 * half;
    }
  }

  lemma {:induction false} LowBit(x: octet, d: nat, j: nat)
    ensures Bit(Low(x, d), j) == (j < d && Bit(x, j))
  {
    if d == 0 {
      ZeroBits(j);
    } else {
      HighPart(x, d);
      assert Low(x, d) == x % 2 + 2 * Low(x / 2, d - 1);
      if j > 0 {
        LowBit(x / 2, d - 1, j - 1);
      }
    }
  }

  /** The 7 - r low bits of x moved up to bit r. */
  function LowAt(x: octet, r: nat): octet
    requires r < 7
  {
    ShiftLeft(Low(x, 7 - r), r)
  }

  lemma {:induction false} LowAtBit(x: octet, r: nat, j: nat)
    requires r < 7 && j < 8
    ensures Bit(LowAt(x, r), j) == (r <= j < 7 && Bit(x, j - r))
  {
    ShiftLeftBit(Low(x, 7 - r), r, j);
    if j >= r {
      LowBit(x, 7 - r, j - r);
    }
  }
}
