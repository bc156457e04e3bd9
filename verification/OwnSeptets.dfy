/** Octets that are no 7-bit text but are unpacked like it: when they come out as they are. */
module OwnSeptets {
  import opened Octets
  import opened Gsm7

  /** Nothing but one character: the octets after the first are 0. */
  predicate Silent(e: seq<octet>) {
    e != [] && e[0] < 128 && forall i :: 1 <= i < |e| ==> e[i] == 0
  }

  lemma {:induction false} SilentBits(e: seq<octet>)
    requires e != []
    ensures Silent(e) <==> forall k: nat :: k >= 7 ==> !StreamBit(e, k)
  {
    if Silent(e) {
      forall k: nat | k >= 7
        ensures !StreamBit(e, k)
      {
        ZeroBits(k % 8);
        SeptetTop(e[0]);
        assert k / 8 == 0 ==> k % 8 == 7;
      }
    }
    if forall k: nat :: k >= 7 ==> !StreamBit(e, k) {
      SeptetTop(e[0]);
      assert !StreamBit(e, 7);
      forall i | 1 <= i < |e|
        ensures e[i] == 0
      {
        forall j: nat | j < 8
          ensures !Bit(e[i], j)
        {
          var k := 8 * i + j;
          assert !StreamBit(e, k) && k / 8 == i && k % 8 == j;
        }
        ClearIsZero(e[i]);
      }
    }
  }

  /** The first n octets are their own septets. */
  predicate OwnSeptets(e: seq<octet>, n: nat)
    requires n <= |e|
  {
    n > 0 ==> OwnSeptets(e, n - 1) && e[n - 1] == SeptetAt(e, n - 1)
  }

  lemma {:induction false} OwnSeptet(e: seq<octet>, n: nat, i: nat)
    requires i < n <= |e| && OwnSeptets(e, n)
    ensures e[i] == SeptetAt(e, i)
  {
    if i < n - 1 {
      OwnSeptet(e, n - 1, i);
    }
  }

  lemma {:induction false} AllOwn(e: seq<octet>, n: nat)
    requires n <= |e| && forall i :: 0 <= i < n ==> e[i] == SeptetAt(e, i)
    ensures OwnSeptets(e, n)
  {
    if n > 0 {
      AllOwn(e, n - 1);
    }
  }

  lemma {:induction false} OwnBitMoves(e: seq<octet>, i: nat, j: nat)
    requires OwnSeptets(e, |e|) && i < |e| && j < 7
    ensures Bit(e[i], j) == StreamBit(e, 7 * i + j)
  {
    OwnSeptet(e, |e|, i);
    SeptetAtBit(e, i, j);
  }

  lemma {:induction false} OwnTop(e: seq<octet>, i: nat)
    requires OwnSeptets(e, |e|) && i < |e|
    ensures !Bit(e[i], 7)
  {
    OwnSeptet(e, |e|, i);
    var s := SeptetAt(e, i);
    assert e[i] == s < 128;
    SeptetTop(e[i]);
  }

  lemma {:induction false} StreamAt(e: seq<octet>, i: nat, j: nat)
    requires j < 8
    ensures StreamBit(e, 8 * i + j) == (i < |e| && Bit(e[i], j))
  {
    assert (8 * i + j) / 8 == i && (8 * i + j) % 8 == j;
  }

  lemma {:induction false} EarlierBit(i: nat, j: nat) returns (p: nat, q: nat)
    requires i > 0 && j < 7
    ensures 7 * i + j == 8 * p + q && q < 8 && 7 <= 8 * p + q < 8 * i + j
  {
    p, q := (7 * i + j) / 8, (7 * i + j) % 8;
  }

  /** There bit j of octet i is bit 7i + j of the stream, and so on down to bit 7, which is
      clear. */
  lemma {:induction false} OwnBits(e: seq<octet>, i: nat, j: nat)
    requires OwnSeptets(e, |e|) && j < 8 && 8 * i + j >= 7
    ensures i < |e| ==> !Bit(e[i], j)
    decreases 8 * i + j
  {
    if i < |e| {
      if j == 7 {
        OwnTop(e, i);
      } else {
        var p, q := EarlierBit(i, j);
        OwnBitMoves(e, i, j);
        StreamAt(e, p, q);
        OwnBits(e, p, q);
      }
    }
  }

  lemma {:induction false} SilentSeptet(e: seq<octet>, i: nat)
    requires Silent(e) && i < |e|
    ensures e[i] == SeptetAt(e, i)
  {
    var s := SeptetAt(e, i);
    assert Pow2(7) == 128;
    forall j: nat | j < 7
      ensures Bit(e[i], j) == Bit(s, j)
    {
      SeptetAtBit(e, i, j);
      SilentBit(e, i, j);
    }
    SameBits(e[i], s, 7);
  }

  lemma {:induction false} SilentBit(e: seq<octet>, i: nat, j: nat)
    requires Silent(e) && i < |e| && j < 7
    ensures Bit(e[i], j) == StreamBit(e, 7 * i + j)
  {
    if i > 0 {
      SilentBits(e);
      assert !StreamBit(e, 7 * i + j);
      ZeroBits(j);
    }
  }

  lemma {:induction false} SilentOwn(e: seq<octet>)
    requires Silent(e)
    ensures OwnSeptets(e, |e|)
  {
    forall i | 0 <= i < |e|
      ensures e[i] == SeptetAt(e, i)
    {
      SilentSeptet(e, i);
    }
    AllOwn(e, |e|);
  }

  lemma {:induction false} OwnIsFixed(e: seq<octet>)
    ensures |e| <= |Unpack(e)|
    ensures Unpack(e)[..|e|] == e <==> OwnSeptets(e, |e|)
  {
    var front := Unpack(e)[..|e|];
    assert forall i :: 0 <= i < |e| ==> front[i] == SeptetAt(e, i);
    if front == e {
      AllOwn(e, |e|);
    }
    if OwnSeptets(e, |e|) {
      forall i | 0 <= i < |e|
        ensures front[i] == e[i]
      {
        OwnSeptet(e, |e|, i);
      }
    }
  }

  /** Unpacking leaves octets as they are exactly when they hold one character and no more. */
  lemma {:induction false} FixedText(e: seq<octet>)
    requires e != []
    ensures |e| <= |Unpack(e)|
    ensures Unpack(e)[..|e|] == e <==> Silent(e)
  {
    OwnIsFixed(e);
    if OwnSeptets(e, |e|) {
      forall k: nat | k >= 7
        ensures !StreamBit(e, k)
      {
        OwnBits(e, k / 8, k % 8);
      }
      SilentBits(e);
    }
    if Silent(e) {
      SilentOwn(e);
    }
  }

  lemma {:induction false} SilentSpill(e: seq<octet>)
    requires Silent(e)
    ensures Spill(e) == 0
  {
    SilentBits(e);
    SpillIsLeftover(e);
  }
}
