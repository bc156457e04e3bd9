/** The GSM 7-bit packer and unpacker (mocha-ril/util.c), against the bit stream of
    3GPP TS 23.038, section 6.1.2.1.1. */
module Gsm7 {
  import opened Octets

  /** Number of octets that hold n septets. */
  function PackedLength(n: nat): nat {
    (7 * n + 7) / 8
  }

  /** Number of whole septets in n octets. */
  function UnpackedLength(n: nat): nat {
    8 * n / 7
  }

  /** Bit k of the stream that lays septets end to end; clear beyond the text. */
  predicate TextBit(s: seq<octet>, k: nat) {
    k / 7 < |s| && Bit(s[k / 7], k % 7)
  }

  /** Bit k of the stream that lays octets end to end; clear beyond the end. */
  predicate StreamBit(e: seq<octet>, k: nat) {
    k / 8 < |e| && Bit(e[k / 8], k % 8)
  }

  /** The bits of octet p of the text's stream, and of septet i of the octets' stream. */
  function OctetBits(s: seq<octet>, p: nat): nat -> bool {
    (m: nat) => TextBit(s, 8 * p + m)
  }

  function SeptetBits(e: seq<octet>, i: nat): nat -> bool {
    (m: nat) => StreamBit(e, 7 * i + m)
  }

  function OctetAt(s: seq<octet>, p: nat): octet {
    assert Pow2(8) == 256;
    Number(OctetBits(s, p), 8)
  }

  function SeptetAt(e: seq<octet>, i: nat): septet {
    assert Pow2(7) == 128;
    Number(SeptetBits(e, i), 7)
  }

  /** The text's bit stream cut into octets. */
  function Pack(s: seq<octet>): (e: seq<octet>)
    ensures |e| == PackedLength(|s|)
  {
    seq(PackedLength(|s|), p requires 0 <= p => OctetAt(s, p))
  }

  /** The octets' bit stream cut into septets. */
  function Unpack(e: seq<octet>): (s: seq<septet>)
    ensures |s| == UnpackedLength(|e|)
  {
    seq(UnpackedLength(|e|), i requires 0 <= i => SeptetAt(e, i))
  }

  lemma {:induction false} OctetAtBit(s: seq<octet>, p: nat, j: nat)
    requires j < 8
    ensures Bit(OctetAt(s, p), j) == TextBit(s, 8 * p + j)
  {
    var bits := OctetBits(s, p);
    NumberBit(bits, 8, j);
    assert OctetAt(s, p) == Number(bits, 8) && bits(j) == TextBit(s, 8 * p + j);
  }

  lemma {:induction false} SeptetAtBit(e: seq<octet>, i: nat, j: nat)
    requires j < 7
    ensures Bit(SeptetAt(e, i), j) == StreamBit(e, 7 * i + j)
  {
    var bits := SeptetBits(e, i);
    NumberBit(bits, 7, j);
    assert SeptetAt(e, i) == Number(bits, 7) && bits(j) == StreamBit(e, 7 * i + j);
  }

  lemma {:induction false} PackBits(s: seq<octet>, k: nat)
    requires k < 8 * PackedLength(|s|)
    ensures StreamBit(Pack(s), k) == TextBit(s, k)
  {
    OctetAtBit(s, k / 8, k % 8);
  }

  lemma {:induction false} UnpackBits(e: seq<octet>, k: nat)
    requires k < 7 * UnpackedLength(|e|)
    ensures TextBit(Unpack(e), k) == StreamBit(e, k)
  {
    SeptetAtBit(e, k / 7, k % 7);
  }

  /** Equal streams are equal octets. */
  lemma {:induction false} SameStream(e: seq<octet>, f: seq<octet>)
    requires |e| == |f|
    requires forall k: nat :: k < 8 * |e| ==> StreamBit(e, k) == StreamBit(f, k)
    ensures e == f
  {
    assert Pow2(8) == 256;
    forall p | 0 <= p < |e|
      ensures e[p] == f[p]
    {
      forall j: nat | j < 8
        ensures Bit(e[p], j) == Bit(f[p], j)
      {
        var k := 8 * p + j;
        assert StreamBit(e, k) == StreamBit(f, k);
        assert k / 8 == p && k % 8 == j;
      }
      SameBits(e[p], f[p], 8);
    }
  }

  /** Equal streams are equal septets. */
  lemma {:induction false} SameText(s: seq<septet>, t: seq<septet>)
    requires |s| == |t|
    requires forall k: nat :: k < 7 * |s| ==> TextBit(s, k) == TextBit(t, k)
    ensures s == t
  {
    assert Pow2(7) == 128;
    forall i | 0 <= i < |s|
      ensures s[i] == t[i]
    {
      forall j: nat | j < 7
        ensures Bit(s[i], j) == Bit(t[i], j)
      {
        var k := 7 * i + j;
        assert TextBit(s, k) == TextBit(t, k);
        assert k / 7 == i && k % 7 == j;
      }
      SameBits(s[i], t[i], 7);
    }
  }

  /** Unpacking what was packed gives the text back, with one extra 0 (the padding read as
      a septet) exactly when 7 septets are left over. */
  lemma {:induction false} UnpackPack(s: seq<septet>)
    ensures Unpack(Pack(s)) == s + if |s| % 8 == 7 then [0] else []
  {
    var u := Unpack(Pack(s));
    var t := s + if |s| % 8 == 7 then [0] else [];
    assert |u| == |t|;
    forall k: nat | k < 7 * |u|
      ensures TextBit(u, k) == TextBit(t, k)
    {
      UnpackedBit(s, k);
      ExtraBit(s, k);
    }
    SameText(u, t);
  }

  lemma {:induction false} UnpackedBit(s: seq<septet>, k: nat)
    requires k < 7 * |Unpack(Pack(s))|
    ensures TextBit(Unpack(Pack(s)), k) == TextBit(s, k)
  {
    UnpackBits(Pack(s), k);
    PackBits(s, k);
  }

  lemma {:induction false} ExtraBit(s: seq<septet>, k: nat)
    ensures TextBit(s + if |s| % 8 == 7 then [0] else [], k) == TextBit(s, k)
  {
    ZeroBits(k % 7);
  }

  lemma {:induction false} WholeGroups(n: nat)
    requires n % 7 == 0
    ensures 7 * UnpackedLength(n) == 8 * n && PackedLength(UnpackedLength(n)) == n
  {
    var q := n / 7;
    assert n == 7 * q && UnpackedLength(n) == 8 * q;
  }

  /** Whole groups of seven octets survive unpacking and packing. */
  lemma {:induction false} PackUnpack(e: seq<octet>)
    requires |e| % 7 == 0
    ensures Pack(Unpack(e)) == e
  {
    WholeGroups(|e|);
    forall k: nat | k < 8 * |e|
      ensures StreamBit(Pack(Unpack(e)), k) == StreamBit(e, k)
    {
      PackBits(Unpack(e), k);
      UnpackBits(e, k);
    }
    SameStream(Pack(Unpack(e)), e);
  }

  // ---------------------------------------------------------------- ascii2gsm7

  /** Septet i starts i mod 8 bits before octet ceil(7i/8). */
  lemma {:induction false} SeptetPlace(i: nat, k: nat)
    ensures k / 8 == PackedLength(i) ==> k - 7 * i == k % 8 + i % 8
    ensures k / 8 == PackedLength(i) - 1 ==> k - 7 * i == k % 8 + i % 8 - 8
    ensures k / 8 != PackedLength(i) && k / 8 != PackedLength(i) - 1 ==> k < 7 * i || k >= 7 * i + 8
  {
    assert 7 * i + 7 == 8 * (7 * (i / 8) + i % 8) + (7 - i % 8);
  }

  /** Bits 7i to 7i+6 of the text's stream are those of septet i, which has no others. */
  lemma {:induction false} OwnBit(s: seq<septet>, i: nat, k: nat)
    requires i < |s|
    ensures 7 * i <= k < 7 * i + 7 ==> TextBit(s, k) == Bit(s[i], k - 7 * i)
    ensures k >= 7 * i + 7 ==> !Bit(s[i], k - 7 * i)
  {
    assert Pow2(7) == 128;
    if k >= 7 * i + 7 {
      NoHighBit(s[i], 7, k - 7 * i);
    } else if 7 * i <= k {
      assert k / 7 == i && k % 7 == k - 7 * i;
    }
  }

  /** What one round of the packing loop leaves in octet p. */
  function PackRound(before: octet, p: int, i: nat, c: octet): octet {
    if p == PackedLength(i) then OrOctet(before, ShiftRight(c, i % 8))
    else if p == PackedLength(i) - 1 then OrOctet(before, ShiftLeft(c, 8 - i % 8))
    else before
  }

  lemma {:induction false} PackRoundOwn(before: octet, p: nat, i: nat, c: octet, j: nat)
    requires j < 8
    ensures Bit(PackRound(before, p, i, c), j)
         == (Bit(before, j)
             || if p == PackedLength(i) then Bit(c, j + i % 8)
                else if p == PackedLength(i) - 1 then j + i % 8 >= 8 && Bit(c, j + i % 8 - 8)
                else false)
  {
    if p == PackedLength(i) {
      OrBit(before, ShiftRight(c, i % 8), j);
      ShiftRightBit(c, i % 8, j);
    } else if p == PackedLength(i) - 1 {
      OrBit(before, ShiftLeft(c, 8 - i % 8), j);
      ShiftLeftBit(c, 8 - i % 8, j);
    }
  }

  /** The round for septet i adds exactly bits 7i to 7i+6 of the stream. */
  lemma {:induction false} PackRoundBit(s: seq<septet>, i: nat, before: octet, k: nat)
    requires i < |s|
    requires Bit(before, k % 8) == (k < 7 * i && TextBit(s, k))
    ensures Bit(PackRound(before, k / 8, i, s[i]), k % 8) == (k < 7 * (i + 1) && TextBit(s, k))
  {
    PackRoundOwn(before, k / 8, i, s[i], k % 8);
    OwnBit(s, i, k);
    SeptetPlace(i, k);
  }

  /** The loop has packed the first i septets and nothing else. */
  ghost predicate Packed(s: seq<octet>, i: nat, enc: seq<octet>) {
    forall k: nat :: k < 8 * |enc| ==> StreamBit(enc, k) == (k < 7 * i && TextBit(s, k))
  }

  lemma {:induction false} PackStep(s: seq<septet>, i: nat, before: seq<octet>, after: seq<octet>)
    requires i < |s| && |before| == |after| && Packed(s, i, before)
    requires forall p :: 0 <= p < |after| ==> after[p] == PackRound(before[p], p, i, s[i])
    ensures Packed(s, i + 1, after)
  {
    forall k: nat | k < 8 * |after|
      ensures StreamBit(after, k) == (k < 7 * (i + 1) && TextBit(s, k))
    {
      assert StreamBit(before, k) == (k < 7 * i && TextBit(s, k));
      PackRoundBit(s, i, before[k / 8], k);
    }
  }

  /** The packing is the only octet string of its length that carries the text's stream
      followed by clear bits. */
  lemma {:induction false} PackUnique(s: seq<octet>, e: seq<octet>)
    requires |e| == PackedLength(|s|) && Packed(s, |s|, e)
    ensures e == Pack(s)
  {
    forall k: nat | k < 8 * |e|
      ensures StreamBit(e, k) == StreamBit(Pack(s), k)
    {
      PackBits(s, k);
    }
    SameStream(e, Pack(s));
  }

  lemma {:induction false} LoopLength(n: nat)
    ensures (n * 7 - (n * 7) % 8) / 8 + (if (n * 7) % 8 > 0 then 1 else 0) == PackedLength(n)
  {
  }

  /** Only septet 7 of a group reaches past the output, and only septet 0 of the text before
      it. */
  lemma {:induction false} AtTheEdge(i: nat, n: nat)
    requires i < n
    ensures PackedLength(i) <= PackedLength(n)
    ensures PackedLength(i) == PackedLength(n) ==> i % 8 == 7
    ensures PackedLength(i) == 0 ==> i % 8 == 0
  {
  }

  /** The two positions of a round lie inside the output, except where the value is 0. */
  lemma {:induction false} InRange(i: nat, n: nat, c: septet)
    requires i < n
    ensures PackedLength(i) >= PackedLength(n) ==> ShiftRight(c, i % 8) == 0
    ensures PackedLength(i) == 0 ==> ShiftLeft(c, 8 - i % 8) == 0
    ensures PackedLength(i) <= PackedLength(n)
  {
    AtTheEdge(i, n);
    SeptetShiftedOut(c);
  }

  /** `ascii2gsm7`: the octets are the packed text. The loop also ORs into position -1 (first
      septet) and position gsm7_length (septets 7, 15, ...): `stray` collects what goes there. */
  method AsciiToGsm7(ascii: seq<septet>) returns (enc: array<octet>, stray: octet)
    ensures fresh(enc)
    ensures enc[..] == Pack(ascii)
    ensures stray == 0
  {
    var gsm7_length := (|ascii| * 7 - (|ascii| * 7) % 8) / 8;
    gsm7_length := gsm7_length + if (|ascii| * 7) % 8 > 0 then 1 else 0;
    LoopLength(|ascii|);
    enc := new octet[gsm7_length](_ => 0);
    stray := 0;
    forall k: nat | k < 8 * enc.Length
      ensures !StreamBit(enc[..], k)
    {
      ZeroBits(k % 8);
    }
    for i := 0 to |ascii|
      invariant stray == 0
      invariant Packed(ascii, i, enc[..])
    {
      ghost var before := enc[..];
      LoopLength(i);
      InRange(i, |ascii|, ascii[i]);
      var d_off := i % 8;
      var d_pos := (i * 7 - (i * 7) % 8) / 8;
      d_pos := d_pos + if (i * 7) % 8 > 0 then 1 else 0;
      if d_pos < enc.Length {
        enc[d_pos] := OrOctet(enc[d_pos], ShiftRight(ascii[i], d_off));
      } else {
        stray := OrOctet(stray, ShiftRight(ascii[i], d_off));
      }
      var a_off := 8 - d_off;
      var a_pos := d_pos - 1;
      if a_pos >= 0 {
        enc[a_pos] := OrOctet(enc[a_pos], ShiftLeft(ascii[i], a_off));
      } else {
        stray := OrOctet(stray, ShiftLeft(ascii[i], a_off));
      }
      PackStep(ascii, i, before, enc[..]);
    }
    PackUnique(ascii, enc[..]);
  }

  // ---------------------------------------------------------------- gsm72ascii

  /** Octet i starts i mod 7 bits into septet i + i/7. */
  lemma {:induction false} OctetPlace(i: nat, k: nat)
    ensures k / 7 == i + i / 7 ==> k - 8 * i == k % 7 - i % 7
    ensures k / 7 == i + i / 7 + 1 ==> k - 8 * i == k % 7 + 7 - i % 7
    ensures k / 7 != i + i / 7 && k / 7 != i + i / 7 + 1 ==> k < 8 * i || k >= 8 * i + 8
  {
    assert 8 * i - i % 7 == 7 * (i + i / 7);
  }

  /** Bits 8i to 8i+7 of the octets' stream are those of octet i, which has no others. */
  lemma {:induction false} OwnOctetBit(e: seq<octet>, i: nat, k: nat)
    requires i < |e|
    ensures 8 * i <= k < 8 * i + 8 ==> StreamBit(e, k) == Bit(e[i], k - 8 * i)
    ensures k >= 8 * i + 8 ==> !Bit(e[i], k - 8 * i)
  {
    assert Pow2(8) == 256;
    if k >= 8 * i + 8 {
      NoHighBit(e[i], 8, k - 8 * i);
    } else if 8 * i <= k {
      assert k / 8 == i && k % 8 == k - 8 * i;
    }
  }

  /** What one round of the unpacking loop adds to septet m. */
  function UnpackTerm(m: int, i: nat, g: octet): octet {
    if m == i + i / 7 then LowAt(g, i % 7)
    else if m == i + i / 7 + 1 then ShiftRight(g, 7 - i % 7)
    else 0
  }

  /** What a round leaves in septet m: two additions, in an octet. */
  function AddRound(before: octet, m: int, i: nat, g: octet): octet {
    (before + UnpackTerm(m, i, g)) % 256
  }

  lemma {:induction false} UnpackTermBit(m: nat, i: nat, g: octet, j: nat)
    requires j < 8
    ensures Bit(UnpackTerm(m, i, g), j)
         == if m == i + i / 7 then i % 7 <= j < 7 && Bit(g, j - i % 7)
            else m == i + i / 7 + 1 && Bit(g, j + 7 - i % 7)
  {
    ZeroBits(j);
    if m == i + i / 7 {
      LowAtBit(g, i % 7, j);
    } else if m == i + i / 7 + 1 {
      ShiftRightBit(g, 7 - i % 7, j);
    }
  }

  /** The term for octet i carries exactly bits 8i to 8i+7 of the stream. */
  lemma {:induction false} UnpackTermStream(e: seq<octet>, i: nat, k: nat)
    requires i < |e|
    ensures Bit(UnpackTerm(k / 7, i, e[i]), k % 7) == (8 * i <= k < 8 * (i + 1) && StreamBit(e, k))
  {
    UnpackTermBit(k / 7, i, e[i], k % 7);
    OwnOctetBit(e, i, k);
    OctetPlace(i, k);
  }

  /** The loop has laid the first 8i bits of the stream into septets, and nothing else. */
  ghost predicate Unpacked(e: seq<octet>, i: nat, dec: seq<octet>) {
    && (forall m :: 0 <= m < |dec| ==> dec[m] < 128)
    && (forall k: nat :: k < 7 * |dec| ==> TextBit(dec, k) == (k < 8 * i && StreamBit(e, k)))
  }

  lemma {:induction false} RoundDisjoint(e: seq<octet>, i: nat, dec: seq<octet>, m: nat, j: nat)
    requires i < |e| && m < |dec| && j < 7 && Unpacked(e, i, dec)
    ensures !(Bit(dec[m], j) && Bit(UnpackTerm(m, i, e[i]), j))
  {
    var k := 7 * m + j;
    assert k / 7 == m && k % 7 == j;
    assert TextBit(dec, k) == (k < 8 * i && StreamBit(e, k));
    UnpackTermStream(e, i, k);
  }

  /** The `+=` never carries: the two numbers share no set bit and stay below 128. */
  lemma {:induction false} NoCarry(e: seq<octet>, i: nat, dec: seq<octet>, m: nat)
    requires i < |e| && m < |dec| && Unpacked(e, i, dec)
    ensures AddRound(dec[m], m, i, e[i]) == Or(dec[m], UnpackTerm(m, i, e[i])) < 128
  {
    var term := UnpackTerm(m, i, e[i]);
    assert Pow2(7) == 128;
    SeptetTop(term);
    UnpackTermBit(m, i, e[i], 7);
    OwnOctetBit(e, i, 8 * i + 14 - i % 7);
    forall j: nat | j < 7
      ensures !(Bit(dec[m], j) && Bit(term, j))
    {
      RoundDisjoint(e, i, dec, m, j);
    }
    DisjointSum(dec[m], term, 7);
    OrBound(dec[m], term, 7);
  }

  lemma {:induction false} OrStep(e: seq<octet>, i: nat, before: seq<octet>, after: seq<octet>)
    requires i < |e| && Unpacked(e, i, before) && |after| == |before|
    requires forall m :: 0 <= m < |after| ==> after[m] == Or(before[m], UnpackTerm(m, i, e[i])) < 128
    ensures Unpacked(e, i + 1, after)
  {
    forall k: nat | k < 7 * |after|
      ensures TextBit(after, k) == (k < 8 * (i + 1) && StreamBit(e, k))
    {
      var m := k / 7;
      assert TextBit(before, k) == (k < 8 * i && StreamBit(e, k));
      OrBit(before[m], UnpackTerm(m, i, e[i]), k % 7);
      UnpackTermStream(e, i, k);
    }
  }

  lemma {:induction false} UnpackStep(e: seq<octet>, i: nat, before: seq<octet>, after: seq<octet>)
    requires i < |e| && Unpacked(e, i, before) && |after| == |before|
    requires forall m :: 0 <= m < |after| ==> after[m] == AddRound(before[m], m, i, e[i])
    ensures Unpacked(e, i + 1, after)
  {
    forall m | 0 <= m < |after|
      ensures after[m] == Or(before[m], UnpackTerm(m, i, e[i])) < 128
    {
      NoCarry(e, i, before, m);
    }
    OrStep(e, i, before, after);
  }

  lemma {:induction false} UnpackUnique(e: seq<octet>, dec: seq<octet>)
    requires |dec| == UnpackedLength(|e|) && Unpacked(e, |e|, dec)
    ensures dec == Unpack(e)
  {
    forall k: nat | k < 7 * |dec|
      ensures TextBit(dec, k) == TextBit(Unpack(e), k)
    {
      UnpackBits(e, k);
    }
    SameText(dec, Unpack(e));
  }

  /** The octets carry a set bit after their last whole septet. */
  ghost predicate LeftoverSet(e: seq<octet>) {
    exists k: nat :: 7 * UnpackedLength(|e|) <= k < 8 * |e| && StreamBit(e, k)
  }

  /** What the last round would add one past the buffer. */
  function Spill(e: seq<octet>): octet {
    if |e| % 7 == 0 then 0 else ShiftRight(e[|e| - 1], 7 - (|e| - 1) % 7)
  }

  lemma {:induction false} LeftoverPlace(n: nat)
    ensures n % 7 == 0 ==> 7 * UnpackedLength(n) == 8 * n
    ensures n % 7 != 0 ==> 7 * UnpackedLength(n) == 8 * (n - 1) + 7 - (n - 1) % 7
  {
    var q, r := n / 7, n % 7;
    assert 8 * n == 7 * (8 * q + r) + r;
    assert UnpackedLength(n) == 8 * q + r;
    assert r > 0 ==> (n - 1) % 7 == r - 1;
  }

  lemma {:induction false} SpillBit(e: seq<octet>, j: nat)
    requires |e| % 7 != 0
    ensures StreamBit(e, 7 * UnpackedLength(|e|) + j) == Bit(Spill(e), j)
  {
    var i := |e| - 1;
    var d := 7 - i % 7;
    LeftoverPlace(|e|);
    ShiftRightBit(e[i], d, j);
    OwnOctetBit(e, i, 8 * i + d + j);
  }

  lemma {:induction false} SpillIsLeftover(e: seq<octet>)
    ensures Spill(e) != 0 <==> LeftoverSet(e)
  {
    LeftoverPlace(|e|);
    var base := 7 * UnpackedLength(|e|);
    if LeftoverSet(e) {
      var k: nat :| base <= k < 8 * |e| && StreamBit(e, k);
      SpillBit(e, k - base);
      ZeroBits(k - base);
    }
    if Spill(e) != 0 {
      var j := NonZeroBit(Spill(e));
      SpillBit(e, j);
      assert StreamBit(e, base + j);
    }
  }

  /** Where the loop writes: inside the buffer, but for the second write of a last round. */
  lemma {:induction false} RoundPlace(i: nat, n: nat)
    requires i < n
    ensures i + i / 7 < UnpackedLength(n)
    ensures i + i / 7 + 1 >= UnpackedLength(n) <==> i + 1 == n && n % 7 != 0
    ensures i > 0 ==> i / 7 == (i - 1) / 7 + if i % 7 == 0 then 1 else 0
  {
  }

  lemma {:induction false} SeptetPosition(i: nat)
    ensures (i + i / 7) % 8 == i % 7
  {
    assert i + i / 7 == 8 * (i / 7) + i % 7;
  }

  /** One round of the unpacking loop; `spill` is what it would add one past the buffer. */
  method UnpackOctet(dec: array<octet>, g: octet, i: nat, o: nat) returns (spill: octet)
    requires o == i / 7 && i + o < dec.Length
    modifies dec
    ensures forall m :: 0 <= m < dec.Length ==> dec[m] == AddRound(old(dec[m]), m, i, g)
    ensures spill == if i + o + 1 < dec.Length then 0 else ShiftRight(g, 7 - i % 7)
  {
    SeptetPosition(i);
    var d := 7 - i % 7;
    var t := Low(g, d);
    var u := ShiftRight(g, d);
    spill := 0;
    dec[i + o] := (dec[i + o] + ShiftLeft(t, (i + o) % 8)) % 256;
    if u != 0 {
      if i + 1 + o < dec.Length {
        dec[i + 1 + o] := (dec[i + 1 + o] + u) % 256;
      } else {
        spill := u;
      }
    }
  }

  /** `gsm72ascii`: the septets of the octets' stream. The C code writes one past its buffer
      exactly when the octets carry a set bit after their last whole septet. */
  method Gsm7ToAscii(gsm7: seq<octet>) returns (dec: array<octet>, stray: octet)
    ensures fresh(dec)
    ensures dec[..] == Unpack(gsm7)
    ensures stray != 0 <==> LeftoverSet(gsm7)
  {
    var ascii_length := (|gsm7| * 8 - (|gsm7| * 8) % 7) / 7;
    dec := new octet[ascii_length](_ => 0);
    stray := 0;
    var o := 0;
    forall k: nat | k < 7 * dec.Length
      ensures !TextBit(dec[..], k)
    {
      ZeroBits(k % 7);
    }
    for i := 0 to |gsm7|
      invariant o == if i == 0 then 0 else (i - 1) / 7
      invariant Unpacked(gsm7, i, dec[..])
      invariant stray == if i == |gsm7| then Spill(gsm7) else 0
    {
      ghost var before := dec[..];
      if i % 7 == 0 && i != 0 {
        o := o + 1;
      }
      RoundPlace(i, |gsm7|);
      stray := UnpackOctet(dec, gsm7[i], i, o);
      UnpackStep(gsm7, i, before, dec[..]);
    }
    UnpackUnique(gsm7, dec[..]);
    SpillIsLeftover(gsm7);
  }

  // ---------------------------------------------------------------- user data header

  /** Septets from the eighth on do not depend on the first six octets. */
  lemma {:induction false} TailSeptet(e: seq<octet>, f: seq<octet>, i: nat)
    requires |e| == |f| && i >= 7
    requires forall p :: 6 <= p < |e| ==> e[p] == f[p]
    ensures SeptetAt(e, i) == SeptetAt(f, i)
  {
    assert Pow2(7) == 128;
    forall j: nat | j < 7
      ensures Bit(SeptetAt(e, i), j) == Bit(SeptetAt(f, i), j)
    {
      SeptetAtBit(e, i, j);
      SeptetAtBit(f, i, j);
      assert (7 * i + j) / 8 >= 6;
    }
    SameBits(SeptetAt(e, i), SeptetAt(f, i), 7);
  }

  /** A packed text leaves nothing after its last whole septet, even when the octets that
      hold seven of its septets are replaced. */
  lemma {:induction false} PackedSpill(s: seq<octet>, e: seq<octet>)
    requires |e| == PackedLength(|s|)
    requires e == Pack(s) || (|s| >= 7 && forall p :: 6 <= p < |e| ==> e[p] == Pack(s)[p])
    ensures Spill(e) == 0
  {
    SpillIsLeftover(e);
    if LeftoverSet(e) {
      var k: nat :| 7 * UnpackedLength(|e|) <= k < 8 * |e| && StreamBit(e, k);
      NoSeptetLost(|s|);
      PackBits(s, k);
    }
  }

  lemma {:induction false} NoSeptetLost(n: nat)
    ensures n <= UnpackedLength(PackedLength(n)) <= n + 1
  {
  }
}
