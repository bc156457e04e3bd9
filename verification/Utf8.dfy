/** USSD text: 16-bit units written as UTF-8 (mocha-ril/ss.c, mocha-ril/util.c), against the
    syntax of RFC 3629. */
module Utf8 {
  import opened Options
  import opened Octets

  /** `v >> 6 * i`. */
  function Above(v: nat, i: nat): nat {
    if i == 0 then v else Above(v / 64, i - 1)
  }

  /** Six bits of v: `(v >> 6 * i) & 0x3f`. */
  function Sextet(v: nat, i: nat): (x: nat)
    ensures x < 64
  {
    Above(v, i) % 64
  }

  lemma {:induction false} Cut(v: nat)
    ensures v == 64 * Above(v, 1) + Sextet(v, 0)
    ensures Above(v, 1) == 64 * Above(v, 2) + Sextet(v, 1)
    ensures Above(v, 2) == 64 * Above(v, 3) + Sextet(v, 2)
  {
    assert Above(v, 1) == Above(v / 64, 0) == v / 64;
    assert Above(v, 2) == Above(v / 64, 1) == Above(v / 64 / 64, 0) == v / 64 / 64;
    assert Above(v, 3) == Above(v / 64, 2) == Above(v / 64 / 64, 1) == Above(v / 64 / 64 / 64, 0) == v / 64 / 64 / 64;
  }

  /** The octets of one character number (RFC 3629, section 3). */
  function Encode(v: nat): (s: seq<octet>)
    requires v <= 0x10FFFF
    ensures 1 <= |s| <= 4
    ensures v <= 0xFFFF ==> |s| <= 3
  {
    Cut(v);
    if v < 0x80 then [v]
    else if v < 0x800 then [0xC0 + Above(v, 1), 0x80 + Sextet(v, 0)]
    else if v < 0x10000 then [0xE0 + Above(v, 2), 0x80 + Sextet(v, 1), 0x80 + Sextet(v, 0)]
    else [0xF0 + Above(v, 3), 0x80 + Sextet(v, 2), 0x80 + Sextet(v, 1), 0x80 + Sextet(v, 0)]
  }

  predicate Tail(b: octet) {
    0x80 <= b <= 0xBF
  }

  /** The character number a text starts with and its octets, by the grammar of RFC 3629,
      section 4; None for anything else. */
  function First(s: seq<octet>): (r: Option<(nat, nat)>)
    requires s != []
    ensures r.Some? ==> 1 <= r.value.1 <= |s|
  {
    if s[0] <= 0x7F then Some((s[0] as nat, 1))
    else if 0xC2 <= s[0] <= 0xDF && |s| >= 2 && Tail(s[1]) then
      Some(((s[0] as int - 0xC0) * 64 + (s[1] as int - 0x80), 2))
    else if 0xE0 <= s[0] <= 0xEF && |s| >= 3 && Tail(s[1]) && Tail(s[2])
            && (s[0] == 0xE0 ==> s[1] >= 0xA0) && (s[0] == 0xED ==> s[1] <= 0x9F) then
      Some(((s[0] as int - 0xE0) * 4096 + (s[1] as int - 0x80) * 64 + (s[2] as int - 0x80), 3))
    else if 0xF0 <= s[0] <= 0xF4 && |s| >= 4 && Tail(s[1]) && Tail(s[2]) && Tail(s[3])
            && (s[0] == 0xF0 ==> s[1] >= 0x90) && (s[0] == 0xF4 ==> s[1] <= 0x8F) then
      Some(((s[0] as int - 0xF0) * 262144 + (s[1] as int - 0x80) * 4096 + (s[2] as int - 0x80) * 64 + (s[3] as int - 0x80), 4))
    else None
  }

  /** Character numbers from UTF-8 octets. */
  function Decode(s: seq<octet>): Option<seq<nat>> {
    if s == [] then Some([])
    else
      match First(s)
      case None => None
      case Some((v, k)) => Prepend(v, Decode(s[k..]))
  }

  function Prepend(v: nat, rest: Option<seq<nat>>): Option<seq<nat>> {
    match rest
    case None => None
    case Some(vs) => Some([v] + vs)
  }

  predicate Points(vs: seq<nat>) {
    forall i :: 0 <= i < |vs| ==> vs[i] <= 0x10FFFF
  }

  function EncodeAll(vs: seq<nat>): seq<octet>
    requires Points(vs)
  {
    if vs == [] then [] else Encode(vs[0]) + EncodeAll(vs[1..])
  }

  predicate Surrogate(v: nat) {
    0xD800 <= v <= 0xDFFF
  }

  lemma {:induction false} FirstBack(v: nat, rest: seq<octet>)
    requires v <= 0x10FFFF
    ensures First(Encode(v) + rest) == if Surrogate(v) then None else Some((v, |Encode(v)|))
  {
    Cut(v);
  }

  /** One character number in front: it reads back, unless it is a surrogate, which UTF-8
      has no room for. */
  lemma {:induction false} DecodeFirst(v: nat, rest: seq<octet>)
    requires v <= 0x10FFFF
    ensures Decode(Encode(v) + rest) == if Surrogate(v) then None else Prepend(v, Decode(rest))
  {
    FirstBack(v, rest);
    assert (Encode(v) + rest)[|Encode(v)|..] == rest;
  }

  /** No unit is a surrogate. */
  predicate Clean(vs: seq<nat>) {
    forall i :: 0 <= i < |vs| ==> !Surrogate(vs[i])
  }

  /** A text reads back exactly when no unit is a surrogate; otherwise nothing can be read. */
  lemma {:induction false} TextRoundTrip(vs: seq<nat>)
    requires Points(vs)
    ensures Decode(EncodeAll(vs)) == if Clean(vs) then Some(vs) else None
  {
    if vs != [] {
      TextRoundTrip(vs[1..]);
      DecodeFirst(vs[0], EncodeAll(vs[1..]));
      assert [vs[0]] + vs[1..] == vs;
      CleanFirst(vs);
    }
  }

  lemma {:induction false} CleanFirst(vs: seq<nat>)
    requires vs != []
    ensures Clean(vs) <==> !Surrogate(vs[0]) && Clean(vs[1..])
  {
    if Clean(vs[1..]) && !Surrogate(vs[0]) {
      forall i | 0 <= i < |vs|
        ensures !Surrogate(vs[i])
      {
        assert i > 0 ==> vs[i] == vs[1..][i - 1];
      }
    }
  }

  lemma {:induction false} EncodeLast(vs: seq<nat>, v: nat)
    requires Points(vs) && v <= 0x10FFFF
    ensures Points(vs + [v]) && EncodeAll(vs + [v]) == EncodeAll(vs) + Encode(v)
  {
    if vs == [] {
      assert [v][1..] == [] && Encode(v) + [] == Encode(v);
    } else {
      EncodeLast(vs[1..], v);
      assert (vs + [v])[1..] == vs[1..] + [v];
      assert Encode(vs[0]) + (EncodeAll(vs[1..]) + Encode(v)) == Encode(vs[0]) + EncodeAll(vs[1..]) + Encode(v);
    }
  }

  // ---------------------------------------------------------------- the loops

  lemma {:induction false} Bases()
    ensures Scale(3, 6) == 0xC0 && Scale(2, 6) == 0x80 && Pow2(6) == 64
    ensures Scale(14, 4) == 0xE0 && Pow2(4) == 16
    ensures Scale(30, 3) == 0xF0 && Pow2(3) == 8
  {
    assert Scale(3, 6) == 2 * Scale(3, 5) == 4 * Scale(3, 4) == 8 * Scale(3, 3) == 16 * Scale(3, 2) == 32 * Scale(3, 1);
    assert Scale(2, 6) == 2 * Scale(2, 5) == 4 * Scale(2, 4) == 8 * Scale(2, 3) == 16 * Scale(2, 2) == 32 * Scale(2, 1);
    assert Scale(14, 4) == 2 * Scale(14, 3) == 4 * Scale(14, 2) == 8 * Scale(14, 1);
    assert Scale(30, 3) == 2 * Scale(30, 2) == 4 * Scale(30, 1);
  }

  /** `base | x` for the four bases of the encoding: x goes into clear bits. */
  method Marked(base: octet, x: nat) returns (r: octet)
    requires (base == 0x80 && x < 64) || (base == 0xC0 && x < 32) || (base == 0xE0 && x < 16) || (base == 0xF0 && x < 8)
    ensures r == base + x
  {
    Bases();
    if {
      case base == 0x80 => OrScaled(2, x, 6);
      case base == 0xC0 => OrScaled(3, x, 6);
      case base == 0xE0 => OrScaled(14, x, 4);
      case base == 0xF0 => OrScaled(30, x, 3);
    }
    r := Or(base, x);
  }

  /** `utf8_write`: the octets at the offset, and how many. */
  method Utf8Write(utf8: array<octet>, offset: nat, v: nat) returns (result: nat)
    requires v <= 0x10FFFF && offset + |Encode(v)| <= utf8.Length
    modifies utf8
    ensures result == |Encode(v)|
    ensures utf8[..offset] == old(utf8[..offset])
    ensures utf8[offset..offset + result] == Encode(v)
  {
    Cut(v);
    var b0 := v;
    var b1 := Marked(0x80, Sextet(v, 0));
    var b2 := Marked(0x80, Sextet(v, 1));
    var b3 := Marked(0x80, Sextet(v, 2));
    if v < 0x80 {
      result := 1;
      utf8[offset] := v;
    } else if v < 0x800 {
      b0 := Marked(0xC0, Above(v, 1));
      result := 2;
      utf8[offset] := b0;
      utf8[offset + 1] := b1;
    } else if v < 0x10000 {
      b0 := Marked(0xE0, Above(v, 2));
      result := 3;
      utf8[offset] := b0;
      utf8[offset + 1] := b2;
      utf8[offset + 2] := b1;
    } else {
      b0 := Marked(0xF0, Above(v, 3) % 8);
      result := 4;
      utf8[offset] := b0;
      utf8[offset + 1] := b3;
      utf8[offset + 2] := b2;
      utf8[offset + 3] := b1;
    }
  }

  /** One turn of the loop: what is written goes right behind what is there. */
  method WriteNext(utf8: array<octet>, offset: nat, v: nat) returns (result: nat)
    requires v <= 0x10FFFF && offset + |Encode(v)| <= utf8.Length
    modifies utf8
    ensures result == |Encode(v)|
    ensures utf8[..offset + result] == old(utf8[..offset]) + Encode(v)
  {
    result := Utf8Write(utf8, offset, v);
    assert utf8[..offset + result] == utf8[..offset] + utf8[offset..offset + result];
  }

  /** The 16-bit units of big-endian UCS-2 text of `len` octets; of an odd number the last unit
      takes the octet behind the text along. */
  function Units(ucs2: seq<octet>, len: nat): (u: seq<nat>)
    requires len + len % 2 <= |ucs2|
    ensures |u| == (len + 1) / 2 && Points(u) && forall i :: 0 <= i < |u| ==> u[i] <= 0xFFFF
  {
    seq((len + 1) / 2, i requires 0 <= i < (len + 1) / 2 => 256 * ucs2[2 * i] as int + ucs2[2 * i + 1] as int)
  }

  method ReadUnit(ucs2: seq<octet>, len: nat, i: nat, ghost k: nat) returns (c: nat)
    requires len + len % 2 <= |ucs2| && i == 2 * k < len
    ensures c == Units(ucs2, len)[k]
  {
    c := 256 * ucs2[i] as int + ucs2[i + 1] as int;
  }

  // ---------------------------------------------------------------- the text that was sent

  predicate Units16(us: seq<nat>) {
    forall i :: 0 <= i < |us| ==> us[i] <= 0xFFFF
  }

  /** UCS-2 text as it is sent: the octets of each unit, the high one first. */
  function BigEndian(us: seq<nat>): (s: seq<octet>)
    requires Units16(us)
    ensures |s| == 2 * |us|
  {
    if us == [] then [] else [us[0] / 256, us[0] % 256] + BigEndian(us[1..])
  }

  lemma {:induction false} UnitAt(us: seq<nat>, i: nat)
    requires Units16(us) && i < |us|
    ensures 256 * BigEndian(us)[2 * i] as int + BigEndian(us)[2 * i + 1] as int == us[i]
  {
    if i > 0 {
      UnitAt(us[1..], i - 1);
    }
  }

  /** The text is the writing of the units; an odd length leaves the last octet out. */
  predicate Holds(ucs2: seq<octet>, len: nat, us: seq<nat>) {
    Units16(us) && BigEndian(us) <= ucs2 && (len == 2 * |us| || len + 1 == 2 * |us|)
  }

  lemma {:induction false} UnitsBack(ucs2: seq<octet>, len: nat, us: seq<nat>)
    requires Holds(ucs2, len, us)
    ensures Units(ucs2, len) == us
  {
    forall i | 0 <= i < |us|
      ensures Units(ucs2, len)[i] == us[i]
    {
      UnitAt(us, i);
      assert ucs2[..|BigEndian(us)|] == BigEndian(us);
    }
  }

  /** The units that were sent come back from the UTF-8 text, exactly when none is a surrogate. */
  lemma {:induction false} SentTextRoundTrip(ucs2: seq<octet>, len: nat, us: seq<nat>)
    requires Holds(ucs2, len, us)
    ensures Decode(EncodeAll(Units(ucs2, len))) == if Clean(us) then Some(us) else None
  {
    UnitsBack(ucs2, len, us);
    TextRoundTrip(us);
  }

  lemma {:induction false} EncodeNext(units: seq<nat>, k: nat)
    requires k < |units| && Points(units)
    ensures EncodeAll(units[..k + 1]) == EncodeAll(units[..k]) + Encode(units[k])
  {
    EncodeLast(units[..k], units[k]);
    assert units[..k + 1] == units[..k] + [units[k]];
  }

  /** The UCS-2 branch of `ipc_ss_ussd_response`, on the field that holds the text: each write
      goes on where the last ended, and the terminator still fits the buffer of 4 * len + 1
      characters. */
  method Ucs2ToUtf8(ucs2: seq<octet>, len: nat) returns (message: array<octet>, result: nat)
    requires len + len % 2 <= |ucs2|
    ensures result < message.Length == 4 * len + 1
    ensures message[..result] == EncodeAll(Units(ucs2, len)) && message[result] == 0
    ensures forall us :: Holds(ucs2, len, us) ==> Decode(message[..result]) == if Clean(us) then Some(us) else None
  {
    message := new octet[4 * len + 1](_ => 0);
    result := 0;
    ghost var units, k := Units(ucs2, len), 0;
    var i := 0;
    while i < len
      invariant i == 2 * k <= len + 1
      invariant result <= 3 * k
      invariant message[..result] == EncodeAll(units[..k])
    {
      EncodeNext(units, k);
      var c := ReadUnit(ucs2, len, i, k);
      var written := WriteNext(message, result, c);
      result := result + written;
      i := i + 2;
      k := k + 1;
    }
    assert units[..k] == units;
    message[result] := 0;
    forall us | Holds(ucs2, len, us)
      ensures Decode(EncodeAll(units)) == if Clean(us) then Some(us) else None
    {
      SentTextRoundTrip(ucs2, len, us);
    }
  }
}
