/** Phone numbers as semi-octets (3GPP TS 23.040, section 9.1.2.3): written by
    mocha-ril/sms.c, read by mocha-ipc/util.c. */
module Numbers {
  import opened Octets
  import opened Hex

  predicate IsDigit(c: char) {
    '0' <= c <= '9'
  }

  predicate AllDigits(s: string) {
    forall i :: 0 <= i < |s| ==> IsDigit(s[i])
  }

  /** A number padded with F to even length. */
  function FPadded(number: string): (s: string)
    ensures |s| % 2 == 0
  {
    if |number| % 2 > 0 then number + "F" else number
  }

  /** The other position of the pair that i belongs to. */
  function Partner(i: nat): nat {
    if i % 2 == 0 then i + 1 else i - 1
  }

  /** Each pair with its two members exchanged. */
  function Swapped<T>(s: seq<T>): (t: seq<T>)
    requires |s| % 2 == 0
    ensures |t| == |s|
  {
    seq(|s|, i requires 0 <= i < |s| => s[Partner(i)])
  }

  /** A number as semi-octet text. */
  function SemiOctets(number: string): string {
    Swapped(FPadded(number))
  }

  /** The loops that append a number to the PDU: `len` is its length, padded or not. */
  method AppendSwapped(pdu: string, number: string) returns (text: string)
    ensures text == pdu + SemiOctets(number)
  {
    var len := |number|;
    var padded := number;
    if len % 2 > 0 {
      padded := padded + "F";
    }
    text := pdu;
    var i := 0;
    while i < len
      invariant 0 <= i <= |padded| && i % 2 == 0
      invariant text == pdu + Swapped(padded[..i])
    {
      text := text + [padded[i + 1]];
      text := text + [padded[i]];
      assert Swapped(padded[..i + 2]) == Swapped(padded[..i]) + [padded[i + 1], padded[i]];
      i := i + 2;
    }
    assert padded[..i] == padded;
  }

  /** `bcddigit2ascii`. */
  function BcdDigit(v: nibble): char {
    if v < 10 then '0' + v as char
    else match v
      case 10 => '*'
      case 11 => '#'
      case 12 => 'P'
      case 13 => '?'
      case _ => '\0'
  }

  /** The characters of a buffer up to its first terminator. */
  function CStr(buffer: string): (s: CString)
    ensures |s| <= |buffer| && s == buffer[..|s|]
    ensures |s| < |buffer| ==> buffer[|s|] == '\0'
  {
    if buffer == [] || buffer[0] == '\0' then [] else [buffer[0]] + CStr(buffer[1..])
  }

  function Meanings(n: seq<nibble>): (s: string)
    ensures |s| == |n|
  {
    seq(|n|, i requires 0 <= i < |n| => BcdDigit(n[i]))
  }

  /** The digits of semi-octets: the low nibble of each octet comes first. */
  function BcdText(data: seq<octet>): (s: string)
    ensures |s| == 2 * |data|
  {
    Meanings(Swapped(Split(data)))
  }

  /** `bcd2ascii`: low nibble first, then a terminator. */
  method Bcd2Ascii(data: seq<octet>) returns (out: array<char>)
    ensures fresh(out)
    ensures out[..] == BcdText(data) + "\0"
  {
    out := new char[2 * |data| + 1](_ => '\0');
    var outi := 0;
    for i := 0 to |data|
      invariant outi == 2 * i
      invariant out[..outi] == BcdText(data)[..outi]
    {
      out[outi] := BcdDigit(data[i] % 16);
      outi := outi + 1;
      out[outi] := BcdDigit(data[i] / 16 % 16);
      outi := outi + 1;
    }
    out[outi] := '\0';
    assert out[..] == out[..outi] + [out[outi]];
  }

  /** What the reader makes of a written number. */
  function ReadBack(number: string): string {
    CStr(BcdText(HexData(SemiOctets(number))) + "\0")
  }

  lemma {:induction false} ReadText(t: string)
    requires |t| % 2 == 0
    ensures BcdText(HexData(t)) == Meanings(Swapped(Scans(t)))
  {
    assert Nibbles(t) == Scans(t);
    SplitJoin(Scans(t));
  }

  /** The character read for position i is the meaning of the digit scanned at its partner,
      where the number's own character i was written. */
  lemma {:induction false} ReadAt(padded: string, i: nat)
    requires |padded| % 2 == 0 && i < |padded|
    ensures Partner(i) < |padded| && Swapped(padded)[Partner(i)] == padded[i]
    ensures |BcdText(HexData(Swapped(padded)))| == |padded|
    ensures BcdText(HexData(Swapped(padded)))[i] == BcdDigit(Scan(Swapped(padded), Partner(i)))
  {
    var t := Swapped(padded);
    ReadText(t);
    assert Partner(Partner(i)) == i;
    assert Swapped(Scans(t))[i] == Scans(t)[Partner(i)];
  }

  /** Only decimal digits mean themselves. */
  lemma {:induction false} DigitMeaning(s: string, k: nat)
    requires k < |s| && s[k] != '\0'
    ensures BcdDigit(Scan(s, k)) == s[k] <==> IsDigit(s[k])
    ensures s[k] == 'F' ==> BcdDigit(Scan(s, k)) == '\0'
  {
    DigitWrittenBack(s, k);
  }

  lemma {:induction false} CStrWhole(s: string, t: string)
    requires forall i :: 0 <= i < |s| ==> s[i] != '\0'
    requires t != [] && t[0] == '\0'
    ensures CStr(s + t) == s
  {
    if s != [] {
      assert (s + t)[1..] == s[1..] + t;
      CStrWhole(s[1..], t);
    } else {
      assert s + t == t;
    }
  }

  /** A number survives being written as semi-octets and read back exactly when it consists
      of decimal digits. */
  lemma {:induction false} NumberRoundTrip(number: CString)
    ensures ReadBack(number) == number <==> AllDigits(number)
  {
    var padded := FPadded(number);
    var out := BcdText(HexData(Swapped(padded)));
    forall i | 0 <= i < |padded|
      ensures |out| == |padded| && (out[i] == padded[i] <==> IsDigit(padded[i]))
      ensures padded[i] == 'F' ==> out[i] == '\0'
    {
      ReadAt(padded, i);
      DigitMeaning(Swapped(padded), Partner(i));
    }
    FirstTerminator(number, padded, out);
  }

  lemma {:induction false} FirstTerminator(number: CString, padded: string, out: string)
    requires padded == FPadded(number) && |out| == |padded|
    requires forall i :: 0 <= i < |padded| ==> (out[i] == padded[i] <==> IsDigit(padded[i]))
    requires forall i :: 0 <= i < |padded| && padded[i] == 'F' ==> out[i] == '\0'
    ensures CStr(out + "\0") == number <==> AllDigits(number)
  {
    if AllDigits(number) {
      if |number| % 2 == 0 {
        assert out == number;
        CStrWhole(number, "\0");
      } else {
        assert out == number + "\0";
        assert out + "\0" == number + "\0\0";
        CStrWhole(number, "\0\0");
      }
    } else {
      var i :| 0 <= i < |number| && !IsDigit(number[i]);
      assert out[i] != padded[i] == number[i];
    }
  }

  // ---------------------------------------------------------------- the coding of dial strings

  /** The characters of a dial string, each in the place of its code. */
  const DIAL := "0123456789*#P?"

  predicate Dialable(s: string) {
    forall i :: 0 <= i < |s| ==> s[i] in DIAL
  }

  function Code(c: char): (v: nibble)
    requires c in DIAL
    ensures v < |DIAL| && DIAL[v] == c
  {
    var v :| 0 <= v < |DIAL| && DIAL[v] == c;
    v
  }

  /** Octet p of a dial string: characters 2 * p, in the low half, and 2 * p + 1; an odd last one
      shares its octet with 15. */
  function DialOctet(s: string, p: nat): octet
    requires Dialable(s) && 2 * p < |s|
  {
    16 * (if 2 * p + 1 < |s| then Code(s[2 * p + 1]) else 15) + Code(s[2 * p])
  }

  function DialOctets(s: string): (data: seq<octet>)
    requires Dialable(s)
    ensures |data| == (|s| + 1) / 2
  {
    seq((|s| + 1) / 2, p requires 0 <= p < (|s| + 1) / 2 => DialOctet(s, p))
  }

  lemma {:induction false} CodeMeaning(v: nibble)
    ensures v < |DIAL| ==> BcdDigit(v) == DIAL[v]
    ensures v >= |DIAL| ==> BcdDigit(v) == '\0'
  {
  }

  /** The two characters of an octet. */
  lemma {:induction false} OctetMeans(data: seq<octet>, p: nat, low: nibble, high: nibble)
    requires p < |data| && data[p] == 16 * high + low
    ensures BcdText(data)[2 * p] == BcdDigit(low) && BcdText(data)[2 * p + 1] == BcdDigit(high)
  {
    assert Split(data)[2 * p] == high && Split(data)[2 * p + 1] == low;
    assert Partner(2 * p) == 2 * p + 1 && Partner(2 * p + 1) == 2 * p;
  }

  lemma {:induction false} DialPair(s: string, p: nat)
    requires Dialable(s) && p < (|s| + 1) / 2
    ensures var out := BcdText(DialOctets(s));
            out[2 * p] == s[2 * p] && out[2 * p + 1] == if 2 * p + 1 < |s| then s[2 * p + 1] else '\0'
  {
    var low, high := Code(s[2 * p]), if 2 * p + 1 < |s| then Code(s[2 * p + 1]) else 15;
    OctetMeans(DialOctets(s), p, low, high);
    CodeMeaning(low);
    CodeMeaning(high);
  }

  lemma {:induction false} NoTerminator(s: string)
    requires Dialable(s)
    ensures forall i :: 0 <= i < |s| ==> s[i] != '\0'
  {
  }

  predicate SamePair(a: string, b: string, p: nat) {
    2 * p + 1 < |a| && 2 * p + 1 < |b| && a[2 * p] == b[2 * p] && a[2 * p + 1] == b[2 * p + 1]
  }

  lemma {:induction false} SamePairs(a: string, b: string)
    requires |a| == |b| && |a| % 2 == 0 && forall p :: 0 <= p < |a| / 2 ==> SamePair(a, b, p)
    ensures a == b
  {
    forall i | 0 <= i < |a|
      ensures a[i] == b[i]
    {
      assert SamePair(a, b, i / 2);
    }
  }

  lemma {:induction false} DialText(s: string)
    requires Dialable(s)
    ensures BcdText(DialOctets(s)) == s + if |s| % 2 == 1 then "\0" else ""
  {
    var out, t := BcdText(DialOctets(s)), s + if |s| % 2 == 1 then "\0" else "";
    forall p | 0 <= p < |out| / 2
      ensures SamePair(out, t, p)
    {
      DialPair(s, p);
    }
    SamePairs(out, t);
  }

  /** A dial string is read back whole. */
  lemma {:induction false} DialRoundTrip(s: string)
    requires Dialable(s)
    ensures CStr(BcdText(DialOctets(s)) + "\0") == s
  {
    DialText(s);
    NoTerminator(s);
    if |s| % 2 == 1 {
      assert s + "\0" + "\0" == s + "\0\0";
      CStrWhole(s, "\0\0");
    } else {
      assert s + "" == s;
      CStrWhole(s, "\0");
    }
  }

  lemma {:induction false} DigitCode(c: char)
    requires IsDigit(c)
    ensures c in DIAL && Code(c) == HexValue(c)
  {
    assert DIAL[c as int - '0' as int] == c;
  }

  lemma {:induction false} DigitsDial(number: string)
    requires AllDigits(number)
    ensures Dialable(number)
  {
    forall i | 0 <= i < |number|
      ensures number[i] in DIAL
    {
      DigitCode(number[i]);
    }
  }

  lemma {:induction false} SwappedPair(padded: string, p: nat)
    requires |padded| % 2 == 0 && 2 * p < |padded|
    ensures Swapped(padded)[2 * p] == padded[2 * p + 1] && Swapped(padded)[2 * p + 1] == padded[2 * p]
  {
  }

  lemma {:induction false} ScanAt(t: string, i: nat)
    requires |t| % 2 == 0 && i < |t| && IsHex(t[i])
    ensures Nibbles(t)[i] == HexValue(t[i])
  {
    DigitWrittenBack(t, i);
    assert Nibbles(t) == Scans(t);
  }

  /** The octet read from two digits. */
  lemma {:induction false} PairRead(t: string, p: nat)
    requires |t| % 2 == 0 && 2 * p + 1 < |t| && IsHex(t[2 * p]) && IsHex(t[2 * p + 1])
    ensures HexData(t)[p] == Byte(HexValue(t[2 * p]), HexValue(t[2 * p + 1]))
  {
    ScanAt(t, 2 * p);
    ScanAt(t, 2 * p + 1);
  }

  lemma {:induction false} NumberOctet(number: string, p: nat)
    requires AllDigits(number) && Dialable(number) && p < (|number| + 1) / 2
    ensures |HexData(SemiOctets(number))| == |DialOctets(number)|
    ensures HexData(SemiOctets(number))[p] == DialOctets(number)[p]
  {
    SwappedPair(FPadded(number), p);
    PairRead(SemiOctets(number), p);
    DigitCode(number[2 * p]);
    if 2 * p + 1 < |number| {
      DigitCode(number[2 * p + 1]);
    }
  }

  /** A number of decimal digits is written as those octets. */
  lemma {:induction false} NumberWrites(number: string)
    requires AllDigits(number)
    ensures Dialable(number) && HexData(SemiOctets(number)) == DialOctets(number)
  {
    DigitsDial(number);
    forall p | 0 <= p < |DialOctets(number)|
      ensures |HexData(SemiOctets(number))| == |DialOctets(number)|
      ensures HexData(SemiOctets(number))[p] == DialOctets(number)[p]
    {
      NumberOctet(number, p);
    }
    assert number == "" ==> FPadded(number) == "";
  }

  /** An alphanumeric sender of n characters: the announced count of semi-octets. */
  function AlphaSemiOctets(n: nat): nat {
    n * 7 * 2 / 8 + if n * 7 * 2 % 8 > 0 then 1 else 0
  }

  /** The announced semi-octets cover exactly the packed octets. */
  lemma {:induction false} AlphaCoversPacked(n: nat)
    ensures (AlphaSemiOctets(n) + 1) / 2 == (7 * n + 7) / 8
  {
    var q, r := n / 4, n % 4;
    assert n * 14 == 8 * (7 * q) + 14 * r;
  }
}
