/** Hexadecimal text (mocha-ril/util.c: `data2string`, `string2data`). */
module Hex {
  import opened Octets

  /** The characters before a C string's terminator. */
  type CString = s: string | forall i :: 0 <= i < |s| ==> s[i] != '\0'

  type nibble = x: int | 0 <= x < 16

  predicate IsSpace(c: char) {
    c == ' ' || 9 <= c as int <= 13
  }

  /** The value of a hexadecimal digit, or -1. */
  function HexValue(c: char): (v: int)
    ensures -1 <= v < 16
  {
    if '0' <= c <= '9' then c as int - '0' as int
    else if 'a' <= c <= 'f' then c as int - 'a' as int + 10
    else if 'A' <= c <= 'F' then c as int - 'A' as int + 10
    else -1
  }

  predicate IsHex(c: char) {
    HexValue(c) >= 0
  }

  predicate AllHex(s: string) {
    forall i :: 0 <= i < |s| ==> IsHex(s[i])
  }

  function HexDigit(v: nibble): char {
    if v < 10 then '0' + v as char else 'a' + (v - 10) as char
  }

  function Lower(c: char): char {
    if 'A' <= c <= 'Z' then c + 32 as char else c
  }

  /** `sscanf(&s[i], "%01x", &b)` with b = 0 where nothing converts: white space is skipped
      first, then at most one digit is read. */
  function Scan(s: string, i: nat): nibble
    decreases |s| - i
  {
    if i >= |s| then 0
    else if IsSpace(s[i]) then Scan(s, i + 1)
    else if IsHex(s[i]) then HexValue(s[i])
    else 0
  }

  /** The nibbles of octets, high one first. */
  function Split(data: seq<octet>): (n: seq<nibble>)
    ensures |n| == 2 * |data|
  {
    seq(2 * |data|, i requires 0 <= i < 2 * |data| => if i % 2 == 0 then data[i / 2] / 16 else data[i / 2] % 16)
  }

  function Digits(n: seq<nibble>): (s: CString)
    ensures |s| == |n|
  {
    seq(|n|, i requires 0 <= i < |n| => HexDigit(n[i]))
  }

  /** Two lower-case digits for each octet. */
  function HexText(data: seq<octet>): (s: CString)
    ensures |s| == 2 * |data|
  {
    Digits(Split(data))
  }

  /** `string2data_size`. */
  function DataSize(s: string): nat {
    if |s| % 2 == 0 then |s| / 2 else (|s| - |s| % 2) / 2 + 1
  }

  function Scans(s: string): (n: seq<nibble>)
    ensures |n| == |s|
  {
    seq(|s|, i requires 0 <= i => Scan(s, i))
  }

  /** One digit for each character; text of odd length is padded on the left. */
  function Nibbles(s: string): (n: seq<nibble>)
    ensures |n| == 2 * DataSize(s)
  {
    (if |s| % 2 == 0 then [] else [0]) + Scans(s)
  }

  function Byte(high: int, low: int): octet
    requires 0 <= high < 16 && 0 <= low < 16
  {
    16 * high + low
  }

  /** The octets whose nibbles, high one first, are n. */
  function Join(n: seq<nibble>): (data: seq<octet>)
    requires |n| % 2 == 0
    ensures |data| == |n| / 2
  {
    seq(|n| / 2, p requires 0 <= p < |n| / 2 => Byte(n[2 * p], n[2 * p + 1]))
  }

  function HexData(s: string): (data: seq<octet>)
    ensures |data| == DataSize(s)
  {
    Join(Nibbles(s))
  }

  /** `data2string`; no text at all (NULL) for no data. */
  method DataToString(data: seq<octet>) returns (text: string)
    ensures text == HexText(data)
  {
    text := "";
    for i := 0 to |data|
      invariant text == HexText(data[..i])
    {
      text := text + [HexDigit(data[i] / 16), HexDigit(data[i] % 16)];
    }
    assert data[..|data|] == data;
  }

  lemma {:induction false} NibbleScale(a: nat)
    ensures Scale(a, 4) == 16 * a && Pow2(4) == 16
  {
    assert Scale(a, 1) == 2 * Scale(a, 0) == 2 * a;
    assert Scale(a, 4) == 2 * Scale(a, 3) == 4 * Scale(a, 2) == 8 * Scale(a, 1);
    assert Pow2(4) == 2 * Pow2(3) == 4 * Pow2(2) == 8 * Pow2(1) == 16 * Pow2(0);
  }

  /** Filling an octet one nibble at a time. */
  lemma {:induction false} NibbleOr(a: nibble, b: nibble)
    ensures OrOctet(0, Byte(a, 0)) == Byte(a, 0)
    ensures OrOctet(Byte(a, 0), b) == Byte(a, b)
  {
    OrZero(Byte(a, 0));
    NibbleScale(a);
    OrScaled(a, b, 4);
  }

  /** The nibbles of s, known by what the loop reads. */
  lemma {:induction false} DigitsOf(s: string, odd: nat) returns (n: seq<nibble>)
    requires odd == |s| % 2
    ensures |n| == 2 * DataSize(s) == odd + |s| && Join(n) == HexData(s)
    ensures odd == 1 ==> n[0] == 0
    ensures forall i {:trigger Scan(s, i)} :: 0 <= i < |s| ==> n[odd + i] == Scan(s, i)
  {
    n := Nibbles(s);
  }

  /** The first k nibbles of n, the others still 0. */
  function Filled(n: seq<nibble>, k: nat): (r: seq<nibble>)
    ensures |r| == |n|
  {
    seq(|n|, i requires 0 <= i < |n| => if i < k then n[i] else 0)
  }

  lemma {:induction false} FilledAt(n: seq<nibble>, k: nat, p: nat)
    requires |n| % 2 == 0 && 2 * p + 1 < |n|
    ensures Join(Filled(n, k))[p] == Byte(if 2 * p < k then n[2 * p] else 0, if 2 * p + 1 < k then n[2 * p + 1] else 0)
  {
  }

  /** Nibble k changes no octet but its own. */
  lemma {:induction false} FilledNext(n: seq<nibble>, k: nat)
    requires |n| % 2 == 0 && k < |n|
    ensures Join(Filled(n, k + 1)) == Join(Filled(n, k))[k / 2 := Join(Filled(n, k + 1))[k / 2]]
  {
    forall p | 0 <= p < |n| / 2 && p != k / 2
      ensures Join(Filled(n, k + 1))[p] == Join(Filled(n, k))[p]
    {
      FilledAt(n, k, p);
      FilledAt(n, k + 1, p);
    }
  }

  /** The high nibble of octet p goes in while it is clear, the low one after it. */
  lemma {:induction false} FillStep(n: seq<nibble>, p: nat)
    requires 2 * p + 1 < |n| && |n| % 2 == 0
    ensures Join(Filled(n, 2 * p))[p] == 0
    ensures Join(Filled(n, 2 * p + 1)) == Join(Filled(n, 2 * p))[p := OrOctet(0, Byte(n[2 * p], 0))]
    ensures Join(Filled(n, 2 * p + 1))[p] == Byte(n[2 * p], 0)
    ensures Join(Filled(n, 2 * p + 2))
         == Join(Filled(n, 2 * p + 1))[p := OrOctet(Byte(n[2 * p], 0), n[2 * p + 1])]
  {
    NibbleOr(n[2 * p], n[2 * p + 1]);
    FilledAt(n, 2 * p, p);
    FilledAt(n, 2 * p + 1, p);
    FilledAt(n, 2 * p + 2, p);
    FilledNext(n, 2 * p);
    FilledNext(n, 2 * p + 1);
  }

  /** What the loop holds after k nibbles. */
  function PartData(n: seq<nibble>, k: nat): (data: seq<octet>)
    requires |n| % 2 == 0
    ensures |data| == |n| / 2
  {
    Join(Filled(n, k))
  }

  /** What nibble k is ORed in as. */
  function Placed(k: nat, v: nibble): octet {
    if k % 2 == 0 then Byte(v, 0) else v
  }

  lemma {:induction false} PartStep(n: seq<nibble>, k: nat)
    requires k < |n| && |n| % 2 == 0
    ensures PartData(n, k + 1) == PartData(n, k)[k / 2 := OrOctet(PartData(n, k)[k / 2], Placed(k, n[k]))]
  {
    var p := k / 2;
    FillStep(n, p);
    assert k == 2 * p || k == 2 * p + 1;
  }

  lemma {:induction false} PartEnds(n: seq<nibble>, k: nat)
    requires |n| % 2 == 0 && k < 2 && (k == 1 && n != [] ==> n[0] == 0)
    ensures PartData(n, k) == seq(|n| / 2, _ => 0)
    ensures PartData(n, |n|) == Join(n)
  {
    assert Filled(n, |n|) == n;
  }

  method PutNibble(data: array<octet>, p: nat, shift: nat, b: nibble)
    requires p < data.Length
    modifies data
    ensures data[..] == old(data[..])[p := OrOctet(old(data[p]), Placed(shift, b))]
  {
    if shift % 2 == 0 {
      data[p] := OrOctet(data[p], Byte(b, 0));
    } else {
      data[p] := OrOctet(data[p], b);
    }
  }

  /** `string2data`; no octets at all (NULL) for empty text. */
  method StringToData(s: string) returns (data: array<octet>)
    ensures fresh(data)
    ensures data[..] == HexData(s)
  {
    var shift := if |s| % 2 == 0 then 0 else 1;
    ghost var odd := shift;
    ghost var n := DigitsOf(s, odd);
    PartEnds(n, odd);
    data := new octet[DataSize(s)](_ => 0);
    var p := 0;
    for i := 0 to |s|
      invariant shift == odd + i && p == shift / 2
      invariant data[..] == PartData(n, shift)
    {
      var b := Scan(s, i);
      assert n[shift] == b;
      PartStep(n, shift);
      PutNibble(data, p, shift, b);
      if shift % 2 == 1 {
        p := p + 1;
      }
      shift := shift + 1;
    }
  }

  // ---------------------------------------------------------------- round trips

  lemma {:induction false} DigitRoundTrip(v: nibble)
    ensures HexValue(HexDigit(v)) == v && HexDigit(v) != '\0'
    ensures IsHex(HexDigit(v)) && !IsSpace(HexDigit(v))
  {
  }

  /** Lower-casing is what writing a digit's value back does, and only for digits. */
  lemma {:induction false} DigitWrittenBack(s: string, i: nat)
    requires i < |s|
    ensures HexDigit(Scan(s, i)) == Lower(s[i]) <==> IsHex(s[i])
    ensures IsHex(s[i]) ==> Scan(s, i) == HexValue(s[i])
  {
    if IsSpace(s[i]) {
      DigitRoundTrip(Scan(s, i));
    }
  }

  const LOWER_DIGITS := "0123456789abcdef"
  const UPPER_DIGITS := "0123456789ABCDEF"

  /** A digit is written in lower case, and read in either case. */
  lemma {:induction false} DigitTable(v: nibble, c: char)
    ensures HexDigit(v) == LOWER_DIGITS[v]
    ensures HexValue(c) == v <==> c == LOWER_DIGITS[v] || c == UPPER_DIGITS[v]
  {
  }

  /** Reading skips white space, and reads nothing at the end of the text or at another character. */
  lemma {:induction false} ScanSkips(s: string, i: nat, j: nat)
    requires i <= j <= |s| && forall k :: i <= k < j ==> s[k] in " \t\n\r" || s[k] == 11 as char || s[k] == 12 as char
    requires j < |s| ==> s[j] !in " \t\n\r" && s[j] != 11 as char && s[j] != 12 as char
    ensures j < |s| && IsHex(s[j]) ==> Scan(s, i) == HexValue(s[j])
    ensures j == |s| || !IsHex(s[j]) ==> Scan(s, i) == 0
    decreases j - i
  {
    if i < j {
      ScanSkips(s, i + 1, j);
    }
  }

  lemma {:induction false} HexTextIsHex(data: seq<octet>)
    ensures AllHex(HexText(data))
  {
    forall i | 0 <= i < 2 * |data|
      ensures IsHex(HexText(data)[i])
    {
      DigitRoundTrip(Split(data)[i]);
    }
  }

  lemma {:induction false} JoinSplit(data: seq<octet>)
    ensures Join(Split(data)) == data
  {
  }

  lemma {:induction false} SplitPair(n: seq<nibble>, p: nat)
    requires |n| % 2 == 0 && 2 * p + 1 < |n|
    ensures Split(Join(n))[2 * p] == n[2 * p] && Split(Join(n))[2 * p + 1] == n[2 * p + 1]
  {
    assert Join(n)[p] == Byte(n[2 * p], n[2 * p + 1]);
  }

  lemma {:induction false} SplitJoin(n: seq<nibble>)
    requires |n| % 2 == 0
    ensures Split(Join(n)) == n
  {
    forall k | 0 <= k < |n|
      ensures Split(Join(n))[k] == n[k]
    {
      SplitPair(n, k / 2);
      assert k == 2 * (k / 2) || k == 2 * (k / 2) + 1;
    }
  }

  /** Octets written in hexadecimal read back as they were. */
  lemma {:induction false} DataRoundTrip(data: seq<octet>)
    ensures HexData(HexText(data)) == data
  {
    var s, d := HexText(data), Split(data);
    var n := DigitsOf(s, 0);
    forall i | 0 <= i < |d|
      ensures n[i] == d[i]
    {
      DigitRoundTrip(d[i]);
      DigitWrittenBack(s, i);
      assert n[0 + i] == Scan(s, i);
    }
    assert n == d;
    JoinSplit(data);
  }

  lemma {:induction false} HexTextConcat(a: seq<octet>, b: seq<octet>)
    ensures HexText(a + b) == HexText(a) + HexText(b)
  {
    assert Split(a + b) == Split(a) + Split(b);
  }

  function LowerText(s: string): string {
    seq(|s|, i requires 0 <= i < |s| => Lower(s[i]))
  }

  function Padded(s: string): string {
    if |s| % 2 == 0 then s else "0" + s
  }

  /** Text read as hexadecimal and written back comes out in lower case, padded on the left
      to even length: for hexadecimal text, and for no other. */
  lemma {:induction false} TextRoundTrip(s: string)
    ensures HexText(HexData(s)) == Padded(LowerText(s)) <==> AllHex(s)
  {
    SplitJoin(Nibbles(s));
    DigitsPadded(s, Scans(s));
    ScansWrittenBack(s);
    PaddedInjective(Digits(Scans(s)), LowerText(s));
  }

  lemma {:induction false} DigitsPadded(s: string, n: seq<nibble>)
    requires |n| == |s|
    ensures Digits((if |s| % 2 == 0 then [] else [0]) + n) == Padded(Digits(n))
  {
    if |s| % 2 == 0 {
      assert [] + n == n;
    } else {
      assert Digits([0] + n) == "0" + Digits(n);
    }
  }

  lemma {:induction false} ScansWrittenBack(s: string)
    ensures Digits(Scans(s)) == LowerText(s) <==> AllHex(s)
  {
    forall i | 0 <= i < |s|
      ensures Digits(Scans(s))[i] == LowerText(s)[i] <==> IsHex(s[i])
    {
      DigitWrittenBack(s, i);
    }
  }

  lemma {:induction false} PaddedInjective(s: string, t: string)
    requires |s| == |t|
    ensures Padded(s) == Padded(t) <==> s == t
  {
    assert Padded(s)[|s| % 2..] == s && Padded(t)[|t| % 2..] == t;
  }

  /** Octets are read part by part from even-length hexadecimal parts. */
  lemma {:induction false} HexDataConcat(s: string, t: string)
    requires AllHex(s) && AllHex(t) && |s| % 2 == 0 && |t| % 2 == 0
    ensures HexData(s + t) == HexData(s) + HexData(t)
  {
    ScansConcat(s, t);
    assert Nibbles(s + t) == Nibbles(s) + Nibbles(t);
    JoinConcat(Nibbles(s), Nibbles(t));
  }

  lemma {:induction false} ScansConcat(s: string, t: string)
    requires AllHex(s) && AllHex(t)
    ensures Scans(s + t) == Scans(s) + Scans(t)
  {
    forall k | 0 <= k < |s + t|
      ensures Scans(s + t)[k] == (Scans(s) + Scans(t))[k]
    {
      DigitWrittenBack(s + t, k);
      if k < |s| {
        DigitWrittenBack(s, k);
      } else {
        DigitWrittenBack(t, k - |s|);
      }
    }
  }

  lemma {:induction false} JoinConcat(m: seq<nibble>, n: seq<nibble>)
    requires |m| % 2 == 0 && |n| % 2 == 0
    ensures Join(m + n) == Join(m) + Join(n)
  {
  }

  /** The number that nibbles spell, most significant first. */
  function NibbleNumber(n: seq<nibble>): nat {
    if n == [] then 0 else 16 * NibbleNumber(n[..|n| - 1]) + n[|n| - 1]
  }

  /** The number that octets spell, most significant first. */
  function OctetNumber(data: seq<octet>): nat {
    if data == [] then 0 else 256 * OctetNumber(data[..|data| - 1]) + data[|data| - 1]
  }

  /** The number a hexadecimal text stands for. */
  function HexNumber(s: string): nat
    requires AllHex(s)
  {
    if s == "" then 0 else 16 * HexNumber(s[..|s| - 1]) + HexValue(s[|s| - 1])
  }

  lemma {:induction false} JoinNumber(n: seq<nibble>)
    requires |n| % 2 == 0
    ensures OctetNumber(Join(n)) == NibbleNumber(n)
  {
    if n != [] {
      var front := n[..|n| - 2];
      JoinNumber(front);
      assert n[..|n| - 1][..|n| - 2] == front;
      assert Join(n)[..|Join(n)| - 1] == Join(front);
    }
  }

  lemma {:induction false} ScansNumber(s: string, t: string)
    requires AllHex(s) && AllHex(t)
    ensures NibbleNumber(Scans(s + t)[..|s|]) == HexNumber(s)
    decreases |s|
  {
    if s == "" {
      assert Scans(s + t)[..0] == [];
    } else {
      var front, last := s[..|s| - 1], s[|s| - 1..];
      assert s + t == front + (last + t);
      ScansNumber(front, last + t);
      DigitWrittenBack(s + t, |s| - 1);
      assert Scans(s + t)[..|s|][..|s| - 1] == Scans(s + t)[..|front|];
    }
  }

  lemma {:induction false} LeadingZero(n: seq<nibble>)
    ensures NibbleNumber([0] + n) == NibbleNumber(n)
  {
    if n == [] {
      assert ([0] + n)[..0] == [];
    } else {
      LeadingZero(n[..|n| - 1]);
      assert ([0] + n)[..|n|] == [0] + n[..|n| - 1];
    }
  }

  /** The octets read from hexadecimal text spell the number the text stands for, of even length
      or odd. */
  lemma {:induction false} ValueRead(s: string)
    requires AllHex(s)
    ensures OctetNumber(HexData(s)) == HexNumber(s)
  {
    JoinNumber(Nibbles(s));
    NibblesNumber(s);
    AllScansNumber(s);
  }

  lemma {:induction false} AllScansNumber(s: string)
    requires AllHex(s)
    ensures NibbleNumber(Scans(s)) == HexNumber(s)
  {
    ScansNumber(s, "");
    assert s + "" == s && Scans(s)[..|s|] == Scans(s);
  }

  lemma {:induction false} NibblesNumber(s: string)
    ensures NibbleNumber(Nibbles(s)) == NibbleNumber(Scans(s))
  {
    if |s| % 2 == 0 {
      assert Nibbles(s) == Scans(s);
    } else {
      LeadingZero(Scans(s));
    }
  }

  /** And so does the text written for octets. */
  lemma {:induction false} ValueWritten(data: seq<octet>)
    ensures AllHex(HexText(data)) && HexNumber(HexText(data)) == OctetNumber(data)
  {
    HexTextIsHex(data);
    DataRoundTrip(data);
    ValueRead(HexText(data));
  }
}
