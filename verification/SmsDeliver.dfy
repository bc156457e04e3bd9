/** What a received message's fields mean to a reader of the PDU the framework is given (3GPP TS
    23.040, TS 23.038). */
module SmsDeliver {
  import opened Octets
  import opened Options
  import opened Hex
  import opened Numbers
  import opened Gsm7
  import opened Sms

  // ---------------------------------------------------------------- originating address

  /** An alphanumeric address (TS 23.040, section 9.1.2.5): the number of semi-octets, the type with
      number type 5 in bits 4 to 6, and packed characters, as many as the semi-octets can hold. */
  function ReadName(address: string): Option<seq<septet>> {
    var octets := HexData(address);
    if |octets| < 2 || octets[1] / 16 != 8 + 5 then None
    else
      var name := Unpack(octets[2..]);
      var n := octets[0] as int * 4 / 7;
      if |octets| != 2 + (octets[0] as int + 1) / 2 || n > |name| then None else Some(name[..n])
  }

  lemma {:induction false} NameSize(n: nat)
    ensures AlphaSemiOctets(n) * 4 / 7 == n
  {
    var q, r := n / 4, n % 4;
    assert n * 14 == 8 * (7 * q) + 14 * r;
    assert AlphaSemiOctets(n) == 7 * q + (14 * r + 7) / 8;
  }

  lemma {:induction false} UpperType()
    ensures HexData("D0") == [0xD0] && AllHex("D0")
  {
    assert Scan("D0", 0) == 13 && Scan("D0", 1) == 0;
    assert Scans("D0") == [13, 0];
    assert Nibbles("D0") == [13, 0];
  }

  lemma {:induction false} HeadOctets(len: seq<octet>)
    ensures HexData(HexText(len) + "D0") == len + [0xD0]
    ensures AllHex(HexText(len) + "D0") && |HexText(len) + "D0"| % 2 == 0
  {
    UpperType();
    HexTextIsHex(len);
    HexDataConcat(HexText(len), "D0");
    DataRoundTrip(len);
  }

  lemma {:induction false} NameParts(len: seq<octet>, packed: seq<octet>)
    ensures HexData(HexText(len) + "D0" + HexText(packed)) == len + [0xD0] + packed
  {
    HeadOctets(len);
    HexTextIsHex(packed);
    HexDataConcat(HexText(len) + "D0", HexText(packed));
    DataRoundTrip(packed);
  }

  /** The octets of an alphanumeric address. */
  lemma {:induction false} NameOctets(m: NetText)
    requires Addressable(m) && m.tonFrom == ALPHANUMERIC
    ensures HexData(Address(m)) == [AlphaSemiOctets(|m.from|), 0xD0] + Pack(Codes(m.from))
  {
    var len := [AlphaSemiOctets(|m.from|)];
    NameParts(len, Pack(Codes(m.from)));
    assert len + [0xD0] == [AlphaSemiOctets(|m.from|), 0xD0];
  }

  /** A name as sender reads back whole, whatever its length. */
  lemma {:induction false} NameRoundTrip(m: NetText)
    requires Addressable(m) && m.tonFrom == ALPHANUMERIC
    ensures ReadName(Address(m)) == Some(Codes(m.from))
  {
    var n, packed := |m.from|, Pack(Codes(m.from));
    NameOctets(m);
    NameSize(n);
    AlphaCoversPacked(n);
    UnpackPack(Codes(m.from));
    var octets := HexData(Address(m));
    assert octets[2..] == packed;
    assert Unpack(packed)[..n] == Codes(m.from);
  }

  // ---------------------------------------------------------------- data coding scheme and user data

  lemma {:induction false} Bits(x: octet)
    ensures Bit(x, 0) == (x % 2 == 1) && Bit(x, 1) == (x / 2 % 2 == 1) && Bit(x, 2) == (x / 4 % 2 == 1)
    ensures Bit(x, 3) == (x / 8 % 2 == 1) && Bit(x, 4) == (x / 16 % 2 == 1)
    ensures x < 32 ==> !Bit(x, 5) && !Bit(x, 6) && !Bit(x, 7)
  {
    assert Bit(x, 2) == Bit(x / 2, 1) == Bit(x / 4, 0);
    assert Bit(x, 3) == Bit(x / 2, 2) == Bit(x / 4, 1) == Bit(x / 8, 0);
    assert Bit(x, 4) == Bit(x / 2, 3) == Bit(x / 4, 2) == Bit(x / 8, 1) == Bit(x / 16, 0);
    if x < 32 {
      Pow2Small();
      NoHighBit(x, 5, 5);
      NoHighBit(x, 5, 6);
      NoHighBit(x, 5, 7);
    }
  }

  lemma {:induction false} Pow2Small()
    ensures Pow2(5) == 32
  {
    assert Pow2(5) == 2 * Pow2(4) == 4 * Pow2(3) == 8 * Pow2(2) == 16 * Pow2(1) == 32 * Pow2(0);
  }

  /** The data coding scheme of the general group (TS 23.038, section 4): the alphabet in bits 2 and
      3, and class 0, a flash message, where bit 4 says that there is a class. */
  lemma {:induction false} SchemeMeaning(m: NetText)
    ensures Bit(Dcs(m), 2) <==> m.msgType == MMS
    ensures Bit(Dcs(m), 3) <==> m.msgType != MMS && m.alphabetType == UNICODE
    ensures Bit(Dcs(m), 4) <==> m.bFlash == 1 && m.classType == 0
    ensures forall j :: 0 <= j < 2 || 5 <= j < 8 ==> !Bit(Dcs(m), j)
  {
    Bits(Dcs(m));
  }

  /** The announced length covers the user data: in septets for 7-bit text, else in octets. */
  lemma {:induction false} LengthCovers(m: NetText)
    requires Encodable(m)
    ensures |UserData(m)| == if IsGsm7(m) then (7 * UserDataLength(m) + 7) / 8 else UserDataLength(m)
  {
  }

  /** The user data of a part starts with its header, and its length; other user data is the text
      from the start. */
  lemma {:induction false} HeaderInFront(m: NetText)
    requires Encodable(m)
    ensures m.nUDH == 1 ==> UserData(m)[0] == 5 && forall i :: 0 <= i < 5 && i < |m.body| ==> UserData(m)[1 + i] == m.body[i]
    ensures m.nUDH != 1 ==> if IsGsm7(m) then Unpack(UserData(m))[..|m.body|] == m.body else UserData(m) == m.body
  {
    if IsGsm7(m) && m.nUDH != 1 {
      UnpackPack(m.body);
    }
  }
}
