/** A received message put into a submission to its own sender: what of it the modem is given. */
module SmsForward {
  import opened Octets
  import opened Options
  import opened Hex
  import opened Numbers
  import opened Gsm7
  import opened OwnSeptets
  import opened Sms

  /** A received message put into a submission to its own sender: type, reference, the
      address and the user data as received, TP-PID 0. */
  function ForwardText(pduType: octet, ref: octet, m: NetText): string
    requires Encodable(m) && Addressable(m)
  {
    HexText([pduType, ref]) + Address(m) + HexText([0, Dcs(m), UserDataLength(m)]) + HexText(UserData(m))
  }

  /** The text is NUL-terminated: nothing follows its first NUL. */
  predicate NulTerminated(x: seq<octet>) {
    forall i, j :: 0 <= i < j < |x| && x[i] == 0 ==> x[j] == 0
  }

  lemma {:induction false} UpToNulWhole(x: seq<octet>)
    ensures UpToNul(x) == x <==> NulTerminated(x)
  {
    var n := StrLen(x);
    if NulTerminated(x) {
      forall j | n <= j < |x|
        ensures x[j] == 0
      {
        assert x[n] == 0;
      }
    }
    if UpToNul(x) == x {
      forall i, j | 0 <= i < j < |x| && x[i] == 0
        ensures x[j] == 0
      {
        assert n <= i;
        assert UpToNul(x)[j] == 0;
      }
    }
  }

  /** The septets after the placeholder read back as the text. */
  lemma {:induction false} TextAfterHeader(text: seq<septet>, ud: seq<octet>)
    requires |text| >= 7 && |ud| == PackedLength(|text|)
    requires forall p :: 6 <= p < |ud| ==> ud[p] == Pack(text)[p]
    ensures |Unpack(ud)| >= |text| && Unpack(ud)[7..|text|] == text[7..]
    ensures Spill(ud) == 0
  {
    PackedSpill(text, ud);
    UnpackPack(text);
    NoSeptetLost(|text|);
    var packed := Pack(text);
    forall i | 7 <= i < |text|
      ensures Unpack(ud)[i] == text[i]
    {
      TailSeptet(ud, packed, i);
      assert Unpack(packed)[i] == text[i];
    }
  }

  /** Reading multi-part 7-bit user data back: the five header octets and the text. */
  lemma {:induction false} MultiPartBody(body: seq<octet>, ud: seq<octet>, dcs: octet)
    requires 5 <= |body| <= BODY_SIZE && dcs != 8
    requires forall i :: 5 <= i < |body| ==> body[i] < 128
    requires ud == [5] + body[..5] + Pack(PLACEHOLDER + UpToNul(body[5..]))[6..]
    ensures BodyOf(dcs, true, |body| + 2, ud) == Some(body[..5] + UpToNul(body[5..]))
  {
    var text := PLACEHOLDER + UpToNul(body[5..]);
    TextIsSeptets(body[5..]);
    TextAfterHeader(text, ud);
    assert text[7..] == UpToNul(body[5..]);
    assert ud[1..6] == body[..5];
  }

  /** The octet after the header has its lowest bit clear: the fill bit that rounds the
      49 bits of the placeholder down to the 48 of the header. */
  lemma {:induction false} FillBit(m: NetText)
    requires Encodable(m) && IsGsm7(m) && m.nUDH == 1
    ensures |UserData(m)| > 6 && !Bit(UserData(m)[6], 0)
  {
    var text := PLACEHOLDER + UpToNul(m.body[5..]);
    PackBits(text, 48);
    assert !Bit(48, 6) by {
      assert Bit(48, 6) == Bit(24, 5) == Bit(12, 4) == Bit(6, 3) == Bit(3, 2) == Bit(1, 1) == Bit(0, 0);
    }
    assert text[6] == 48;
    assert UserData(m)[6] == Pack(text)[6];
  }

  function TypeOfAddress(m: NetText): octet {
    if m.tonFrom == 1 then 0x91 else 0x81
  }

  /** The octets of a PDU with the given fields, TP-MR `ref` and TP-PID 0. */
  function Layout(f: Fields, ref: octet): seq<octet> {
    [f.pduType, ref, f.daLength, f.toa] + f.number + [0, f.dcs, f.udl] + f.ud
  }

  /** The parser finds the fields a PDU was laid out from. */
  lemma {:induction false} LocateLayout(f: Fields, ref: octet)
    requires |f.number| == f.daLength / 2 + f.daLength % 2 && NumberFits(|f.number|)
    ensures Locate(Layout(f, ref)) == Some(f)
  {
    var pdu, n := Layout(f, ref), |f.number|;
    assert pdu[4..4 + n] == f.number;
    assert pdu[7 + n..] == f.ud;
  }

  /** The fields of a forwarded message. */
  function ForwardFields(pduType: octet, m: NetText): Fields
    requires Encodable(m) && Addressable(m)
  {
    Fields(pduType, |m.from|, TypeOfAddress(m), HexData(SemiOctets(m.from)), Dcs(m), UserDataLength(m), UserData(m))
  }

  lemma {:induction false} SemiOctetsAreHex(number: string)
    requires AllDigits(number)
    ensures AllHex(SemiOctets(number)) && |HexData(SemiOctets(number))| == |number| / 2 + |number| % 2
  {
    var padded := FPadded(number);
    forall i | 0 <= i < |padded|
      ensures IsHex(Swapped(padded)[i])
    {
      assert IsHex(padded[Partner(i)]);
    }
  }

  lemma {:induction false} TypeText(m: NetText)
    ensures HexText([TypeOfAddress(m)]) == if m.tonFrom == 1 then "91" else "81"
  {
    assert Split([0x91]) == [9, 1] && Split([0x81]) == [8, 1];
  }

  lemma {:induction false} AppendHex(text: string, data: seq<octet>)
    requires AllHex(text) && |text| % 2 == 0
    ensures HexData(text + HexText(data)) == HexData(text) + data
    ensures AllHex(text + HexText(data))
  {
    HexTextIsHex(data);
    HexDataConcat(text, HexText(data));
    DataRoundTrip(data);
  }

  lemma {:induction false} ReadParts(head: seq<octet>, number: string, fields: seq<octet>, ud: seq<octet>)
    requires AllHex(number) && |number| % 2 == 0
    ensures HexData(HexText(head) + number + HexText(fields) + HexText(ud)) == head + HexData(number) + fields + ud
  {
    HexTextIsHex(head);
    HexDataConcat(HexText(head), number);
    DataRoundTrip(head);
    AppendHex(HexText(head) + number, fields);
    AppendHex(HexText(head) + number + HexText(fields), ud);
  }

  lemma {:induction false} HeadText(a: octet, b: octet, m: NetText)
    requires Addressable(m) && m.tonFrom != ALPHANUMERIC
    ensures HexText([a, b]) + Address(m) == HexText([a, b, |m.from|, TypeOfAddress(m)]) + SemiOctets(m.from)
  {
    TypeText(m);
    HexTextConcat([a, b], [|m.from|]);
    HexTextConcat([a, b] + [|m.from|], [TypeOfAddress(m)]);
    assert [a, b] + [|m.from|] + [TypeOfAddress(m)] == [a, b, |m.from|, TypeOfAddress(m)];
    assert HexText([a, b]) + Address(m)
        == HexText([a, b]) + HexText([|m.from|]) + HexText([TypeOfAddress(m)]) + SemiOctets(m.from);
  }

  lemma {:induction false} ForwardParts(pduType: octet, ref: octet, m: NetText)
    requires Encodable(m) && Addressable(m) && m.tonFrom != ALPHANUMERIC && AllDigits(m.from)
    ensures HexData(ForwardText(pduType, ref, m)) == Layout(ForwardFields(pduType, m), ref)
  {
    HeadText(pduType, ref, m);
    SemiOctetsAreHex(m.from);
    ReadParts([pduType, ref, |m.from|, TypeOfAddress(m)], SemiOctets(m.from),
              [0, Dcs(m), UserDataLength(m)], UserData(m));
  }

  lemma {:induction false} UserDataSize(m: NetText)
    requires Encodable(m)
    ensures 0 < |UserData(m)| <= BODY_SIZE + 1
  {
  }

  lemma {:induction false} SinglePartBody(body: seq<octet>, dcs: octet)
    requires 0 < |body| <= BODY_SIZE && dcs != 8
    requires forall i :: 0 <= i < |body| ==> body[i] < 128
    ensures BodyOf(dcs, false, |body|, Pack(body)) == Some(body)
  {
    PackedSpill(body, Pack(body));
    UnpackPack(body);
    assert [] + Unpack(Pack(body))[0..|body|] == body;
  }

  /** Octets that are taken for 7-bit text come out as they are only if nothing is in them. */
  lemma {:induction false} MmsBody(body: seq<octet>, dcs: octet)
    requires 0 < |body| <= BODY_SIZE && dcs != 8
    ensures BodyOf(dcs, false, |body|, body) == Some(body) <==> Silent(body)
  {
    FixedText(body);
    assert [] + Unpack(body)[0..|body|] == Unpack(body)[..|body|];
    if Silent(body) {
      SilentSpill(body);
    }
  }

  lemma {:induction false} UnicodeBody(m: NetText)
    requires Encodable(m) && Dcs(m) == 8
    ensures BodyOf(8, m.nUDH == 1, UserDataLength(m), UserData(m)) == if m.nUDH == 1 && |m.body| < 5 then None else Some(m.body)
  {
    if m.nUDH == 1 {
      assert UserData(m)[1..UserDataLength(m)] == m.body;
    } else {
      assert UserData(m)[..UserDataLength(m)] == m.body;
    }
  }

  /** The body the parser finds in the user data of a received message: 7-bit text, in several
      parts up to its first NUL; Unicode text, unless it is a multi-part body shorter than its
      header. What it does not know as Unicode it unpacks as septets. */
  lemma {:induction false} BodyBack(m: NetText)
    requires Encodable(m)
    ensures var body := BodyOf(Dcs(m), m.nUDH == 1, UserDataLength(m), UserData(m));
            && (IsGsm7(m) ==> body == Some(if m.nUDH == 1 then m.body[..5] + UpToNul(m.body[5..]) else m.body))
            && (Dcs(m) == 8 ==> body == if m.nUDH == 1 && |m.body| < 5 then None else Some(m.body))
            && (!IsGsm7(m) && Dcs(m) != 8 && m.nUDH != 1 ==> (body == Some(m.body) <==> Silent(m.body)))
  {
    if IsGsm7(m) {
      if m.nUDH == 1 {
        MultiPartBody(m.body, UserData(m), Dcs(m));
      } else {
        SinglePartBody(m.body, Dcs(m));
      }
    } else if Dcs(m) == 8 {
      UnicodeBody(m);
    } else if m.nUDH != 1 {
      MmsBody(m.body, Dcs(m));
    }
  }

  /** The modem is given the sender, length, body and alphabet that were received. */
  predicate TextArrives(m: NetText, result: Submit) {
    && result.Sent?
    && result.message.number == m.from && result.message.lengthToNumber == |m.from|
    && result.message.international == (m.tonFrom == 1)
    && result.message.header == (m.nUDH == 1)
    && result.message.alphabetType == (if m.alphabetType == UNICODE then UNICODE else 0)
    && result.message.messageLength == |m.body|
    && result.message.body == m.body
  }

  lemma {:induction false} NumberRead(number: CString)
    requires AllDigits(number)
    ensures ReadNumber(HexData(SemiOctets(number))) == number
  {
    NumberRoundTrip(number);
  }

  lemma {:induction false} ForwardParsed(pduType: octet, ref: octet, m: NetText, smsc: seq<octet>)
    requires Encodable(m) && Addressable(m) && m.tonFrom != ALPHANUMERIC && AllDigits(m.from)
    requires GoodSmsc(smsc) && |smsc| <= 64
    ensures ParseSubmit(HexData(ForwardText(pduType, ref, m)), smsc)
         == match BodyOf(Dcs(m), MultiPartType(pduType), UserDataLength(m), UserData(m))
            case None => OutOfBounds
            case Some(body) => Sent(Compose(ForwardFields(pduType, m), smsc, body))
  {
    ForwardParts(pduType, ref, m);
    UserDataSize(m);
    SemiOctetsAreHex(m.from);
    LocateLayout(ForwardFields(pduType, m), ref);
  }

  lemma {:induction false} HeaderedText(body: seq<octet>)
    requires |body| >= 5
    ensures body[..5] + UpToNul(body[5..]) == body <==> NulTerminated(body[5..])
  {
    UpToNulWhole(body[5..]);
    assert (body[..5] + UpToNul(body[5..]))[5..] == UpToNul(body[5..]);
    assert body == body[..5] + body[5..];
  }

  lemma {:induction false} ComposedArrives(f: Fields, m: NetText, smsc: seq<octet>, body: seq<octet>)
    requires Encodable(m) && GoodSmsc(smsc) && |m.from| <= NUMBER_SIZE
    requires f.daLength == |m.from| && f.toa == TypeOfAddress(m) && ReadNumber(f.number) == m.from
    requires f.dcs == Dcs(m) && f.udl == UserDataLength(m) && (MultiPartType(f.pduType) <==> m.nUDH == 1)
    ensures TextArrives(m, Sent(Compose(f, smsc, body)))
       <==> body == m.body && if m.msgType == MMS then m.alphabetType != UNICODE && m.nUDH != 1 else IsGsm7(m) || Dcs(m) == 8
  {
  }

  /** Numbers arrive. */
  lemma {:induction false} DigitsArrive(pduType: octet, ref: octet, m: NetText, smsc: seq<octet>)
    requires Encodable(m) && Addressable(m) && m.tonFrom != ALPHANUMERIC && AllDigits(m.from)
    requires GoodSmsc(smsc) && |smsc| <= 64 && (MultiPartType(pduType) <==> m.nUDH == 1)
    ensures TextArrives(m, ParseSubmit(HexData(ForwardText(pduType, ref, m)), smsc)) <==> TextSurvives(m)
  {
    ForwardParsed(pduType, ref, m, smsc);
    NumberRead(m.from);
    BodyBack(m);
    var body := BodyOf(Dcs(m), m.nUDH == 1, UserDataLength(m), UserData(m));
    if body.Some? {
      ComposedArrives(ForwardFields(pduType, m), m, smsc, body.value);
    }
    if IsGsm7(m) && m.nUDH == 1 {
      HeaderedText(m.body);
    }
  }

  // ---------------------------------------------------------------- senders that do not come back

  /** Whatever is sent has its number and the number's length from the PDU. */
  lemma {:induction false} NumberSent(pdu: seq<octet>, smsc: seq<octet>)
    requires ParseSubmit(pdu, smsc).Sent?
    ensures |pdu| > 2 && 4 + pdu[2] / 2 + pdu[2] % 2 <= |pdu|
    ensures ParseSubmit(pdu, smsc).message.lengthToNumber == pdu[2]
    ensures ParseSubmit(pdu, smsc).message.number == ReadNumber(pdu[4..4 + pdu[2] / 2 + pdu[2] % 2])
  {
  }

  /** A text that starts with written octets is read with them in front. */
  lemma {:induction false} OctetRead(text: string, head: seq<octet>, p: nat)
    requires p < |head| && HexText(head) <= text && |text| % 2 == 0
    ensures p < |HexData(text)| && HexData(text)[p] == head[p]
  {
    var written := HexText(head);
    HexTextIsHex(head);
    DataRoundTrip(head);
    assert text[2 * p] == written[2 * p] && text[2 * p + 1] == written[2 * p + 1];
    PairRead(text, p);
    PairRead(written, p);
  }

  lemma {:induction false} SplitFrom(data: seq<octet>, n: nat, j: nat)
    requires 4 + n <= |data| && j < 2 * n
    ensures Split(data[4..4 + n])[j] == Split(data)[8 + j]
  {
    assert (8 + j) / 2 == 4 + j / 2 && (8 + j) % 2 == j % 2;
    assert data[4..4 + n][j / 2] == data[4 + j / 2];
  }

  lemma {:induction false} SemiOctetNibble(text: string, n: nat, j: nat)
    requires |text| % 2 == 0 && 8 + 2 * n <= |text| && j < 2 * n
    ensures |HexData(text)| >= 4 + n && Split(HexData(text)[4..4 + n])[j] == Scan(text, 8 + j)
  {
    assert [] + Scans(text) == Scans(text);
    SplitJoin(Scans(text));
    SplitFrom(HexData(text), n, j);
  }

  lemma {:induction false} PartnerPlace(text: string, padded: string, i: nat)
    requires |padded| % 2 == 0 && i < |padded| && 8 + |padded| <= |text| && text[8..8 + |padded|] == Swapped(padded)
    ensures Partner(i) < |padded| && Partner(Partner(i)) == i && text[8 + Partner(i)] == padded[i]
  {
    assert text[8 + Partner(i)] == text[8..8 + |padded|][Partner(i)];
  }

  lemma {:induction false} MeaningAt(data: seq<octet>, i: nat)
    requires i < 2 * |data|
    ensures Partner(i) < 2 * |data| && BcdText(data)[i] == BcdDigit(Split(data)[Partner(i)])
  {
  }

  /** A semi-octet of a PDU from octet 4 on, whatever character it was written with. */
  lemma {:induction false} SemiOctetRead(text: string, n: nat, i: nat, c: char)
    requires |text| % 2 == 0 && 8 + 2 * n <= |text| && i < 2 * n && Partner(i) < 2 * n
    requires text[8 + Partner(i)] == c != '\0' && Partner(Partner(i)) == i
    ensures |HexData(text)| >= 4 + n
    ensures BcdText(HexData(text)[4..4 + n])[i] == c <==> IsDigit(c)
  {
    SemiOctetNibble(text, n, Partner(i));
    MeaningAt(HexData(text)[4..4 + n], i);
    DigitMeaning(text, 8 + Partner(i));
  }

  lemma {:induction false} AlphaLonger(n: nat)
    requires n > 0
    ensures AlphaSemiOctets(n) > n
  {
  }

  /** A forwarded message starts with its type, its reference and the announced length. */
  lemma {:induction false} ForwardHead(pduType: octet, ref: octet, m: NetText)
    requires Encodable(m) && Addressable(m)
    ensures var text, len := ForwardText(pduType, ref, m), if m.tonFrom == ALPHANUMERIC then AlphaSemiOctets(|m.from|) else |m.from|;
            |text| % 2 == 0 && HexText([pduType, ref, len]) <= text
  {
    var len: octet := if m.tonFrom == ALPHANUMERIC then AlphaSemiOctets(|m.from|) else |m.from|;
    HexTextConcat([pduType, ref], [len]);
    assert [pduType, ref] + [len] == [pduType, ref, len];
    AddressHead(m, len);
  }

  lemma {:induction false} EvenBehind(head: string, kind: string, digits: string, data: seq<octet>)
    requires |head| % 2 == 0 && |kind| == 2 && |digits| % 2 == 0
    ensures head <= head + kind + digits && |head + kind + digits| % 2 == 0
    ensures head <= head + kind + HexText(data) && |head + kind + HexText(data)| % 2 == 0
  {
  }

  lemma {:induction false} AddressHead(m: NetText, len: octet)
    requires Addressable(m) && len == if m.tonFrom == ALPHANUMERIC then AlphaSemiOctets(|m.from|) else |m.from|
    ensures HexText([len]) <= Address(m) && |Address(m)| % 2 == 0
  {
    if m.tonFrom == ALPHANUMERIC {
      EvenBehind(HexText([len]), "D0", "", Pack(Codes(m.from)));
    } else {
      EvenBehind(HexText([len]), if m.tonFrom == 1 then "91" else "81", SemiOctets(m.from), []);
    }
  }

  /** An alphanumeric sender is announced with another length than it has. */
  lemma {:induction false} NameIsLost(pduType: octet, ref: octet, m: NetText, smsc: seq<octet>)
    requires Encodable(m) && Addressable(m) && m.tonFrom == ALPHANUMERIC
    ensures !TextArrives(m, ParseSubmit(HexData(ForwardText(pduType, ref, m)), smsc))
  {
    var text, len := ForwardText(pduType, ref, m), AlphaSemiOctets(|m.from|);
    ForwardHead(pduType, ref, m);
    AlphaLonger(|m.from|);
    LengthIsLost(text, [pduType, ref, len], m, smsc);
  }

  lemma {:induction false} LengthIsLost(text: string, head: seq<octet>, m: NetText, smsc: seq<octet>)
    requires |head| == 3 && head[2] != |m.from| && |text| % 2 == 0 && HexText(head) <= text
    ensures !TextArrives(m, ParseSubmit(HexData(text), smsc))
  {
    OctetRead(text, head, 2);
    if ParseSubmit(HexData(text), smsc).Sent? {
      NumberSent(HexData(text), smsc);
    }
  }

  lemma {:induction false} NumberText(pduType: octet, ref: octet, m: NetText)
    requires Encodable(m) && Addressable(m) && m.tonFrom != ALPHANUMERIC
    ensures var text, padded := ForwardText(pduType, ref, m), FPadded(m.from);
            8 + |padded| <= |text| && text[8..8 + |padded|] == Swapped(padded)
  {
    HeadText(pduType, ref, m);
    var head := HexText([pduType, ref, |m.from|, TypeOfAddress(m)]);
    var tail := HexText([0, Dcs(m), UserDataLength(m)]) + HexText(UserData(m));
    assert ForwardText(pduType, ref, m) == head + Swapped(FPadded(m.from)) + tail;
  }

  /** A PDU with the octets in front and the number where its address is. */
  predicate Written(text: string, head: seq<octet>, number: CString) {
    && |text| % 2 == 0 && HexText(head) <= text
    && 8 + |FPadded(number)| <= |text| && text[8..8 + |FPadded(number)|] == Swapped(FPadded(number))
  }

  /** The number read from the PDU differs in character i. */
  predicate ReadsOther(pdu: seq<octet>, number: CString, i: nat) {
    var n := |FPadded(number)| / 2;
    i < |number| && |pdu| >= 4 + n && BcdText(pdu[4..4 + n])[i] != number[i]
  }

  lemma {:induction false} OtherDigit(text: string, head: seq<octet>, number: CString, i: nat)
    requires i < |number| && !IsDigit(number[i]) && Written(text, head, number)
    ensures ReadsOther(HexData(text), number, i)
  {
    var padded := FPadded(number);
    PartnerPlace(text, padded, i);
    SemiOctetRead(text, |padded| / 2, i, number[i]);
  }

  lemma {:induction false} NumberWritten(pduType: octet, ref: octet, m: NetText)
    requires Encodable(m) && Addressable(m) && m.tonFrom != ALPHANUMERIC
    ensures Written(ForwardText(pduType, ref, m), [pduType, ref, |m.from|], m.from)
  {
    ForwardHead(pduType, ref, m);
    NumberText(pduType, ref, m);
  }

  /** A number with a character that is no decimal digit is read differently. */
  lemma {:induction false} OtherCharactersAreLost(pduType: octet, ref: octet, m: NetText, smsc: seq<octet>)
    requires Encodable(m) && Addressable(m) && m.tonFrom != ALPHANUMERIC && !AllDigits(m.from)
    ensures !TextArrives(m, ParseSubmit(HexData(ForwardText(pduType, ref, m)), smsc))
  {
    NumberWritten(pduType, ref, m);
    WrittenIsLost(ForwardText(pduType, ref, m), [pduType, ref, |m.from|], m, smsc);
  }

  lemma {:induction false} WrittenIsLost(text: string, head: seq<octet>, m: NetText, smsc: seq<octet>)
    requires |head| == 3 && head[2] == |m.from| && Written(text, head, m.from) && !AllDigits(m.from)
    ensures !TextArrives(m, ParseSubmit(HexData(text), smsc))
  {
    var i :| 0 <= i < |m.from| && !IsDigit(m.from[i]);
    DigitIsLost(text, head, i, m, smsc);
  }

  lemma {:induction false} DigitIsLost(text: string, head: seq<octet>, i: nat, m: NetText, smsc: seq<octet>)
    requires |head| == 3 && head[2] == |m.from| && Written(text, head, m.from) && i < |m.from| && !IsDigit(m.from[i])
    ensures !TextArrives(m, ParseSubmit(HexData(text), smsc))
  {
    LengthRead(text, head, m.from);
    OtherDigit(text, head, m.from, i);
    CharacterIsLost(HexData(text), i, m, smsc);
  }

  lemma {:induction false} LengthRead(text: string, head: seq<octet>, number: CString)
    requires |head| == 3 && Written(text, head, number)
    ensures |HexData(text)| > 2 && HexData(text)[2] == head[2]
  {
    OctetRead(text, head, 2);
  }

  lemma {:induction false} CharacterIsLost(pdu: seq<octet>, i: nat, m: NetText, smsc: seq<octet>)
    requires |pdu| > 2 && pdu[2] == |m.from| && ReadsOther(pdu, m.from, i)
    ensures !TextArrives(m, ParseSubmit(pdu, smsc))
  {
    var n := |FPadded(m.from)| / 2;
    if ParseSubmit(pdu, smsc).Sent? {
      NumberSent(pdu, smsc);
      assert n == pdu[2] / 2 + pdu[2] % 2;
      PrefixDiffers(BcdText(pdu[4..4 + n]) + "\0", m.from, i);
    }
  }

  lemma {:induction false} PrefixDiffers(buffer: string, s: string, i: nat)
    requires i < |s| && i < |buffer| && buffer[i] != s[i]
    ensures CStr(buffer) != s
  {
  }

  // ---------------------------------------------------------------- every message

  /** The text survives: 7-bit text unless it is a multi-part one that goes on after a NUL
      (which is '@' in the GSM alphabet); Unicode text unless it is a flash message (its TP-DCS
      is 0x18, and the parser knows only 8) or a multi-part body shorter than its header; an
      MMS notification, which the parser unpacks as 7-bit text, only if it is no Unicode, in one
      part, and nothing but one character. */
  predicate TextSurvives(m: NetText) {
    if m.msgType == MMS then m.alphabetType != UNICODE && m.nUDH != 1 && Silent(m.body)
    else if IsGsm7(m) then m.nUDH == 1 ==> |m.body| >= 5 && NulTerminated(m.body[5..])
    else !(m.bFlash == 1 && m.classType == 0) && (m.nUDH == 1 ==> |m.body| >= 5)
  }

  // ---------------------------------------------------------------- service centre and type

  const CENTRE_SIZE: nat := 22

  /** A service centre address: its length, its type, and its number in semi-octets. */
  function CentreText(number: CString, toa: octet): string
    requires |number| <= CENTRE_SIZE
  {
    HexText([1 + |number| / 2 + |number| % 2, toa]) + SemiOctets(number)
  }

  lemma {:induction false} CentreRead(number: CString, toa: octet)
    requires AllDigits(number) && |number| <= CENTRE_SIZE
    ensures var smsc, n := HexData(CentreText(number, toa)), |number| / 2 + |number| % 2;
            |smsc| == 2 + n && smsc[0] == 1 + n && smsc[1] == toa && smsc[2..] == HexData(SemiOctets(number))
  {
    var head := [1 + |number| / 2 + |number| % 2, toa];
    HexTextIsHex(head);
    SemiOctetsAreHex(number);
    HexDataConcat(HexText(head), SemiOctets(number));
    DataRoundTrip(head);
  }

  lemma {:induction false} SentIsComposed(pdu: seq<octet>, smsc: seq<octet>) returns (f: Fields, body: seq<octet>)
    requires ParseSubmit(pdu, smsc).Sent?
    ensures GoodSmsc(smsc) && ParseSubmit(pdu, smsc).message == Compose(f, smsc, body)
  {
    f := Locate(pdu).value;
    body := BodyOf(f.dcs, MultiPartType(f.pduType), f.udl, f.ud).value;
  }

  lemma {:induction false} CentreComposed(f: Fields, smsc: seq<octet>, body: seq<octet>, n: nat)
    requires GoodSmsc(smsc) && |smsc| == 2 + n <= 66 && smsc[0] == 1 + n
    ensures var sent := Compose(f, smsc, body);
            sent.smsc == ReadNumber(smsc[2..]) && sent.lengthSmsc == 2 * n && (sent.internationalSmsc <==> smsc[1] == 0x91)
  {
    assert smsc[2..2 + n] == smsc[2..];
  }

  lemma {:induction false} CentreGood(number: CString, toa: octet)
    requires AllDigits(number) && |number| <= CENTRE_SIZE
    ensures GoodSmsc(HexData(CentreText(number, toa))) && |HexData(CentreText(number, toa))| <= 64
  {
    CentreRead(number, toa);
  }

  lemma {:induction false} CentreFields(pdu: seq<octet>, smsc: seq<octet>, n: nat)
    requires ParseSubmit(pdu, smsc).Sent? && |smsc| == 2 + n <= 66 && smsc[0] == 1 + n
    ensures var sent := ParseSubmit(pdu, smsc).message;
            sent.smsc == ReadNumber(smsc[2..]) && sent.lengthSmsc == 2 * n && (sent.internationalSmsc <==> smsc[1] == 0x91)
  {
    var f, body := SentIsComposed(pdu, smsc);
    CentreComposed(f, smsc, body, n);
  }

  /** Whatever is sent goes to the service centre that was written: its number, of even-rounded
      length, and international exactly for the type 0x91. */
  lemma {:induction false} CentreSent(pdu: seq<octet>, number: CString, toa: octet)
    requires AllDigits(number) && |number| <= CENTRE_SIZE && ParseSubmit(pdu, HexData(CentreText(number, toa))).Sent?
    ensures var sent := ParseSubmit(pdu, HexData(CentreText(number, toa))).message;
            && sent.smsc == number && sent.lengthSmsc == |number| + |number| % 2
            && (sent.internationalSmsc <==> toa == 0x91)
  {
    var smsc := HexData(CentreText(number, toa));
    CentreRead(number, toa);
    NumberRead(number);
    CentreFields(pdu, smsc, |number| / 2 + |number| % 2);
  }

  /** The types whose status report and header bits (3GPP TS 23.040, section 9.2.3) the parser
      tells: those with neither, and three of the others. */
  predicate TypeKnown(pduType: octet) {
    (!Bit(pduType, 5) && !Bit(pduType, 6)) || pduType in {0x21, 0x41, 0x61}
  }

  lemma {:induction false} TypeBits()
    ensures Bit(0x21, 5) && !Bit(0x21, 6) && !Bit(0x41, 5) && Bit(0x41, 6) && Bit(0x61, 5) && Bit(0x61, 6)
  {
    assert Bit(0x21, 5) == Bit(0x10, 4) == Bit(8, 3) == Bit(4, 2) == Bit(2, 1) == Bit(1, 0);
    assert Bit(0x21, 6) == Bit(0x10, 5) == Bit(8, 4) == Bit(4, 3) == Bit(2, 2) == Bit(1, 1) == Bit(0, 0);
    assert Bit(0x41, 5) == Bit(0x20, 4) == Bit(0x10, 3) == Bit(8, 2) == Bit(4, 1) == Bit(2, 0);
    assert Bit(0x41, 6) == Bit(0x20, 5) == Bit(0x10, 4) == Bit(8, 3) == Bit(4, 2) == Bit(2, 1) == Bit(1, 0);
    assert Bit(0x61, 5) == Bit(0x30, 4) == Bit(0x18, 3) == Bit(12, 2) == Bit(6, 1) == Bit(3, 0);
    assert Bit(0x61, 6) == Bit(0x30, 5) == Bit(0x18, 4) == Bit(12, 3) == Bit(6, 2) == Bit(3, 1) == Bit(1, 0);
  }

  /** Whatever is sent has the status report and header bits of its type exactly if the type is
      one of those. */
  lemma {:induction false} TypeSent(pdu: seq<octet>, smsc: seq<octet>)
    requires ParseSubmit(pdu, smsc).Sent?
    ensures |pdu| > 0
    ensures var sent := ParseSubmit(pdu, smsc).message;
            (sent.statusReport == Bit(pdu[0], 5) && sent.header == Bit(pdu[0], 6)) <==> TypeKnown(pdu[0])
  {
    TypeBits();
  }

  lemma {:induction false} ForwardType(pduType: octet, ref: octet, m: NetText)
    requires Encodable(m) && Addressable(m)
    ensures var pdu := HexData(ForwardText(pduType, ref, m)); |pdu| > 0 && pdu[0] == pduType
  {
    var len: octet := if m.tonFrom == ALPHANUMERIC then AlphaSemiOctets(|m.from|) else |m.from|;
    ForwardHead(pduType, ref, m);
    OctetRead(ForwardText(pduType, ref, m), [pduType, ref, len], 0);
  }

  /** The modem is given the message as it was received, for the service centre that was named,
      with a status report if the type asks for one. */
  predicate Arrives(m: NetText, report: bool, centre: CString, toa: octet, result: Submit) {
    && TextArrives(m, result)
    && result.message.statusReport == report
    && result.message.smsc == centre && result.message.lengthSmsc == |centre| + |centre| % 2
    && (result.message.internationalSmsc <==> toa == 0x91)
  }

  /** A received message, of any kind and from any sender, put into a submission to its sender
      is the received message again, and goes to the service centre that was named with the
      status report that was asked for, exactly if its text survives, its sender is a number of
      decimal digits, and the type is one the parser knows. */
  lemma {:induction false} ForwardRoundTrip(pduType: octet, ref: octet, m: NetText, centre: CString, toa: octet)
    requires Encodable(m) && Addressable(m) && (Bit(pduType, 6) <==> m.nUDH == 1)
    requires AllDigits(centre) && |centre| <= CENTRE_SIZE
    ensures Arrives(m, Bit(pduType, 5), centre, toa, ParseSubmit(HexData(ForwardText(pduType, ref, m)), HexData(CentreText(centre, toa))))
       <==> m.tonFrom != ALPHANUMERIC && AllDigits(m.from) && TextSurvives(m) && TypeKnown(pduType)
  {
    CentreGood(centre, toa);
    ForwardType(pduType, ref, m);
    TextForwarded(pduType, ref, m, HexData(CentreText(centre, toa)));
    RestArrives(HexData(ForwardText(pduType, ref, m)), m, centre, toa);
    if TypeKnown(pduType) {
      KnownHeader(pduType, m);
    }
  }

  lemma {:induction false} KnownHeader(pduType: octet, m: NetText)
    requires TypeKnown(pduType) && (Bit(pduType, 6) <==> m.nUDH == 1)
    ensures MultiPartType(pduType) <==> m.nUDH == 1
  {
    TypeBits();
  }

  /** Where the text arrives, the other fields do exactly if the type is known. */
  lemma {:induction false} RestArrives(pdu: seq<octet>, m: NetText, centre: CString, toa: octet)
    requires pdu != [] && (Bit(pdu[0], 6) <==> m.nUDH == 1) && AllDigits(centre) && |centre| <= CENTRE_SIZE
    ensures var result := ParseSubmit(pdu, HexData(CentreText(centre, toa)));
            Arrives(m, Bit(pdu[0], 5), centre, toa, result) <==> TextArrives(m, result) && TypeKnown(pdu[0])
  {
    if ParseSubmit(pdu, HexData(CentreText(centre, toa))).Sent? {
      CentreSent(pdu, centre, toa);
      TypeSent(pdu, HexData(CentreText(centre, toa)));
    }
  }

  /** The text alone. */
  lemma {:induction false} TextForwarded(pduType: octet, ref: octet, m: NetText, smsc: seq<octet>)
    requires Encodable(m) && Addressable(m) && GoodSmsc(smsc) && |smsc| <= 64
    ensures (MultiPartType(pduType) <==> m.nUDH == 1) ==>
              (TextArrives(m, ParseSubmit(HexData(ForwardText(pduType, ref, m)), smsc))
               <==> m.tonFrom != ALPHANUMERIC && AllDigits(m.from) && TextSurvives(m))
    ensures m.tonFrom == ALPHANUMERIC || !AllDigits(m.from) ==>
              !TextArrives(m, ParseSubmit(HexData(ForwardText(pduType, ref, m)), smsc))
  {
    if m.tonFrom == ALPHANUMERIC {
      NameIsLost(pduType, ref, m, smsc);
    } else if !AllDigits(m.from) {
      OtherCharactersAreLost(pduType, ref, m, smsc);
    } else if MultiPartType(pduType) <==> m.nUDH == 1 {
      DigitsArrive(pduType, ref, m, smsc);
    }
  }
}
