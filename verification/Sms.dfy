/** Both halves of the SMS path (mocha-ril/sms.c): the user data of a received message, and
    what a submitted PDU turns into. */
module Sms {
  import opened Octets
  import opened Options
  import opened Hex
  import opened Numbers
  import opened Gsm7

  /** The fields of a received message that its user data depends on. `body` is the first
      messageLength octets of messageBody; the octets after it are NUL. */
  datatype NetText = NetText(
    msgType: octet,
    tonFrom: octet,
    from: CString,
    bFlash: nat,
    classType: octet,
    alphabetType: octet,
    nUDH: octet,
    body: seq<octet>)

  const MMS: octet := 0x10
  const UNICODE: octet := 3
  const BODY_SIZE: nat := 160

  predicate IsGsm7(m: NetText) {
    m.alphabetType != UNICODE && m.msgType != MMS
  }

  /** What the C code relies on: it handles no empty message, packs seven-bit text only, and
      takes the first five octets of a multi-part body for the header. */
  predicate Encodable(m: NetText) {
    && 0 < |m.body| <= BODY_SIZE
    && (IsGsm7(m) && m.nUDH == 1 ==> |m.body| >= 5)
    && (IsGsm7(m) ==> forall i :: (if m.nUDH == 1 then 5 else 0) <= i < |m.body| ==> m.body[i] < 128)
  }

  function Dcs(m: NetText): octet {
    (if m.msgType == MMS then 0x04 else if m.alphabetType == UNICODE then 0x08 else 0x00)
    + if m.bFlash == 1 && m.classType == 0 then 0x10 else 0
  }

  /** `strlen`, for a text followed by NUL. */
  function StrLen(x: seq<octet>): (n: nat)
    ensures n <= |x| && (forall i :: 0 <= i < n ==> x[i] != 0) && (n < |x| ==> x[n] == 0)
  {
    if x == [] || x[0] == 0 then 0 else 1 + StrLen(x[1..])
  }

  /** A text as C string functions see it: nothing but NUL after the first NUL. */
  function UpToNul(x: seq<octet>): (r: seq<octet>)
    ensures |r| == |x|
  {
    seq(|x|, i requires 0 <= i < |x| => if i < StrLen(x) then x[i] else 0)
  }

  const PLACEHOLDER: seq<octet> := [48, 48, 48, 48, 48, 48, 48]

  /** The octets of TP-UD. */
  function UserData(m: NetText): seq<octet>
    requires Encodable(m)
  {
    if IsGsm7(m) then
      if m.nUDH == 1 then [5] + m.body[..5] + Pack(PLACEHOLDER + UpToNul(m.body[5..]))[6..]
      else Pack(m.body)
    else if m.nUDH == 1 then [5] + m.body
    else m.body
  }

  /** TP-UDL: septets for 7-bit text, octets otherwise. */
  function UserDataLength(m: NetText): octet
    requires Encodable(m)
  {
    |m.body| + if m.nUDH != 1 then 0 else if IsGsm7(m) then 2 else 1
  }

  /** `strncat(message, text, count)` onto a zero-filled buffer that holds `at` characters. */
  method StrnCat(message: array<octet>, at: nat, text: seq<octet>, count: nat)
    requires at + |text| < message.Length && |text| <= count
    requires forall i :: at <= i < message.Length ==> message[i] == 0
    modifies message
    ensures message[..at] == old(message[..at])
    ensures message[at..at + |text|] == UpToNul(text)
  {
    var k := 0;
    while k < count && k < |text| && text[k] != 0
      invariant k <= |text|
      invariant forall i :: 0 <= i < k ==> text[i] != 0
      invariant message[..at] == old(message[..at])
      invariant forall i :: 0 <= i < k ==> message[at + i] == text[i]
      invariant forall i :: at + k <= i < message.Length ==> message[i] == 0
    {
      message[at + k] := text[k];
      k := k + 1;
    }
    message[at + k] := 0;
    StrLenIs(text, k);
    forall i | 0 <= i < |text|
      ensures message[at..at + |text|][i] == UpToNul(text)[i]
    {
    }
  }

  lemma {:induction false} StrLenIs(x: seq<octet>, k: nat)
    requires k <= |x| && (forall i :: 0 <= i < k ==> x[i] != 0) && (k < |x| ==> x[k] == 0)
    ensures StrLen(x) == k
  {
  }

  /** Multi-part 7-bit user data: seven placeholder septets in front of the text, packed, then
      overwritten by the header length and the five header octets. */
  method MultiPart(body: seq<octet>, length: nat) returns (enc: array<octet>)
    requires |body| >= 5 && length == |body| + 2
    requires forall i :: 5 <= i < |body| ==> body[i] < 128
    ensures enc[..] == [5] + body[..5] + Pack(PLACEHOLDER + UpToNul(body[5..]))[6..]
  {
    var message := new octet[|body| + 3](_ => 0);
    forall i | 0 <= i < 7 {
      message[i] := 48;
    }
    StrnCat(message, 7, body[5..], length);
    ghost var text := PLACEHOLDER + UpToNul(body[5..]);
    assert message[..length] == message[..7] + message[7..length] == text;
    TextIsSeptets(body[5..]);
    var stray;
    enc, stray := AsciiToGsm7(message[..length]);
    OverwriteHeader(enc, body);
  }

  method OverwriteHeader(enc: array<octet>, body: seq<octet>)
    requires |body| >= 5 && enc.Length >= 6
    modifies enc
    ensures enc[..] == [5] + body[..5] + old(enc[..])[6..]
  {
    enc[0] := 0x05;
    var i := 0;
    while i < 5
      invariant 0 <= i <= 5
      invariant enc[0] == 5
      invariant enc[1..i + 1] == body[..i]
      invariant enc[i + 1..] == old(enc[..])[i + 1..]
    {
      enc[i + 1] := body[i];
      i := i + 1;
    }
    assert enc[..] == [enc[0]] + enc[1..6] + enc[6..];
  }

  lemma {:induction false} TextIsSeptets(x: seq<octet>)
    requires forall i :: 0 <= i < |x| ==> x[i] < 128
    ensures forall i :: 0 <= i < |PLACEHOLDER + UpToNul(x)| ==> (PLACEHOLDER + UpToNul(x))[i] < 128
  {
  }

  lemma {:induction false} HeaderLengthText()
    ensures HexText([5]) == "05"
  {
    assert Split([5]) == [0, 5];
  }

  /** The user data part of `ipc_incoming_sms`. */
  method BuildUserData(m: NetText) returns (dcs: octet, udl: octet, ud: string)
    requires Encodable(m)
    ensures dcs == Dcs(m) && udl == UserDataLength(m) && ud == HexText(UserData(m))
  {
    udl := |m.body|;
    if m.alphabetType == UNICODE || m.msgType == MMS {
      dcs := if m.msgType == MMS then 0x04 else 0x08;
      var message := DataToString(m.body);
      if m.nUDH == 1 {
        ud := "05";
        udl := udl + 1;
        ud := ud + message;
        HeaderLengthText();
        HexTextConcat([5], m.body);
      } else {
        ud := message;
      }
    } else {
      dcs := 0x00;
      var enc;
      if m.nUDH == 1 {
        udl := udl + 2;
        enc := MultiPart(m.body, udl);
      } else {
        var stray;
        enc, stray := AsciiToGsm7(m.body);
      }
      ud := DataToString(enc[..]);
    }
    if m.bFlash == 1 && m.classType == 0 {
      dcs := dcs + 0x10;
    }
  }

  // ---------------------------------------------------------------- originating address

  const ALPHANUMERIC: octet := 5
  const NUMBER_SIZE: nat := 20

  /** What the C code relies on: the number fits its field, and characters to pack are 7-bit. */
  predicate Addressable(m: NetText) {
    && |m.from| <= NUMBER_SIZE
    && (m.tonFrom == ALPHANUMERIC ==> m.from != "" && forall i :: 0 <= i < |m.from| ==> m.from[i] < 128 as char)
  }

  function Codes(s: string): (c: seq<septet>)
    requires forall i :: 0 <= i < |s| ==> s[i] < 128 as char
    ensures |c| == |s|
  {
    seq(|s|, i requires 0 <= i < |s| => s[i] as int)
  }

  /** TP-OA as text. */
  function Address(m: NetText): string
    requires Addressable(m)
  {
    if m.tonFrom == ALPHANUMERIC then HexText([AlphaSemiOctets(|m.from|)]) + "D0" + HexText(Pack(Codes(m.from)))
    else HexText([|m.from|]) + (if m.tonFrom == 1 then "91" else "81") + SemiOctets(m.from)
  }

  /** The address part of `ipc_incoming_sms`. */
  method AppendAddress(pdu: string, m: NetText) returns (text: string)
    requires Addressable(m)
    ensures text == pdu + Address(m)
  {
    if m.tonFrom == ALPHANUMERIC {
      var packed, stray := AsciiToGsm7(Codes(m.from));
      var number := DataToString(packed[..]);
      var len := |m.from| * 7 * 2 / 8;
      len := len + if |m.from| * 7 * 2 % 8 > 0 then 1 else 0;
      var c := DataToString([len]);
      text := c + "D0" + number;
    } else {
      var c := DataToString([|m.from|]);
      text := c + if m.tonFrom == 1 then "91" else "81";
      text := AppendSwapped(text, m.from);
    }
    text := pdu + text;
  }

  // ---------------------------------------------------------------- submission

  /** The message handed to the modem. */
  datatype Outgoing = Outgoing(
    number: CString,
    lengthToNumber: octet,
    international: bool,
    smsc: CString,
    lengthSmsc: octet,
    internationalSmsc: bool,
    statusReport: bool,
    header: bool,
    alphabetType: octet,
    messageLength: octet,
    body: seq<octet>)

  /** Sent to the modem; completed with an error; or the C code leaves one of its buffers. */
  datatype Submit = Sent(message: Outgoing) | Refused | OutOfBounds

  const FIELD_SIZE: nat := 24

  predicate MultiPartType(pduType: octet) {
    pduType == 0x41 || pduType == 0x61
  }

  /** `bcd2ascii` into a 24-character field. */
  predicate NumberFits(octets: int) {
    2 * octets + 1 <= FIELD_SIZE
  }

  function ReadNumber(data: seq<octet>): CString {
    CStr(BcdText(data) + "\0")
  }

  /** messageBody: `ud` is TP-UD with everything after it, `udl` is TP-UDL. Of a multi-part
      message the part numbers, octets 4 and 5, are read for the log. */
  function BodyOf(dcs: octet, multi: bool, udl: octet, ud: seq<octet>): (body: Option<seq<octet>>)
  {
    if multi && |ud| < 6 then None
    else if dcs == 8 then
      var from := if multi then 1 else 0;
      if from <= udl <= |ud| && udl - from <= BODY_SIZE then
        var body: seq<octet> := ud[from..udl];
        Some(body)
      else None
    else
      var message := Unpack(ud);
      var from := if multi then 7 else 0;
      if Spill(ud) == 0 && from <= udl <= |message| && udl - from + (if multi then 5 else 0) <= BODY_SIZE then
        var body: seq<octet> := (if multi then ud[1..6] else []) + message[from..udl];
        Some(body)
      else None
  }

  /** The fields of a submitted PDU that the C code uses; `ud` runs to the end of the PDU. */
  datatype Fields = Fields(
    pduType: octet,
    daLength: octet,
    toa: octet,
    number: seq<octet>,
    dcs: octet,
    udl: octet,
    ud: seq<octet>)

  /** Where the C code finds them; None where it would read past the PDU or overrun the
      number's field. */
  function Locate(pdu: seq<octet>): Option<Fields> {
    if |pdu| <= 2 then None
    else
      var daLength := pdu[2];
      var daOctets := daLength / 2 + daLength % 2;
      var udlIndex := 2 + daLength / 2 + 4 + daLength % 2;
      var udIndex := udlIndex + 1;
      if udlIndex >= |pdu| || !NumberFits(daOctets) then None
      else Some(Fields(pdu[0], daLength, pdu[3], pdu[4..4 + daOctets], pdu[udlIndex - 1], pdu[udlIndex], pdu[udIndex..]))
  }

  /** A service centre address the C code reads within bounds. */
  predicate GoodSmsc(smsc: seq<octet>) {
    |smsc| >= 2 && NumberFits(smsc[0] as int - 1) && smsc[0] as int + 1 <= |smsc|
  }

  function Compose(f: Fields, smsc: seq<octet>, body: seq<octet>): Outgoing
    requires GoodSmsc(smsc)
  {
    var multi, smscOctets := MultiPartType(f.pduType), smsc[0] as int - 1;
    Outgoing(
      ReadNumber(f.number),
      f.daLength,
      f.toa == 0x91,
      ReadNumber(if smscOctets < 0 then [] else smsc[2..2 + smscOctets]),
      smscOctets * 2 % 256,
      smsc[1] == 0x91,
      f.pduType == 0x21 || f.pduType == 0x61,
      multi,
      if f.dcs == 8 then UNICODE else 0,
      (f.udl - if !multi then 0 else if f.dcs == 8 then 1 else 2) % 256,
      body)
  }

  /** The messages `ril_request_send_sms_complete` fails before it looks into them. */
  predicate Oversized(pdu: seq<octet>, smsc: seq<octet>) {
    pdu == [] || smsc == [] || |pdu| / 2 + |smsc| > 0xfe
  }

  /** `ril_request_send_sms_complete`. */
  function ParseSubmit(pdu: seq<octet>, smsc: seq<octet>): (r: Submit)
    ensures r == Refused <==> Oversized(pdu, smsc)
  {
    if Oversized(pdu, smsc) then Refused
    else if !GoodSmsc(smsc) then OutOfBounds
    else
      match Locate(pdu)
      case None => OutOfBounds
      case Some(f) =>
        match BodyOf(f.dcs, MultiPartType(f.pduType), f.udl, f.ud)
        case None => OutOfBounds
        case Some(body) => Sent(Compose(f, smsc, body))
  }

  /** `memcpy` into a buffer. */
  method MemCpy(buffer: array<octet>, at: nat, data: seq<octet>)
    requires at + |data| <= buffer.Length
    modifies buffer
    ensures buffer[..at] == old(buffer[..at])
    ensures buffer[at..at + |data|] == data
  {
    for i := 0 to |data|
      invariant buffer[..at] == old(buffer[..at])
      invariant buffer[at..at + i] == data[..i]
    {
      buffer[at + i] := data[i];
    }
  }

  /** The messageBody part of `ril_request_send_sms_complete`. */
  method FillBody(dcs: octet, multi: bool, udl: octet, ud: seq<octet>) returns (body: Option<seq<octet>>)
    ensures body == BodyOf(dcs, multi, udl, ud)
  {
    if multi && |ud| < 6 {
      return None;
    }
    var messageBody := new octet[BODY_SIZE](_ => 0);
    if dcs == 8 {
      var from := if multi then 1 else 0;
      if !(from <= udl <= |ud| && udl - from <= BODY_SIZE) {
        return None;
      }
      MemCpy(messageBody, 0, ud[from..udl]);
      return Some(messageBody[..udl - from]);
    }
    var message, stray := Gsm7ToAscii(ud);
    SpillIsLeftover(ud);
    if !multi {
      if stray != 0 || udl > message.Length || udl > BODY_SIZE {
        return None;
      }
      MemCpy(messageBody, 0, message[..udl]);
      assert [] + Unpack(ud)[0..udl] == messageBody[0..udl];
      return Some(messageBody[0..udl]);
    }
    if stray != 0 || !(7 <= udl <= message.Length) || udl - 2 > BODY_SIZE {
      return None;
    }
    MemCpy(messageBody, 0, ud[1..6]);
    MemCpy(messageBody, 5, message[7..udl]);
    assert messageBody[..udl - 2] == messageBody[..5] + messageBody[5..udl - 2];
    return Some(messageBody[..udl - 2]);
  }

  /** The PDU parsing of `ril_request_send_sms_complete`. */
  method LocateFields(pdu: seq<octet>) returns (fields: Option<Fields>)
    ensures fields == Locate(pdu)
  {
    if |pdu| <= 2 {
      return None;
    }
    var daIndex := 2;
    var daLength: nat := pdu[daIndex];
    var udlIndex := daIndex + daLength / 2 + 4;
    if daLength % 2 > 0 {
      udlIndex := udlIndex + 1;
    }
    if udlIndex >= |pdu| {
      return None;
    }
    var udIndex := udlIndex + 1;
    var lengthToNumber := daLength;
    if daLength % 2 > 0 {
      daLength := daLength + 1;
    }
    if !NumberFits(daLength / 2) {
      return None;
    }
    var number := pdu[daIndex + 2..daIndex + 2 + daLength / 2];
    return Some(Fields(pdu[0], lengthToNumber, pdu[daIndex + 1], number, pdu[udlIndex - 1], pdu[udlIndex], pdu[udIndex..]));
  }

  /** A number field of the message. */
  method ReadField(data: seq<octet>) returns (number: CString)
    ensures number == ReadNumber(data)
  {
    var field := Bcd2Ascii(data);
    number := CStr(field[..]);
  }

  /** messageLength, which is a character. */
  method BodyLength(f: Fields) returns (messageLength: octet)
    ensures messageLength == (f.udl as int - if !MultiPartType(f.pduType) then 0 else if f.dcs == 8 then 1 else 2) % 256
  {
    messageLength := f.udl;
    if MultiPartType(f.pduType) {
      messageLength := (messageLength as int - 1) % 256;
      if f.dcs != 8 {
        messageLength := (messageLength as int - 1) % 256;
      }
    }
  }

  /** The conversion of `ril_request_send_sms_complete` into a tapiNettextInfo. */
  method FillMessage(f: Fields, smsc: seq<octet>, body: seq<octet>) returns (mess: Outgoing)
    requires GoodSmsc(smsc)
    ensures mess == Compose(f, smsc, body)
  {
    var number := ReadField(f.number);
    var smscOctets := smsc[0] as int - 1;
    var smscNumber := ReadField(if smscOctets < 0 then [] else smsc[2..2 + smscOctets]);
    var messageLength := BodyLength(f);
    mess := Outgoing(number, f.daLength, f.toa == 0x91, smscNumber, smscOctets * 2 % 256, smsc[1] == 0x91,
                     f.pduType == 0x21 || f.pduType == 0x61, MultiPartType(f.pduType), if f.dcs == 8 then UNICODE else 0,
                     messageLength, body);
  }

  /** `ril_request_send_sms_complete`, up to the message it hands to the modem. */
  method CompleteSendSms(pdu: seq<octet>, smsc: seq<octet>) returns (r: Submit)
    ensures r == ParseSubmit(pdu, smsc)
  {
    if pdu == [] || smsc == [] {
      return Refused;
    }
    if |pdu| / 2 + |smsc| > 0xfe {
      return Refused;
    }
    if !GoodSmsc(smsc) {
      return OutOfBounds;
    }
    var fields := LocateFields(pdu);
    if fields == None {
      return OutOfBounds;
    }
    var f := fields.value;
    var body := FillBody(f.dcs, MultiPartType(f.pduType), f.udl, f.ud);
    if body == None {
      return OutOfBounds;
    }
    var mess := FillMessage(f, smsc, body.value);
    return Sent(mess);
  }
}
