/** Outgoing messages (mocha-ril/sms.c): one in flight, the others in a list. */
module SmsQueue {
  import opened Options
  import opened Octets
  import Hex
  import Sms
  import opened LinkedList

  type Token = nat

  const TOKEN_NULL: Token := 0

  datatype Message = Message(token: Token, pdu: seq<octet>, smsc: seq<octet>)

  datatype Result = Success | GenericFailure | FailRetry

  /** A call of ril_request_complete: for a malformed request, or for a message that was
      started, with the token of the moment. */
  datatype Completion = Rejected(t: Token) | Finished(t: Token, result: Result)

  // ---------------------------------------------------------------- the queue as a value

  datatype State = State(
    smscNumber: Hex.CString,
    token: Token,
    list: seq<Message>,
    sent: seq<Message>,
    completed: seq<Completion>)

  datatype Event =
    | Arrival(t: Token, smsc: Option<Hex.CString>, pdu: Option<Hex.CString>)
    | Status(ok: bool)
    | SmscRead(record: seq<octet>)

  /** The service centre a request names, or the one read from the SIM. */
  function Centre(smscNumber: Hex.CString, smsc: Option<Hex.CString>): Hex.CString {
    if smsc.Some? then smsc.value else smscNumber
  }

  predicate Malformed(smscNumber: Hex.CString, smsc: Option<Hex.CString>, pdu: Option<Hex.CString>) {
    pdu.None? || pdu.value == "" || Centre(smscNumber, smsc) == ""
  }

  function Decoded(smscNumber: Hex.CString, t: Token, smsc: Option<Hex.CString>, pdu: Hex.CString): Message {
    Message(t, Hex.HexData(pdu), Hex.HexData(Centre(smscNumber, smsc)))
  }

  /** The last 15 octets of a record of the file of SMS parameters start with the service centre
      address: the number of its octets, and those. */
  predicate HoldsCentre(record: seq<octet>) {
    |record| >= 15 && record[|record| - 15] <= 14
  }

  function CentreIn(record: seq<octet>): seq<octet>
    requires HoldsCentre(record)
  {
    var at := |record| - 15;
    record[at..at + 1 + record[at] as int]
  }

  predicate TooLarge(m: Message) {
    Sms.Oversized(m.pdu, m.smsc)
  }

  /** `ril_request_send_sms_complete`: a message that is too large is failed and the next one
      is taken, and so on. */
  function Submit(s: State, m: Message): State
    decreases |s.list|, 1
  {
    if TooLarge(m) then Next(s.(completed := s.completed + [Finished(m.token, FailRetry)]))
    else s.(sent := s.sent + [m])
  }

  /** `ril_request_send_sms_next`. */
  function Next(s: State): State
    decreases |s.list|, 0
  {
    if s.list == [] then s.(token := TOKEN_NULL)
    else Submit(s.(token := s.list[0].token, list := s.list[1..]), s.list[0])
  }

  function Step(s: State, e: Event): State {
    match e
    case Arrival(t, smsc, pdu) =>
      if Malformed(s.smscNumber, smsc, pdu) then Next(s.(completed := s.completed + [Rejected(t)]))
      else
        var m := Decoded(s.smscNumber, t, smsc, pdu.value);
        if s.token != TOKEN_NULL then s.(list := s.list + [m]) else Submit(s.(token := t), m)
    case Status(ok) =>
      Next(s.(completed := s.completed + [Finished(s.token, if ok then Success else GenericFailure)]))
    case SmscRead(record) =>
      if s.smscNumber == "" && HoldsCentre(record) then s.(smscNumber := Hex.HexText(CentreIn(record))) else s
  }

  // ---------------------------------------------------------------- the queue as it is

  class Queue {
    var smscNumber: Hex.CString
    var token: Token
    const list: List<Message>
    /** Messages handed to the modem, and requests completed. */
    var sent: seq<Message>
    var completed: seq<Completion>

    ghost predicate Valid()
      reads list, list.nodes
    {
      list.Valid()
    }

    ghost function Model(): State
      reads this, list, list.nodes
    {
      State(smscNumber, token, list.Contents(), sent, completed)
    }

    constructor ()
      ensures Valid() && Model() == State("", TOKEN_NULL, [], [], [])
    {
      smscNumber, token := "", TOKEN_NULL;
      list := new List();
      sent, completed := [], [];
    }

    /** `ril_request_send_sms_complete`. */
    method SubmitMessage(m: Message)
      requires Valid()
      modifies this, list, list.nodes
      ensures Valid() && Model() == Submit(old(Model()), m)
      ensures forall n :: n in list.nodes ==> n in old(list.nodes)
      decreases |list.nodes|, 1
    {
      var submit := Sms.CompleteSendSms(m.pdu, m.smsc);
      if submit == Sms.Refused {
        completed := completed + [Finished(m.token, FailRetry)];
        NextMessage();
      } else {
        sent := sent + [m];
      }
    }

    /** `ril_request_send_sms_next`. */
    method NextMessage()
      requires Valid()
      modifies this, list, list.nodes
      ensures Valid() && Model() == Next(old(Model()))
      ensures forall n :: n in list.nodes ==> n in old(list.nodes)
      decreases |list.nodes|, 0
    {
      token := TOKEN_NULL;
      var first := list.First();
      if first == None {
        return;
      }
      var m := first.value;
      list.Unregister(m);
      token := m.token;
      assert forall i :: 0 <= i < |list.nodes| ==> list.nodes[i] in old(list.nodes);
      SubmitMessage(m);
    }

    /** `ril_request_send_sms`. */
    method Arrive(t: Token, smsc: Option<Hex.CString>, pdu: Option<Hex.CString>)
      requires Valid()
      modifies this, list, list.nodes
      ensures Valid() && Model() == Step(old(Model()), Arrival(t, smsc, pdu))
    {
      var centre := if smsc.Some? then smsc.value else smscNumber;
      if pdu.None? || pdu.value == "" || centre == "" {
        completed := completed + [Rejected(t)];
        NextMessage();
        return;
      }
      var data := Hex.StringToData(pdu.value);
      var address := Hex.StringToData(centre);
      var m := Message(t, data[..], address[..]);
      if token != TOKEN_NULL {
        list.Register(m);
        return;
      }
      token := t;
      SubmitMessage(m);
    }

    /** `ipc_sim_smsc_number`, for a queue that has no number yet; not ok where the C code reads
        outside the record. */
    method ReceiveSmscNumber(record: seq<octet>) returns (ok: bool)
      requires Valid()
      modifies this`smscNumber
      ensures ok <==> old(smscNumber) != "" || HoldsCentre(record)
      ensures Model() == Step(old(Model()), SmscRead(record))
    {
      if smscNumber != "" {
        return true;
      }
      if !HoldsCentre(record) {
        return false;
      }
      var at := |record| - 15;
      var text := "";
      var i := at;
      while i < |record| + record[at] as int - 14
        invariant at <= i <= |record| + record[at] as int - 14
        invariant text == Hex.HexText(record[at..i])
      {
        assert record[at..i + 1] == record[at..i] + [record[i]];
        Hex.HexTextConcat(record[at..i], [record[i]]);
        OctetText(record[i]);
        text := text + [Hex.HexDigit(record[i] / 16), Hex.HexDigit(record[i] % 16)];
        i := i + 1;
      }
      smscNumber := text;
      return true;
    }

    /** `ipc_sms_send_status`. */
    method ReceiveStatus(ok: bool)
      requires Valid()
      modifies this, list, list.nodes
      ensures Valid() && Model() == Step(old(Model()), Status(ok))
    {
      completed := completed + [Finished(token, if ok then Success else GenericFailure)];
      NextMessage();
    }
  }

  lemma {:induction false} OctetText(b: octet)
    ensures Hex.HexText([b]) == [Hex.HexDigit(b / 16), Hex.HexDigit(b % 16)]
  {
  }

  // ---------------------------------------------------------------- whole runs

  const INIT := State("", TOKEN_NULL, [], [], [])

  function Run(events: seq<Event>): State {
    if events == [] then INIT
    else Step(Run(events[..|events| - 1]), events[|events| - 1])
  }

  function Admitted(s: State, e: Event): seq<Message> {
    if e.Arrival? && !Malformed(s.smscNumber, e.smsc, e.pdu) then [Decoded(s.smscNumber, e.t, e.smsc, e.pdu.value)]
    else []
  }

  /** The messages that entered the queue, in order of arrival. */
  function Accepted(events: seq<Event>): seq<Message> {
    if events == [] then []
    else
      var before := events[..|events| - 1];
      Accepted(before) + Admitted(Run(before), events[|events| - 1])
  }

  /** A malformed request arrives while a message is in flight. */
  predicate Loses(s: State, e: Event) {
    e.Arrival? && Malformed(s.smscNumber, e.smsc, e.pdu) && s.token != TOKEN_NULL
  }

  function Lost(events: seq<Event>): nat {
    if events == [] then 0
    else
      var before := events[..|events| - 1];
      Lost(before) + if Loses(Run(before), events[|events| - 1]) then 1 else 0
  }

  function Tokens(messages: seq<Message>): (t: seq<Token>)
    ensures |t| == |messages|
  {
    seq(|messages|, i requires 0 <= i < |messages| => messages[i].token)
  }

  /** The tokens of messages that were completed. */
  function Done(completed: seq<Completion>): seq<Token> {
    if completed == [] then []
    else
      var c := completed[|completed| - 1];
      Done(completed[..|completed| - 1]) + if c.Finished? && c.t != TOKEN_NULL then [c.t] else []
  }

  function Flying(s: State): seq<Token> {
    if s.token == TOKEN_NULL then [] else [s.token]
  }

  function Fitting(messages: seq<Message>): seq<Message> {
    if messages == [] then []
    else
      var m := messages[|messages| - 1];
      Fitting(messages[..|messages| - 1]) + if TooLarge(m) then [] else [m]
  }

  function Started(s: State, accepted: seq<Message>): int {
    |accepted| - |s.list|
  }

  /** What holds whatever arrives. `lost` counts malformed requests met in flight. */
  ghost predicate Inv(s: State, accepted: seq<Message>, lost: nat) {
    && (forall i :: 0 <= i < |accepted| ==> accepted[i].token != TOKEN_NULL)
    && (s.token == TOKEN_NULL ==> s.list == [])
    && |s.list| <= |accepted|
    // the listed messages are the last ones accepted; those before them that fit were
    // handed to the modem once each, in order
    && s.list == accepted[Started(s, accepted)..]
    && s.sent == Fitting(accepted[..Started(s, accepted)])
    // each started message was completed, is in flight, or was lost
    && |Done(s.completed)| + |Flying(s)| + lost == Started(s, accepted)
    && (lost == 0 ==> Tokens(accepted[..Started(s, accepted)]) == Done(s.completed) + Flying(s))
  }

  /** What holds before the next message is taken: nothing counts as in flight. */
  ghost predicate Ready(s: State, accepted: seq<Message>, lost: nat) {
    && (forall i :: 0 <= i < |accepted| ==> accepted[i].token != TOKEN_NULL)
    && |s.list| <= |accepted|
    && s.list == accepted[Started(s, accepted)..]
    && s.sent == Fitting(accepted[..Started(s, accepted)])
    && |Done(s.completed)| + lost == Started(s, accepted)
    && (lost == 0 ==> Tokens(accepted[..Started(s, accepted)]) == Done(s.completed))
  }

  /** The state once the head of the list was taken and found too large. */
  function FailHead(s: State): State
    requires s.list != []
  {
    s.(token := s.list[0].token, list := s.list[1..], completed := s.completed + [Finished(s.list[0].token, FailRetry)])
  }

  lemma {:induction false} FailKeepsReady(s: State, accepted: seq<Message>, lost: nat)
    requires Ready(s, accepted, lost) && s.list != [] && TooLarge(s.list[0])
    ensures Ready(FailHead(s), accepted, lost)
  {
    TakeHead(s, accepted);
    var c := FailHead(s).completed;
    assert c[..|c| - 1] == s.completed;
    assert Done(c) == Done(s.completed) + [s.list[0].token];
    assert accepted[Started(s, accepted)].token != TOKEN_NULL;
  }

  lemma {:induction false} SendKeeps(s: State, accepted: seq<Message>, lost: nat)
    requires Ready(s, accepted, lost) && s.list != [] && !TooLarge(s.list[0])
    ensures Inv(s.(token := s.list[0].token, list := s.list[1..], sent := s.sent + [s.list[0]]), accepted, lost)
  {
    TakeHead(s, accepted);
    assert accepted[Started(s, accepted)].token != TOKEN_NULL;
  }

  /** Taking messages off the list until one fits keeps everything accounted for. */
  lemma {:induction false} NextKeeps(s: State, accepted: seq<Message>, lost: nat)
    requires Ready(s, accepted, lost)
    ensures Inv(Next(s), accepted, lost)
    decreases |s.list|
  {
    if s.list != [] {
      if TooLarge(s.list[0]) {
        FailKeepsReady(s, accepted, lost);
        NextKeeps(FailHead(s), accepted, lost);
      } else {
        SendKeeps(s, accepted, lost);
      }
    } else {
      assert Done(s.completed) + [] == Done(s.completed);
    }
  }

  lemma {:induction false} TakeHead(s: State, accepted: seq<Message>)
    requires s.list != [] && |s.list| <= |accepted| && s.list == accepted[Started(s, accepted)..]
    ensures var n := Started(s, accepted);
            && s.list[0] == accepted[n] && s.list[1..] == accepted[n + 1..]
            && Tokens(accepted[..n + 1]) == Tokens(accepted[..n]) + [s.list[0].token]
            && Fitting(accepted[..n + 1]) == Fitting(accepted[..n]) + if TooLarge(s.list[0]) then [] else [s.list[0]]
  {
    var n := Started(s, accepted);
    assert accepted[..n + 1][..n] == accepted[..n];
  }

  /** A completion leaves nothing in flight. */
  lemma {:induction false} FinishedIsReady(s: State, accepted: seq<Message>, lost: nat, result: Result)
    requires Inv(s, accepted, lost)
    ensures Ready(s.(completed := s.completed + [Finished(s.token, result)]), accepted, lost)
  {
    var c := s.completed + [Finished(s.token, result)];
    assert c[..|c| - 1] == s.completed;
    assert Done(c) == Done(s.completed) + Flying(s);
  }

  /** A rejection forgets what is in flight. */
  lemma {:induction false} RejectedIsReady(s: State, accepted: seq<Message>, lost: nat, t: Token)
    requires Inv(s, accepted, lost)
    ensures Ready(s.(completed := s.completed + [Rejected(t)]), accepted, lost + |Flying(s)|)
  {
    var c := s.completed + [Rejected(t)];
    assert c[..|c| - 1] == s.completed;
    assert Done(c) == Done(s.completed) + [] == Done(s.completed);
  }

  lemma {:induction false} ListedKeeps(s: State, accepted: seq<Message>, lost: nat, m: Message)
    requires Inv(s, accepted, lost) && m.token != TOKEN_NULL && s.token != TOKEN_NULL
    ensures Inv(s.(list := s.list + [m]), accepted + [m], lost)
  {
    var n, more := Started(s, accepted), accepted + [m];
    assert more[..n] == accepted[..n];
    assert more[n..] == accepted[n..] + [m];
    assert Started(s.(list := s.list + [m]), more) == n;
  }

  /** An idle queue submits as if the message had been listed first. */
  lemma {:induction false} SubmittedKeeps(s: State, accepted: seq<Message>, lost: nat, m: Message)
    requires Inv(s, accepted, lost) && m.token != TOKEN_NULL && s.token == TOKEN_NULL
    ensures Inv(Submit(s.(token := m.token), m), accepted + [m], lost)
  {
    var n, more := Started(s, accepted), accepted + [m];
    assert accepted[..n] == accepted && more[..n] == accepted && more[n..] == [m];
    var listed := s.(list := [m]);
    assert Done(s.completed) + [] == Done(s.completed);
    NextKeeps(listed, more, lost);
    assert [m][1..] == [];
    assert Next(listed) == Submit(s.(token := m.token), m);
  }

  lemma {:induction false} StepKeeps(s: State, accepted: seq<Message>, lost: nat, e: Event)
    requires Inv(s, accepted, lost) && (e.Arrival? ==> e.t != TOKEN_NULL)
    ensures Inv(Step(s, e), accepted + Admitted(s, e), lost + if Loses(s, e) then 1 else 0)
  {
    assert accepted + [] == accepted;
    match e
    case Arrival(t, smsc, pdu) =>
      if Malformed(s.smscNumber, smsc, pdu) {
        RejectedIsReady(s, accepted, lost, t);
        NextKeeps(s.(completed := s.completed + [Rejected(t)]), accepted, lost + |Flying(s)|);
      } else {
        var m := Decoded(s.smscNumber, t, smsc, pdu.value);
        if s.token != TOKEN_NULL {
          ListedKeeps(s, accepted, lost, m);
        } else {
          SubmittedKeeps(s, accepted, lost, m);
        }
      }
    case Status(ok) =>
      var result := if ok then Success else GenericFailure;
      FinishedIsReady(s, accepted, lost, result);
      NextKeeps(s.(completed := s.completed + [Finished(s.token, result)]), accepted, lost);
    case SmscRead(_) =>
  }

  predicate GoodEvents(events: seq<Event>) {
    forall i :: 0 <= i < |events| ==> events[i].Arrival? ==> events[i].t != TOKEN_NULL
  }

  lemma {:induction false} QueueInvariant(events: seq<Event>)
    requires GoodEvents(events)
    ensures Inv(Run(events), Accepted(events), Lost(events))
  {
    if events != [] {
      var before := events[..|events| - 1];
      QueueInvariant(before);
      StepKeeps(Run(before), Accepted(before), Lost(before), events[|events| - 1]);
    }
  }

  /** The tokens accepted are those completed, then the one in flight, then those listed, in order,
      exactly if nothing was lost; in any case the messages handed over are those before the listed
      ones that fit, in order. */
  ghost predicate Fifo(s: State, accepted: seq<Message>, lost: nat) {
    && (Tokens(accepted) == Done(s.completed) + Flying(s) + Tokens(s.list) <==> lost == 0)
    && |s.list| <= |accepted| && s.list == accepted[|accepted| - |s.list|..]
    && s.sent == Fitting(accepted[..|accepted| - |s.list|])
    && (s.token == TOKEN_NULL ==> s.list == [])
  }

  lemma {:induction false} Conserved(s: State, accepted: seq<Message>, lost: nat)
    requires Inv(s, accepted, lost)
    ensures Fifo(s, accepted, lost)
  {
    var n := Started(s, accepted);
    assert Tokens(accepted) == Tokens(accepted[..n]) + Tokens(s.list);
  }

  /** Over every run: the tokens accepted are those completed, then the one in flight, then
      those listed, in order, exactly if no malformed request ever came while a message was in
      flight. Whatever came, the modem was handed the messages once each, in order of arrival,
      and the token is NULL only with an empty list. */
  lemma {:induction false} FifoExactlyOnce(events: seq<Event>)
    requires GoodEvents(events)
    ensures Fifo(Run(events), Accepted(events), Lost(events))
  {
    QueueInvariant(events);
    Conserved(Run(events), Accepted(events), Lost(events));
  }

  function Statuses(events: seq<Event>): nat {
    if events == [] then 0
    else Statuses(events[..|events| - 1]) + if events[|events| - 1].Status? then 1 else 0
  }

  /** The modem reports only on a message it was given. */
  predicate Reported(events: seq<Event>) {
    events == []
    || (Reported(events[..|events| - 1])
        && (events[|events| - 1].Status? ==> Run(events[..|events| - 1]).token != TOKEN_NULL))
  }

  lemma {:induction false} NextSends(s: State)
    ensures |Next(s).sent| == |s.sent| + |Flying(Next(s))| || (exists m :: m in s.list && m.token == TOKEN_NULL)
    decreases |s.list|
  {
    if s.list != [] && TooLarge(s.list[0]) {
      var taken := s.(token := s.list[0].token, list := s.list[1..]);
      NextSends(taken.(completed := taken.completed + [Finished(s.list[0].token, FailRetry)]));
    } else if s.list != [] {
      assert s.list[0] in s.list;
    }
  }

  /** At most one message is with the modem: as long as nothing was lost, those handed over
      are those reported on and the one in flight. */
  lemma {:induction false} OneInFlight(events: seq<Event>)
    requires GoodEvents(events) && Reported(events) && Lost(events) == 0
    ensures |Run(events).sent| == Statuses(events) + |Flying(Run(events))|
  {
    if events != [] {
      var before, e := events[..|events| - 1], events[|events| - 1];
      OneInFlight(before);
      QueueInvariant(before);
      var s := Run(before);
      forall m | m in s.list
        ensures m.token != TOKEN_NULL
      {
      }
      match e
      case Arrival(t, smsc, pdu) =>
        if Malformed(s.smscNumber, smsc, pdu) {
          NextSends(s.(completed := s.completed + [Rejected(t)]));
        } else if s.token == TOKEN_NULL {
          var m := Decoded(s.smscNumber, t, smsc, pdu.value);
          NextSends(s.(token := t, completed := s.completed + [Finished(t, FailRetry)]));
        }
      case Status(ok) =>
        NextSends(s.(completed := s.completed + [Finished(s.token, if ok then Success else GenericFailure)]));
      case SmscRead(_) =>
    }
  }

  lemma {:induction false} RunThen(events: seq<Event>, e: Event, more: seq<Event>)
    requires more == events + [e]
    ensures Run(more) == Step(Run(events), e)
  {
    assert more[..|events|] == events;
  }

  /** A message sent, one listed: then the malformed request starts the second. */
  lemma {:induction false} StartsEarly(a: Token, b: Token, c: Token, smsc: Hex.CString, pdu: Hex.CString)
    requires a != TOKEN_NULL && b != TOKEN_NULL && smsc != "" && pdu != ""
    requires !TooLarge(Message(a, Hex.HexData(pdu), Hex.HexData(smsc)))
    ensures var first, second := Message(a, Hex.HexData(pdu), Hex.HexData(smsc)), Message(b, Hex.HexData(pdu), Hex.HexData(smsc));
            Step(Step(Step(INIT, Arrival(a, Some(smsc), Some(pdu))), Arrival(b, Some(smsc), Some(pdu))), Arrival(c, Some(smsc), None))
            == State("", b, [], [first, second], [Rejected(c)])
  {
    var first, second := Message(a, Hex.HexData(pdu), Hex.HexData(smsc)), Message(b, Hex.HexData(pdu), Hex.HexData(smsc));
    var s := State("", a, [], [first], []);
    assert Step(INIT, Arrival(a, Some(smsc), Some(pdu))) == s;
    assert Step(s, Arrival(b, Some(smsc), Some(pdu))) == s.(list := [second]);
    var rejected := s.(list := [second], completed := [Rejected(c)]);
    assert s.completed + [Rejected(c)] == [Rejected(c)];
    assert Step(s.(list := [second]), Arrival(c, Some(smsc), None)) == Next(rejected);
    assert [second][1..] == [] && [first] + [second] == [first, second];
    assert Next(rejected) == Submit(rejected.(token := b, list := []), second);
  }

  /** How a token is lost: while message a is in flight and b is listed, a malformed request
      starts b. The modem's report on a then completes b, and nothing completes a. */
  lemma {:induction false} MalformedLosesToken(a: Token, b: Token, c: Token, smsc: Hex.CString, pdu: Hex.CString)
    requires a != TOKEN_NULL && b != TOKEN_NULL && a != b && smsc != "" && pdu != ""
    requires !TooLarge(Message(a, Hex.HexData(pdu), Hex.HexData(smsc)))
    ensures var s := Run([Arrival(a, Some(smsc), Some(pdu)), Arrival(b, Some(smsc), Some(pdu)),
                          Arrival(c, Some(smsc), None), Status(true)]);
            s.completed == [Rejected(c), Finished(b, Success)] && s.token == TOKEN_NULL
  {
    var e1, e2, e3 := Arrival(a, Some(smsc), Some(pdu)), Arrival(b, Some(smsc), Some(pdu)), Arrival(c, Some(smsc), None);
    StartsEarly(a, b, c, smsc, pdu);
    RunThen([], e1, [e1]);
    RunThen([e1], e2, [e1, e2]);
    RunThen([e1, e2], e3, [e1, e2, e3]);
    RunThen([e1, e2, e3], Status(true), [e1, e2, e3, Status(true)]);
  }
}
