/** SIM I/O requests (mocha-ril/sim.c): one at a time to the modem, the others in a list. */
module SimIo {
  import opened Options
  import opened Octets
  import Hex
  import opened LinkedList

  type Token = nat

  const TOKEN_NULL: Token := 0
  const TOKEN_WAITING: Token := 0xff

  /** RIL_SIM_IO_v6; `data` is the hexadecimal string it may carry. */
  datatype Args = Args(command: int, fileid: int, p1: int, p2: int, p3: int, data: Option<Hex.CString>, pin2: bool)

  // the commands that are sent on (mocha-ril/sim.h)
  const SIM_COMMAND_READ_BINARY := 0xB0
  const SIM_COMMAND_READ_RECORD := 0xB2
  const SIM_COMMAND_UPDATE_BINARY := 0xD6
  const SIM_COMMAND_UPDATE_RECORD := 0xDC
  const SIM_COMMAND_SEEK := 0xA2
  const SIM_COMMAND_GET_RESPONSE := 0xC0

  type u16 = x: int | 0 <= x < 0x1_0000
  type u32 = x: int | 0 <= x < 0x1_0000_0000

  /** A packet to the SIM; fields that are constants are left out. */
  datatype Packet =
    | FileInfo(fileId: u16)
    | ReadFile(fileId: u16, record: bool, recordIndex: u32, size: u16)
    | UpdateFile(fileId: u16, record: bool, recordIndex: u32, data: seq<octet>)
    | SearchRecord(fileId: u16, recordIndex: u32, recordSize: u32, data: seq<octet>)

  /** A request with its data decoded. */
  datatype Request = Request(command: int, fileid: int, p1: int, p2: int, p3: int, data: seq<octet>)

  /** Refused on arrival: no arguments, a PIN2, or data that is empty or starts with "20". */
  predicate Malformed(args: Option<Args>) {
    match args
    case None => true
    case Some(a) => a.pin2 || (a.data.Some? && (a.data.value == "" || "20" <= a.data.value))
  }

  function Decoded(a: Args): Request {
    Request(a.command, a.fileid, a.p1, a.p2, a.p3, if a.data.Some? then Hex.HexData(a.data.value) else [])
  }

  /** A command that sends something. */
  predicate Supported(command: int) {
    command in {SIM_COMMAND_READ_BINARY, SIM_COMMAND_READ_RECORD, SIM_COMMAND_UPDATE_BINARY, SIM_COMMAND_UPDATE_RECORD,
                SIM_COMMAND_SEEK, SIM_COMMAND_GET_RESPONSE}
  }

  /** What `ril_request_sim_io_complete` sends for a request; the length of the data to search
      for is an octet. */
  function Packets(r: Request): (p: seq<Packet>)
    ensures |p| == if Supported(r.command) then 1 else 0
  {
    var fileId, index := r.fileid % 0x1_0000, r.p1 % 0x1_0000_0000;
    if r.command == SIM_COMMAND_GET_RESPONSE then [FileInfo(fileId)]
    else if r.command == SIM_COMMAND_READ_RECORD || r.command == SIM_COMMAND_READ_BINARY then
      [ReadFile(fileId, r.command == SIM_COMMAND_READ_RECORD, index, r.p3 % 0x1_0000)]
    else if r.command == SIM_COMMAND_UPDATE_RECORD || r.command == SIM_COMMAND_UPDATE_BINARY then
      [UpdateFile(fileId, r.command == SIM_COMMAND_UPDATE_RECORD, index, r.data)]
    else if r.command == SIM_COMMAND_SEEK then
      [SearchRecord(fileId, index, r.p3 % 0x1_0000_0000, r.data[..|r.data| % 256])]
    else []
  }

  predicate RequestToken(t: Token) {
    t != TOKEN_NULL && t != TOKEN_WAITING
  }

  // ---------------------------------------------------------------- the queue as a value

  /** A listed request; its data is dropped once it was started. */
  datatype Info = Info(token: Token, request: Request, waiting: bool)

  datatype State = State(
    smscKnown: bool,
    token: Token,
    list: seq<Info>,
    started: seq<(Token, Request)>,
    sent: seq<Packet>,
    replies: seq<Token>,
    refused: seq<Token>)

  datatype Event =
    | Arrival(t: Token, args: Option<Args>)
    | Response
    | SmscNumber

  function Spent(info: Info): Info {
    info.(waiting := false, request := info.request.(data := []))
  }

  /** `ril_request_sim_io_next`. */
  function Next(s: State): State {
    if s.list == [] then s.(token := TOKEN_NULL)
    else
      var head := s.list[0];
      s.(token := head.token, list := s.list[0 := Spent(head)], started := s.started + [(head.token, head.request)],
         sent := s.sent + Packets(head.request))
  }

  /** The position of the first listed request with the token, or the length of the list. */
  function TokenPosition(list: seq<Info>, t: Token): (k: nat)
    ensures k <= |list|
    ensures k < |list| ==> list[k].token == t
    ensures forall i :: 0 <= i < k ==> list[i].token != t
  {
    if list == [] || list[0].token == t then 0 else 1 + TokenPosition(list[1..], t)
  }

  function Without(list: seq<Info>, k: nat): seq<Info>
    requires k < |list|
  {
    list[..k] + list[k + 1..]
  }

  /** A request enters the queue. */
  function Admit(s: State, t: Token, request: Request): State {
    var info := Info(t, request, true);
    if s.token != TOKEN_NULL then s.(list := s.list + [info])
    else if !s.smscKnown then s.(list := s.list + [info], token := TOKEN_WAITING)
    else s.(list := s.list + [Spent(info)], token := t, started := s.started + [(t, request)], sent := s.sent + Packets(request))
  }

  function Step(s: State, e: Event): State {
    match e
    case Arrival(t, args) =>
      if Malformed(args) then s.(refused := s.refused + [t])
      else Admit(s, t, Decoded(args.value))
    case Response =>
      var k := TokenPosition(s.list, s.token);
      if k == |s.list| then Next(s)
      else Next(s.(replies := s.replies + [s.token], list := Without(s.list, k)))
    case SmscNumber =>
      if s.smscKnown then s
      else if s.token == TOKEN_WAITING then Next(s.(smscKnown := true))
      else s.(smscKnown := true)
  }

  // ---------------------------------------------------------------- the queue as it is

  class SimIoInfo {
    const token: Token
    var request: Request
    var waiting: bool

    constructor (t: Token, request: Request)
      ensures Value() == Info(t, request, true)
    {
      this.token, this.request, this.waiting := t, request, true;
    }

    function Value(): Info
      reads this
    {
      Info(token, request, waiting)
    }
  }

  class Queue {
    var smscKnown: bool
    var token: Token
    const list: List<SimIoInfo>
    /** Requests started, packets sent for them, requests completed by the modem's replies,
        requests completed with an error on arrival. */
    var started: seq<(Token, Request)>
    var sent: seq<Packet>
    var replies: seq<Token>
    var refused: seq<Token>

    ghost predicate Valid()
      reads list, list.nodes, list.Contents()
    {
      list.Valid() && forall i, j :: 0 <= i < j < |list.Contents()| ==> list.Contents()[i] != list.Contents()[j]
    }

    ghost function Infos(): (s: seq<Info>)
      reads list, list.nodes, list.Contents()
      ensures |s| == |list.Contents()|
    {
      var c := list.Contents();
      seq(|c|, i requires 0 <= i < |c| reads c => c[i].Value())
    }

    ghost function Model(): State
      reads this, list, list.nodes, list.Contents()
    {
      State(smscKnown, token, Infos(), started, sent, replies, refused)
    }

    constructor ()
      ensures Valid() && Model() == State(false, TOKEN_NULL, [], [], [], [], [])
      ensures fresh(list) && list.nodes == [] && list.Contents() == []
    {
      smscKnown, token := false, TOKEN_NULL;
      list := new List();
      started, sent, replies, refused := [], [], [], [];
    }

    /** `ril_request_sim_io_register`. */
    method Register(t: Token, request: Request) returns (info: SimIoInfo)
      requires Valid()
      modifies list, list.nodes
      ensures Valid() && fresh(info) && info.Value() == Info(t, request, true)
      ensures list.Contents() == old(list.Contents()) + [info]
      ensures Infos() == old(Infos()) + [Info(t, request, true)]
    {
      info := new SimIoInfo(t, request);
      list.Register(info);
    }

    /** `ril_request_sim_io_unregister`. */
    method Unregister(info: SimIoInfo, ghost k: nat)
      requires Valid() && k < |list.Contents()| && info == list.Contents()[k]
      modifies list, list.nodes
      ensures Valid() && Infos() == Without(old(Infos()), k)
      ensures list.Contents() == old(list.Contents())[..k] + old(list.Contents())[k + 1..]
    {
      ghost var before := list.Contents();
      assert info !in before[..k];
      RemoveFirstAt(before, info, k);
      list.Unregister(info);
      assert list.Contents() == before[..k] + before[k + 1..];
    }

    /** `ril_request_sim_io_complete`: nothing is sent for an unsupported command. */
    method Transmit(r: Request)
      modifies this`sent
      ensures sent == old(sent) + Packets(r)
    {
      var fileId, index := r.fileid % 0x1_0000, r.p1 % 0x1_0000_0000;
      if r.command == SIM_COMMAND_GET_RESPONSE {
        sent := sent + [FileInfo(fileId)];
      } else if r.command == SIM_COMMAND_READ_RECORD {
        sent := sent + [ReadFile(fileId, true, index, r.p3 % 0x1_0000)];
      } else if r.command == SIM_COMMAND_READ_BINARY {
        sent := sent + [ReadFile(fileId, false, index, r.p3 % 0x1_0000)];
      } else if r.command == SIM_COMMAND_UPDATE_RECORD {
        sent := sent + [UpdateFile(fileId, true, index, r.data)];
      } else if r.command == SIM_COMMAND_UPDATE_BINARY {
        sent := sent + [UpdateFile(fileId, false, index, r.data)];
      } else if r.command == SIM_COMMAND_SEEK {
        sent := sent + [SearchRecord(fileId, index, r.p3 % 0x1_0000_0000, r.data[..|r.data| % 256])];
      }
    }

    /** Marks the info as started and sends its packet, if it has one. */
    method Start(info: SimIoInfo, ghost k: nat)
      requires Valid() && k < |list.Contents()| && info == list.Contents()[k]
      modifies this`token, this`started, this`sent, info
      ensures Valid() && token == info.token
      ensures started == old(started) + [(info.token, old(info.request))]
      ensures sent == old(sent) + Packets(old(info.request))
      ensures Infos() == old(Infos())[k := Spent(old(Infos())[k])]
    {
      info.waiting := false;
      token := info.token;
      started := started + [(info.token, info.request)];
      Transmit(info.request);
      info.request := info.request.(data := []);
    }

    /** `ril_request_sim_io_next`. */
    method NextRequest()
      requires Valid()
      modifies this, list.Contents()
      ensures Valid() && Model() == Next(old(Model()))
    {
      token := TOKEN_NULL;
      var first := list.First();
      if first != None {
        Start(first.value, 0);
      }
    }

    static method Decode(a: Args) returns (request: Request)
      ensures request == Decoded(a)
    {
      var data: seq<octet> := [];
      if a.data.Some? {
        var octets := Hex.StringToData(a.data.value);
        data := octets[..];
      }
      request := Request(a.command, a.fileid, a.p1, a.p2, a.p3, data);
    }

    /** `ril_request_sim_io`, once the arguments are decoded. */
    method AdmitRequest(t: Token, request: Request)
      requires Valid()
      modifies this, list, list.nodes
      ensures Valid() && Model() == Admit(old(Model()), t, request)
    {
      var info := Register(t, request);
      if token != TOKEN_NULL {
        return;
      }
      if !smscKnown {
        token := TOKEN_WAITING;
        return;
      }
      Start(info, |list.Contents()| - 1);
    }

    /** `ril_request_sim_io`. */
    method Arrive(t: Token, args: Option<Args>)
      requires Valid()
      modifies this, list, list.nodes
      ensures Valid() && Model() == Step(old(Model()), Arrival(t, args))
    {
      if Malformed(args) {
        refused := refused + [t];
        return;
      }
      var request := Decode(args.value);
      AdmitRequest(t, request);
    }

    /** `ril_request_sim_io_info_find_token`. */
    method FindToken(t: Token) returns (found: Option<SimIoInfo>)
      requires Valid()
      ensures var k := TokenPosition(Infos(), t);
              found == if k == |Infos()| then None else Some(list.Contents()[k])
    {
      var node := list.head;
      ghost var k := 0;
      while node != null
        invariant k <= |list.nodes| && node == if k < |list.nodes| then list.nodes[k] else null
        invariant forall i :: 0 <= i < k ==> Infos()[i].token != t
        decreases |list.nodes| - k
      {
        if node.data.token == t {
          TokenPositionIs(Infos(), t, k);
          return Some(node.data);
        }
        node := node.next;
        k := k + 1;
      }
      TokenPositionIs(Infos(), t, k);
      return None;
    }

    /** Answers the request and unlinks it. */
    method Finish(info: SimIoInfo, ghost k: nat)
      requires Valid() && k < |list.Contents()| && info == list.Contents()[k]
      modifies this`replies, list, list.nodes
      ensures Valid() && list.Contents() == old(list.Contents())[..k] + old(list.Contents())[k + 1..]
      ensures Model() == old(Model()).(replies := old(replies) + [token], list := Without(old(Infos()), k))
    {
      replies := replies + [token];
      Unregister(info, k);
    }

    /** `ipc_sim_io_response`. */
    method Respond()
      requires Valid()
      modifies this, list, list.nodes, list.Contents()
      ensures Valid() && Model() == Step(old(Model()), Response)
    {
      var found := FindToken(token);
      if found == None {
        NextRequest();
        return;
      }
      Finish(found.value, TokenPosition(Infos(), token));
      NextRequest();
    }

    /** `ipc_sim_smsc_number`. */
    method ReceiveSmscNumber()
      requires Valid()
      modifies this, list.Contents()
      ensures Valid() && Model() == Step(old(Model()), SmscNumber)
    {
      if !smscKnown {
        smscKnown := true;
        if token == TOKEN_WAITING {
          NextRequest();
        }
      }
    }
  }

  lemma {:induction false} TokenPositionIs(list: seq<Info>, t: Token, k: nat)
    requires k <= |list| && (k < |list| ==> list[k].token == t)
    requires forall i :: 0 <= i < k ==> list[i].token != t
    ensures TokenPosition(list, t) == k
  {
    if k > 0 {
      TokenPositionIs(list[1..], t, k - 1);
    }
  }

  // ---------------------------------------------------------------- whole runs

  const INIT := State(false, TOKEN_NULL, [], [], [], [], [])

  function Run(s: State, events: seq<Event>): State {
    if events == [] then s
    else Step(Run(s, events[..|events| - 1]), events[|events| - 1])
  }

  function Admitted(e: Event): seq<(Token, Request)> {
    if e.Arrival? && !Malformed(e.args) then [(e.t, Decoded(e.args.value))] else []
  }

  function TurnedAway(e: Event): seq<Token> {
    if e.Arrival? && Malformed(e.args) then [e.t] else []
  }

  /** The requests that entered the queue, in order of arrival. */
  function Accepted(events: seq<Event>): seq<(Token, Request)> {
    if events == [] then [] else Accepted(events[..|events| - 1]) + Admitted(events[|events| - 1])
  }

  /** The requests turned away, in order of arrival. */
  function Refused(events: seq<Event>): seq<Token> {
    if events == [] then [] else Refused(events[..|events| - 1]) + TurnedAway(events[|events| - 1])
  }

  /** The packets for requests, in order. */
  function PacketsOf(requests: seq<(Token, Request)>): seq<Packet> {
    if requests == [] then []
    else PacketsOf(requests[..|requests| - 1]) + Packets(requests[|requests| - 1].1)
  }

  lemma {:induction false} PacketsOfMore(requests: seq<(Token, Request)>, t: Token, r: Request)
    ensures PacketsOf(requests + [(t, r)]) == PacketsOf(requests) + Packets(r)
  {
    assert (requests + [(t, r)])[..|requests|] == requests;
  }

  function Tokens(requests: seq<(Token, Request)>): (t: seq<Token>)
    ensures |t| == |requests|
  {
    seq(|requests|, i requires 0 <= i < |requests| => requests[i].0)
  }

  function Listed(list: seq<Info>): (t: seq<Token>)
    ensures |t| == |list|
  {
    seq(|list|, i requires 0 <= i < |list| => list[i].token)
  }

  /** The request in flight is the head's, already started; all others wait with their data. */
  ghost predicate InFlight(s: State) {
    && s.list != [] && s.token == s.list[0].token && !s.list[0].waiting
    && forall i :: 1 <= i < |s.list| ==> s.list[i].waiting
  }

  /** Requests are held back until the service centre number is known. */
  ghost predicate HeldBack(s: State) {
    s.list != [] && s.token == TOKEN_WAITING && forall i :: 0 <= i < |s.list| ==> s.list[i].waiting
  }

  /** Each listed request that waits has its own data. */
  predicate OwnData(list: seq<Info>, n: nat, accepted: seq<(Token, Request)>) {
    n + |list| <= |accepted| && forall i :: 0 <= i < |list| && list[i].waiting ==> list[i].request == accepted[n + i].1
  }

  ghost predicate Inv(s: State, accepted: seq<(Token, Request)>) {
    && (forall i :: 0 <= i < |accepted| ==> RequestToken(accepted[i].0))
    // every accepted request was answered or is listed, in order
    && Tokens(accepted) == s.replies + Listed(s.list)
    // the first of them were started, once each, in order, with their own data, and exactly
    // their packets were sent
    && |s.started| <= |accepted| && s.started == accepted[..|s.started|] && s.sent == PacketsOf(s.started)
    && OwnData(s.list, |s.replies|, accepted)
    // one outstanding request, or none
    && (if s.token == TOKEN_NULL then s.list == [] && |s.started| == |s.replies|
        else if s.token == TOKEN_WAITING then HeldBack(s) && |s.started| == |s.replies|
        else InFlight(s) && |s.started| == |s.replies| + 1)
  }

  predicate GoodEvent(e: Event) {
    e.Arrival? ==> RequestToken(e.t)
  }

  /** What holds before the next request is started. */
  ghost predicate Ready(s: State, accepted: seq<(Token, Request)>) {
    && (forall i :: 0 <= i < |accepted| ==> RequestToken(accepted[i].0))
    && Tokens(accepted) == s.replies + Listed(s.list)
    && |s.started| == |s.replies| && s.started == accepted[..|s.started|] && s.sent == PacketsOf(s.started)
    && OwnData(s.list, |s.replies|, accepted) && forall i :: 0 <= i < |s.list| ==> s.list[i].waiting
  }

  lemma {:induction false} NextKeeps(s: State, accepted: seq<(Token, Request)>)
    requires Ready(s, accepted)
    ensures Inv(Next(s), accepted) && Next(s).replies == s.replies && Listed(Next(s).list) == Listed(s.list)
  {
    if s.list != [] {
      var r := Next(s);
      var n := |s.replies|;
      assert Tokens(accepted)[n] == s.list[0].token;
      assert accepted[n] == (s.list[0].token, s.list[0].request);
      assert accepted[..n + 1] == accepted[..n] + [accepted[n]];
      assert Listed(r.list) == Listed(s.list);
      PacketsOfMore(s.started, s.list[0].token, s.list[0].request);
    }
  }

  /** The token always finds the head, and nothing while requests are held back. */
  lemma {:induction false} FoundAtHead(s: State, accepted: seq<(Token, Request)>)
    requires Inv(s, accepted)
    ensures InFlight(s) && RequestToken(s.token) ==> TokenPosition(s.list, s.token) == 0
    ensures !RequestToken(s.token) ==> TokenPosition(s.list, s.token) == |s.list|
  {
    if !RequestToken(s.token) {
      forall i | 0 <= i < |s.list|
        ensures s.list[i].token != s.token
      {
        assert Tokens(accepted)[|s.replies| + i] == s.list[i].token;
      }
      TokenPositionIs(s.list, s.token, |s.list|);
    }
  }

  lemma {:induction false} ArrivalKeeps(s: State, accepted: seq<(Token, Request)>, t: Token, args: Option<Args>)
    requires Inv(s, accepted) && RequestToken(t) && !Malformed(args)
    ensures Inv(Step(s, Arrival(t, args)), accepted + [(t, Decoded(args.value))])
  {
    var r := Step(s, Arrival(t, args));
    var more := accepted + [(t, Decoded(args.value))];
    assert Tokens(more) == Tokens(accepted) + [t];
    assert Listed(r.list) == Listed(s.list) + [t];
    assert |s.replies| + |s.list| == |accepted|;
    assert more[..|s.started|] == accepted[..|s.started|];
    if s.token == TOKEN_NULL && s.smscKnown {
      assert more[..|more|] == more;
      PacketsOfMore(s.started, t, Decoded(args.value));
    }
  }

  /** The state once the head was answered and unlinked. */
  function WithoutHead(s: State): State
    requires s.list != []
  {
    s.(replies := s.replies + [s.token], list := Without(s.list, 0))
  }

  lemma {:induction false} ListedTail(list: seq<Info>)
    requires list != []
    ensures Without(list, 0) == list[1..] && Listed(list) == [list[0].token] + Listed(list[1..])
  {
  }

  lemma {:induction false} HeadMoved(replies: seq<Token>, t: Token, rest: seq<Token>)
    ensures replies + ([t] + rest) == replies + [t] + rest
  {
  }

  lemma {:induction false} HeadTokens(s: State, accepted: seq<(Token, Request)>)
    requires s.list != [] && s.token == s.list[0].token && Tokens(accepted) == s.replies + Listed(s.list)
    ensures Tokens(accepted) == WithoutHead(s).replies + Listed(WithoutHead(s).list)
  {
    ListedTail(s.list);
    HeadMoved(s.replies, s.token, Listed(s.list[1..]));
  }

  lemma {:induction false} TailData(list: seq<Info>, n: nat, accepted: seq<(Token, Request)>)
    requires list != [] && OwnData(list, n, accepted)
    ensures OwnData(list[1..], n + 1, accepted)
  {
    var rest := list[1..];
    forall i | 0 <= i < |rest| && rest[i].waiting
      ensures rest[i].request == accepted[n + 1 + i].1
    {
      assert rest[i] == list[i + 1];
    }
  }

  lemma {:induction false} HeadAnswered(s: State, accepted: seq<(Token, Request)>)
    requires Inv(s, accepted) && InFlight(s) && RequestToken(s.token)
    ensures Ready(WithoutHead(s), accepted)
  {
    assert |Tokens(accepted)| == |s.replies| + |s.list|;
    HeadTokens(s, accepted);
    TailData(s.list, |s.replies|, accepted);
    ListedTail(s.list);
  }

  lemma {:induction false} ResponseKeeps(s: State, accepted: seq<(Token, Request)>)
    requires Inv(s, accepted)
    ensures Inv(Step(s, Response), accepted)
    ensures var r := Step(s, Response);
            if RequestToken(s.token) then r.replies == s.replies + [s.token] && |r.list| == |s.list| - 1
            else r.replies == s.replies && |r.list| == |s.list|
  {
    FoundAtHead(s, accepted);
    if RequestToken(s.token) {
      HeadAnswered(s, accepted);
      NextKeeps(WithoutHead(s), accepted);
    } else {
      NextKeeps(s, accepted);
    }
  }

  lemma {:induction false} StepKeeps(s: State, accepted: seq<(Token, Request)>, e: Event)
    requires Inv(s, accepted) && GoodEvent(e)
    ensures Inv(Step(s, e), accepted + Admitted(e))
    ensures Step(s, e).refused == s.refused + TurnedAway(e)
  {
    assert accepted + [] == accepted && s.refused + [] == s.refused;
    match e
    case Arrival(t, args) =>
      if !Malformed(args) {
        ArrivalKeeps(s, accepted, t, args);
      }
    case Response => ResponseKeeps(s, accepted);
    case SmscNumber =>
      if !s.smscKnown && s.token == TOKEN_WAITING {
        NextKeeps(s.(smscKnown := true), accepted);
      }
  }

  /** Over every run: accepted requests are answered or listed in order of arrival; they are
      started once each in that order, at most one unanswered; what was sent for them is the
      packets of those started, none for an unsupported command; the token is NULL only with an
      empty list, and marks waiting only with nothing outstanding. */
  lemma {:induction false} QueueInvariant(events: seq<Event>)
    requires forall i :: 0 <= i < |events| ==> GoodEvent(events[i])
    ensures Inv(Run(INIT, events), Accepted(events))
    ensures Run(INIT, events).refused == Refused(events)
  {
    if events != [] {
      var before := events[..|events| - 1];
      QueueInvariant(before);
      StepKeeps(Run(INIT, before), Accepted(before), events[|events| - 1]);
    }
  }

  function Responses(n: nat): seq<Event> {
    seq(n, _ => Response)
  }

  /** n responses complete the first n listed requests, each with its own token, and put the
      next one in flight. Which requests get a response is the matter of module SimExchange. */
  lemma {:induction false} Drains(s: State, accepted: seq<(Token, Request)>, n: nat)
    requires Inv(s, accepted) && InFlight(s) && RequestToken(s.token) && n <= |s.list|
    ensures var r := Run(s, Responses(n));
            && Inv(r, accepted)
            && r.replies == Tokens(accepted)[..|s.replies| + n]
            && |r.list| == |s.list| - n
            && (if n == |s.list| then r.token == TOKEN_NULL else InFlight(r) && RequestToken(r.token))
  {
    if n > 0 {
      Drains(s, accepted, n - 1);
      assert Responses(n)[..n - 1] == Responses(n - 1);
      DrainStep(Run(s, Responses(n - 1)), accepted);
    }
  }

  lemma {:induction false} DrainStep(s: State, accepted: seq<(Token, Request)>)
    requires Inv(s, accepted) && InFlight(s) && RequestToken(s.token)
    ensures var r := Step(s, Response);
            && Inv(r, accepted)
            && r.replies == s.replies + [s.token] == Tokens(accepted)[..|s.replies| + 1]
            && |r.list| == |s.list| - 1
            && (if r.list == [] then r.token == TOKEN_NULL else InFlight(r) && RequestToken(r.token))
  {
    ResponseKeeps(s, accepted);
    var r := Step(s, Response);
    assert r.replies == Tokens(accepted)[..|r.replies|];
    if r.list != [] {
      assert Listed(r.list)[0] == Tokens(accepted)[|r.replies|];
    }
  }

  /** Until a response comes, nothing but arrivals and the service centre number can happen,
      and they leave the request in flight. */
  lemma {:induction false} OnlyResponsesAdvance(s: State, events: seq<Event>)
    requires InFlight(s) && RequestToken(s.token) && Response !in events
    ensures var r := Run(s, events);
            r.token == s.token && r.started == s.started && r.sent == s.sent && r.replies == s.replies && s.list <= r.list
  {
    if events != [] {
      OnlyResponsesAdvance(s, events[..|events| - 1]);
    }
  }
}
