/** SIM I/O requests together with the modem's replies (mocha-ipc/sim.c, mocha-ril/sim.c): which
    requests get an answer, and which block the queue for good. */
module SimExchange {
  import opened Options
  import SimIo

  type Packet = SimIo.Packet
  type Token = SimIo.Token

  /** The file of the service centre number. */
  const SMSC_FILE: SimIo.u16 := 0x6F42

  // ---------------------------------------------------------------- replies

  datatype Route = ToResponse | ToSmscNumber | ReadNumber

  /** Where `sim_parse_event` takes the reply on a packet: the work-around for the service centre
      number catches every file info and every read of its file. */
  function Routed(p: Packet): Route {
    match p
    case FileInfo(fileId) => if fileId == SMSC_FILE then ReadNumber else ToResponse
    case ReadFile(fileId, _, _, _) => if fileId == SMSC_FILE then ToSmscNumber else ToResponse
    case _ => ToResponse
  }

  /** A request that leads to a response: its command is supported, and it does not ask for the
      info or the contents of the service centre file. */
  predicate Answered(r: SimIo.Request) {
    && SimIo.Supported(r.command)
    && (r.command in {SIM_GET_RESPONSE, SIM_READ_RECORD, SIM_READ_BINARY} ==> r.fileid % 0x1_0000 != SMSC_FILE)
  }

  const SIM_GET_RESPONSE := SimIo.SIM_COMMAND_GET_RESPONSE
  const SIM_READ_RECORD := SimIo.SIM_COMMAND_READ_RECORD
  const SIM_READ_BINARY := SimIo.SIM_COMMAND_READ_BINARY

  // ---------------------------------------------------------------- queue and modem together

  /** The queue, and the packets the modem was sent and has not replied on. */
  datatype World = World(queue: SimIo.State, outstanding: seq<Packet>)

  datatype Event =
    | Arrival(t: Token, args: Option<SimIo.Args>)
    // the SIM becomes ready
    | SimReady
    // the modem replies on one of the outstanding packets, in any order
    | Reply(i: nat, size: SimIo.u16)

  lemma {:induction false} SentGrows(s: SimIo.State, e: SimIo.Event)
    ensures s.sent <= SimIo.Step(s, e).sent
  {
  }

  /** The queue handles an event; what it sends becomes outstanding. */
  function Pass(w: World, e: SimIo.Event, rest: seq<Packet>): World {
    SentGrows(w.queue, e);
    var q := SimIo.Step(w.queue, e);
    World(q, rest + q.sent[|w.queue.sent|..])
  }

  function Step(w: World, e: Event): World {
    match e
    case Arrival(t, args) => Pass(w, SimIo.Arrival(t, args), w.outstanding)
    case SimReady =>
      if w.queue.smscKnown then w else w.(outstanding := w.outstanding + [SimIo.FileInfo(SMSC_FILE)])
    case Reply(i, size) =>
      if i >= |w.outstanding| then w
      else
        var rest := w.outstanding[..i] + w.outstanding[i + 1..];
        match Routed(w.outstanding[i])
        case ReadNumber => w.(outstanding := rest + [SimIo.ReadFile(SMSC_FILE, true, 1, size)])
        case ToSmscNumber => Pass(w, SimIo.SmscNumber, rest)
        case ToResponse => Pass(w, SimIo.Response, rest)
  }

  class Link {
    const queue: SimIo.Queue
    var outstanding: seq<Packet>

    ghost predicate Valid()
      reads queue, queue.list, queue.list.nodes, queue.list.Contents()
    {
      queue.Valid()
    }

    ghost function Model(): World
      reads this, queue, queue.list, queue.list.nodes, queue.list.Contents()
    {
      World(queue.Model(), outstanding)
    }

    constructor ()
      ensures Valid() && Model() == INIT
    {
      queue := new SimIo.Queue();
      outstanding := [];
    }

    /** `ril_request_sim_io`. */
    method Arrive(t: Token, args: Option<SimIo.Args>)
      requires Valid()
      modifies this, queue, queue.list, queue.list.nodes
      ensures Valid() && Model() == Step(old(Model()), Arrival(t, args))
    {
      SentGrows(queue.Model(), SimIo.Arrival(t, args));
      var n := |queue.sent|;
      queue.Arrive(t, args);
      outstanding := outstanding + queue.sent[n..];
    }

    /** The part of `ipc_sim_status` that asks for the service centre file. */
    method ReadySim()
      requires Valid()
      modifies `outstanding
      ensures Valid() && Model() == Step(old(Model()), SimReady)
    {
      if !queue.smscKnown {
        outstanding := outstanding + [SimIo.FileInfo(SMSC_FILE)];
      }
    }

    /** The callback `ipc_sim_io_response`. */
    method Respond()
      requires Valid()
      modifies this, queue, queue.list, queue.list.nodes, queue.list.Contents()
      ensures Valid() && Model() == Pass(old(Model()), SimIo.Response, old(outstanding))
    {
      SentGrows(queue.Model(), SimIo.Response);
      var n := |queue.sent|;
      queue.Respond();
      outstanding := outstanding + queue.sent[n..];
    }

    /** The callback `ipc_sim_smsc_number`. */
    method ReceiveSmscNumber()
      requires Valid()
      modifies this, queue, queue.list.Contents()
      ensures Valid() && Model() == Pass(old(Model()), SimIo.SmscNumber, old(outstanding))
    {
      SentGrows(queue.Model(), SimIo.SmscNumber);
      var n := |queue.sent|;
      queue.ReceiveSmscNumber();
      outstanding := outstanding + queue.sent[n..];
    }

    /** `sim_parse_event`, for the reply on packet i. */
    method ParseEvent(i: nat, size: SimIo.u16)
      requires Valid() && i < |outstanding|
      modifies this, queue, queue.list, queue.list.nodes, queue.list.Contents()
      ensures Valid() && Model() == Step(old(Model()), Reply(i, size))
    {
      var p := outstanding[i];
      outstanding := outstanding[..i] + outstanding[i + 1..];
      match p
      case FileInfo(fileId) =>
        if fileId == SMSC_FILE {
          outstanding := outstanding + [SimIo.ReadFile(SMSC_FILE, true, 1, size)];
        } else {
          Respond();
        }
      case ReadFile(fileId, _, _, _) =>
        if fileId == SMSC_FILE {
          ReceiveSmscNumber();
        } else {
          Respond();
        }
      case UpdateFile(_, _, _, _) => Respond();
      case SearchRecord(_, _, _, _) => Respond();
    }
  }

  // ---------------------------------------------------------------- whole runs

  const INIT := World(SimIo.INIT, [])

  function Run(w: World, events: seq<Event>): World {
    if events == [] then w
    else Step(Run(w, events[..|events| - 1]), events[|events| - 1])
  }

  function Admitted(e: Event): seq<(Token, SimIo.Request)> {
    if e.Arrival? then SimIo.Admitted(SimIo.Arrival(e.t, e.args)) else []
  }

  /** The requests that entered the queue, in order of arrival. */
  function Accepted(events: seq<Event>): seq<(Token, SimIo.Request)> {
    if events == [] then [] else Accepted(events[..|events| - 1]) + Admitted(events[|events| - 1])
  }

  predicate Good(e: Event) {
    e.Arrival? ==> SimIo.RequestToken(e.t)
  }

  predicate GoodEvents(events: seq<Event>) {
    forall i :: 0 <= i < |events| ==> Good(events[i])
  }

  predicate Bearing(p: Packet) {
    Routed(p) == ToResponse
  }

  /** How many packets lead to a response. */
  function Bearers(packets: seq<Packet>): nat {
    if packets == [] then 0
    else Bearers(packets[..|packets| - 1]) + if Bearing(packets[|packets| - 1]) then 1 else 0
  }

  lemma {:induction false} BearersConcat(a: seq<Packet>, b: seq<Packet>)
    ensures Bearers(a + b) == Bearers(a) + Bearers(b)
  {
    if b == [] {
      assert a + b == a;
    } else {
      BearersConcat(a, b[..|b| - 1]);
      assert (a + b)[..|a + b| - 1] == a + b[..|b| - 1];
    }
  }

  lemma {:induction false} BearersWithout(packets: seq<Packet>, i: nat)
    requires i < |packets|
    ensures Bearers(packets) == Bearers(packets[..i] + packets[i + 1..]) + if Bearing(packets[i]) then 1 else 0
  {
    BearersConcat(packets[..i], packets[i + 1..]);
    BearersConcat(packets[..i], [packets[i]]);
    BearersConcat(packets[..i] + [packets[i]], packets[i + 1..]);
    assert packets == packets[..i] + [packets[i]] + packets[i + 1..];
    assert [packets[i]][..0] == [];
  }

  lemma {:induction false} BearerAt(packets: seq<Packet>) returns (i: nat)
    requires Bearers(packets) > 0
    ensures i < |packets| && Bearing(packets[i])
  {
    i := |packets| - 1;
    if !Bearing(packets[i]) {
      i := BearerAt(packets[..i]);
    }
  }

  /** A request is answered exactly if its packet leads to a response. */
  lemma {:induction false} AnsweredBearer(r: SimIo.Request)
    ensures Bearers(SimIo.Packets(r)) == if Answered(r) then 1 else 0
  {
    var p := SimIo.Packets(r);
    if SimIo.Supported(r.command) {
      assert p[..0] == [];
    }
  }

  /** A request is with the modem, or would be: it was started and is not completed. */
  predicate Busy(s: SimIo.State, accepted: seq<(Token, SimIo.Request)>) {
    SimIo.RequestToken(s.token) && |s.replies| < |accepted|
  }

  /** What holds in every reachable state: a packet that leads to a response is outstanding
      exactly while a request that is answered is the one started, and no other request was
      ever completed. */
  ghost predicate Inv(w: World, accepted: seq<(Token, SimIo.Request)>) {
    SimIo.Inv(w.queue, accepted) && Exchange(w, accepted)
  }

  predicate Exchange(w: World, accepted: seq<(Token, SimIo.Request)>) {
    var s := w.queue;
    && (s.token == SimIo.TOKEN_WAITING ==> !s.smscKnown)
    && (!s.smscKnown ==> !SimIo.RequestToken(s.token) && s.replies == [])
    && Bearers(w.outstanding) == (if Busy(s, accepted) && Answered(accepted[|s.replies|].1) then 1 else 0)
    && (forall i :: 0 <= i < |s.replies| && i < |accepted| ==> Answered(accepted[i].1))
  }

  /** From s to r one request was started, or none: what that sent. */
  lemma {:induction false} SentFor(s: SimIo.State, r: SimIo.State, accepted: seq<(Token, SimIo.Request)>, more: seq<(Token, SimIo.Request)>)
    requires SimIo.Inv(s, accepted) && SimIo.Inv(r, more) && accepted <= more
    requires |s.started| <= |r.started| <= |s.started| + 1
    ensures r.sent == s.sent + if |r.started| == |s.started| then [] else SimIo.Packets(more[|s.started|].1)
  {
    if |r.started| == |s.started| {
      assert r.started == s.started;
    } else {
      assert r.started[..|s.started|] == s.started;
    }
  }

  lemma {:induction false} TokenOfHead(s: SimIo.State, accepted: seq<(Token, SimIo.Request)>)
    requires SimIo.Inv(s, accepted) && s.list != []
    ensures |s.replies| < |accepted| && SimIo.RequestToken(s.list[0].token)
  {
    assert SimIo.Tokens(accepted)[|s.replies|] == s.list[0].token;
  }

  lemma {:induction false} BusyStarted(s: SimIo.State, accepted: seq<(Token, SimIo.Request)>)
    requires SimIo.Inv(s, accepted)
    ensures Busy(s, accepted) <==> SimIo.RequestToken(s.token)
    ensures |s.started| == |s.replies| + if Busy(s, accepted) then 1 else 0
  {
    assert |SimIo.Tokens(accepted)| == |s.replies| + |s.list|;
  }

  /** What a step that goes through the queue leaves outstanding. */
  lemma {:induction false} PassBearers(w: World, e: SimIo.Event, rest: seq<Packet>,
                                       accepted: seq<(Token, SimIo.Request)>, more: seq<(Token, SimIo.Request)>)
    requires var r := SimIo.Step(w.queue, e);
             && SimIo.Inv(w.queue, accepted) && SimIo.Inv(r, more) && accepted <= more
             && |w.queue.started| <= |r.started| <= |w.queue.started| + 1
    ensures var r := SimIo.Step(w.queue, e);
            Bearers(Pass(w, e, rest).outstanding)
            == Bearers(rest) + if |r.started| > |w.queue.started| && Answered(more[|w.queue.started|].1) then 1 else 0
  {
    var r := SimIo.Step(w.queue, e);
    SentFor(w.queue, r, accepted, more);
    var new_ := r.sent[|w.queue.sent|..];
    BearersConcat(rest, new_);
    if |r.started| > |w.queue.started| {
      AnsweredBearer(more[|w.queue.started|].1);
    }
  }

  lemma {:induction false} ArrivalKeeps(w: World, accepted: seq<(Token, SimIo.Request)>, e: Event)
    requires Inv(w, accepted) && e.Arrival? && Good(e)
    ensures Inv(Step(w, e), accepted + Admitted(e))
  {
    var s, a, more := w.queue, SimIo.Arrival(e.t, e.args), accepted + Admitted(e);
    var r := SimIo.Step(s, a);
    SimIo.StepKeeps(s, accepted, a);
    BusyStarted(s, accepted);
    BusyStarted(r, more);
    PassBearers(w, a, w.outstanding, accepted, more);
  }

  /** What the service centre number does to the queue: a request held back for it is started. */
  lemma {:induction false} QueueLearns(s: SimIo.State, accepted: seq<(Token, SimIo.Request)>)
    requires SimIo.Inv(s, accepted) && (s.token == SimIo.TOKEN_WAITING ==> !s.smscKnown)
    ensures var r := SimIo.Step(s, SimIo.SmscNumber);
            && SimIo.Inv(r, accepted) && r.replies == s.replies && r.smscKnown && r.token != SimIo.TOKEN_WAITING
            && (if s.token == SimIo.TOKEN_WAITING then |r.started| == |s.started| + 1 else r.started == s.started && r.token == s.token)
  {
    SimIo.StepKeeps(s, accepted, SimIo.SmscNumber);
    assert accepted + SimIo.Admitted(SimIo.SmscNumber) == accepted;
    if s.list != [] {
      TokenOfHead(s, accepted);
    }
  }

  lemma {:induction false} LearnExchange(w: World, accepted: seq<(Token, SimIo.Request)>, r: World)
    requires Exchange(w, accepted) && r.queue.replies == w.queue.replies
    requires r.queue.token != SimIo.TOKEN_WAITING && r.queue.smscKnown
    requires Bearers(r.outstanding) == if Busy(r.queue, accepted) && Answered(accepted[|r.queue.replies|].1) then 1 else 0
    ensures Exchange(r, accepted)
  {
  }

  lemma {:induction false} SmscKeeps(w: World, accepted: seq<(Token, SimIo.Request)>, rest: seq<Packet>)
    requires Inv(w, accepted) && Bearers(rest) == Bearers(w.outstanding)
    ensures Inv(Pass(w, SimIo.SmscNumber, rest), accepted)
  {
    var r := SimIo.Step(w.queue, SimIo.SmscNumber);
    QueueLearns(w.queue, accepted);
    BusyStarted(w.queue, accepted);
    BusyStarted(r, accepted);
    PassBearers(w, SimIo.SmscNumber, rest, accepted, accepted);
    LearnExchange(w, accepted, Pass(w, SimIo.SmscNumber, rest));
  }

  /** What a response does to the queue: one more request is completed, one more started if
      one is left. */
  lemma {:induction false} QueueResponds(s: SimIo.State, accepted: seq<(Token, SimIo.Request)>)
    requires SimIo.Inv(s, accepted) && Busy(s, accepted)
    ensures var r := SimIo.Step(s, SimIo.Response);
            && SimIo.Inv(r, accepted) && r.replies == s.replies + [s.token]
            && r.token != SimIo.TOKEN_WAITING && r.smscKnown == s.smscKnown
            && |s.started| == |r.replies| && |r.started| == |r.replies| + (if Busy(r, accepted) then 1 else 0)
            && (Busy(r, accepted) <==> SimIo.RequestToken(r.token))
  {
    SimIo.DrainStep(s, accepted);
    BusyStarted(s, accepted);
    BusyStarted(SimIo.Step(s, SimIo.Response), accepted);
  }

  lemma {:induction false} ResponseExchange(w: World, accepted: seq<(Token, SimIo.Request)>, r: World)
    requires Exchange(w, accepted) && Busy(w.queue, accepted) && Answered(accepted[|w.queue.replies|].1)
    requires r.queue.replies == w.queue.replies + [w.queue.token]
    requires r.queue.token != SimIo.TOKEN_WAITING && r.queue.smscKnown == w.queue.smscKnown
    requires Bearers(r.outstanding) == if Busy(r.queue, accepted) && Answered(accepted[|r.queue.replies|].1) then 1 else 0
    ensures Exchange(r, accepted)
  {
  }

  lemma {:induction false} ResponseKeeps(w: World, accepted: seq<(Token, SimIo.Request)>, rest: seq<Packet>)
    requires Inv(w, accepted) && Bearers(w.outstanding) == Bearers(rest) + 1
    ensures Inv(Pass(w, SimIo.Response, rest), accepted)
    ensures Pass(w, SimIo.Response, rest).queue.replies == w.queue.replies + [w.queue.token]
  {
    QueueResponds(w.queue, accepted);
    PassBearers(w, SimIo.Response, rest, accepted, accepted);
    ResponseExchange(w, accepted, Pass(w, SimIo.Response, rest));
  }

  /** What else becomes outstanding, or is no longer, leads to no response. */
  lemma {:induction false} OthersKeep(w: World, accepted: seq<(Token, SimIo.Request)>, outstanding: seq<Packet>)
    requires Inv(w, accepted) && Bearers(outstanding) == Bearers(w.outstanding)
    ensures Inv(w.(outstanding := outstanding), accepted)
  {
  }

  lemma {:induction false} ReadKeeps(w: World, accepted: seq<(Token, SimIo.Request)>, rest: seq<Packet>, size: SimIo.u16)
    requires Inv(w, accepted) && Bearers(rest) == Bearers(w.outstanding)
    ensures Inv(w.(outstanding := rest + [SimIo.ReadFile(SMSC_FILE, true, 1, size)]), accepted)
  {
    var read := SimIo.ReadFile(SMSC_FILE, true, 1, size);
    BearersConcat(rest, [read]);
    assert [read][..0] == [];
    OthersKeep(w, accepted, rest + [read]);
  }

  lemma {:induction false} ReplyKeeps(w: World, accepted: seq<(Token, SimIo.Request)>, i: nat, size: SimIo.u16)
    requires Inv(w, accepted) && i < |w.outstanding|
    ensures Inv(Step(w, Reply(i, size)), accepted)
  {
    var rest := w.outstanding[..i] + w.outstanding[i + 1..];
    BearersWithout(w.outstanding, i);
    var route := Routed(w.outstanding[i]);
    if route == ReadNumber {
      ReadKeeps(w, accepted, rest, size);
    } else if route == ToSmscNumber {
      SmscKeeps(w, accepted, rest);
    } else {
      ResponseKeeps(w, accepted, rest);
    }
  }

  lemma {:induction false} StepKeeps(w: World, accepted: seq<(Token, SimIo.Request)>, e: Event)
    requires Inv(w, accepted) && Good(e)
    ensures Inv(Step(w, e), accepted + Admitted(e))
  {
    if e.Arrival? {
      ArrivalKeeps(w, accepted, e);
    } else {
      assert accepted + Admitted(e) == accepted;
      if e.SimReady? {
        BearersConcat(w.outstanding, [SimIo.FileInfo(SMSC_FILE)]);
        OthersKeep(w, accepted, w.outstanding + [SimIo.FileInfo(SMSC_FILE)]);
      } else if e.i < |w.outstanding| {
        ReplyKeeps(w, accepted, e.i, e.size);
      }
    }
  }

  lemma {:induction false} ExchangeInvariant(events: seq<Event>)
    requires GoodEvents(events)
    ensures Inv(Run(INIT, events), Accepted(events))
  {
    if events != [] {
      var before := events[..|events| - 1];
      ExchangeInvariant(before);
      StepKeeps(Run(INIT, before), Accepted(before), events[|events| - 1]);
    }
  }

  // ---------------------------------------------------------------- which requests complete

  /** The first request that is not answered, or |accepted|. */
  function Blocker(accepted: seq<(Token, SimIo.Request)>): (k: nat)
    ensures k <= |accepted| && (k < |accepted| ==> !Answered(accepted[k].1))
    ensures forall i :: 0 <= i < k ==> Answered(accepted[i].1)
  {
    if accepted == [] || !Answered(accepted[0].1) then 0 else 1 + Blocker(accepted[1..])
  }

  /** Over every run: only requests before the first one that is not answered are completed, in
      order. Once the modem has replied on everything it was sent, and the service centre number
      is known, all of them are: so every request is completed exactly if all are answered. */
  lemma {:induction false} CompletesUpToBlocker(events: seq<Event>)
    requires GoodEvents(events)
    ensures var w, accepted := Run(INIT, events), Accepted(events);
            var k, tokens := Blocker(accepted), SimIo.Tokens(accepted);
            && |w.queue.replies| <= k && w.queue.replies <= tokens[..k]
            && (w.outstanding == [] && w.queue.smscKnown ==>
                  && w.queue.replies == tokens[..k]
                  && (w.queue.replies == tokens <==> forall i :: 0 <= i < |accepted| ==> Answered(accepted[i].1)))
  {
    ExchangeInvariant(events);
    CompletedBefore(Run(INIT, events), Accepted(events));
  }

  lemma {:induction false} CompletedBefore(w: World, accepted: seq<(Token, SimIo.Request)>)
    requires Inv(w, accepted)
    ensures var k, tokens := Blocker(accepted), SimIo.Tokens(accepted);
            && |w.queue.replies| <= k && w.queue.replies <= tokens[..k]
            && (w.outstanding == [] && w.queue.smscKnown ==>
                  && w.queue.replies == tokens[..k]
                  && (w.queue.replies == tokens <==> forall i :: 0 <= i < |accepted| ==> Answered(accepted[i].1)))
  {
    var s, k, tokens := w.queue, Blocker(accepted), SimIo.Tokens(accepted);
    BusyStarted(s, accepted);
    assert tokens == s.replies + SimIo.Listed(s.list);
    assert tokens[..|s.replies|] == s.replies;
    if w.outstanding == [] && s.smscKnown {
      assert |s.replies| == k;
      assert s.replies == tokens ==> k == |accepted|;
    }
  }

  /** A request that is not answered is at the head. */
  ghost predicate Blocked(w: World, accepted: seq<(Token, SimIo.Request)>) {
    Inv(w, accepted) && Busy(w.queue, accepted) && !Answered(accepted[|w.queue.replies|].1)
  }

  predicate SameHead(s: SimIo.State, r: SimIo.State) {
    r.token == s.token && r.replies == s.replies && r.started == s.started
  }

  lemma {:induction false} HeadKept(w: World, accepted: seq<(Token, SimIo.Request)>, e: Event)
    requires Blocked(w, accepted)
    ensures SameHead(w.queue, Step(w, e).queue)
  {
    if e.Reply? && e.i < |w.outstanding| {
      BearersWithout(w.outstanding, e.i);
    }
  }

  lemma {:induction false} StepBlocked(w: World, accepted: seq<(Token, SimIo.Request)>, e: Event)
    requires Blocked(w, accepted) && Good(e)
    ensures Blocked(Step(w, e), accepted + Admitted(e))
  {
    HeadKept(w, accepted, e);
    StepKeeps(w, accepted, e);
  }

  /** A request that is not answered stays at the head for good. */
  lemma {:induction false} StaysBlocked(w: World, accepted: seq<(Token, SimIo.Request)>, events: seq<Event>)
    requires Blocked(w, accepted) && GoodEvents(events)
    ensures Blocked(Run(w, events), accepted + Accepted(events)) && SameHead(w.queue, Run(w, events).queue)
  {
    if events == [] {
      assert accepted + [] == accepted;
    } else {
      var before, e := events[..|events| - 1], events[|events| - 1];
      StaysBlocked(w, accepted, before);
      HeadKept(Run(w, before), accepted + Accepted(before), e);
      StepBlocked(Run(w, before), accepted + Accepted(before), e);
      assert accepted + Accepted(before) + Admitted(e) == accepted + Accepted(events);
    }
  }

  /** The reply that completes an answered request. */
  lemma {:induction false} CanAdvance(w: World, accepted: seq<(Token, SimIo.Request)>) returns (more: seq<Event>)
    requires Inv(w, accepted) && Busy(w.queue, accepted) && Answered(accepted[|w.queue.replies|].1)
    ensures GoodEvents(more) && |Run(w, more).queue.replies| > |w.queue.replies|
  {
    var i := BearerAt(w.outstanding);
    BearersWithout(w.outstanding, i);
    ResponseKeeps(w, accepted, w.outstanding[..i] + w.outstanding[i + 1..]);
    more := [Reply(i, 0)];
    assert more[..0] == [];
    assert Run(w, more) == Step(w, Reply(i, 0));
  }

  /** In every reachable state with a request at the head that was started: the queue can get
      past it, by whatever happens, exactly if the request is answered. */
  lemma {:induction false} AdvancesIffAnswered(events: seq<Event>)
    requires GoodEvents(events)
    requires Busy(Run(INIT, events).queue, Accepted(events))
    ensures var w, accepted := Run(INIT, events), Accepted(events);
            (exists more :: GoodEvents(more) && |Run(w, more).queue.replies| > |w.queue.replies|)
            <==> Answered(accepted[|w.queue.replies|].1)
  {
    ExchangeInvariant(events);
    AdvancesFrom(Run(INIT, events), Accepted(events));
  }

  lemma {:induction false} AdvancesFrom(w: World, accepted: seq<(Token, SimIo.Request)>)
    requires Inv(w, accepted) && Busy(w.queue, accepted)
    ensures (exists more :: GoodEvents(more) && |Run(w, more).queue.replies| > |w.queue.replies|)
            <==> Answered(accepted[|w.queue.replies|].1)
  {
    if Answered(accepted[|w.queue.replies|].1) {
      var more := CanAdvance(w, accepted);
    } else {
      forall more | GoodEvents(more)
        ensures |Run(w, more).queue.replies| == |w.queue.replies|
      {
        StaysBlocked(w, accepted, more);
      }
    }
  }

  // ---------------------------------------------------------------- runs that block

  lemma {:induction false} RunThen(w: World, events: seq<Event>, e: Event, more: seq<Event>)
    requires more == events + [e]
    ensures Run(w, more) == Step(Run(w, events), e) && Accepted(more) == Accepted(events) + Admitted(e)
  {
    assert more[..|events|] == events;
  }

  lemma {:induction false} FirstReplies(size: SimIo.u16)
    ensures var info, read := SimIo.FileInfo(SMSC_FILE), SimIo.ReadFile(SMSC_FILE, true, 1, size);
            && Step(INIT, SimReady) == INIT.(outstanding := [info])
            && Step(INIT.(outstanding := [info]), Reply(0, size)) == INIT.(outstanding := [read])
            && Step(INIT.(outstanding := [read]), Reply(0, size)) == INIT.(queue := SimIo.INIT.(smscKnown := true))
  {
    var info, read := SimIo.FileInfo(SMSC_FILE), SimIo.ReadFile(SMSC_FILE, true, 1, size);
    assert [info][..0] + [info][1..] + [read] == [read];
    assert [read][..0] + [read][1..] == [];
  }

  /** The SIM becomes ready and the service centre number is read. */
  lemma {:induction false} NumberIsRead(size: SimIo.u16)
    ensures var events := [SimReady, Reply(0, size), Reply(0, size)];
            Run(INIT, events) == INIT.(queue := SimIo.INIT.(smscKnown := true)) && Accepted(events) == []
  {
    FirstReplies(size);
    RunThen(INIT, [], SimReady, [SimReady]);
    RunThen(INIT, [SimReady], Reply(0, size), [SimReady, Reply(0, size)]);
    RunThen(INIT, [SimReady, Reply(0, size)], Reply(0, size), [SimReady, Reply(0, size), Reply(0, size)]);
  }

  /** Requests 1 and 2 come once the number is known. */
  function TwoRequests(first: SimIo.Args, second: SimIo.Args): (events: seq<Event>)
    ensures GoodEvents(events)
  {
    [SimReady, Reply(0, 0), Reply(0, 0)] + [Arrival(1, Some(first))] + [Arrival(2, Some(second))]
  }

  /** If the first is not answered, the second never starts, whatever happens then. */
  lemma {:induction false} SecondNeverStarts(first: SimIo.Args, second: SimIo.Args, more: seq<Event>)
    requires !SimIo.Malformed(Some(first)) && !SimIo.Malformed(Some(second)) && !Answered(SimIo.Decoded(first))
    requires GoodEvents(more)
    ensures var s := Run(Run(INIT, TwoRequests(first, second)), more).queue;
            s.started == [(1, SimIo.Decoded(first))] && s.replies == [] && s.token == 1
  {
    var ready, a, b := [SimReady, Reply(0, 0), Reply(0, 0)], Arrival(1, Some(first)), Arrival(2, Some(second));
    NumberIsRead(0);
    RunThen(INIT, ready, a, ready + [a]);
    RunThen(INIT, ready + [a], b, ready + [a] + [b]);
    var events := TwoRequests(first, second);
    ExchangeInvariant(events);
    assert Accepted(events)[0] == (1, SimIo.Decoded(first)) && |Accepted(events)| == 2;
    StaysBlocked(Run(INIT, events), Accepted(events), more);
  }

  /** So it is after a command that is not supported, and after a request for the info of the
      service centre file. */
  lemma {:induction false} BlockingInputs(more: seq<Event>)
    requires GoodEvents(more)
    ensures var second := SimIo.Args(SIM_GET_RESPONSE, 0x6F07, 0, 0, 15, None, false);
            && Answered(SimIo.Decoded(second))
            && Run(Run(INIT, TwoRequests(SimIo.Args(242, 0x3F00, 0, 0, 0, None, false), second)), more).queue.token == 1
            && Run(Run(INIT, TwoRequests(SimIo.Args(SIM_GET_RESPONSE, 0x6F42, 0, 0, 15, None, false), second)), more).queue.token == 1
  {
    var second := SimIo.Args(SIM_GET_RESPONSE, 0x6F07, 0, 0, 15, None, false);
    SecondNeverStarts(SimIo.Args(242, 0x3F00, 0, 0, 0, None, false), second, more);
    SecondNeverStarts(SimIo.Args(SIM_GET_RESPONSE, 0x6F42, 0, 0, 15, None, false), second, more);
  }
}
