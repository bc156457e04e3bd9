/** Power, radio and SIM states, and the request for the baseband version that may have to wait
    for them (mocha-ril/pwr.c, sim.c, network.c, misc.c, mocha-ril.c). */
module Radio {
  import opened Numbers

  type Token = nat

  const TOKEN_NULL: Token := 0

  /** A version text: no terminator inside, and it fits `cached_sw_version`. */
  type Version = v: string | |v| <= 32 && '\0' !in v

  datatype PowerState = PowerOff | PowerLpm | PowerNormal

  datatype RadioState = RadioOff | RadioOn | SimReady | SimNotReady | SimLockedOrAbsent

  // the states of `ril_sim_state`; the modem may send any number
  const SIM_STATE_ABSENT := 0
  const SIM_STATE_NOT_READY := 1
  const SIM_STATE_READY := 2
  const SIM_STATE_PIN := 3
  const SIM_STATE_SERVICE_PROVIDER_PERSO := 9

  datatype CardEvent = CardNotPresent | SimOk | OtherEvent

  /** A call of ril_request_complete. */
  datatype Completion = Answered(t: Token, version: Version) | Powered(t: Token, available: bool)

  // ---------------------------------------------------------------- the states as a value

  datatype State = State(
    power: PowerState,
    radio: RadioState,
    sim: int,
    cachedSwVersion: Version,
    basebandVersion: Token,
    completed: seq<Completion>)

  datatype Event =
    | SystemStart(text: Version, size: nat)
    | RadioPower(t: Token, powerState: int)
    | SimStatus(simState: int)
    | SimOpen(card: CardEvent)
    | BasebandVersion(t: Token)

  /** The radio state of a SIM state, at normal power. */
  function RadioOf(sim: int): RadioState {
    if sim == SIM_STATE_READY then SimReady
    else if sim == SIM_STATE_ABSENT || SIM_STATE_PIN <= sim <= SIM_STATE_SERVICE_PROVIDER_PERSO then SimLockedOrAbsent
    else SimNotReady
  }

  /** The version known after the modem started with a text and a packet of `size` octets: the
      text, or, if its terminator lies past the packet, what was known, cut to its length. */
  function Stored(known: Version, text: Version, size: nat): (v: Version)
    ensures |text| <= size ==> v == text
  {
    if |text| <= size then text else if |known| <= |text| then known else known[..|text|]
  }

  /** `ril_request_baseband_version`. */
  function Request(s: State, t: Token): State {
    if s.cachedSwVersion != "" then s.(completed := s.completed + [Answered(t, s.cachedSwVersion)])
    else s.(basebandVersion := t)
  }

  /** `ril_tokens_check`: the token is cleared after the request, even where the request has
      just parked it again. */
  function TokensCheck(s: State): State {
    if s.basebandVersion != TOKEN_NULL && s.radio != RadioOff then
      Request(s, s.basebandVersion).(basebandVersion := TOKEN_NULL)
    else s
  }

  /** `ril_state_update`. */
  function StateUpdate(s: State, sim: int): State {
    if s.power != PowerNormal then s.(sim := sim)
    else TokensCheck(s.(sim := sim, radio := RadioOf(sim)))
  }

  /** Power off or on, with `network_start`. */
  function SetPower(s: State, powerState: int): State {
    if powerState <= 0 then s.(power := PowerLpm, radio := RadioOff)
    else
      var on := s.(power := PowerNormal, radio := RadioOn);
      if on.sim == SIM_STATE_READY then StateUpdate(on, SIM_STATE_READY) else on
  }

  /** `ipc_sim_open`. */
  function Open(s: State, card: CardEvent): State {
    match card
    case CardNotPresent => TokensCheck(StateUpdate(s, SIM_STATE_ABSENT))
    case SimOk => TokensCheck(StateUpdate(s, SIM_STATE_READY))
    case OtherEvent => TokensCheck(s)
  }

  function Step(s: State, e: Event): State {
    match e
    case SystemStart(text, size) =>
      TokensCheck(s.(power := PowerLpm, radio := RadioOff, cachedSwVersion := Stored(s.cachedSwVersion, text, size)))
    case RadioPower(t, powerState) =>
      if s.power == PowerOff then s.(completed := s.completed + [Powered(t, false)])
      else
        var r := SetPower(s, powerState);
        r.(completed := r.completed + [Powered(t, true)])
    case SimStatus(simState) => StateUpdate(s, simState)
    case SimOpen(card) => Open(s, card)
    case BasebandVersion(t) => Request(s, t)
  }

  // ---------------------------------------------------------------- the states as they are

  lemma {:induction false} CStrIs(buffer: string, n: nat)
    requires n < |buffer| && buffer[n] == '\0' && '\0' !in buffer[..n]
    ensures CStr(buffer) == buffer[..n]
  {
    assert forall i :: 0 <= i < n ==> buffer[i] in buffer[..n];
    CStrWhole(buffer[..n], buffer[n..]);
    assert buffer[..n] + buffer[n..] == buffer;
  }

  class Ril {
    var power: PowerState
    var radio: RadioState
    var sim: int
    const cachedSwVersion: array<char>
    var basebandVersion: Token
    var completed: seq<Completion>

    /** The field has its size and holds a terminated text. */
    ghost predicate Valid()
      reads cachedSwVersion
    {
      cachedSwVersion.Length == 33 && exists i :: 0 <= i < 33 && cachedSwVersion[i] == '\0'
    }

    function Cached(): (v: Version)
      requires Valid()
      reads cachedSwVersion
      ensures v == "" <==> cachedSwVersion[0] == '\0'
      ensures cachedSwVersion[|v|] == '\0' && v == cachedSwVersion[..|v|]
    {
      CStr(cachedSwVersion[..])
    }

    ghost function Model(): State
      requires Valid()
      reads this, cachedSwVersion
    {
      State(power, radio, sim, Cached(), basebandVersion, completed)
    }

    /** `ril_data_init` and the end of `RIL_Init`. */
    constructor ()
      ensures Valid() && Model() == INIT
    {
      power, radio, sim := PowerOff, RadioOff, SIM_STATE_NOT_READY;
      basebandVersion, completed := TOKEN_NULL, [];
      cachedSwVersion := new char[33](_ => '\0');
      new;
      assert cachedSwVersion[0] == '\0';
    }

    /** Stores a text that fits its packet, or ends what is stored where the text ends. */
    method StoreVersion(text: Version, size: nat)
      requires Valid()
      modifies cachedSwVersion
      ensures Valid() && Cached() == Stored(old(Cached()), text, size)
    {
      ghost var known := Cached();
      if |text| <= size {
        for i := 0 to |text|
          invariant cachedSwVersion[..i] == text[..i]
        {
          cachedSwVersion[i] := text[i];
        }
      }
      cachedSwVersion[|text|] := '\0';
      ghost var n := if |text| <= size then |text| else |Stored(known, text, size)|;
      CStrIs(cachedSwVersion[..], n);
    }

    /** `ril_request_baseband_version`. */
    method RequestBasebandVersion(t: Token)
      requires Valid()
      modifies this
      ensures Valid() && Model() == Request(old(Model()), t)
    {
      if cachedSwVersion[0] != '\0' {
        completed := completed + [Answered(t, Cached())];
      } else {
        basebandVersion := t;
      }
    }

    /** `ril_tokens_check`. */
    method CheckTokens()
      requires Valid()
      modifies this
      ensures Valid() && Model() == TokensCheck(old(Model()))
    {
      if basebandVersion != TOKEN_NULL {
        if radio != RadioOff {
          RequestBasebandVersion(basebandVersion);
          basebandVersion := TOKEN_NULL;
        }
      }
    }

    /** `ril_state_update`. */
    method UpdateState(simState: int)
      requires Valid()
      modifies this
      ensures Valid() && Model() == StateUpdate(old(Model()), simState)
    {
      sim := simState;
      if power != PowerNormal {
        return;
      }
      if simState == SIM_STATE_READY {
        radio := SimReady;
      } else if simState == SIM_STATE_ABSENT || SIM_STATE_PIN <= simState <= SIM_STATE_SERVICE_PROVIDER_PERSO {
        radio := SimLockedOrAbsent;
      } else {
        radio := SimNotReady;
      }
      CheckTokens();
    }

    /** `ipc_cp_system_start`; not ok where the C code puts the terminator past its field. */
    method StartSystem(text: string, size: nat) returns (ok: bool)
      requires Valid() && '\0' !in text
      modifies this, cachedSwVersion
      ensures ok <==> |text| <= 32
      ensures ok ==> Valid() && Model() == Step(old(Model()), SystemStart(text, size))
    {
      power := PowerLpm;
      radio := RadioOff;
      if |text| > 32 {
        return false;
      }
      StoreVersion(text, size);
      CheckTokens();
      return true;
    }

    /** `ril_request_radio_power`, with `network_start`. */
    method RequestRadioPower(t: Token, powerState: int)
      requires Valid()
      modifies this
      ensures Valid() && Model() == Step(old(Model()), RadioPower(t, powerState))
    {
      if power == PowerOff {
        completed := completed + [Powered(t, false)];
        return;
      }
      if powerState <= 0 {
        power := PowerLpm;
        radio := RadioOff;
      } else {
        power := PowerNormal;
        radio := RadioOn;
        if sim == SIM_STATE_READY {
          UpdateState(SIM_STATE_READY);
        }
      }
      completed := completed + [Powered(t, true)];
    }

    /** `ipc_sim_open`. */
    method OpenSim(card: CardEvent)
      requires Valid()
      modifies this
      ensures Valid() && Model() == Step(old(Model()), SimOpen(card))
    {
      if card == CardNotPresent {
        UpdateState(SIM_STATE_ABSENT);
      }
      if card == SimOk {
        UpdateState(SIM_STATE_READY);
      }
      CheckTokens();
    }
  }

  // ---------------------------------------------------------------- whole runs

  const INIT := State(PowerOff, RadioOff, SIM_STATE_NOT_READY, "", TOKEN_NULL, [])

  function Run(events: seq<Event>): State {
    if events == [] then INIT
    else Step(Run(events[..|events| - 1]), events[|events| - 1])
  }

  /** Radio and power agree, and so do radio and SIM at normal power. */
  predicate Consistent(s: State) {
    && (s.radio != RadioOff <==> s.power == PowerNormal)
    && (s.power == PowerNormal ==> (s.radio == SimReady <==> s.sim == SIM_STATE_READY))
  }

  lemma {:induction false} StatesConsistent(events: seq<Event>)
    ensures Consistent(Run(events))
  {
    if events != [] {
      StatesConsistent(events[..|events| - 1]);
    }
  }

  // ---------------------------------------------------------------- version requests

  /** The version requests an event makes. */
  function Asks(e: Event): multiset<Token> {
    if e.BasebandVersion? then multiset{e.t} else multiset{}
  }

  /** The tokens of version requests. */
  function Asked(events: seq<Event>): multiset<Token> {
    if events == [] then multiset{}
    else Asked(events[..|events| - 1]) + Asks(events[|events| - 1])
  }

  function Replies(completed: seq<Completion>): multiset<Token> {
    if completed == [] then multiset{}
    else
      var c := completed[|completed| - 1];
      Replies(completed[..|completed| - 1]) + if c.Answered? then multiset{c.t} else multiset{}
  }

  function Parked(s: State): multiset<Token> {
    if s.basebandVersion == TOKEN_NULL then multiset{} else multiset{s.basebandVersion}
  }

  /** The event drops the parked token: a second request takes its place, or the tokens are
      checked with the radio on and no version known. */
  predicate Drops(s: State, e: Event) {
    && s.basebandVersion != TOKEN_NULL
    && match e
       case SystemStart(_, _) => false
       case RadioPower(_, powerState) =>
         s.cachedSwVersion == "" && s.power != PowerOff && powerState > 0 && s.sim == SIM_STATE_READY
       case SimStatus(_) => s.cachedSwVersion == "" && s.power == PowerNormal
       case SimOpen(_) => s.cachedSwVersion == "" && s.radio != RadioOff
       case BasebandVersion(_) => s.cachedSwVersion == ""
  }

  function Dropped(events: seq<Event>): nat {
    if events == [] then 0
    else
      var before := events[..|events| - 1];
      Dropped(before) + if Drops(Run(before), events[|events| - 1]) then 1 else 0
  }

  predicate Good(e: Event) {
    e.BasebandVersion? ==> e.t != TOKEN_NULL
  }

  /** The tokens answered or parked. */
  function Held(s: State): multiset<Token> {
    Replies(s.completed) + Parked(s)
  }

  /** ...and what is left of them without the parked one. */
  function Left(s: State, drops: bool): multiset<Token> {
    if drops then Replies(s.completed) else Held(s)
  }

  lemma {:induction false} ReplyAdded(completed: seq<Completion>, c: Completion)
    ensures Replies(completed + [c]) == Replies(completed) + if c.Answered? then multiset{c.t} else multiset{}
  {
    assert (completed + [c])[..|completed|] == completed;
  }

  /** Where the check answers the token, where it drops it, and where it leaves it. */
  lemma {:induction false} CheckLedger(s: State)
    ensures Held(TokensCheck(s)) == Left(s, s.cachedSwVersion == "" && s.radio != RadioOff)
    ensures TokensCheck(s).radio == s.radio && TokensCheck(s).cachedSwVersion == s.cachedSwVersion
  {
    ReplyAdded(s.completed, Answered(s.basebandVersion, s.cachedSwVersion));
  }

  /** A second check finds nothing more to drop. */
  lemma {:induction false} CheckTwice(s: State)
    ensures TokensCheck(TokensCheck(s)) == TokensCheck(s)
  {
  }

  lemma {:induction false} UpdateLedger(s: State, sim: int)
    ensures Held(StateUpdate(s, sim)) == Left(s, s.cachedSwVersion == "" && s.power == PowerNormal)
  {
    CheckLedger(s.(sim := sim, radio := RadioOf(sim)));
  }

  lemma {:induction false} PowerLedger(s: State, powerState: int)
    ensures Held(SetPower(s, powerState)) == Left(s, s.cachedSwVersion == "" && powerState > 0 && s.sim == SIM_STATE_READY)
  {
    if powerState > 0 && s.sim == SIM_STATE_READY {
      var on := s.(power := PowerNormal, radio := RadioOn);
      UpdateLedger(on, SIM_STATE_READY);
      assert Left(on, on.cachedSwVersion == "") == Left(s, s.cachedSwVersion == "");
    }
  }

  /** The reply to a power request holds no version token. */
  lemma {:induction false} PoweredLedger(s: State, t: Token, available: bool)
    ensures Held(s.(completed := s.completed + [Powered(t, available)])) == Held(s)
  {
    ReplyAdded(s.completed, Powered(t, available));
  }

  lemma {:induction false} OpenLedger(s: State, card: CardEvent)
    requires Consistent(s)
    ensures Held(Open(s, card)) == Left(s, s.cachedSwVersion == "" && s.radio != RadioOff)
  {
    if card == OtherEvent {
      CheckLedger(s);
    } else {
      OpenTwice(s, if card == CardNotPresent then SIM_STATE_ABSENT else SIM_STATE_READY);
      UpdateLedger(s, if card == CardNotPresent then SIM_STATE_ABSENT else SIM_STATE_READY);
    }
  }

  lemma {:induction false} OpenTwice(s: State, sim: int)
    requires Consistent(s)
    ensures TokensCheck(StateUpdate(s, sim)) == StateUpdate(s, sim)
  {
    CheckTwice(s.(sim := sim, radio := RadioOf(sim)));
  }

  lemma {:induction false} RequestLedger(s: State, t: Token)
    requires t != TOKEN_NULL
    ensures Held(Request(s, t)) == Left(s, s.basebandVersion != TOKEN_NULL && s.cachedSwVersion == "") + multiset{t}
  {
    ReplyAdded(s.completed, Answered(t, s.cachedSwVersion));
  }

  lemma {:induction false} RadioPowerLedger(s: State, t: Token, powerState: int)
    ensures Held(Step(s, RadioPower(t, powerState))) == Left(s, Drops(s, RadioPower(t, powerState)))
  {
    if s.power == PowerOff {
      PoweredLedger(s, t, false);
    } else {
      PowerLedger(s, powerState);
      PoweredLedger(SetPower(s, powerState), t, true);
    }
  }

  /** What is parked, and so dropped, if anything. */
  lemma {:induction false} LeftParked(s: State, drops: bool)
    ensures Left(s, drops) == Left(s, s.basebandVersion != TOKEN_NULL && drops)
  {
  }

  /** The events that ask for nothing. */
  lemma {:induction false} OtherLedger(s: State, e: Event)
    requires Consistent(s) && !e.BasebandVersion?
    ensures Held(Step(s, e)) == Left(s, Drops(s, e))
  {
    match e
    case SystemStart(text, size) =>
      CheckLedger(s.(power := PowerLpm, radio := RadioOff, cachedSwVersion := Stored(s.cachedSwVersion, text, size)));
    case RadioPower(t, powerState) =>
      RadioPowerLedger(s, t, powerState);
    case SimStatus(simState) =>
      UpdateLedger(s, simState);
      LeftParked(s, s.cachedSwVersion == "" && s.power == PowerNormal);
    case SimOpen(card) =>
      OpenLedger(s, card);
      LeftParked(s, s.cachedSwVersion == "" && s.radio != RadioOff);
  }

  /** An event keeps every token, unless it drops the parked one. */
  lemma {:induction false} StepLedger(s: State, e: Event)
    requires Consistent(s) && Good(e)
    ensures Held(Step(s, e)) == Left(s, Drops(s, e)) + Asks(e)
  {
    if e.BasebandVersion? {
      RequestLedger(s, e.t);
    } else {
      OtherLedger(s, e);
    }
  }

  lemma {:induction false} Balance(held: multiset<Token>, parked: multiset<Token>, asked: multiset<Token>, asks: multiset<Token>)
    requires held + parked <= asked
    ensures held + asks <= asked + asks
    ensures |held + asks| + |parked| == |held + parked| + |asks|
  {
  }

  lemma {:induction false} SameSize(held: multiset<Token>, asked: multiset<Token>)
    requires held <= asked
    ensures held == asked <==> |held| == |asked|
  {
    assert asked == held + (asked - held);
  }

  /** All but the dropped ones are held. */
  ghost predicate Balanced(held: multiset<Token>, dropped: nat, asked: multiset<Token>) {
    held <= asked && |held| + dropped == |asked|
  }

  lemma {:induction false} StepBalanced(s: State, e: Event, dropped: nat, asked: multiset<Token>)
    requires Balanced(Held(s), dropped, asked)
    ensures Balanced(Left(s, Drops(s, e)) + Asks(e), dropped + if Drops(s, e) then 1 else 0, asked + Asks(e))
  {
    if Drops(s, e) {
      Balance(Replies(s.completed), Parked(s), asked, Asks(e));
    }
  }

  predicate GoodEvents(events: seq<Event>) {
    forall i :: 0 <= i < |events| ==> Good(events[i])
  }

  lemma {:induction false} RunBalanced(events: seq<Event>)
    requires GoodEvents(events)
    ensures Balanced(Held(Run(events)), Dropped(events), Asked(events))
  {
    if events != [] {
      var before, e := events[..|events| - 1], events[|events| - 1];
      RunBalanced(before);
      StatesConsistent(before);
      StepLedger(Run(before), e);
      StepBalanced(Run(before), e, Dropped(before), Asked(before));
    }
  }

  /** Over every run: every version request is answered once or parked, exactly if no event
      dropped one; each drop loses one request. */
  lemma {:induction false} AnsweredOnce(events: seq<Event>)
    requires GoodEvents(events)
    ensures Held(Run(events)) <= Asked(events) && |Held(Run(events))| + Dropped(events) == |Asked(events)|
    ensures Held(Run(events)) == Asked(events) <==> Dropped(events) == 0
  {
    RunBalanced(events);
    SameSize(Held(Run(events)), Asked(events));
  }

  // ---------------------------------------------------------------- when nothing is dropped

  /** The modem always starts with a version text, which is not empty and terminated within its
      packet. */
  predicate Named(events: seq<Event>) {
    forall i :: 0 <= i < |events| ==> events[i].SystemStart? ==> events[i].text != "" && |events[i].text| <= events[i].size
  }

  /** No second request while one is parked and no version is known. */
  predicate OneAtATime(events: seq<Event>) {
    events == []
    || var before := events[..|events| - 1];
       && OneAtATime(before)
       && !(events[|events| - 1].BasebandVersion? && Run(before).basebandVersion != TOKEN_NULL && Run(before).cachedSwVersion == "")
  }

  lemma {:induction false} VersionKept(s: State, e: Event)
    ensures Step(s, e).cachedSwVersion == if e.SystemStart? then Stored(s.cachedSwVersion, e.text, e.size) else s.cachedSwVersion
    ensures Step(s, e).power == PowerOff <==> s.power == PowerOff && !e.SystemStart?
  {
  }

  lemma {:induction false} VersionKnown(events: seq<Event>)
    requires Named(events)
    ensures Run(events).power != PowerOff ==> Run(events).cachedSwVersion != ""
  {
    if events != [] {
      var before, e := events[..|events| - 1], events[|events| - 1];
      assert Named(before);
      VersionKnown(before);
      VersionKept(Run(before), e);
    }
  }

  /** With named versions, a request is dropped only by a second one: every version request is
      answered once or still parked exactly if there is one at a time. */
  lemma {:induction false} NeverDropped(events: seq<Event>)
    requires GoodEvents(events) && Named(events)
    ensures Held(Run(events)) == Asked(events) <==> OneAtATime(events)
  {
    NothingDrops(events);
    AnsweredOnce(events);
  }

  lemma {:induction false} NothingDrops(events: seq<Event>)
    requires Named(events)
    ensures Dropped(events) == 0 <==> OneAtATime(events)
  {
    if events != [] {
      var before := events[..|events| - 1];
      assert Named(before);
      NothingDrops(before);
      VersionKnown(before);
      StatesConsistent(before);
    }
  }

  lemma {:induction false} RunThen(events: seq<Event>, e: Event)
    ensures Run(events + [e]) == Step(Run(events), e)
    ensures Asked(events + [e]) == Asked(events) + Asks(e)
  {
    assert (events + [e])[..|events|] == events;
  }

  /** How a request is lost without a second one: the modem started with an empty version text,
      and the next check with the radio on clears the token it has just parked again. */
  lemma {:induction false} EmptyVersionLosesToken(t: Token, u: Token)
    requires t != TOKEN_NULL
    ensures var events := [SystemStart("", 1)] + [BasebandVersion(t)] + [RadioPower(u, 1)] + [SimStatus(SIM_STATE_READY)];
            Asked(events) == multiset{t} && Held(Run(events)) == multiset{}
  {
    var start, asked := [SystemStart("", 1)], [SystemStart("", 1)] + [BasebandVersion(t)];
    RunThen([], SystemStart("", 1));
    assert [] + start == start;
    RunThen(start, BasebandVersion(t));
    RunThen(asked, RadioPower(u, 1));
    RunThen(asked + [RadioPower(u, 1)], SimStatus(SIM_STATE_READY));
    assert Run(asked) == State(PowerLpm, RadioOff, SIM_STATE_NOT_READY, "", t, []);
    assert Run(asked + [RadioPower(u, 1)]) == State(PowerNormal, RadioOn, SIM_STATE_NOT_READY, "", t, [Powered(u, true)]);
    PoweredLedger(INIT, u, true);
    assert INIT.completed + [Powered(u, true)] == [Powered(u, true)];
  }
}
