/** What the power, radio and SIM states say about the past, told by the events alone. */
module RadioHistory {
  import opened Options
  import opened Radio

  // the remaining states of `ril_sim_state`
  const SIM_STATE_PUK := 4
  const SIM_STATE_BLOCKED := 5
  const SIM_STATE_NETWORK_PERSO := 6
  const SIM_STATE_NETWORK_SUBSET_PERSO := 7
  const SIM_STATE_CORPORATE_PERSO := 8

  /** A card that is missing, or that asks for a code before it can be used. */
  predicate LockedOrAbsent(sim: int) {
    sim in {SIM_STATE_ABSENT, SIM_STATE_PIN, SIM_STATE_PUK, SIM_STATE_BLOCKED, SIM_STATE_NETWORK_PERSO,
            SIM_STATE_NETWORK_SUBSET_PERSO, SIM_STATE_CORPORATE_PERSO, SIM_STATE_SERVICE_PROVIDER_PERSO}
  }

  // ---------------------------------------------------------------- history

  /** What the event tells about the card. */
  function ReportIn(e: Event): Option<int> {
    match e
    case SimStatus(simState) => Some(simState)
    case SimOpen(CardNotPresent) => Some(SIM_STATE_ABSENT)
    case SimOpen(SimOk) => Some(SIM_STATE_READY)
    case _ => None
  }

  /** The last report on the card. */
  function Reported(events: seq<Event>): int {
    if events == [] then SIM_STATE_NOT_READY
    else
      var e := events[|events| - 1];
      if ReportIn(e).Some? then ReportIn(e).value else Reported(events[..|events| - 1])
  }

  /** The modem has started. */
  predicate Started(events: seq<Event>) {
    exists i :: 0 <= i < |events| && events[i].SystemStart?
  }

  /** The last start or power request decides, once the modem has started. */
  function Power(events: seq<Event>): PowerState {
    if !Started(events) then PowerOff
    else
      match events[|events| - 1]
      case SystemStart(_, _) => PowerLpm
      case RadioPower(_, powerState) => if powerState > 0 then PowerNormal else PowerLpm
      case _ => Power(events[..|events| - 1])
  }

  /** A report on the card came after the last request for power. */
  predicate ReportedSincePower(events: seq<Event>) {
    events != []
    && var e := events[|events| - 1];
       ReportIn(e).Some? || (!e.RadioPower? && ReportedSincePower(events[..|events| - 1]))
  }

  /** What the radio should be. */
  function RadioTold(events: seq<Event>): RadioState {
    if Power(events) != PowerNormal then RadioOff
    else if Reported(events) == SIM_STATE_READY then SimReady
    else if !ReportedSincePower(events) then RadioOn
    else if LockedOrAbsent(Reported(events)) then SimLockedOrAbsent
    else SimNotReady
  }

  /** The version text: that of the last start, or, if it was longer than its packet, the first
      characters of the one before it. */
  function LastText(events: seq<Event>): Version {
    if events == [] then ""
    else
      var known := LastText(events[..|events| - 1]);
      match events[|events| - 1]
      case SystemStart(text, size) =>
        if |text| <= size then text else if |text| < |known| then known[..|text|] else known
      case _ => known
  }

  lemma {:induction false} StartedGrows(events: seq<Event>)
    requires events != []
    ensures Started(events) <==> Started(events[..|events| - 1]) || events[|events| - 1].SystemStart?
  {
    var before := events[..|events| - 1];
    if i :| 0 <= i < |before| && before[i].SystemStart? {
      assert events[i].SystemStart?;
    }
    if i :| 0 <= i < |events| && events[i].SystemStart? {
      assert i < |before| ==> before[i].SystemStart?;
    }
  }

  /** The state as the history tells it. */
  predicate Told(s: State, events: seq<Event>) {
    && s.power == Power(events) && s.sim == Reported(events) && s.radio == RadioTold(events)
    && s.cachedSwVersion == LastText(events)
  }

  lemma {:induction false} CheckTells(s: State)
    ensures var r := TokensCheck(s);
            r.power == s.power && r.sim == s.sim && r.radio == s.radio && r.cachedSwVersion == s.cachedSwVersion
  {
  }

  lemma {:induction false} UpdateTells(s: State, sim: int)
    ensures var r := StateUpdate(s, sim);
            && r.power == s.power && r.sim == sim && r.cachedSwVersion == s.cachedSwVersion
            && r.radio
               == if s.power != PowerNormal then s.radio
                  else if sim == SIM_STATE_READY then SimReady else if LockedOrAbsent(sim) then SimLockedOrAbsent
                  else SimNotReady
  {
  }

  lemma {:induction false} OffBeforeStart(events: seq<Event>)
    ensures Power(events) == PowerOff <==> !Started(events)
  {
    if events != [] {
      StartedGrows(events);
      OffBeforeStart(events[..|events| - 1]);
    }
  }

  lemma {:induction false} PowerTells(events: seq<Event>)
    requires events != [] && events[|events| - 1].RadioPower? && Told(Run(events[..|events| - 1]), events[..|events| - 1])
    ensures Told(Run(events), events)
  {
    var before, e := events[..|events| - 1], events[|events| - 1];
    StartedGrows(events);
    OffBeforeStart(before);
    UpdateTells(Run(before).(power := PowerNormal, radio := RadioOn), SIM_STATE_READY);
  }

  lemma {:induction false} ReportTells(events: seq<Event>)
    requires events != [] && ReportIn(events[|events| - 1]).Some?
    requires Told(Run(events[..|events| - 1]), events[..|events| - 1])
    ensures Told(Run(events), events)
  {
    var before, e := events[..|events| - 1], events[|events| - 1];
    StartedGrows(events);
    OffBeforeStart(before);
    UpdateTells(Run(before), ReportIn(e).value);
    CheckTells(StateUpdate(Run(before), ReportIn(e).value));
  }

  lemma {:induction false} OtherTells(events: seq<Event>)
    requires events != [] && ReportIn(events[|events| - 1]).None? && !events[|events| - 1].RadioPower?
    requires Told(Run(events[..|events| - 1]), events[..|events| - 1])
    ensures Told(Run(events), events)
  {
    StartedGrows(events);
    OffBeforeStart(events[..|events| - 1]);
  }

  lemma {:induction false} StepTells(events: seq<Event>)
    requires events != [] && Told(Run(events[..|events| - 1]), events[..|events| - 1])
    ensures Told(Run(events), events)
  {
    if events[|events| - 1].RadioPower? {
      PowerTells(events);
    } else if ReportIn(events[|events| - 1]).Some? {
      ReportTells(events);
    } else {
      OtherTells(events);
    }
  }

  /** Over every run: the power is that of the last start or power request, the SIM state is the
      one last reported, and the radio follows both; the version is that of the last start. */
  lemma {:induction false} StatesToldByHistory(events: seq<Event>)
    ensures Told(Run(events), events)
  {
    if events != [] {
      StatesToldByHistory(events[..|events| - 1]);
      StepTells(events);
    }
  }

  // ---------------------------------------------------------------- replies

  /** The first replies are as before, and those after them carry this version. */
  predicate OnlyAnswers(s: State, r: State) {
    && s.completed <= r.completed && r.cachedSwVersion == s.cachedSwVersion
    && forall i :: |s.completed| <= i < |r.completed| ==>
         r.completed[i].Answered? && r.completed[i].version == s.cachedSwVersion != ""
  }

  lemma {:induction false} CheckAnswers(s: State)
    ensures OnlyAnswers(s, TokensCheck(s))
  {
  }

  lemma {:induction false} UpdateAnswers(s: State, sim: int)
    ensures OnlyAnswers(s, StateUpdate(s, sim))
  {
    CheckAnswers(s.(sim := sim, radio := RadioOf(sim)));
  }

  lemma {:induction false} OpenAnswers(s: State, card: CardEvent)
    ensures OnlyAnswers(s, Open(s, card))
  {
    if card == OtherEvent {
      CheckAnswers(s);
    } else {
      var sim := if card == CardNotPresent then SIM_STATE_ABSENT else SIM_STATE_READY;
      UpdateAnswers(s, sim);
      CheckAnswers(StateUpdate(s, sim));
    }
  }

  lemma {:induction false} PowerAnswers(s: State, powerState: int)
    ensures OnlyAnswers(s, SetPower(s, powerState))
  {
    UpdateAnswers(s.(power := PowerNormal, radio := RadioOn), SIM_STATE_READY);
  }

  /** What an event other than a power request adds: version replies only. */
  lemma {:induction false} StepAnswers(s: State, e: Event)
    requires !e.RadioPower?
    ensures var known := if e.SystemStart? then s.(cachedSwVersion := Step(s, e).cachedSwVersion) else s;
            OnlyAnswers(known, Step(s, e))
  {
    match e
    case SystemStart(text, size) =>
      CheckAnswers(s.(power := PowerLpm, radio := RadioOff, cachedSwVersion := Stored(s.cachedSwVersion, text, size)));
    case SimStatus(simState) => UpdateAnswers(s, simState);
    case SimOpen(card) => OpenAnswers(s, card);
    case BasebandVersion(_) =>
  }

  /** Every reply the last event added is a version reply with the version of the last start. */
  predicate CarriesLastText(earlier: nat, completed: seq<Completion>, events: seq<Event>) {
    forall i :: earlier <= i < |completed| && completed[i].Answered? ==>
      completed[i].version == LastText(events) != ""
  }

  /** Over every run, at every event: a version reply carries the version of the last start; a
      power request gets the one power reply, the last, refused exactly before the first start. */
  lemma {:induction false} RepliesToldByHistory(before: seq<Event>, e: Event)
    ensures var earlier, completed := Run(before).completed, Run(before + [e]).completed;
            && earlier <= completed
            && CarriesLastText(|earlier|, completed, before + [e])
            && (e.RadioPower? ==> |completed| > |earlier| && completed[|completed| - 1] == Powered(e.t, Started(before)))
            && forall i :: |earlier| <= i < |completed| && completed[i].Powered? ==> e.RadioPower? && i == |completed| - 1
  {
    var events := before + [e];
    assert events[..|before|] == before;
    StatesToldByHistory(before);
    StatesToldByHistory(events);
    OffBeforeStart(before);
    if e.RadioPower? {
      PowerAnswers(Run(before), e.powerState);
    } else {
      StepAnswers(Run(before), e);
    }
  }

  /** A version request is answered at once, with the version of the last start, exactly if there
      is one. */
  lemma {:induction false} VersionAnsweredAtOnce(before: seq<Event>, t: Token)
    ensures var r, s := Run(before + [BasebandVersion(t)]), Run(before);
            r.completed == s.completed + if LastText(before) == "" then [] else [Answered(t, LastText(before))]
  {
    assert (before + [BasebandVersion(t)])[..|before|] == before;
    StatesToldByHistory(before);
  }
}
