/** Which call the compound requests act on (mocha-ril/call.c), told by the states of the calls in
    the table. */
module CallChoice {
  import opened Options
  import opened Calls
  import opened CallRuns

  // ---------------------------------------------------------------- the calls in the table

  /** Slot k holds a call the modem has named, in the state. */
  predicate Shows(slots: Slots, k: nat, state: CallState) {
    k < |slots| && slots[k].Some? && slots[k].value.id != DIALING_ID && slots[k].value.state == state
  }

  predicate Has(slots: Slots, state: CallState) {
    exists k :: 0 <= k < |slots| && Shows(slots, k, state)
  }

  /** The call in the state that has the highest slot. */
  predicate Top(slots: Slots, k: nat, state: CallState) {
    Shows(slots, k, state) && forall j :: k < j < |slots| ==> !Shows(slots, j, state)
  }

  /** No call in the state has a request pending. */
  predicate Quiet(slots: Slots, state: CallState) {
    forall k :: 0 <= k < |slots| && Shows(slots, k, state) ==> slots[k].value.token == NO_TOKEN
  }

  /** The table with the call in slot k in another state, and nothing pending on it. */
  function Moved(slots: Slots, k: nat, state: CallState): Slots
    requires k < |slots| && slots[k].Some?
  {
    slots[k := Some(slots[k].value.(state := state, token := NO_TOKEN))]
  }

  /** The table without the call in slot k. */
  function Gone(slots: Slots, k: nat): Slots
    requires k < |slots|
  {
    slots[k := None]
  }

  /** The state once the modem carried out the commands one after the other. */
  function CarryOut(r: State, commands: seq<Command>): State
    decreases |commands|
  {
    if commands == [] || commands[0].Setup? then r
    else CarryOut(Step(r, Reply(commands[0], true)), commands[1..])
  }

  lemma {:induction false} ShowsIn(slots: Slots, k: nat, state: CallState)
    requires k < |slots|
    ensures In(slots[k], {state}) <==> Shows(slots, k, state)
  {
  }

  lemma {:induction false} LastTop(slots: Slots, n: nat, k: nat, state: CallState)
    requires n <= |slots| && k < n && Shows(slots, k, state) && forall j :: k < j < n ==> !Shows(slots, j, state)
    ensures Last(slots, n, state) == Some(k)
  {
    ShowsIn(slots, n - 1, state);
    if k < n - 1 {
      LastTop(slots, n - 1, k, state);
    }
  }

  lemma {:induction false} LastNone(slots: Slots, n: nat, state: CallState)
    requires n <= |slots| && !Has(slots, state)
    ensures Last(slots, n, state) == None
  {
    if n > 0 {
      ShowsIn(slots, n - 1, state);
      LastNone(slots, n - 1, state);
    }
  }

  /** What the scan finds: the call in the highest slot of a state, or none. */
  lemma {:induction false} Scanned(slots: Slots, state: CallState)
    ensures Has(slots, state) <==> Last(slots, |slots|, state).Some?
    ensures Has(slots, state) ==> Top(slots, Last(slots, |slots|, state).value, state)
  {
    if Has(slots, state) {
      var k := HighestShown(slots, |slots|, state);
      LastTop(slots, |slots|, k, state);
    } else {
      LastNone(slots, |slots|, state);
    }
  }

  lemma {:induction false} HighestShown(slots: Slots, n: nat, state: CallState) returns (k: nat)
    requires n <= |slots| && exists k :: 0 <= k < n && Shows(slots, k, state)
    ensures k < n && Shows(slots, k, state) && forall j :: k < j < n ==> !Shows(slots, j, state)
  {
    k := n - 1;
    if !Shows(slots, k, state) {
      k := HighestShown(slots, n - 1, state);
    }
  }

  lemma {:induction false} TopUnique(slots: Slots, k: nat, j: nat, state: CallState)
    requires Top(slots, k, state) && Top(slots, j, state)
    ensures k == j
  {
  }

  lemma {:induction false} BusyUnlessQuiet(slots: Slots, states: set<CallState>)
    ensures Busy(slots, |slots|, states) <==> exists state :: state in states && !Quiet(slots, state)
  {
    if i :| 0 <= i < |slots| && In(slots[i], states) && Pending(slots[i]) {
      assert Shows(slots, i, slots[i].value.state);
      assert !Quiet(slots, slots[i].value.state);
    }
    if state :| state in states && !Quiet(slots, state) {
      var k :| 0 <= k < |slots| && Shows(slots, k, state) && slots[k].value.token != NO_TOKEN;
      assert In(slots[k], states) && Pending(slots[k]);
    }
  }

  // ---------------------------------------------------------------- replies, one by one

  lemma {:induction false} ReleaseCarried(r: State, k: nat)
    requires Distinct(r.slots) && k < |r.slots| && r.slots[k].Some?
    ensures var call := r.slots[k].value; var q := Step(r, EndInd(call.id));
            && q.slots == Gone(r.slots, k) && q.sent == r.sent
            && q.completed == r.completed + if call.token == NO_TOKEN then [] else [Completion(call.token, true)]
  {
    FoundIn(r.slots, k);
  }

  lemma {:induction false} HoldCarried(r: State, k: nat)
    requires Distinct(r.slots) && k < |r.slots| && r.slots[k].Some?
    ensures var call := r.slots[k].value; var q := Step(r, HoldCnf(call.id, true));
            && q.slots == Moved(r.slots, k, Holding) && q.sent == r.sent
            && q.completed == r.completed + if call.token == NO_TOKEN then [] else [Completion(call.token, true)]
  {
    FoundIn(r.slots, k);
  }

  lemma {:induction false} AnswerCarried(r: State, k: nat)
    requires Distinct(r.slots) && k < |r.slots| && r.slots[k].Some?
    ensures var call := r.slots[k].value; var q := Step(r, ConnectedInd(call.id));
            && q.slots == Moved(r.slots, k, Active) && q.sent == r.sent
            && q.completed == r.completed + if call.token == NO_TOKEN then [] else [Completion(call.token, true)]
  {
    FoundIn(r.slots, k);
  }

  lemma {:induction false} ActivateCarried(r: State, k: nat)
    requires Distinct(r.slots) && k < |r.slots| && r.slots[k].Some? && r.slots[k].value.token != NO_TOKEN
    ensures var call := r.slots[k].value; var q := Step(r, ActivateCnf(call.id, true));
            && q.slots == Moved(r.slots, k, Active) && q.sent == r.sent
            && q.completed == r.completed + [Completion(call.token, true)]
  {
    FoundIn(r.slots, k);
  }

  lemma {:induction false} SwapCarried(r: State, a: nat, h: nat)
    requires Distinct(r.slots) && a < |r.slots| && h < |r.slots| && a != h && r.slots[a].Some? && r.slots[h].Some?
    requires r.slots[a].value.token != NO_TOKEN && r.slots[h].value.token == NO_TOKEN
    ensures var q := Step(r, SwapCnf(r.slots[h].value.id, r.slots[a].value.id, true));
            && q.slots == Moved(Moved(r.slots, h, Active), a, Holding) && q.sent == r.sent
            && q.completed == r.completed + [Completion(r.slots[a].value.token, true)]
  {
    FoundIn(r.slots, a);
    FoundIn(r.slots, h);
  }

  /** Storing a request changes no identity. */
  lemma {:induction false} StoreDistinct(s: State, k: nat, t: Token, commands: seq<Command>)
    requires Distinct(s.slots) && k < |s.slots| && s.slots[k].Some?
    ensures Distinct(Store(s, k, t, commands).slots)
  {
  }

  lemma {:induction false} GoneDistinct(slots: Slots, k: nat)
    requires Distinct(slots) && k < |slots|
    ensures Distinct(Gone(slots, k))
  {
  }

  lemma {:induction false} MovedDistinct(slots: Slots, k: nat, state: CallState)
    requires Distinct(slots) && k < |slots| && slots[k].Some?
    ensures Distinct(Moved(slots, k, state))
  {
  }

  lemma {:induction false} CarriedOne(r: State, c: Command)
    requires !c.Setup?
    ensures CarryOut(r, [c]) == Step(r, Reply(c, true))
  {
    assert [c][1..] == [];
  }

  lemma {:induction false} CarriedTwo(r: State, c: Command, d: Command)
    requires !c.Setup? && !d.Setup?
    ensures CarryOut(r, [c, d]) == Step(Step(r, Reply(c, true)), Reply(d, true))
  {
    assert [c, d][1..] == [d];
    CarriedOne(Step(r, Reply(c, true)), d);
  }

  // ---------------------------------------------------------------- hang up waiting or background

  /** The states the request looks at. */
  predicate QuietForHangup(slots: Slots) {
    Quiet(slots, Active) && Quiet(slots, Holding) && Quiet(slots, Waiting) && Quiet(slots, Incoming)
  }

  predicate AnyForHangup(slots: Slots) {
    Has(slots, Active) || Has(slots, Holding) || Has(slots, Waiting) || Has(slots, Incoming)
  }

  /** The call to be released: a waiting one that stands beside an active or held one; else an
      active one, a held one, a lone waiting one, an incoming one. Of several, the one in the
      highest slot. */
  predicate ToRelease(slots: Slots, k: nat) {
    if Has(slots, Waiting) && (Has(slots, Active) || Has(slots, Holding)) then Top(slots, k, Waiting)
    else if Has(slots, Active) then Top(slots, k, Active)
    else if Has(slots, Holding) then Top(slots, k, Holding)
    else if Has(slots, Waiting) then Top(slots, k, Waiting)
    else Top(slots, k, Incoming)
  }

  /** The request completes nothing yet and is stored with one call; it sends the commands, and
      once the modem carried them out it is completed with success and the table is as given. */
  predicate Leads(s: State, r: State, t: Token, commands: seq<Command>, slots: Slots) {
    && r.completed == s.completed && r.sent == s.sent + commands
    && (exists k :: 0 <= k < |s.slots| && s.slots[k].Some? && r.slots == s.slots[k := Some(s.slots[k].value.(token := t))])
    && CarryOut(r, commands) == State(slots, s.completed + [Completion(t, true)], r.sent)
  }

  /** The command that ends, or answers, the call. */
  function ReleaseCall(call: Call): Command {
    Release(call.callType, call.id)
  }

  function TakeCall(call: Call): Command {
    AnswerCall(call.callType, call.id)
  }

  /** With nothing pending on the calls it looks at, the request releases that call, every other
      call stays as it is, and the modem's report completes it; without such a call it succeeds at
      once; with something pending it fails. */
  lemma {:induction false} HangupWaitingOutcome(s: State, t: Token) returns (k: nat)
    requires Distinct(s.slots) && t != NO_TOKEN
    ensures var r := Step(s, HangupWaitingReq(t));
            if !QuietForHangup(s.slots) then r == Complete(s, t, false)
            else if !AnyForHangup(s.slots) then r == Complete(s, t, true)
            else
              && k < |s.slots| && s.slots[k].Some? && ToRelease(s.slots, k)
              && Leads(s, r, t, [ReleaseCall(s.slots[k].value)], Gone(s.slots, k))
  {
    BusyUnlessQuiet(s.slots, {Active, Holding, Waiting, Incoming});
    Scanned(s.slots, Active);
    Scanned(s.slots, Holding);
    Scanned(s.slots, Waiting);
    Scanned(s.slots, Incoming);
    k := 0;
    if QuietForHangup(s.slots) && AnyForHangup(s.slots) {
      k := Chosen(s.slots);
      ReleaseStored(s, t, k);
    }
  }

  lemma {:induction false} Chosen(slots: Slots) returns (k: nat)
    requires AnyForHangup(slots)
    ensures k < |slots| && slots[k].Some? && ToRelease(slots, k)
    ensures var n := |slots|;
            var active, hold := Last(slots, n, Active), Last(slots, n, Holding);
            var wait, incoming := Last(slots, n, Waiting), Last(slots, n, Incoming);
            Some(k) == if wait.Some? && (hold.Some? || active.Some?) then wait
                       else if active.Some? then active else if hold.Some? then hold
                       else if wait.Some? then wait else incoming
  {
    Scanned(slots, Active);
    Scanned(slots, Holding);
    Scanned(slots, Waiting);
    Scanned(slots, Incoming);
    var n := |slots|;
    k := if Has(slots, Waiting) && (Has(slots, Active) || Has(slots, Holding)) then Last(slots, n, Waiting).value
         else if Has(slots, Active) then Last(slots, n, Active).value
         else if Has(slots, Holding) then Last(slots, n, Holding).value
         else if Has(slots, Waiting) then Last(slots, n, Waiting).value
         else Last(slots, n, Incoming).value;
  }

  /** Releasing one call. */
  lemma {:induction false} ReleaseStored(s: State, t: Token, k: nat)
    requires Distinct(s.slots) && t != NO_TOKEN && k < |s.slots| && s.slots[k].Some?
    ensures Leads(s, Store(s, k, t, [ReleaseOf(s.slots, k)]), t, [ReleaseCall(s.slots[k].value)], Gone(s.slots, k))
  {
    var release := ReleaseOf(s.slots, k);
    var r := Store(s, k, t, [release]);
    StoreDistinct(s, k, t, [release]);
    CarriedOne(r, release);
    ReleaseCarried(r, k);
    assert Gone(r.slots, k) == Gone(s.slots, k);
  }

  // ---------------------------------------------------------------- hang up foreground, resume background

  /** With nothing pending on an active or held call: the active call is ended and the held one
      resumed; if only one of the two is there, it is ended. */
  lemma {:induction false} HangupForegroundOutcome(s: State, t: Token) returns (a: nat, h: nat)
    requires Distinct(s.slots) && t != NO_TOKEN
    ensures Has(s.slots, Active) ==> Top(s.slots, a, Active)
    ensures Has(s.slots, Holding) ==> Top(s.slots, h, Holding)
    ensures var r := Step(s, HangupForegroundReq(t));
            if !Quiet(s.slots, Active) || !Quiet(s.slots, Holding) then r == Complete(s, t, false)
            else if Has(s.slots, Active) && Has(s.slots, Holding) then
              Leads(s, r, t, [ReleaseCall(s.slots[a].value), Activate(s.slots[h].value.id)],
                Moved(Gone(s.slots, a), h, Active))
            else if Has(s.slots, Active) then Leads(s, r, t, [ReleaseCall(s.slots[a].value)], Gone(s.slots, a))
            else if Has(s.slots, Holding) then Leads(s, r, t, [ReleaseCall(s.slots[h].value)], Gone(s.slots, h))
            else r == Complete(s, t, true)
  {
    BusyUnlessQuiet(s.slots, {Active, Holding});
    Scanned(s.slots, Active);
    Scanned(s.slots, Holding);
    var n := |s.slots|;
    a := if Has(s.slots, Active) then Last(s.slots, n, Active).value else 0;
    h := if Has(s.slots, Holding) then Last(s.slots, n, Holding).value else 0;
    if Quiet(s.slots, Active) && Quiet(s.slots, Holding) {
      if Has(s.slots, Active) && Has(s.slots, Holding) {
        ResumeStored(s, t, a, h);
      } else if Has(s.slots, Active) {
        ReleaseStored(s, t, a);
      } else if Has(s.slots, Holding) {
        ReleaseStored(s, t, h);
      }
    }
  }

  lemma {:induction false} ResumeStored(s: State, t: Token, a: nat, h: nat)
    requires Distinct(s.slots) && t != NO_TOKEN && a < |s.slots| && h < |s.slots| && a != h
    requires s.slots[a].Some? && s.slots[h].Some? && s.slots[a].value.token == NO_TOKEN
    ensures var commands := [ReleaseOf(s.slots, a), Activate(IdAt(s.slots, h))];
            Leads(s, Store(s, h, t, commands), t, commands, Moved(Gone(s.slots, a), h, Active))
  {
    var release, activate := ReleaseOf(s.slots, a), Activate(IdAt(s.slots, h));
    var r := Store(s, h, t, [release, activate]);
    StoreDistinct(s, h, t, [release, activate]);
    CarriedTwo(r, release, activate);
    ReleaseCarried(r, a);
    var q := Step(r, Reply(release, true));
    GoneDistinct(r.slots, a);
    ActivateCarried(q, h);
    assert Moved(q.slots, h, Active) == Moved(Gone(s.slots, a), h, Active);
  }

  // ---------------------------------------------------------------- switch

  /** With nothing pending on an active, held or waiting call: the active call is put on hold and
      the held one, or else the waiting one, becomes active; a held call with no active one
      becomes active, unless a waiting one is there to be answered. A lone waiting call is left
      alone, and so is the request. */
  lemma {:induction false} SwitchOutcome(s: State, t: Token) returns (a: nat, h: nat, w: nat)
    requires Distinct(s.slots) && t != NO_TOKEN
    ensures Has(s.slots, Active) ==> Top(s.slots, a, Active)
    ensures Has(s.slots, Holding) ==> Top(s.slots, h, Holding)
    ensures Has(s.slots, Waiting) ==> Top(s.slots, w, Waiting)
    ensures var r := Step(s, SwitchReq(t));
            if !Quiet(s.slots, Active) || !Quiet(s.slots, Holding) || !Quiet(s.slots, Waiting) then r == Complete(s, t, false)
            else if Has(s.slots, Active) && Has(s.slots, Holding) then
              Leads(s, r, t, [Swap(s.slots[a].value.id, s.slots[h].value.id)], Moved(Moved(s.slots, h, Active), a, Holding))
            else if Has(s.slots, Active) && Has(s.slots, Waiting) then
              Leads(s, r, t, [Hold(s.slots[a].value.id), TakeCall(s.slots[w].value)], Moved(Moved(s.slots, a, Holding), w, Active))
            else if Has(s.slots, Waiting) && Has(s.slots, Holding) then
              Leads(s, r, t, [TakeCall(s.slots[w].value)], Moved(s.slots, w, Active))
            else if Has(s.slots, Active) then
              Leads(s, r, t, [Hold(s.slots[a].value.id)], Moved(s.slots, a, Holding))
            else if Has(s.slots, Holding) then
              Leads(s, r, t, [Activate(s.slots[h].value.id)], Moved(s.slots, h, Active))
            else if Has(s.slots, Waiting) then r == s
            else r == Complete(s, t, true)
  {
    BusyUnlessQuiet(s.slots, {Active, Holding, Waiting});
    Scanned(s.slots, Active);
    Scanned(s.slots, Holding);
    Scanned(s.slots, Waiting);
    var n := |s.slots|;
    a := if Has(s.slots, Active) then Last(s.slots, n, Active).value else 0;
    h := if Has(s.slots, Holding) then Last(s.slots, n, Holding).value else 0;
    w := if Has(s.slots, Waiting) then Last(s.slots, n, Waiting).value else 0;
    if Quiet(s.slots, Active) && Quiet(s.slots, Holding) && Quiet(s.slots, Waiting) {
      if Has(s.slots, Active) && Has(s.slots, Holding) {
        SwapStored(s, t, a, h);
      } else if Has(s.slots, Active) && Has(s.slots, Waiting) {
        HoldAndAnswerStored(s, t, a, w);
      } else if Has(s.slots, Waiting) && Has(s.slots, Holding) {
        OneStored(s, t, w, AnswerOf(s.slots, w), Active);
      } else if Has(s.slots, Active) {
        OneStored(s, t, a, Hold(IdAt(s.slots, a)), Holding);
      } else if Has(s.slots, Holding) {
        OneStored(s, t, h, Activate(IdAt(s.slots, h)), Active);
      }
    }
  }

  lemma {:induction false} SwapStored(s: State, t: Token, a: nat, h: nat)
    requires Distinct(s.slots) && t != NO_TOKEN && a < |s.slots| && h < |s.slots| && a != h
    requires s.slots[a].Some? && s.slots[h].Some? && s.slots[h].value.token == NO_TOKEN
    ensures var c := Swap(IdAt(s.slots, a), IdAt(s.slots, h));
            Leads(s, Store(s, a, t, [c]), t, [c], Moved(Moved(s.slots, h, Active), a, Holding))
  {
    var c := Swap(IdAt(s.slots, a), IdAt(s.slots, h));
    var r := Store(s, a, t, [c]);
    StoreDistinct(s, a, t, [c]);
    CarriedOne(r, c);
    SwapCarried(r, a, h);
    assert Moved(Moved(r.slots, h, Active), a, Holding) == Moved(Moved(s.slots, h, Active), a, Holding);
  }

  lemma {:induction false} HoldAndAnswerStored(s: State, t: Token, a: nat, w: nat)
    requires Distinct(s.slots) && t != NO_TOKEN && a < |s.slots| && w < |s.slots| && a != w
    requires s.slots[a].Some? && s.slots[w].Some? && s.slots[a].value.token == NO_TOKEN
    ensures var commands := [Hold(IdAt(s.slots, a)), AnswerOf(s.slots, w)];
            Leads(s, Store(s, w, t, commands), t, commands, Moved(Moved(s.slots, a, Holding), w, Active))
  {
    var hold, answer := Hold(IdAt(s.slots, a)), AnswerOf(s.slots, w);
    var r := Store(s, w, t, [hold, answer]);
    StoreDistinct(s, w, t, [hold, answer]);
    CarriedTwo(r, hold, answer);
    HoldCarried(r, a);
    var q := Step(r, Reply(hold, true));
    MovedDistinct(r.slots, a, Holding);
    AnswerCarried(q, w);
    assert Moved(q.slots, w, Active) == Moved(Moved(s.slots, a, Holding), w, Active);
  }

  /** Answering, holding or resuming one call. */
  lemma {:induction false} OneStored(s: State, t: Token, k: nat, c: Command, state: CallState)
    requires Distinct(s.slots) && t != NO_TOKEN && k < |s.slots| && s.slots[k].Some?
    requires state == if c == Hold(IdAt(s.slots, k)) then Holding else Active
    requires c in {AnswerOf(s.slots, k), Activate(IdAt(s.slots, k)), Hold(IdAt(s.slots, k))}
    ensures Leads(s, Store(s, k, t, [c]), t, [c], Moved(s.slots, k, state))
  {
    var r := Store(s, k, t, [c]);
    StoreDistinct(s, k, t, [c]);
    CarriedOne(r, c);
    if c.Hold? {
      HoldCarried(r, k);
    } else if c.AnswerCall? {
      AnswerCarried(r, k);
    } else {
      ActivateCarried(r, k);
    }
    assert Moved(r.slots, k, state) == Moved(s.slots, k, state);
  }

  // ---------------------------------------------------------------- dial, hang up and answer

  /** A dialed number enters the lowest free slot and goes to the modem, unless a call is being
      dialed already or the table is full. */
  lemma {:induction false} DialOutcome(s: State, t: Token, number: string, k: nat)
    requires k <= |s.slots| && (k < |s.slots| ==> s.slots[k].None?) && forall j :: 0 <= j < k ==> s.slots[j].Some?
    ensures var r := Step(s, DialReq(t, Some(number)));
            if k < |s.slots| && forall j :: 0 <= j < |s.slots| && s.slots[j].Some? ==> s.slots[j].value.id != DIALING_ID
            then r.slots == s.slots[k := Some(Call(DIALING_ID, 0, false, number, Dialing, t))]
                 && r.sent == s.sent + [Setup(number)] && r.completed == s.completed
            else r == Complete(s, t, false)
  {
    FreeIs(s.slots, k);
    var d := Find(s.slots, DIALING_ID);
    if d < |s.slots| {
      assert s.slots[d].Some?;
    }
  }

  /** A hangup by index releases that call. */
  lemma {:induction false} HangupOutcome(s: State, t: Token, k: nat)
    requires Distinct(s.slots) && t != NO_TOKEN && k < |s.slots|
    ensures var r := Step(s, HangupReq(t, Some(k + 1)));
            if s.slots[k].None? || s.slots[k].value.token != NO_TOKEN then r == Complete(s, t, false)
            else Leads(s, r, t, [ReleaseCall(s.slots[k].value)], Gone(s.slots, k))
  {
    if s.slots[k].Some? {
      ReleaseStored(s, t, k);
    }
  }

  /** An answer takes the one incoming call. */
  lemma {:induction false} AnswerOutcome(s: State, t: Token, k: nat)
    requires Distinct(s.slots) && t != NO_TOKEN
    requires Shows(s.slots, k, Incoming) && forall j :: 0 <= j < |s.slots| && Shows(s.slots, j, Incoming) ==> j == k
    ensures var r := Step(s, AnswerReq(t));
            if !Quiet(s.slots, Incoming) then r == Complete(s, t, false)
            else Leads(s, r, t, [TakeCall(s.slots[k].value)], Moved(s.slots, k, Active))
  {
    forall j | 0 <= j < |s.slots|
      ensures In(s.slots[j], {Incoming}) <==> j == k
    {
      ShowsIn(s.slots, j, Incoming);
    }
    SingleAnswer(s, t, 0, k);
    OneStored(s, t, k, AnswerOf(s.slots, k), Active);
  }

  // ---------------------------------------------------------------- what the modem reports

  /** A call that comes in gets the lowest free slot; it waits exactly if it stands beside an active
      or held one. */
  lemma {:induction false} IncomingOutcome(s: State, id: nat, callType: nat, number: string, k: nat)
    requires k <= |s.slots| && (k < |s.slots| ==> s.slots[k].None?) && forall j :: 0 <= j < k ==> s.slots[j].Some?
    ensures var r := Step(s, IncomingInd(id, callType, number));
            if k == |s.slots| then r == s
            else
              var state := if Has(s.slots, Active) || Has(s.slots, Holding) then Waiting else Incoming;
              r == s.(slots := s.slots[k := Some(Call(id, callType, true, number, state, NO_TOKEN))])
  {
    FreeIs(s.slots, k);
    if i :| 0 <= i < |s.slots| && In(s.slots[i], {Active, Holding}) {
      assert Shows(s.slots, i, s.slots[i].value.state);
    }
    if i :| 0 <= i < |s.slots| && (Shows(s.slots, i, Active) || Shows(s.slots, i, Holding)) {
      assert In(s.slots[i], {Active, Holding});
    }
  }

  /** An alert report shows in the table; it touches nothing else. */
  lemma {:induction false} AlertOutcome(s: State, k: nat)
    requires Distinct(s.slots) && k < |s.slots| && s.slots[k].Some?
    ensures Step(s, AlertInd(s.slots[k].value.id)) == s.(slots := s.slots[k := Some(s.slots[k].value.(state := Alerting))])
  {
    FoundIn(s.slots, k);
  }

  /** A refused hold, swap or activation leaves every call as it is and fails the request. */
  lemma {:induction false} RefusedOutcome(s: State, k: nat, c: Command)
    requires Distinct(s.slots) && k < |s.slots| && s.slots[k].Some? && s.slots[k].value.token != NO_TOKEN
    requires About(c, s.slots, k) && (c.Hold? || c.Activate? || c.Swap?)
    ensures var call := s.slots[k].value; var r := Step(s, Reply(c, false));
            r.slots == s.slots[k := Some(call.(token := NO_TOKEN))] && r.completed == s.completed + [Completion(call.token, false)]
  {
    FoundIn(s.slots, k);
  }

  // ---------------------------------------------------------------- where the reported calls come from

  /** The call came in, with its number and type, or was dialed. */
  ghost predicate Origin(call: Call, events: seq<Event>) {
    if call.mt then exists i :: 0 <= i < |events| && CameIn(events[i], call)
    else exists i :: 0 <= i < |events| && Dialed(events[i], call)
  }

  predicate CameIn(e: Event, call: Call) {
    e.IncomingInd? && e.number == call.number && e.callType == call.callType
  }

  predicate Dialed(e: Event, call: Call) {
    e.DialReq? && e.dialed == Some(call.number) && call.callType == 0
  }

  /** Every call of the later table is one of the earlier table, or entered with the event. */
  predicate FacesKept(slots: Slots, later: Slots, e: Event) {
    |later| == |slots|
    && forall k :: 0 <= k < |slots| && later[k].Some? ==>
         (slots[k].Some? && SameFace(slots[k].value, later[k].value)) || Enters(e, later[k].value)
  }

  predicate SameFace(a: Call, b: Call) {
    a.mt == b.mt && a.number == b.number && a.callType == b.callType
  }

  predicate Enters(e: Event, call: Call) {
    if call.mt then CameIn(e, call) else Dialed(e, call)
  }

  lemma {:induction false} AnswerFaces(s: State, t: Token, i: nat, e: Event)
    requires i <= |s.slots|
    ensures FacesKept(s.slots, AnswerFrom(s, t, i).slots, e)
    decreases |s.slots| - i
  {
    if i < |s.slots| && !(In(s.slots[i], {Incoming}) && Pending(s.slots[i])) {
      AnswerFaces(if In(s.slots[i], {Incoming}) then Store(s, i, t, [AnswerOf(s.slots, i)]) else s, t, i + 1, e);
    }
  }

  lemma {:induction false} RequestFaces(s: State, e: Event)
    requires Callable(e, |s.slots|) && IsRequest(e) && Distinct(s.slots)
    ensures FacesKept(s.slots, Step(s, e).slots, e)
  {
    match e
    case DialReq(_, _) =>
    case HangupReq(_, _) =>
    case HangupWaitingReq(t) => var k, commands := HangupWaitingStored(s, t);
    case HangupForegroundReq(t) => var k, commands := HangupForegroundStored(s, t);
    case AnswerReq(t) => AnswerFaces(s, t, 0, e);
    case SwitchReq(t) =>
      if !WaitingOnly(s.slots) {
        var k, commands := SwitchStored(s, t);
      }
  }

  lemma {:induction false} OneFace(slots: Slots, k: nat, slot: Option<Call>, e: Event)
    requires k < |slots| && slots[k].Some? && (slot.Some? ==> SameFace(slots[k].value, slot.value))
    ensures FacesKept(slots, slots[k := slot], e)
  {
  }

  lemma {:induction false} SettleFaces(s: State, k: nat, ok: bool, e: Event)
    requires k < |s.slots| && s.slots[k].Some?
    ensures FacesKept(s.slots, Settle(s, k, ok).slots, e)
  {
    OneFace(s.slots, k, Some(s.slots[k].value.(token := NO_TOKEN)), e);
  }

  lemma {:induction false} PutFaces(s: State, k: nat, ok: bool, state: CallState, e: Event)
    requires k < |s.slots| && s.slots[k].Some?
    ensures FacesKept(s.slots, Settle(Put(s, k, state), k, ok).slots, e)
  {
    var r := Settle(Put(s, k, state), k, ok);
    OneFace(s.slots, k, r.slots[k], e);
    assert r.slots == s.slots[k := r.slots[k]];
  }

  lemma {:induction false} DropFaces(s: State, k: nat, ok: bool, e: Event)
    requires k < |s.slots| && s.slots[k].Some?
    ensures FacesKept(s.slots, Drop(Settle(s, k, ok), k).slots, e)
  {
    OneFace(s.slots, k, None, e);
    assert Drop(Settle(s, k, ok), k).slots == s.slots[k := None];
  }

  lemma {:induction false} SwapFaces(s: State, a: nat, h: nat, ok: bool, e: Event)
    requires a < |s.slots| && h < |s.slots| && s.slots[a].Some? && s.slots[h].Some?
    ensures FacesKept(s.slots, Settle(if ok then Put(Put(s, a, Active), h, Holding) else s, h, ok).slots, e)
  {
  }

  lemma {:induction false} NamingFaces(s: State, id: nat)
    requires Distinct(s.slots) && Fresh(s.slots, SetupInd(id))
    ensures FacesKept(s.slots, Step(s, SetupInd(id)).slots, SetupInd(id))
  {
    var k := Find(s.slots, DIALING_ID);
    if k < |s.slots| {
      NamingCompletesDial(s, id);
      OneFace(s.slots, k, Some(s.slots[k].value.(id := id, token := NO_TOKEN)), SetupInd(id));
    }
  }

  lemma {:induction false} ReportFaces(s: State, e: Event)
    requires e.AlertInd? || e.ConnectedInd? || e.HoldCnf? || e.ActivateCnf?
    ensures FacesKept(s.slots, Step(s, e).slots, e)
  {
    var k := Find(s.slots, e.id);
    if k < |s.slots| {
      match e
      case AlertInd(_) => OneFace(s.slots, k, Some(s.slots[k].value.(state := Alerting)), e);
      case ConnectedInd(_) => PutFaces(s, k, true, Active, e);
      case HoldCnf(_, ok) =>
        PutFaces(s, k, ok, Holding, e);
        SettleFaces(s, k, ok, e);
      case ActivateCnf(_, ok) =>
        PutFaces(s, k, ok, Active, e);
        SettleFaces(s, k, ok, e);
    }
  }

  lemma {:induction false} StepFaces(s: State, e: Event)
    requires Callable(e, |s.slots|) && Distinct(s.slots) && Fresh(s.slots, e)
    ensures FacesKept(s.slots, Step(s, e).slots, e)
  {
    if IsRequest(e) {
      RequestFaces(s, e);
    } else if e.SetupInd? {
      NamingFaces(s, e.id);
    } else if e.EndInd? || e.ErrorInd? {
      var k := Find(s.slots, e.id);
      if k < |s.slots| {
        DropFaces(s, k, e.EndInd?, e);
      }
    } else if e.SwapCnf? {
      var a, h := Find(s.slots, e.activatedId), Find(s.slots, e.heldId);
      if a < |s.slots| && h < |s.slots| {
        SwapFaces(s, a, h, e.ok, e);
      }
    } else if !e.IncomingInd? {
      ReportFaces(s, e);
    }
  }

  lemma {:induction false} OriginGrows(call: Call, before: seq<Event>, e: Event)
    requires Origin(call, before) || Enters(e, call)
    ensures Origin(call, before + [e])
  {
    var events := before + [e];
    if Enters(e, call) {
      assert events[|before|] == e;
    } else if call.mt {
      var i :| 0 <= i < |before| && CameIn(before[i], call);
      assert events[i] == before[i];
    } else {
      var i :| 0 <= i < |before| && Dialed(before[i], call);
      assert events[i] == before[i];
    }
  }

  lemma {:induction false} OriginOfFace(a: Call, b: Call, events: seq<Event>)
    requires SameFace(a, b) && Origin(a, events)
    ensures Origin(b, events)
  {
    if a.mt {
      var i :| 0 <= i < |events| && CameIn(events[i], a);
      assert CameIn(events[i], b);
    } else {
      var i :| 0 <= i < |events| && Dialed(events[i], a);
      assert Dialed(events[i], b);
    }
  }

  lemma {:induction false} StepOrigin(s: State, before: seq<Event>, e: Event, k: nat)
    requires Callable(e, |s.slots|) && Distinct(s.slots) && Fresh(s.slots, e)
    requires k < |s.slots| && (s.slots[k].Some? ==> Origin(s.slots[k].value, before))
    ensures |Step(s, e).slots| == |s.slots|
    ensures Step(s, e).slots[k].Some? ==> Origin(Step(s, e).slots[k].value, before + [e])
  {
    StepFaces(s, e);
    if Step(s, e).slots[k].Some? {
      var call := Step(s, e).slots[k].value;
      if !Enters(e, call) {
        OriginOfFace(s.slots[k].value, call, before);
      }
      OriginGrows(call, before, e);
    }
  }

  lemma {:induction false} RunDistinct(events: seq<Event>)
    requires AllCallable(events) && FreshAlong(INIT, events)
    ensures Distinct(Run(INIT, events).slots)
  {
    if events != [] {
      RunDistinct(events[..|events| - 1]);
      StepKeepsDistinct(Run(INIT, events[..|events| - 1]), events[|events| - 1]);
    }
  }

  /** Over every run: a call in the table came in with its number, or was dialed with it. */
  lemma {:induction false} CallsHaveOrigin(events: seq<Event>, k: nat)
    requires AllCallable(events) && FreshAlong(INIT, events) && k < MAX_CALLS
    ensures var slots := Run(INIT, events).slots; slots[k].Some? ==> Origin(slots[k].value, events)
  {
    if events != [] {
      var before, e := events[..|events| - 1], events[|events| - 1];
      RunDistinct(before);
      CallsHaveOrigin(before, k);
      StepOrigin(Run(INIT, before), before, e, k);
      assert before + [e] == events;
    }
  }

  /** What a list of the calls tells: mobile terminated exactly for a call that came in, with the
      number that came or was dialed, 145 exactly for a number that starts with '+'. */
  lemma {:induction false} CallsToldTruly(events: seq<Event>, c: CurrentCall)
    requires AllCallable(events) && FreshAlong(INIT, events) && c in CurrentCalls(Run(INIT, events).slots, MAX_CALLS)
    ensures if c.mt then exists i :: 0 <= i < |events| && events[i].IncomingInd? && events[i].number == c.number
            else exists i :: 0 <= i < |events| && events[i].DialReq? && events[i].dialed == Some(c.number)
    ensures c.toa == 145 <==> c.number != "" && c.number[0] == '+'
    ensures c.toa == 129 <==> !(c.number != "" && c.number[0] == '+')
    ensures 1 <= c.index <= MAX_CALLS && Shows(Run(INIT, events).slots, c.index - 1, c.state)
  {
    var slots := Run(INIT, events).slots;
    CallsReported(slots, c);
    CallsHaveOrigin(events, c.index - 1);
    var call := slots[c.index - 1].value;
    if call.mt {
      var i :| 0 <= i < |events| && CameIn(events[i], call);
      assert events[i].IncomingInd? && events[i].number == c.number;
    } else {
      var i :| 0 <= i < |events| && Dialed(events[i], call);
      assert events[i].DialReq? && events[i].dialed == Some(c.number);
    }
  }
}
