/** What holds of the call table over whole runs: no request is lost or answered twice, and
    calls keep their identity. */
module CallRuns {
  import opened Options
  import opened Calls

  // ---------------------------------------------------------------- token conservation

  function One(b: bool): nat {
    if b then 1 else 0
  }

  function Held(slot: Option<Call>, x: Token): nat {
    One(slot.Some? && slot.value.token == x)
  }

  /** How many slots hold request x. */
  function Stored(slots: Slots, x: Token): nat {
    if slots == [] then 0 else Stored(slots[..|slots| - 1], x) + Held(slots[|slots| - 1], x)
  }

  /** How often request x was completed. */
  function Completed(completed: seq<Completion>, x: Token): nat {
    if completed == [] then 0
    else Completed(completed[..|completed| - 1], x) + One(completed[|completed| - 1].t == x)
  }

  /** How often request x is accounted for: completed or pending. */
  function Ledger(s: State, x: Token): nat {
    Completed(s.completed, x) + Stored(s.slots, x)
  }

  /** The request an event brings. */
  function RequestOf(e: Event): Token {
    match e
    case DialReq(t, _) => t
    case HangupReq(t, _) => t
    case HangupWaitingReq(t) => t
    case HangupForegroundReq(t) => t
    case AnswerReq(t) => t
    case SwitchReq(t) => t
    case _ => NO_TOKEN
  }

  lemma {:induction false} StoredUpdate(slots: Slots, k: nat, slot: Option<Call>, x: Token)
    requires k < |slots|
    ensures Stored(slots[k := slot], x) == Stored(slots, x) - Held(slots[k], x) + Held(slot, x)
  {
    var n := |slots| - 1;
    if k < n {
      assert slots[k := slot][..n] == slots[..n][k := slot];
      StoredUpdate(slots[..n], k, slot, x);
    } else {
      assert slots[k := slot][..n] == slots[..n];
    }
  }

  lemma {:induction false} CompleteLedger(s: State, t: Token, ok: bool, x: Token)
    ensures Ledger(Complete(s, t, ok), x) == Ledger(s, x) + One(t == x)
  {
    var c := Complete(s, t, ok).completed;
    assert c[..|c| - 1] == s.completed;
  }

  /** Changing a slot changes the ledger by what it held and holds. */
  lemma {:induction false} ChangeLedger(s: State, k: nat, slot: Option<Call>, sent: seq<Command>, x: Token)
    requires k < |s.slots|
    ensures Ledger(s.(slots := s.slots[k := slot], sent := sent), x) == Ledger(s, x) - Held(s.slots[k], x) + Held(slot, x)
  {
    StoredUpdate(s.slots, k, slot, x);
  }

  lemma {:induction false} SettleLedger(s: State, k: nat, ok: bool, x: Token)
    requires k < |s.slots| && s.slots[k].Some? && x != NO_TOKEN
    ensures Ledger(Settle(s, k, ok), x) == Ledger(s, x)
    ensures Held(Settle(s, k, ok).slots[k], x) == 0
  {
    if Pending(s.slots[k]) {
      var slot := Some(s.slots[k].value.(token := NO_TOKEN));
      ChangeLedger(s, k, slot, s.sent, x);
      CompleteLedger(s.(slots := s.slots[k := slot]), s.slots[k].value.token, ok, x);
    }
  }

  lemma {:induction false} StoreLedger(s: State, k: nat, t: Token, commands: seq<Command>, x: Token)
    requires k < |s.slots| && s.slots[k].Some? && !Pending(s.slots[k]) && x != NO_TOKEN
    ensures Ledger(Store(s, k, t, commands), x) == Ledger(s, x) + One(t == x)
  {
    ChangeLedger(s, k, Some(s.slots[k].value.(token := t)), s.sent + commands, x);
  }

  /** How many copies of the request an answer leaves, pending or completed, from slot i on. */
  function Copies(slots: Slots, i: nat): nat
    requires i <= |slots|
    decreases |slots| - i
  {
    if i == |slots| then 0
    else if !In(slots[i], {Incoming}) then Copies(slots, i + 1)
    else if Pending(slots[i]) then 1
    else 1 + Copies(slots, i + 1)
  }

  lemma {:induction false} CopiesFrom(slots: Slots, changed: Slots, i: nat)
    requires |slots| == |changed| && i <= |slots| && slots[i..] == changed[i..]
    ensures Copies(slots, i) == Copies(changed, i)
    decreases |slots| - i
  {
    if i < |slots| {
      assert slots[i] == slots[i..][0] == changed[i];
      assert slots[i + 1..] == slots[i..][1..] == changed[i + 1..];
      CopiesFrom(slots, changed, i + 1);
    }
  }

  lemma {:induction false} AnswerLedger(s: State, t: Token, i: nat, x: Token)
    requires i <= |s.slots| && t != NO_TOKEN && x != NO_TOKEN
    ensures Ledger(AnswerFrom(s, t, i), x) == Ledger(s, x) + if t == x then Copies(s.slots, i) else 0
    decreases |s.slots| - i
  {
    if i < |s.slots| {
      if !In(s.slots[i], {Incoming}) {
        AnswerLedger(s, t, i + 1, x);
      } else if Pending(s.slots[i]) {
        CompleteLedger(s, t, false, x);
      } else {
        var r := Store(s, i, t, [AnswerOf(s.slots, i)]);
        StoreLedger(s, i, t, [AnswerOf(s.slots, i)], x);
        AnswerLedger(r, t, i + 1, x);
        CopiesFrom(s.slots, r.slots, i + 1);
      }
    }
  }

  /** The one incoming call, or a first incoming call that has a request pending. */
  ghost predicate Answerable(slots: Slots) {
    exists f :: 0 <= f < |slots| && In(slots[f], {Incoming})
      && (forall i :: 0 <= i < f ==> !In(slots[i], {Incoming}))
      && (Pending(slots[f]) || forall i :: f < i < |slots| ==> !In(slots[i], {Incoming}))
  }

  lemma {:induction false} NoCopies(slots: Slots, i: nat)
    requires i <= |slots|
    ensures Copies(slots, i) == 0 <==> forall j :: i <= j < |slots| ==> !In(slots[j], {Incoming})
    decreases |slots| - i
  {
    if i < |slots| {
      NoCopies(slots, i + 1);
    }
  }

  lemma {:induction false} CopiesSkip(slots: Slots, i: nat, f: nat)
    requires i <= f <= |slots| && forall j :: i <= j < f ==> !In(slots[j], {Incoming})
    ensures Copies(slots, i) == Copies(slots, f)
    decreases f - i
  {
    if i < f {
      CopiesSkip(slots, i + 1, f);
    }
  }

  lemma {:induction false} OneCopy(slots: Slots)
    ensures Copies(slots, 0) == 1 <==> Answerable(slots)
  {
    NoCopies(slots, 0);
    if exists j :: 0 <= j < |slots| && In(slots[j], {Incoming}) {
      var f := FirstIncoming(slots);
      CopiesSkip(slots, 0, f);
      NoCopies(slots, f + 1);
    }
  }

  lemma {:induction false} FirstIncoming(slots: Slots) returns (f: nat)
    requires exists j :: 0 <= j < |slots| && In(slots[j], {Incoming})
    ensures f < |slots| && In(slots[f], {Incoming}) && forall i :: 0 <= i < f ==> !In(slots[i], {Incoming})
  {
    f := 0;
    while !In(slots[f], {Incoming})
      invariant f < |slots| && forall i :: 0 <= i < f ==> !In(slots[i], {Incoming})
      invariant exists j :: f <= j < |slots| && In(slots[j], {Incoming})
      decreases |slots| - f
    {
      f := f + 1;
    }
  }

  /** Only a waiting call, and nothing pending on it: the one case a switch request drops. */
  predicate WaitingOnly(slots: Slots) {
    var n := |slots|;
    !Busy(slots, n, {Active, Holding, Waiting}) && Last(slots, n, Active).None? && Last(slots, n, Holding).None?
    && Last(slots, n, Waiting).Some?
  }

  /** The state in which a request is not lost or duplicated. */
  ghost predicate Safe(s: State, e: Event) {
    match e
    case AnswerReq(_) => Answerable(s.slots)
    case SwitchReq(_) => !WaitingOnly(s.slots)
    case _ => true
  }

  lemma {:induction false} NotPending(slots: Slots, k: nat, states: set<CallState>)
    requires k < |slots| && !Busy(slots, |slots|, states) && In(slots[k], states)
    ensures !Pending(slots[k])
  {
  }

  lemma {:induction false} HangupWaitingLedger(s: State, t: Token, x: Token)
    requires t != NO_TOKEN && x != NO_TOKEN
    ensures Ledger(HangupWaiting(s, t), x) == Ledger(s, x) + One(t == x)
  {
    var n := |s.slots|;
    var active, hold := Last(s.slots, n, Active), Last(s.slots, n, Holding);
    var wait, incoming := Last(s.slots, n, Waiting), Last(s.slots, n, Incoming);
    if Busy(s.slots, n, {Active, Holding, Waiting, Incoming}) || (active.None? && hold.None? && wait.None? && incoming.None?) {
      CompleteLedger(s, t, !Busy(s.slots, n, {Active, Holding, Waiting, Incoming}), x);
    } else {
      var k := if wait.Some? && (hold.Some? || active.Some?) then wait.value
               else if active.Some? then active.value
               else if hold.Some? then hold.value
               else if wait.Some? then wait.value
               else incoming.value;
      StoreLedger(s, k, t, [ReleaseOf(s.slots, k)], x);
    }
  }

  lemma {:induction false} HangupForegroundLedger(s: State, t: Token, x: Token)
    requires t != NO_TOKEN && x != NO_TOKEN
    ensures Ledger(HangupForeground(s, t), x) == Ledger(s, x) + One(t == x)
  {
    var n := |s.slots|;
    var active, hold := Last(s.slots, n, Active), Last(s.slots, n, Holding);
    if Busy(s.slots, n, {Active, Holding}) || (active.None? && hold.None?) {
      CompleteLedger(s, t, !Busy(s.slots, n, {Active, Holding}), x);
    } else if hold.Some? {
      StoreLedger(s, hold.value, t, HangupForeground(s, t).sent[|s.sent|..], x);
    } else {
      StoreLedger(s, active.value, t, [ReleaseOf(s.slots, active.value)], x);
    }
  }

  lemma {:induction false} SwitchLedger(s: State, t: Token, x: Token)
    requires t != NO_TOKEN && x != NO_TOKEN
    ensures Ledger(Switch(s, t), x) == Ledger(s, x) + One(t == x && !WaitingOnly(s.slots))
  {
    var n := |s.slots|;
    var active, hold, wait := Last(s.slots, n, Active), Last(s.slots, n, Holding), Last(s.slots, n, Waiting);
    var busy := Busy(s.slots, n, {Active, Holding, Waiting});
    if busy || (active.None? && hold.None? && wait.None?) {
      CompleteLedger(s, t, !busy, x);
    } else if active.Some? || hold.Some? {
      var k := if active.Some? && hold.Some? then active.value
               else if wait.Some? then wait.value
               else if active.Some? then active.value
               else hold.value;
      StoreLedger(s, k, t, Switch(s, t).sent[|s.sent|..], x);
    }
  }

  lemma {:induction false} SetupLedger(s: State, id: nat, x: Token)
    requires x != NO_TOKEN
    ensures Ledger(Step(s, SetupInd(id)), x) == Ledger(s, x)
  {
    var k := Find(s.slots, DIALING_ID);
    if k < |s.slots| {
      var slot := Some(s.slots[k].value.(id := id));
      ChangeLedger(s, k, slot, s.sent, x);
      var named := s.(slots := s.slots[k := slot]);
      var j := Find(named.slots, id);
      if j < |s.slots| {
        SettleLedger(named, j, true, x);
      }
    }
  }

  lemma {:induction false} SwapLedger(s: State, a: nat, h: nat, ok: bool, x: Token)
    requires a < |s.slots| && h < |s.slots| && s.slots[a].Some? && s.slots[h].Some? && x != NO_TOKEN
    ensures Ledger(Settle(if ok then Put(Put(s, a, Active), h, Holding) else s, h, ok), x) == Ledger(s, x)
  {
    PutLedger(s, a, Active, x);
    PutLedger(Put(s, a, Active), h, Holding, x);
    SettleLedger(if ok then Put(Put(s, a, Active), h, Holding) else s, h, ok, x);
  }

  lemma {:induction false} CallLedger(s: State, k: nat, state: CallState, ok: bool, x: Token)
    requires k < |s.slots| && s.slots[k].Some? && x != NO_TOKEN
    ensures Ledger(Settle(s, k, ok), x) == Ledger(Settle(Put(s, k, state), k, ok), x) == Ledger(s, x)
  {
    PutLedger(s, k, state, x);
    SettleLedger(s, k, ok, x);
    SettleLedger(Put(s, k, state), k, ok, x);
  }

  /** What the modem reports changes no request's account: a pending one may get completed. */
  lemma {:induction false} ModemLedger(s: State, e: Event, x: Token)
    requires Callable(e, |s.slots|) && !IsRequest(e) && x != NO_TOKEN
    ensures Ledger(Step(s, e), x) == Ledger(s, x)
  {
    var n := |s.slots|;
    match e
    case IncomingInd(id, callType, number) =>
      var k := Free(s.slots);
      if k < n {
        ChangeLedger(s, k, Step(s, e).slots[k], s.sent, x);
      }
    case EndInd(id) => EndLedger(s, Find(s.slots, id), true, x);
    case ErrorInd(id) => EndLedger(s, Find(s.slots, id), false, x);
    case SetupInd(id) => SetupLedger(s, id, x);
    case AlertInd(id) =>
      var k := Find(s.slots, id);
      if k < n {
        PutLedger(s, k, Alerting, x);
      }
    case ConnectedInd(id) =>
      var k := Find(s.slots, id);
      if k < n {
        CallLedger(s, k, Active, true, x);
      }
    case HoldCnf(id, ok) =>
      var k := Find(s.slots, id);
      if k < n {
        CallLedger(s, k, Holding, ok, x);
      }
    case SwapCnf(activatedId, heldId, ok) =>
      var a, h := Find(s.slots, activatedId), Find(s.slots, heldId);
      if a < n && h < n {
        SwapLedger(s, a, h, ok, x);
      }
    case ActivateCnf(id, ok) =>
      var k := Find(s.slots, id);
      if k < n {
        CallLedger(s, k, Active, ok, x);
      }
  }

  lemma {:induction false} PutLedger(s: State, k: nat, state: CallState, x: Token)
    requires k < |s.slots| && s.slots[k].Some?
    ensures Ledger(Put(s, k, state), x) == Ledger(s, x)
  {
    ChangeLedger(s, k, Some(s.slots[k].value.(state := state)), s.sent, x);
  }

  lemma {:induction false} EndLedger(s: State, k: nat, ok: bool, x: Token)
    requires k <= |s.slots| && (k < |s.slots| ==> s.slots[k].Some?) && x != NO_TOKEN
    ensures k < |s.slots| ==> Ledger(Drop(Settle(s, k, ok), k), x) == Ledger(s, x)
  {
    if k < |s.slots| {
      SettleLedger(s, k, ok, x);
      ChangeLedger(Settle(s, k, ok), k, None, s.sent, x);
    }
  }

  predicate IsRequest(e: Event) {
    e.DialReq? || e.HangupReq? || e.HangupWaitingReq? || e.HangupForegroundReq? || e.AnswerReq? || e.SwitchReq?
  }

  /** One step: a request is accounted for exactly once exactly in a safe state, and nothing
      else in the ledger moves. */
  lemma {:induction false} StepLedger(s: State, e: Event, x: Token)
    requires Callable(e, |s.slots|) && (IsRequest(e) ==> RequestOf(e) != NO_TOKEN) && x != NO_TOKEN
    ensures x != RequestOf(e) ==> Ledger(Step(s, e), x) == Ledger(s, x)
    ensures x == RequestOf(e) ==> (Ledger(Step(s, e), x) == Ledger(s, x) + 1 <==> Safe(s, e))
  {
    match e
    case DialReq(t, dialed) =>
      var k := Free(s.slots);
      if Find(s.slots, DIALING_ID) < |s.slots| || dialed.None? || k == |s.slots| {
        CompleteLedger(s, t, false, x);
      } else {
        ChangeLedger(s, k, Step(s, e).slots[k], Step(s, e).sent, x);
      }
    case HangupReq(t, index) =>
      if index.None? || s.slots[index.value - 1].None? || Pending(s.slots[index.value - 1]) {
        CompleteLedger(s, t, false, x);
      } else {
        StoreLedger(s, index.value - 1, t, [ReleaseOf(s.slots, index.value - 1)], x);
      }
    case HangupWaitingReq(t) => HangupWaitingLedger(s, t, x);
    case HangupForegroundReq(t) => HangupForegroundLedger(s, t, x);
    case AnswerReq(t) =>
      AnswerLedger(s, t, 0, x);
      OneCopy(s.slots);
    case SwitchReq(t) => SwitchLedger(s, t, x);
    case _ => ModemLedger(s, e, x);
  }

  // ---------------------------------------------------------------- whole runs

  /** An answer with no incoming call is lost. */
  lemma {:induction false} AnswerLost(s: State, t: Token)
    requires t != NO_TOKEN && forall i :: 0 <= i < |s.slots| ==> !In(s.slots[i], {Incoming})
    ensures Ledger(Step(s, AnswerReq(t)), t) == Ledger(s, t)
  {
    NoCopies(s.slots, 0);
    AnswerLedger(s, t, 0, t);
  }

  /** With several incoming calls, and nothing pending on the first, an answer is kept or
      completed more than once. */
  lemma {:induction false} AnswerDuplicated(s: State, t: Token, f: nat, g: nat)
    requires t != NO_TOKEN && f < g < |s.slots| && In(s.slots[f], {Incoming}) && In(s.slots[g], {Incoming})
    requires !Pending(s.slots[f]) && forall i :: 0 <= i < f ==> !In(s.slots[i], {Incoming})
    ensures Ledger(Step(s, AnswerReq(t)), t) >= Ledger(s, t) + 2
  {
    CopiesSkip(s.slots, 0, f);
    NoCopies(s.slots, f + 1);
    AnswerLedger(s, t, 0, t);
  }

  /** A switch with nothing but a waiting call is lost. */
  lemma {:induction false} SwitchLost(s: State, t: Token)
    requires t != NO_TOKEN && WaitingOnly(s.slots)
    ensures Ledger(Step(s, SwitchReq(t)), t) == Ledger(s, t)
  {
    SwitchLedger(s, t, t);
  }

  lemma {:induction false} AnswerSize(s: State, t: Token, i: nat)
    requires i <= |s.slots|
    ensures |AnswerFrom(s, t, i).slots| == |s.slots|
    decreases |s.slots| - i
  {
    if i < |s.slots| {
      AnswerSize(s, t, i + 1);
      if In(s.slots[i], {Incoming}) {
        AnswerSize(Store(s, i, t, [AnswerOf(s.slots, i)]), t, i + 1);
      }
    }
  }

  lemma {:induction false} StepSize(s: State, e: Event)
    requires Callable(e, |s.slots|)
    ensures |Step(s, e).slots| == |s.slots|
  {
    if e.AnswerReq? {
      AnswerSize(s, e.t, 0);
    }
  }

  predicate AllCallable(events: seq<Event>) {
    forall i :: 0 <= i < |events| ==> Callable(events[i], MAX_CALLS)
  }

  function Run(s: State, events: seq<Event>): (r: State)
    requires |s.slots| == MAX_CALLS && AllCallable(events)
    ensures |r.slots| == MAX_CALLS
  {
    if events == [] then s
    else
      var before := Run(s, events[..|events| - 1]);
      var r := Step(before, events[|events| - 1]);
      StepSize(before, events[|events| - 1]);
      r
  }

  /** Every request has a token and comes in a state that is safe for it. */
  ghost predicate AllSafe(s: State, events: seq<Event>)
    requires |s.slots| == MAX_CALLS && AllCallable(events)
  {
    forall i {:trigger events[i]} :: 0 <= i < |events| ==>
      (IsRequest(events[i]) ==> RequestOf(events[i]) != NO_TOKEN) && Safe(Run(s, events[..i]), events[i])
  }

  /** How often request x was made. */
  function Made(events: seq<Event>, x: Token): nat {
    if events == [] then 0
    else Made(events[..|events| - 1], x) + One(RequestOf(events[|events| - 1]) == x)
  }

  /** Over every run of requests and modem events: each request is completed or pending
      exactly as often as it was made. */
  lemma {:induction false} TokenConservation(events: seq<Event>, x: Token)
    requires AllCallable(events) && AllSafe(INIT, events) && x != NO_TOKEN
    ensures Ledger(Run(INIT, events), x) == Made(events, x)
  {
    if events == [] {
      StoredNone(INIT.slots, x);
    } else {
      var before := events[..|events| - 1];
      forall i | 0 <= i < |before|
        ensures (IsRequest(before[i]) ==> RequestOf(before[i]) != NO_TOKEN) && Safe(Run(INIT, before[..i]), before[i])
      {
        assert before[i] == events[i] && before[..i] == events[..i];
      }
      TokenConservation(before, x);
      assert Safe(Run(INIT, events[..|events| - 1]), events[|events| - 1]);
      StepLedger(Run(INIT, before), events[|events| - 1], x);
    }
  }

  lemma {:induction false} StoredNone(slots: Slots, x: Token)
    requires forall i :: 0 <= i < |slots| ==> slots[i].None?
    ensures Stored(slots, x) == 0
  {
    if slots != [] {
      StoredNone(slots[..|slots| - 1], x);
    }
  }

  /** Request x comes only in states that are safe for it. */
  ghost predicate SafeFor(events: seq<Event>, x: Token)
    requires AllCallable(events)
  {
    events != [] ==>
      && SafeFor(events[..|events| - 1], x)
      && (RequestOf(events[|events| - 1]) == x ==> Safe(Run(INIT, events[..|events| - 1]), events[|events| - 1]))
  }

  /** What was never requested is not accounted for. */
  lemma {:induction false} NotMade(events: seq<Event>, x: Token)
    requires AllCallable(events) && RequestsNamed(events) && x != NO_TOKEN && Made(events, x) == 0
    ensures Ledger(Run(INIT, events), x) == 0 && SafeFor(events, x)
  {
    if events == [] {
      StoredNone(INIT.slots, x);
    } else {
      var before := events[..|events| - 1];
      NotMade(before, x);
      StepLedger(Run(INIT, before), events[|events| - 1], x);
    }
  }

  predicate RequestsNamed(events: seq<Event>) {
    forall i :: 0 <= i < |events| ==> IsRequest(events[i]) ==> RequestOf(events[i]) != NO_TOKEN
  }

  lemma {:induction false} MadeOnceLedger(events: seq<Event>, x: Token)
    requires AllCallable(events) && RequestsNamed(events) && x != NO_TOKEN && Made(events, x) == 1
    ensures Ledger(Run(INIT, events), x) == 1 <==> SafeFor(events, x)
  {
    var before, e := events[..|events| - 1], events[|events| - 1];
    if RequestOf(e) == x {
      NotMade(before, x);
    } else {
      MadeOnceLedger(before, x);
    }
    StepLedger(Run(INIT, before), e, x);
  }

  /** A request made once is, at any time after, either completed once and kept in no slot, or
      not completed and kept in one slot: exactly if the state it came in was safe for it. */
  lemma {:induction false} ExactlyOnce(events: seq<Event>, x: Token)
    requires AllCallable(events) && RequestsNamed(events) && x != NO_TOKEN && Made(events, x) == 1
    ensures var s := Run(INIT, events);
            (|| (Completed(s.completed, x) == 1 && forall i :: 0 <= i < |s.slots| ==> Held(s.slots[i], x) == 0)
             || (Completed(s.completed, x) == 0 && HeldOnce(s.slots, x)))
            <==> SafeFor(events, x)
  {
    MadeOnceLedger(events, x);
    WhereStored(Run(INIT, events).slots, x);
  }

  lemma {:induction false} WhereStored(slots: Slots, x: Token)
    ensures Stored(slots, x) == 0 <==> forall i :: 0 <= i < |slots| ==> Held(slots[i], x) == 0
    ensures Stored(slots, x) == 1 <==> HeldOnce(slots, x)
  {
    if slots != [] {
      var n := |slots| - 1;
      var front := slots[..n];
      WhereStored(front, x);
      assert forall i :: 0 <= i < n ==> front[i] == slots[i];
      if Stored(slots, x) == 1 {
        var k := n;
        if Held(slots[n], x) == 0 {
          k :| 0 <= k < n && HeldOnlyAt(front, x, k);
        }
        assert HeldOnlyAt(slots, x, k);
      }
      if k :| 0 <= k < |slots| && HeldOnlyAt(slots, x, k) {
        if k < n {
          assert HeldOnlyAt(front, x, k);
        } else {
          assert forall i :: 0 <= i < n ==> Held(front[i], x) == 0;
        }
      }
    }
  }

  ghost predicate HeldOnlyAt(slots: Slots, x: Token, k: nat)
    requires k < |slots|
  {
    Held(slots[k], x) == 1 && forall i :: 0 <= i < |slots| && i != k ==> Held(slots[i], x) == 0
  }

  ghost predicate HeldOnce(slots: Slots, x: Token) {
    exists k :: 0 <= k < |slots| && HeldOnlyAt(slots, x, k)
  }

  // ---------------------------------------------------------------- a modem that is not ready

  /** `ril_on_request`: with the modem not ready a request is completed with an error, and then
      handled all the same. */
  function OnRequest(s: State, e: Event, ready: bool): State
    requires Callable(e, |s.slots|) && IsRequest(e)
  {
    Step(if ready then s else Complete(s, RequestOf(e), false), e)
  }

  /** The request is forgotten: no call to answer, or nothing but a waiting call to switch. */
  ghost predicate Forgotten(s: State, e: Event) {
    match e
    case AnswerReq(_) => forall i :: 0 <= i < |s.slots| ==> !In(s.slots[i], {Incoming})
    case SwitchReq(_) => WaitingOnly(s.slots)
    case _ => false
  }

  /** A request is accounted for exactly once if the modem is ready and the state safe, or if it
      is not ready and the request is forgotten, and in no other case. */
  lemma {:induction false} OnRequestLedger(s: State, e: Event, ready: bool)
    requires Callable(e, |s.slots|) && IsRequest(e) && RequestOf(e) != NO_TOKEN
    ensures var t := RequestOf(e);
            Ledger(OnRequest(s, e, ready), t) == Ledger(s, t) + 1 <==> if ready then Safe(s, e) else Forgotten(s, e)
  {
    var t := RequestOf(e);
    var u := Complete(s, t, false);
    CompleteLedger(s, t, false, t);
    StepLedger(s, e, t);
    StepLedger(u, e, t);
    if e.AnswerReq? {
      AnswerLedger(u, t, 0, t);
      NoCopies(u.slots, 0);
    } else if e.SwitchReq? {
      SwitchLedger(u, t, t);
    }
  }

  // ---------------------------------------------------------------- runs that go wrong

  lemma {:induction false} RunThen(events: seq<Event>, e: Event, more: seq<Event>)
    requires AllCallable(events) && Callable(e, MAX_CALLS) && more == events + [e]
    ensures AllCallable(more) && Run(INIT, more) == Step(Run(INIT, events), e)
  {
    assert more[..|events|] == events;
  }

  function FirstCall(): Event {
    IncomingInd(1, 4, "")
  }

  function SecondCall(): Event {
    IncomingInd(2, 4, "")
  }

  /** The table with calls 1 and 2 in the given states, and nothing completed or sent. */
  function Two(first: CallState, second: CallState): State {
    State([Some(Call(1, 4, true, "", first, NO_TOKEN)), Some(Call(2, 4, true, "", second, NO_TOKEN)), None, None, None, None], [], [])
  }

  lemma {:induction false} OneComesIn()
    ensures Step(INIT, FirstCall()).slots == [Some(Call(1, 4, true, "", Incoming, NO_TOKEN)), None, None, None, None, None]
    ensures Step(INIT, FirstCall()).completed == [] && Step(INIT, FirstCall()).sent == []
  {
    FreeIs(INIT.slots, 0);
  }

  lemma {:induction false} SecondComesIn(s: State, state: CallState)
    requires s == State([Some(Call(1, 4, true, "", state, NO_TOKEN)), None, None, None, None, None], [], [])
    requires state == Incoming || state == Active
    ensures Step(s, SecondCall()) == Two(state, if state == Active then Waiting else Incoming)
  {
    FreeIs(s.slots, 1);
    assert state == Active ==> In(s.slots[0], {Active, Holding});
  }

  lemma {:induction false} TwoComeIn()
    ensures Run(INIT, [FirstCall(), SecondCall()]) == Two(Incoming, Incoming)
  {
    var a, b := FirstCall(), SecondCall();
    RunThen([], a, [a]);
    RunThen([a], b, [a, b]);
    OneComesIn();
    SecondComesIn(Run(INIT, [a]), Incoming);
  }

  /** Two calls come in and are answered: the request is pending with both. */
  lemma {:induction false} AnswerKeptTwice(t: Token)
    requires t != NO_TOKEN
    ensures var s := Run(INIT, [FirstCall(), SecondCall(), AnswerReq(t)]);
            Ledger(s, t) == 2 && Held(s.slots[0], t) == 1 && Held(s.slots[1], t) == 1
  {
    var a, b := FirstCall(), SecondCall();
    TwoComeIn();
    RunThen([a, b], AnswerReq(t), [a, b, AnswerReq(t)]);
    NothingHeld(Two(Incoming, Incoming), t);
    AnswerBoth(t);
  }

  /** Nothing completed and nothing pending. */
  lemma {:induction false} NothingHeld(s: State, t: Token)
    requires t != NO_TOKEN && s.completed == [] && forall i :: 0 <= i < |s.slots| ==> !Pending(s.slots[i])
    ensures Ledger(s, t) == 0
  {
    WhereStored(s.slots, t);
  }

  lemma {:induction false} AnswerBoth(t: Token)
    requires t != NO_TOKEN
    ensures var s := Step(Two(Incoming, Incoming), AnswerReq(t));
            |s.slots| == MAX_CALLS && Ledger(s, t) == Ledger(Two(Incoming, Incoming), t) + 2 && Held(s.slots[0], t) == 1 && Held(s.slots[1], t) == 1
  {
    var s := Two(Incoming, Incoming);
    NoCopies(s.slots, 2);
    assert Copies(s.slots, 0) == 1 + Copies(s.slots, 1) == 2 + Copies(s.slots, 2);
    AnswerLedger(s, t, 0, t);
    AnswerSize(s, t, 0);
    var one := Store(s, 0, t, [AnswerOf(s.slots, 0)]);
    NoAnswer(Store(one, 1, t, [AnswerOf(one.slots, 1)]), t, 2);
    assert AnswerFrom(s, t, 0) == AnswerFrom(one, t, 1);
  }

  lemma {:induction false} OneIsLeft()
    ensures Run(INIT, [FirstCall(), ConnectedInd(1), SecondCall(), EndInd(1)]) == Step(Two(Active, Waiting), EndInd(1))
  {
    var a, b, c, d := FirstCall(), ConnectedInd(1), SecondCall(), EndInd(1);
    RunThen([], a, [a]);
    RunThen([a], b, [a, b]);
    OneComesIn();
    FirstConnects();
    RunThen([a, b], c, [a, b, c]);
    SecondComesIn(Run(INIT, [a, b]), Active);
    RunThen([a, b, c], d, [a, b, c, d]);
  }

  /** A call is answered, another one waits, the first one ends, and a switch is asked for: the
      request is neither completed nor kept. */
  lemma {:induction false} SwitchForgotten(t: Token)
    requires t != NO_TOKEN
    ensures Ledger(Run(INIT, [FirstCall(), ConnectedInd(1), SecondCall(), EndInd(1), SwitchReq(t)]), t) == 0
  {
    OneIsLeft();
    OnlyWaitingLeft();
    var a, b, c, d := FirstCall(), ConnectedInd(1), SecondCall(), EndInd(1);
    RunThen([a, b, c, d], SwitchReq(t), [a, b, c, d, SwitchReq(t)]);
    var s := Step(Two(Active, Waiting), EndInd(1));
    NothingHeld(s, t);
    SwitchLost(s, t);
  }

  lemma {:induction false} FirstConnects()
    ensures Step(State([Some(Call(1, 4, true, "", Incoming, NO_TOKEN)), None, None, None, None, None], [], []), ConnectedInd(1))
         == State([Some(Call(1, 4, true, "", Active, NO_TOKEN)), None, None, None, None, None], [], [])
  {
    FindIs([Some(Call(1, 4, true, "", Incoming, NO_TOKEN)), None, None, None, None, None], 1, 0);
  }

  lemma {:induction false} OnlyWaitingLeft()
    ensures var s := Step(Two(Active, Waiting), EndInd(1));
            WaitingOnly(s.slots) && s.completed == [] && forall i :: 0 <= i < |s.slots| ==> !Pending(s.slots[i])
  {
    FindIs(Two(Active, Waiting).slots, 1, 0);
    var slots := Step(Two(Active, Waiting), EndInd(1)).slots;
    assert slots == [None, Some(Call(2, 4, true, "", Waiting, NO_TOKEN)), None, None, None, None];
    assert In(slots[1], {Waiting});
  }

  // ---------------------------------------------------------------- identity

  /** No two calls share an identity; in particular at most one is unnamed. */
  predicate Distinct(slots: Slots) {
    forall i, j :: 0 <= i < j < |slots| && slots[i].Some? && slots[j].Some? ==> slots[i].value.id != slots[j].value.id
  }

  /** The modem names calls with identities not in use. */
  predicate Fresh(slots: Slots, e: Event) {
    match e
    case IncomingInd(id, _, _) => id != DIALING_ID && Find(slots, id) == |slots|
    case SetupInd(id) => id != DIALING_ID && Find(slots, id) == |slots|
    case _ => true
  }

  /** Nothing that identifies a call, as it was reported, differs. */
  predicate SameCall(a: Option<Call>, b: Option<Call>) {
    a.Some? && b.Some? && a.value.id == b.value.id && a.value.callType == b.value.callType
    && a.value.mt == b.value.mt && a.value.number == b.value.number
  }

  /** The same calls in the same slots. */
  ghost predicate KeepsCalls(s: State, r: State) {
    && |r.slots| == |s.slots|
    && forall k :: 0 <= k < |s.slots| ==> if s.slots[k].Some? then SameCall(r.slots[k], s.slots[k]) else r.slots[k].None?
  }

  lemma {:induction false} AnswerKeeps(s: State, t: Token, i: nat)
    requires i <= |s.slots|
    ensures KeepsCalls(s, AnswerFrom(s, t, i))
    decreases |s.slots| - i
  {
    if i < |s.slots| {
      if !In(s.slots[i], {Incoming}) {
        AnswerKeeps(s, t, i + 1);
      } else if !Pending(s.slots[i]) {
        AnswerKeeps(Store(s, i, t, [AnswerOf(s.slots, i)]), t, i + 1);
      }
    }
  }

  lemma {:induction false} HangupWaitingKeeps(s: State, t: Token)
    ensures KeepsCalls(s, HangupWaiting(s, t))
  {
  }

  lemma {:induction false} HangupForegroundKeeps(s: State, t: Token)
    ensures KeepsCalls(s, HangupForeground(s, t))
  {
  }

  lemma {:induction false} PutKeeps(s: State, k: nat, state: CallState)
    requires k < |s.slots| && s.slots[k].Some?
    ensures KeepsCalls(s, Put(s, k, state))
  {
  }

  lemma {:induction false} StoreKeeps(s: State, k: nat, t: Token, commands: seq<Command>)
    requires k < |s.slots| && s.slots[k].Some?
    ensures KeepsCalls(s, Store(s, k, t, commands))
  {
  }

  lemma {:induction false} SettleKeeps(s: State, k: nat, ok: bool)
    requires k < |s.slots| && s.slots[k].Some?
    ensures KeepsCalls(s, Settle(s, k, ok))
  {
  }

  lemma {:induction false} KeepsBoth(s: State, m: State, r: State)
    requires KeepsCalls(s, m) && KeepsCalls(m, r)
    ensures KeepsCalls(s, r)
  {
  }

  lemma {:induction false} SwapKeeps(s: State, a: nat, h: nat, ok: bool)
    requires a < |s.slots| && h < |s.slots| && s.slots[a].Some? && s.slots[h].Some?
    ensures KeepsCalls(s, Settle(if ok then Put(Put(s, a, Active), h, Holding) else s, h, ok))
  {
    var put := Put(s, a, Active);
    var m := if ok then Put(put, h, Holding) else s;
    PutKeeps(s, a, Active);
    PutKeeps(put, h, Holding);
    KeepsBoth(s, put, Put(put, h, Holding));
    SettleKeeps(m, h, ok);
    KeepsBoth(s, m, Settle(m, h, ok));
  }

  lemma {:induction false} CallKeeps(s: State, k: nat, state: CallState, ok: bool)
    requires k < |s.slots| && s.slots[k].Some?
    ensures KeepsCalls(s, Put(s, k, state)) && KeepsCalls(s, Settle(s, k, ok))
    ensures KeepsCalls(s, Settle(Put(s, k, state), k, ok))
  {
    PutKeeps(s, k, state);
    SettleKeeps(s, k, ok);
    SettleKeeps(Put(s, k, state), k, ok);
    KeepsBoth(s, Put(s, k, state), Settle(Put(s, k, state), k, ok));
  }

  lemma {:induction false} SwitchKeeps(s: State, t: Token)
    ensures KeepsCalls(s, Switch(s, t))
  {
  }

  /** Only four things change which calls there are: a call comes in, is dialed, is named, or
      ends. */
  lemma {:induction false} StepKeepsCalls(s: State, e: Event)
    requires Callable(e, |s.slots|)
    requires !(e.IncomingInd? || e.EndInd? || e.SetupInd? || e.ErrorInd? || e.DialReq?)
    ensures KeepsCalls(s, Step(s, e))
  {
    var n := |s.slots|;
    match e
    case AlertInd(id) =>
      var k := Find(s.slots, id);
      if k < n {
        PutKeeps(s, k, Alerting);
      }
    case ConnectedInd(id) =>
      var k := Find(s.slots, id);
      if k < n {
        CallKeeps(s, k, Active, true);
      }
    case HoldCnf(id, ok) =>
      var k := Find(s.slots, id);
      if k < n {
        CallKeeps(s, k, Holding, ok);
      }
    case SwapCnf(activatedId, heldId, ok) =>
      var a, h := Find(s.slots, activatedId), Find(s.slots, heldId);
      if a < n && h < n {
        SwapKeeps(s, a, h, ok);
      }
    case ActivateCnf(id, ok) =>
      var k := Find(s.slots, id);
      if k < n {
        CallKeeps(s, k, Active, ok);
      }
    case HangupReq(t, index) =>
      if index.Some? && s.slots[index.value - 1].Some? {
        StoreKeeps(s, index.value - 1, t, [ReleaseOf(s.slots, index.value - 1)]);
      }
    case HangupWaitingReq(t) => HangupWaitingKeeps(s, t);
    case HangupForegroundReq(t) => HangupForegroundKeeps(s, t);
    case AnswerReq(t) => AnswerKeeps(s, t, 0);
    case SwitchReq(t) => SwitchKeeps(s, t);
  }

  /** A step leaves a named call in its slot unless it ends that call. */
  lemma {:induction false} StepKeepsCall(s: State, e: Event, k: nat)
    requires Callable(e, |s.slots|) && k < |s.slots| && s.slots[k].Some? && s.slots[k].value.id != DIALING_ID
    requires e != EndInd(s.slots[k].value.id) && e != ErrorInd(s.slots[k].value.id)
    ensures |Step(s, e).slots| == |s.slots| && SameCall(Step(s, e).slots[k], s.slots[k])
  {
    if !(e.IncomingInd? || e.EndInd? || e.SetupInd? || e.ErrorInd? || e.DialReq?) {
      StepKeepsCalls(s, e);
    }
  }

  /** A named call stays in its slot until it ends. */
  lemma {:induction false} SlotStays(s: State, events: seq<Event>, k: nat)
    requires |s.slots| == MAX_CALLS && AllCallable(events)
    requires k < MAX_CALLS && s.slots[k].Some? && s.slots[k].value.id != DIALING_ID
    requires forall i :: 0 <= i < |events| ==>
      events[i] != EndInd(s.slots[k].value.id) && events[i] != ErrorInd(s.slots[k].value.id)
    ensures SameCall(Run(s, events).slots[k], s.slots[k])
  {
    if events != [] {
      var before := events[..|events| - 1];
      SlotStays(s, before, k);
      StepKeepsCall(Run(s, before), events[|events| - 1], k);
    }
  }

  /** A hangup by index releases the call in the slot, or fails because a request is pending. */
  lemma {:induction false} HangupReleases(r: State, k: nat, t: Token)
    requires |r.slots| == MAX_CALLS && k < MAX_CALLS && r.slots[k].Some?
    ensures var after := Step(r, HangupReq(t, Some(k + 1)));
            if Pending(r.slots[k]) then after == Complete(r, t, false)
            else Held(after.slots[k], t) == 1
                 && after.sent == r.sent + [Release(r.slots[k].value.callType, r.slots[k].value.id)]
  {
  }

  /** An index reported for a call addresses that call until it ends: a hangup by that index
      releases it, or fails because a request is pending on it. */
  lemma {:induction false} IndexStaysValid(s: State, events: seq<Event>, k: nat, t: Token)
    requires |s.slots| == MAX_CALLS && AllCallable(events)
    requires k < MAX_CALLS && s.slots[k].Some? && s.slots[k].value.id != DIALING_ID
    requires forall i :: 0 <= i < |events| ==>
      events[i] != EndInd(s.slots[k].value.id) && events[i] != ErrorInd(s.slots[k].value.id)
    ensures SameCall(Run(s, events).slots[k], s.slots[k])
    ensures var r := Run(s, events);
            var after := Step(r, HangupReq(t, Some(k + 1)));
            if Pending(r.slots[k]) then after == Complete(r, t, false)
            else Held(after.slots[k], t) == 1
                 && after.sent == r.sent + [Release(s.slots[k].value.callType, s.slots[k].value.id)]
  {
    SlotStays(s, events, k);
    HangupReleases(Run(s, events), k, t);
  }

  /** A reported call is the named call in the slot its index names. */
  lemma {:induction false} ReportedNamed(slots: Slots, n: nat, c: CurrentCall)
    requires n <= |slots| && c in CurrentCalls(slots, n)
    ensures 1 <= c.index <= n && slots[c.index - 1].Some? && slots[c.index - 1].value.id != DIALING_ID
    ensures c == Report(c.index, slots[c.index - 1].value)
  {
    if c in CurrentCalls(slots, n - 1) {
      ReportedNamed(slots, n - 1, c);
    }
  }

  lemma {:induction false} NamedReported(slots: Slots, n: nat, k: nat)
    requires k < n <= |slots| && slots[k].Some? && slots[k].value.id != DIALING_ID
    ensures Report(k + 1, slots[k].value) in CurrentCalls(slots, n)
  {
    if k + 1 < n {
      NamedReported(slots, n - 1, k);
    }
  }

  lemma {:induction false} ReportedOrdered(slots: Slots, n: nat)
    requires n <= |slots|
    ensures var calls := CurrentCalls(slots, n);
            forall i, j :: 0 <= i < j < |calls| ==> calls[i].index < calls[j].index
  {
    if n > 0 {
      ReportedOrdered(slots, n - 1);
      var before, calls := CurrentCalls(slots, n - 1), CurrentCalls(slots, n);
      forall i, j | 0 <= i < j < |calls|
        ensures calls[i].index < calls[j].index
      {
        assert before[i] in before;
        ReportedNamed(slots, n - 1, before[i]);
      }
    }
  }

  /** The named calls, and no others, are reported once each, in slot order, under the number
      of their slot. */
  lemma {:induction false} CallsReported(slots: Slots, c: CurrentCall)
    ensures var calls := CurrentCalls(slots, |slots|);
            && (c in calls <==>
                  && 1 <= c.index <= |slots| && slots[c.index - 1].Some? && slots[c.index - 1].value.id != DIALING_ID
                  && c == Report(c.index, slots[c.index - 1].value))
            && (forall i, j :: 0 <= i < j < |calls| ==> calls[i].index < calls[j].index)
  {
    ReportedOrdered(slots, |slots|);
    if c in CurrentCalls(slots, |slots|) {
      ReportedNamed(slots, |slots|, c);
    }
    if 1 <= c.index <= |slots| && slots[c.index - 1].Some? && slots[c.index - 1].value.id != DIALING_ID {
      NamedReported(slots, |slots|, c.index - 1);
    }
  }

  /** So an index out of the list of calls hangs that call up for as long as it lives. */
  lemma {:induction false} ReportedIndexHangsUp(s: State, events: seq<Event>, c: CurrentCall, t: Token)
    requires |s.slots| == MAX_CALLS && AllCallable(events) && c in CurrentCalls(s.slots, MAX_CALLS)
    requires 1 <= c.index <= MAX_CALLS && s.slots[c.index - 1].Some?
    requires forall i :: 0 <= i < |events| ==>
      events[i] != EndInd(s.slots[c.index - 1].value.id) && events[i] != ErrorInd(s.slots[c.index - 1].value.id)
    ensures var r := Run(s, events);
            && r.slots[c.index - 1].Some?
            && Report(c.index, r.slots[c.index - 1].value).(state := c.state) == c
            && (!Pending(r.slots[c.index - 1]) ==>
                  Step(r, HangupReq(t, Some(c.index))).sent
                  == r.sent + [Release(s.slots[c.index - 1].value.callType, s.slots[c.index - 1].value.id)])
  {
    ReportedNamed(s.slots, MAX_CALLS, c);
    IndexStaysValid(s, events, c.index - 1, t);
  }

  lemma {:induction false} NotFound(slots: Slots, id: nat, k: nat)
    requires Find(slots, id) == |slots| && k < |slots|
    ensures !IsCall(slots[k], id)
  {
  }

  /** A call with an unused identity may be put anywhere. */
  lemma {:induction false} FillDistinct(slots: Slots, k: nat, call: Call)
    requires k < |slots| && Distinct(slots) && Find(slots, call.id) == |slots|
    ensures Distinct(slots[k := Some(call)])
  {
    Unused(slots, call.id);
  }

  lemma {:induction false} SettleDistinct(s: State, k: nat, ok: bool)
    requires k < |s.slots| && s.slots[k].Some? && Distinct(s.slots)
    ensures Distinct(Settle(s, k, ok).slots) && Distinct(Drop(Settle(s, k, ok), k).slots)
  {
  }

  lemma {:induction false} NewKeepsDistinct(s: State, e: Event)
    requires Callable(e, |s.slots|) && Distinct(s.slots) && Fresh(s.slots, e) && (e.IncomingInd? || e.DialReq?)
    ensures Distinct(Step(s, e).slots)
  {
    var k := Free(s.slots);
    if k < |s.slots| {
      match e
      case IncomingInd(id, callType, number) =>
        FillDistinct(s.slots, k, Step(s, e).slots[k].value);
      case DialReq(t, dialed) =>
        if Find(s.slots, DIALING_ID) == |s.slots| && dialed.Some? {
          FillDistinct(s.slots, k, Call(DIALING_ID, 0, false, dialed.value, Dialing, t));
        }
    }
  }

  lemma {:induction false} NamedKeepsDistinct(s: State, id: nat)
    requires Distinct(s.slots) && Fresh(s.slots, SetupInd(id))
    ensures Distinct(Step(s, SetupInd(id)).slots)
  {
    var k := Find(s.slots, DIALING_ID);
    if k < |s.slots| {
      NamingCompletesDial(s, id);
      FillDistinct(s.slots, k, Step(s, SetupInd(id)).slots[k].value);
    }
  }

  lemma {:induction false} EndKeepsDistinct(s: State, e: Event)
    requires Distinct(s.slots) && (e.EndInd? || e.ErrorInd?)
    ensures Distinct(Step(s, e).slots)
  {
    var k := Find(s.slots, e.id);
    if k < |s.slots| {
      SettleDistinct(s, k, e.EndInd?);
    }
  }

  lemma {:induction false} SameDistinct(s: State, r: State)
    requires KeepsCalls(s, r) && Distinct(s.slots)
    ensures Distinct(r.slots)
  {
  }

  lemma {:induction false} StepKeepsDistinct(s: State, e: Event)
    requires Callable(e, |s.slots|) && Distinct(s.slots) && Fresh(s.slots, e)
    ensures Distinct(Step(s, e).slots)
  {
    if e.IncomingInd? || e.DialReq? {
      NewKeepsDistinct(s, e);
    } else if e.EndInd? || e.ErrorInd? {
      EndKeepsDistinct(s, e);
    } else if e.SetupInd? {
      NamedKeepsDistinct(s, e.id);
    } else {
      StepKeepsCalls(s, e);
      SameDistinct(s, Step(s, e));
    }
  }

  lemma {:induction false} Unused(slots: Slots, id: nat)
    requires Find(slots, id) == |slots|
    ensures forall i :: 0 <= i < |slots| && slots[i].Some? ==> slots[i].value.id != id
  {
    forall i | 0 <= i < |slots| && slots[i].Some?
      ensures slots[i].value.id != id
    {
      NotFound(slots, id, i);
    }
  }

  lemma {:induction false} IdsDistinct(events: seq<Event>)
    requires AllCallable(events)
    requires forall i {:trigger events[i]} :: 0 <= i < |events| ==> Fresh(Run(INIT, events[..i]).slots, events[i])
    ensures Distinct(Run(INIT, events).slots)
  {
    if events != [] {
      var before := events[..|events| - 1];
      forall i | 0 <= i < |before|
        ensures Fresh(Run(INIT, before[..i]).slots, before[i])
      {
        assert before[i] == events[i] && before[..i] == events[..i];
      }
      IdsDistinct(before);
      StepKeepsDistinct(Run(INIT, before), events[|events| - 1]);
    }
  }

  /** With identities fresh and distinct, the modem's naming of a dialed call completes the
      dial request and no other. */
  lemma {:induction false} NamingCompletesDial(s: State, id: nat)
    requires Distinct(s.slots) && Fresh(s.slots, SetupInd(id)) && Find(s.slots, DIALING_ID) < |s.slots|
    ensures var k := Find(s.slots, DIALING_ID);
            var call := s.slots[k].value;
            Step(s, SetupInd(id))
            == s.(slots := s.slots[k := Some(call.(id := id, token := NO_TOKEN))],
                  completed := s.completed + if call.token == NO_TOKEN then [] else [Completion(call.token, true)])
  {
    var k := Find(s.slots, DIALING_ID);
    var named := s.slots[k := Some(s.slots[k].value.(id := id))];
    var j := Find(named, id);
    assert IsCall(named[k], id);
    assert j <= k;
    if j < k {
      NotFound(s.slots, id, j);
    }
  }

  // ---------------------------------------------------------------- requests and their replies

  /** What the modem reports on a command, carried out or not. */
  function Reply(c: Command, ok: bool): Event
    requires !c.Setup?
  {
    match c
    case Release(_, id) => if ok then EndInd(id) else ErrorInd(id)
    case AnswerCall(_, id) => if ok then ConnectedInd(id) else ErrorInd(id)
    case Activate(id) => ActivateCnf(id, ok)
    case Hold(id) => HoldCnf(id, ok)
    case Swap(activeId, heldId) => SwapCnf(heldId, activeId, ok)
  }

  predicate InState(slots: Slots, id: nat, state: CallState) {
    var k := Find(slots, id);
    k < |slots| && slots[k].value.state == state
  }

  /** The table shows the command as carried out. */
  predicate CarriedOut(c: Command, slots: Slots) {
    match c
    case Setup(_) => true
    case Release(_, id) => Find(slots, id) == |slots|
    case AnswerCall(_, id) => InState(slots, id, Active)
    case Activate(id) => InState(slots, id, Active)
    case Hold(id) => InState(slots, id, Holding)
    case Swap(activeId, heldId) => InState(slots, activeId, Holding) && InState(slots, heldId, Active)
  }

  /** The command is about the call in slot k, and whoever it is swapped with. */
  predicate About(c: Command, slots: Slots, k: nat)
    requires k < |slots| && slots[k].Some?
  {
    match c
    case Setup(_) => false
    case Release(_, id) => id == slots[k].value.id
    case AnswerCall(_, id) => id == slots[k].value.id
    case Activate(id) => id == slots[k].value.id
    case Hold(id) => id == slots[k].value.id
    case Swap(activeId, heldId) =>
      activeId == slots[k].value.id && heldId != activeId && heldId != DIALING_ID && Find(slots, heldId) < |slots|
  }

  lemma {:induction false} FoundIn(slots: Slots, k: nat)
    requires Distinct(slots) && k < |slots| && slots[k].Some?
    ensures Find(slots, slots[k].value.id) == k
  {
    FindIs(slots, slots[k].value.id, k);
  }

  /** A call changed in place is found where it was, like every other one. */
  lemma {:induction false} FoundAsBefore(slots: Slots, k: nat, call: Call, id: nat)
    requires k < |slots| && slots[k].Some? && call.id == slots[k].value.id
    ensures Find(slots[k := Some(call)], id) == Find(slots, id)
  {
    FindIs(slots[k := Some(call)], id, Find(slots, id));
  }

  lemma {:induction false} EndSettles(r: State, k: nat, ok: bool)
    requires Distinct(r.slots) && k < |r.slots| && Pending(r.slots[k])
    ensures var id := r.slots[k].value.id;
            var q := Step(r, if ok then EndInd(id) else ErrorInd(id));
            q.completed == r.completed + [Completion(r.slots[k].value.token, ok)] && Find(q.slots, id) == |q.slots|
  {
    FoundIn(r.slots, k);
    Gone(r.slots, k);
    var settled := Settle(r, k, ok);
    assert settled.slots[k := None] == r.slots[k := None];
  }

  /** What the handlers for a single call leave, the call being put into a state first. */
  lemma {:induction false} PutSettles(r: State, k: nat, state: CallState, ok: bool)
    requires k < |r.slots| && Pending(r.slots[k])
    ensures var q := Settle(if ok then Put(r, k, state) else r, k, ok);
            && q.completed == r.completed + [Completion(r.slots[k].value.token, ok)]
            && |q.slots| == |r.slots|
            && q.slots == r.slots[k := Some(r.slots[k].value.(state := if ok then state else r.slots[k].value.state, token := NO_TOKEN))]
  {
  }

  lemma {:induction false} StateSettles(r: State, k: nat, c: Command, ok: bool)
    requires Distinct(r.slots) && k < |r.slots| && Pending(r.slots[k]) && About(c, r.slots, k)
    requires c.Activate? || c.Hold? || (c.AnswerCall? && ok)
    ensures var q := Step(r, Reply(c, ok));
            && q.completed == r.completed + [Completion(r.slots[k].value.token, ok)]
            && (ok ==> CarriedOut(c, q.slots))
  {
    FoundIn(r.slots, k);
    var state := if c.Hold? then Holding else Active;
    PutSettles(r, k, state, ok);
    var call := r.slots[k].value;
    FoundAsBefore(r.slots, k, call.(state := state, token := NO_TOKEN), call.id);
  }

  /** The table after a swap: both calls are found where they were. */
  lemma {:induction false} Swapped(slots: Slots, a: nat, k: nat, other: Call, call: Call)
    requires Distinct(slots) && a < |slots| && k < |slots| && a != k && slots[a].Some? && slots[k].Some?
    requires other.id == slots[a].value.id && call.id == slots[k].value.id
    ensures var swapped := slots[a := Some(other)][k := Some(call)];
            Find(swapped, other.id) == a && Find(swapped, call.id) == k
  {
    FoundIn(slots, a);
    FoundIn(slots, k);
    FoundAsBefore(slots, a, other, other.id);
    FoundAsBefore(slots, a, other, call.id);
    FoundAsBefore(slots[a := Some(other)], k, call, other.id);
    FoundAsBefore(slots[a := Some(other)], k, call, call.id);
  }

  lemma {:induction false} SwapSettles(r: State, k: nat, c: Command, ok: bool)
    requires Distinct(r.slots) && k < |r.slots| && Pending(r.slots[k]) && About(c, r.slots, k) && c.Swap?
    ensures var q := Step(r, Reply(c, ok));
            && q.completed == r.completed + [Completion(r.slots[k].value.token, ok)]
            && (ok ==> CarriedOut(c, q.slots))
  {
    FoundIn(r.slots, k);
    var a := Find(r.slots, c.heldId);
    if ok {
      var other := r.slots[a].value.(state := Active);
      PutSettles(Put(r, a, Active), k, Holding, true);
      Swapped(r.slots, a, k, other, r.slots[k].value.(state := Holding, token := NO_TOKEN));
    }
  }

  /** A pending request is completed by the reply on a command about its call. */
  lemma {:induction false} ReplySettles(r: State, k: nat, c: Command, ok: bool)
    requires Distinct(r.slots) && k < |r.slots| && Pending(r.slots[k]) && About(c, r.slots, k)
    ensures Step(r, Reply(c, ok)).completed == r.completed + [Completion(r.slots[k].value.token, ok)]
    ensures ok ==> CarriedOut(c, Step(r, Reply(c, ok)).slots)
  {
    if c.Swap? {
      SwapSettles(r, k, c, ok);
    } else if c.Release? || (c.AnswerCall? && !ok) {
      EndSettles(r, k, ok);
    } else {
      StateSettles(r, k, c, ok);
    }
  }

  lemma {:induction false} Gone(slots: Slots, k: nat)
    requires Distinct(slots) && k < |slots| && slots[k].Some?
    ensures Find(slots[k := None], slots[k].value.id) == |slots|
  {
    FindIs(slots[k := None], slots[k].value.id, |slots|);
  }

  /** From s to r, request t was stored with a call that the last command is about. */
  ghost predicate Stores(s: State, r: State, t: Token, k: nat, commands: seq<Command>) {
    && k < |s.slots| && s.slots[k].Some? && commands != []
    && r == Store(s, k, t, commands) && About(commands[|commands| - 1], s.slots, k)
  }

  ghost predicate StoredOrDone(s: State, r: State, t: Token, k: nat, commands: seq<Command>) {
    || r == Complete(s, t, true) || r == Complete(s, t, false)
    || (Stores(s, r, t, k, commands) && !Pending(s.slots[k]))
  }

  lemma {:induction false} NoAnswer(s: State, t: Token, i: nat)
    requires i <= |s.slots| && forall j :: i <= j < |s.slots| ==> !In(s.slots[j], {Incoming})
    ensures AnswerFrom(s, t, i) == s
    decreases |s.slots| - i
  {
    if i < |s.slots| {
      NoAnswer(s, t, i + 1);
    }
  }

  lemma {:induction false} SingleAnswer(s: State, t: Token, i: nat, f: nat)
    requires i <= f < |s.slots| && In(s.slots[f], {Incoming})
    requires forall j :: i <= j < f ==> !In(s.slots[j], {Incoming})
    requires Pending(s.slots[f]) || forall j :: f < j < |s.slots| ==> !In(s.slots[j], {Incoming})
    ensures AnswerFrom(s, t, i) == if Pending(s.slots[f]) then Complete(s, t, false) else Store(s, f, t, [AnswerOf(s.slots, f)])
    decreases f - i
  {
    if i < f {
      SingleAnswer(s, t, i + 1, f);
    } else if !Pending(s.slots[f]) {
      NoAnswer(Store(s, f, t, [AnswerOf(s.slots, f)]), t, f + 1);
    }
  }

  /** A request that comes in a safe state is completed at once or stored with the call its
      last command is about. */
  lemma {:induction false} RequestStored(s: State, e: Event) returns (k: nat, commands: seq<Command>)
    requires Callable(e, |s.slots|) && Distinct(s.slots) && Safe(s, e) && IsRequest(e) && !e.DialReq?
    ensures StoredOrDone(s, Step(s, e), RequestOf(e), k, commands)
  {
    var n, t := |s.slots|, RequestOf(e);
    k, commands := 0, [];
    match e
    case HangupReq(_, index) =>
      if index.Some? && s.slots[index.value - 1].Some? {
        k, commands := index.value - 1, [ReleaseOf(s.slots, index.value - 1)];
      }
    case AnswerReq(_) =>
      k := FirstIncoming(s.slots);
      SingleAnswer(s, t, 0, k);
      commands := [AnswerOf(s.slots, k)];
    case HangupWaitingReq(_) => k, commands := HangupWaitingStored(s, t);
    case HangupForegroundReq(_) => k, commands := HangupForegroundStored(s, t);
    case SwitchReq(_) => k, commands := SwitchStored(s, t);
  }

  lemma {:induction false} HangupWaitingStored(s: State, t: Token) returns (k: nat, commands: seq<Command>)
    ensures StoredOrDone(s, HangupWaiting(s, t), t, k, commands)
  {
    var n := |s.slots|;
    var active, hold := Last(s.slots, n, Active), Last(s.slots, n, Holding);
    var wait, incoming := Last(s.slots, n, Waiting), Last(s.slots, n, Incoming);
    k, commands := 0, [];
    if !Busy(s.slots, n, {Active, Holding, Waiting, Incoming}) {
      var released :=
        if wait.Some? && (hold.Some? || active.Some?) then wait
        else if active.Some? then active else if hold.Some? then hold else if wait.Some? then wait else incoming;
      if released.Some? {
        k, commands := released.value, [ReleaseOf(s.slots, released.value)];
        NotPending(s.slots, k, {Active, Holding, Waiting, Incoming});
      }
    }
  }

  lemma {:induction false} HangupForegroundStored(s: State, t: Token) returns (k: nat, commands: seq<Command>)
    ensures StoredOrDone(s, HangupForeground(s, t), t, k, commands)
  {
    var n := |s.slots|;
    var active, hold := Last(s.slots, n, Active), Last(s.slots, n, Holding);
    k, commands := 0, [];
    if !Busy(s.slots, n, {Active, Holding}) {
      if active.Some? && hold.Some? {
        k, commands := hold.value, [ReleaseOf(s.slots, active.value), Activate(IdAt(s.slots, hold.value))];
      } else if active.Some? || hold.Some? {
        k := if active.Some? then active.value else hold.value;
        commands := [ReleaseOf(s.slots, k)];
      }
      if active.Some? || hold.Some? {
        NotPending(s.slots, k, {Active, Holding});
      }
    }
  }

  lemma {:induction false} SwitchStored(s: State, t: Token) returns (k: nat, commands: seq<Command>)
    requires Distinct(s.slots) && !WaitingOnly(s.slots)
    ensures StoredOrDone(s, Switch(s, t), t, k, commands)
  {
    var n := |s.slots|;
    var active, hold, wait := Last(s.slots, n, Active), Last(s.slots, n, Holding), Last(s.slots, n, Waiting);
    k, commands := 0, [];
    if !Busy(s.slots, n, {Active, Holding, Waiting}) && (active.Some? || hold.Some?) {
      if active.Some? && hold.Some? {
        k, commands := active.value, [Swap(IdAt(s.slots, active.value), IdAt(s.slots, hold.value))];
        FoundIn(s.slots, hold.value);
      } else if wait.Some? {
        k := wait.value;
        commands := (if active.Some? then [Hold(IdAt(s.slots, active.value))] else []) + [AnswerOf(s.slots, k)];
      } else if active.Some? {
        k, commands := active.value, [Hold(IdAt(s.slots, active.value))];
      } else {
        k, commands := hold.value, [Activate(IdAt(s.slots, hold.value))];
      }
      NotPending(s.slots, k, {Active, Holding, Waiting});
    }
  }

  lemma {:induction false} StoredDistinct(s: State, r: State, t: Token, k: nat, commands: seq<Command>)
    requires Distinct(s.slots) && Stores(s, r, t, k, commands)
    ensures Distinct(r.slots) && k < |r.slots| && r.slots[k].Some? && About(commands[|commands| - 1], r.slots, k)
  {
    var c := commands[|commands| - 1];
    if c.Swap? {
      FoundAsBefore(s.slots, k, s.slots[k].value.(token := t), c.heldId);
    }
  }

  /** The event ends the call, or completes what is pending on it. */
  predicate Settles(e: Event, id: nat) {
    match e
    case EndInd(x) => x == id
    case ErrorInd(x) => x == id
    case ConnectedInd(x) => x == id
    case HoldCnf(x, _) => x == id
    case ActivateCnf(x, _) => x == id
    case SwapCnf(_, heldId, _) => heldId == id
    case SetupInd(_) => id == DIALING_ID
    case _ => false
  }

  /** The call a command is about. */
  function Subject(c: Command): nat {
    match c
    case Setup(_) => DIALING_ID
    case Release(_, id) => id
    case AnswerCall(_, id) => id
    case Activate(id) => id
    case Hold(id) => id
    case Swap(activeId, _) => activeId
  }

  /** The event settles nothing about the command: it does not settle its call, nor end the one
      it is swapped with. */
  predicate Leaves(e: Event, c: Command) {
    !Settles(e, Subject(c)) && (c.Swap? ==> e != EndInd(c.heldId) && e != ErrorInd(c.heldId))
  }

  /** The modem names calls with identities not in use, all along a run. */
  predicate FreshAlong(s: State, events: seq<Event>)
    requires |s.slots| == MAX_CALLS && AllCallable(events)
  {
    events != [] ==>
      && FreshAlong(s, events[..|events| - 1])
      && Fresh(Run(s, events[..|events| - 1]).slots, events[|events| - 1])
  }

  /** The call in slot k has request t pending. */
  predicate Keeps(slots: Slots, k: nat, id: nat, t: Token) {
    k < |slots| && slots[k].Some? && slots[k].value.id == id && slots[k].value.token == t
  }

  lemma {:induction false} AnswerLeaves(s: State, t: Token, i: nat, k: nat)
    requires i <= |s.slots| && k < |s.slots| && Pending(s.slots[k])
    ensures |AnswerFrom(s, t, i).slots| == |s.slots| && AnswerFrom(s, t, i).slots[k] == s.slots[k]
    decreases |s.slots| - i
  {
    if i < |s.slots| {
      if !In(s.slots[i], {Incoming}) {
        AnswerLeaves(s, t, i + 1, k);
      } else if !Pending(s.slots[i]) {
        AnswerLeaves(Store(s, i, t, [AnswerOf(s.slots, i)]), t, i + 1, k);
      }
    }
  }

  /** No request takes the place of a pending one. */
  lemma {:induction false} RequestLeaves(s: State, e: Event, k: nat)
    requires Callable(e, |s.slots|) && Distinct(s.slots) && IsRequest(e) && k < |s.slots| && Pending(s.slots[k])
    ensures |Step(s, e).slots| == |s.slots| && Step(s, e).slots[k] == s.slots[k]
  {
    match e
    case DialReq(_, _) =>
    case HangupReq(_, _) =>
    case HangupWaitingReq(t) => var j, commands := HangupWaitingStored(s, t);
    case HangupForegroundReq(t) => var j, commands := HangupForegroundStored(s, t);
    case AnswerReq(t) => AnswerLeaves(s, t, 0, k);
    case SwitchReq(t) =>
      if !WaitingOnly(s.slots) {
        var j, commands := SwitchStored(s, t);
      }
  }

  lemma {:induction false} ComeAndGoLeave(s: State, e: Event, k: nat)
    requires (e.IncomingInd? || e.EndInd? || e.ErrorInd?) && k < |s.slots| && s.slots[k].Some?
    requires !Settles(e, s.slots[k].value.id)
    ensures |Step(s, e).slots| == |s.slots| && Step(s, e).slots[k] == s.slots[k]
  {
  }

  lemma {:induction false} ReportLeaves(s: State, e: Event, k: nat)
    requires e.AlertInd? || e.ConnectedInd? || e.HoldCnf? || e.ActivateCnf? || e.SwapCnf?
    requires k < |s.slots| && s.slots[k].Some? && !Settles(e, s.slots[k].value.id)
    ensures |Step(s, e).slots| == |s.slots|
    ensures Keeps(Step(s, e).slots, k, s.slots[k].value.id, s.slots[k].value.token)
  {
  }

  /** A pending request stays where it is until its call is settled. */
  lemma {:induction false} TokenStays(s: State, e: Event, k: nat, id: nat, t: Token)
    requires Callable(e, |s.slots|) && Distinct(s.slots) && Fresh(s.slots, e)
    requires Keeps(s.slots, k, id, t) && t != NO_TOKEN && !Settles(e, id)
    ensures Keeps(Step(s, e).slots, k, id, t)
  {
    if IsRequest(e) {
      RequestLeaves(s, e, k);
    } else if e.SetupInd? {
      NamingLeaves(s, e.id, k);
    } else if e.IncomingInd? || e.EndInd? || e.ErrorInd? {
      ComeAndGoLeave(s, e, k);
    } else {
      ReportLeaves(s, e, k);
    }
  }

  lemma {:induction false} NamingLeaves(s: State, id: nat, k: nat)
    requires Distinct(s.slots) && Fresh(s.slots, SetupInd(id))
    requires k < |s.slots| && s.slots[k].Some? && s.slots[k].value.id != DIALING_ID
    ensures |Step(s, SetupInd(id)).slots| == |s.slots| && Step(s, SetupInd(id)).slots[k] == s.slots[k]
  {
    if Find(s.slots, DIALING_ID) < |s.slots| {
      NamingCompletesDial(s, id);
    }
  }

  lemma {:induction false} PartnerStays(s: State, e: Event, id: nat)
    requires Callable(e, |s.slots|) && Distinct(s.slots) && Fresh(s.slots, e)
    requires id != DIALING_ID && Find(s.slots, id) < |s.slots| && e != EndInd(id) && e != ErrorInd(id)
    ensures Find(Step(s, e).slots, id) < |Step(s, e).slots|
  {
    var a := Find(s.slots, id);
    StepKeepsCall(s, e, a);
    StepKeepsDistinct(s, e);
    FoundIn(Step(s, e).slots, a);
  }

  /** Over a run that leaves the command, the request and its call stay, and so does the command's
      meaning. */
  lemma {:induction false} RequestStays(r: State, events: seq<Event>, k: nat, c: Command, t: Token)
    requires |r.slots| == MAX_CALLS && AllCallable(events) && Distinct(r.slots) && FreshAlong(r, events)
    requires Keeps(r.slots, k, Subject(c), t) && t != NO_TOKEN && About(c, r.slots, k)
    requires forall i :: 0 <= i < |events| ==> Leaves(events[i], c)
    ensures var m := Run(r, events);
            Distinct(m.slots) && Keeps(m.slots, k, Subject(c), t) && About(c, m.slots, k)
  {
    if events != [] {
      var before, e := events[..|events| - 1], events[|events| - 1];
      RequestStays(r, before, k, c, t);
      var m := Run(r, before);
      StepKeepsDistinct(m, e);
      TokenStays(m, e, k, Subject(c), t);
      if c.Swap? {
        PartnerStays(m, e, c.heldId);
      }
    }
  }

  /** The last command sent. */
  function LastCommand(s: State): Command
    requires s.sent != []
  {
    s.sent[|s.sent| - 1]
  }

  /** Requests and replies fit: a request that made the modem a command stays pending with one
      call through any run that leaves its last command, the reply on its first one included;
      the modem's reply on the last command then completes it, and no other one, with success if
      that was carried out; and then the table shows it so. */
  lemma {:induction false} ReplyCompletesRequest(s: State, e: Event, events: seq<Event>, ok: bool) returns (k: nat)
    requires |s.slots| == MAX_CALLS && Callable(e, MAX_CALLS) && Distinct(s.slots)
    requires Safe(s, e) && IsRequest(e) && !e.DialReq? && RequestOf(e) != NO_TOKEN
    requires |Step(s, e).sent| > |s.sent| && |Step(s, e).slots| == MAX_CALLS
    requires AllCallable(events) && FreshAlong(Step(s, e), events)
    requires forall i :: 0 <= i < |events| ==> Leaves(events[i], LastCommand(Step(s, e)))
    ensures !LastCommand(Step(s, e)).Setup?
    ensures var c, m := LastCommand(Step(s, e)), Run(Step(s, e), events);
            var q := Step(m, Reply(c, ok));
            && Keeps(m.slots, k, Subject(c), RequestOf(e))
            && q.completed == m.completed + [Completion(RequestOf(e), ok)]
            && (ok ==> CarriedOut(c, q.slots))
  {
    var commands;
    k, commands := RequestStored(s, e);
    var r := Step(s, e);
    StoredDistinct(s, r, RequestOf(e), k, commands);
    var c := commands[|commands| - 1];
    assert LastCommand(r) == c;
    RequestStays(r, events, k, c, RequestOf(e));
    ReplySettles(Run(r, events), k, c, ok);
  }

  lemma {:induction false} OneCommand(s: State, e: Event)
    requires Callable(e, |s.slots|) && Safe(s, e) && (e.HangupReq? || e.HangupWaitingReq? || e.AnswerReq?)
    ensures |Step(s, e).sent| <= |s.sent| + 1
  {
    if e.AnswerReq? {
      var f := FirstIncoming(s.slots);
      SingleAnswer(s, e.t, 0, f);
    }
  }

  /** The first of two commands is about another call, which has nothing pending. */
  lemma {:induction false} TwoCommands(s: State, e: Event) returns (f: nat)
    requires Callable(e, |s.slots|) && Distinct(s.slots) && Safe(s, e) && IsRequest(e) && !e.DialReq?
    requires |Step(s, e).sent| == |s.sent| + 2
    ensures var r := Step(s, e); var first, c := r.sent[|s.sent|], r.sent[|s.sent| + 1];
            && (first.Release? || first.Hold?) && (c.Activate? || c.AnswerCall?)
            && f < |s.slots| == |r.slots| && s.slots[f].Some? && !Pending(s.slots[f]) && r.slots[f] == s.slots[f]
            && Subject(first) == s.slots[f].value.id && Subject(first) != Subject(c) && Subject(c) != DIALING_ID
            && r.completed == s.completed
  {
    if e.HangupReq? || e.HangupWaitingReq? || e.AnswerReq? {
      OneCommand(s, e);
      assert false;
    }
    f := Last(s.slots, |s.slots|, Active).value;
    NotPending(s.slots, f, if e.SwitchReq? then {Active, Holding, Waiting} else {Active, Holding});
  }

  lemma {:induction false} FirstReplyQuiet(r: State, f: nat, c: Command, ok: bool)
    requires Distinct(r.slots) && f < |r.slots| && r.slots[f].Some? && !Pending(r.slots[f])
    requires (c.Release? || c.Hold?) && Subject(c) == r.slots[f].value.id
    ensures Step(r, Reply(c, ok)).completed == r.completed
  {
    FoundIn(r.slots, f);
  }

  /** The order the two-command requests really run in: the modem replies on the first command,
      which completes nothing, and then on the last, which completes the request. */
  lemma {:induction false} BothReplies(s: State, e: Event, first: bool, last: bool)
    requires |s.slots| == MAX_CALLS && Callable(e, MAX_CALLS) && Distinct(s.slots)
    requires Safe(s, e) && IsRequest(e) && !e.DialReq? && RequestOf(e) != NO_TOKEN
    requires |Step(s, e).sent| == |s.sent| + 2
    ensures var r := Step(s, e); var a, b := r.sent[|s.sent|], r.sent[|s.sent| + 1];
            && !a.Setup? && !b.Setup?
            && Step(Step(r, Reply(a, first)), Reply(b, last)).completed == s.completed + [Completion(RequestOf(e), last)]
  {
    var r := Step(s, e);
    var f := TwoCommands(s, e);
    StepKeepsDistinct(s, e);
    var a := r.sent[|s.sent|];
    FirstReplyQuiet(r, f, a, first);
    var events := [Reply(a, first)];
    RunOne(r, events[0]);
    var k := ReplyCompletesRequest(s, e, events, last);
  }

  lemma {:induction false} RunOne(s: State, e: Event)
    requires |s.slots| == MAX_CALLS && Callable(e, MAX_CALLS)
    ensures AllCallable([e]) && Run(s, [e]) == Step(s, e) && (Fresh(s.slots, e) ==> FreshAlong(s, [e]))
  {
    assert [e][..0] == [];
  }
}
