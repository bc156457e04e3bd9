/** The call table (mocha-ril/call.c): six slots, a state and a pending request for each call. */
module Calls {
  import opened Options

  type Token = nat

  const NO_TOKEN: Token := 0
  const MAX_CALLS: nat := 6
  /** The identity of a call the modem has not named yet. */
  const DIALING_ID: nat := 0xFF

  datatype CallState = Active | Holding | Dialing | Alerting | Incoming | Waiting

  // ---------------------------------------------------------------- the table as a value

  datatype Call = Call(id: nat, callType: nat, mt: bool, number: string, state: CallState, token: Token)

  type Slots = seq<Option<Call>>

  datatype Completion = Completion(t: Token, ok: bool)

  datatype Command =
    | Setup(number: string)
    | Release(callType: nat, id: nat)
    | AnswerCall(callType: nat, id: nat)
    | Activate(id: nat)
    | Hold(id: nat)
    | Swap(activeId: nat, heldId: nat)

  datatype State = State(slots: Slots, completed: seq<Completion>, sent: seq<Command>)

  datatype Event =
    // from the modem
    | IncomingInd(id: nat, callType: nat, number: string)
    | EndInd(id: nat)
    | SetupInd(id: nat)
    | AlertInd(id: nat)
    | ConnectedInd(id: nat)
    | HoldCnf(id: nat, ok: bool)
    | SwapCnf(activatedId: nat, heldId: nat, ok: bool)
    | ActivateCnf(id: nat, ok: bool)
    | ErrorInd(id: nat)
    // requests
    | DialReq(t: Token, dialed: Option<string>)
    | HangupReq(t: Token, index: Option<int>)
    | HangupWaitingReq(t: Token)
    | HangupForegroundReq(t: Token)
    | AnswerReq(t: Token)
    | SwitchReq(t: Token)

  predicate IsCall(slot: Option<Call>, id: nat) {
    slot.Some? && slot.value.id == id
  }

  /** `find_ril_call_context`: the first slot with the identity, or |slots|. */
  function Find(slots: Slots, id: nat): (k: nat)
    ensures k <= |slots| && (k < |slots| ==> IsCall(slots[k], id))
    ensures forall i :: 0 <= i < k ==> !IsCall(slots[i], id)
  {
    if slots == [] || IsCall(slots[0], id) then 0 else 1 + Find(slots[1..], id)
  }

  /** `new_ril_call_context`: the first free slot, or |slots|. */
  function Free(slots: Slots): (k: nat)
    ensures k <= |slots| && (k < |slots| ==> slots[k].None?)
    ensures forall i :: 0 <= i < k ==> slots[i].Some?
  {
    if slots == [] || slots[0].None? then 0 else 1 + Free(slots[1..])
  }

  /** A named call in one of the given states. */
  predicate In(slot: Option<Call>, states: set<CallState>) {
    slot.Some? && slot.value.id != DIALING_ID && slot.value.state in states
  }

  /** Among the first n slots, the last named call in the state. */
  function Last(slots: Slots, n: nat, state: CallState): (k: Option<nat>)
    requires n <= |slots|
    ensures k.Some? ==> k.value < n && In(slots[k.value], {state})
    ensures k.None? ==> forall i :: 0 <= i < n ==> !In(slots[i], {state})
  {
    if n == 0 then None
    else if In(slots[n - 1], {state}) then Some(n - 1)
    else Last(slots, n - 1, state)
  }

  predicate Pending(slot: Option<Call>) {
    slot.Some? && slot.value.token != NO_TOKEN
  }

  /** One of the first n slots holds a call in the states with a request pending. */
  predicate Busy(slots: Slots, n: nat, states: set<CallState>)
    requires n <= |slots|
  {
    exists i :: 0 <= i < n && In(slots[i], states) && Pending(slots[i])
  }

  /** What `ril_request_get_current_calls` tells about a call. */
  datatype CurrentCall = CurrentCall(index: nat, state: CallState, mt: bool, number: string, toa: nat)

  /** The named calls among the first n slots, in the order of their slots. */
  function CurrentCalls(slots: Slots, n: nat): (calls: seq<CurrentCall>)
    requires n <= |slots|
    ensures |calls| <= n
  {
    if n == 0 then []
    else
      CurrentCalls(slots, n - 1)
      + if slots[n - 1].None? || slots[n - 1].value.id == DIALING_ID then [] else [Report(n, slots[n - 1].value)]
  }

  function Report(index: nat, call: Call): CurrentCall {
    CurrentCall(index, call.state, call.mt, call.number, if call.number != "" && call.number[0] == '+' then 145 else 129)
  }

  function Complete(s: State, t: Token, ok: bool): State {
    s.(completed := s.completed + [Completion(t, ok)])
  }

  /** Completes the request pending for slot k, if any. */
  function Settle(s: State, k: nat, ok: bool): State
    requires k < |s.slots| && s.slots[k].Some?
  {
    if Pending(s.slots[k]) then
      Complete(s.(slots := s.slots[k := Some(s.slots[k].value.(token := NO_TOKEN))]), s.slots[k].value.token, ok)
    else s
  }

  function Put(s: State, k: nat, state: CallState): State
    requires k < |s.slots| && s.slots[k].Some?
  {
    s.(slots := s.slots[k := Some(s.slots[k].value.(state := state))])
  }

  function Drop(s: State, k: nat): State
    requires k < |s.slots|
  {
    s.(slots := s.slots[k := None])
  }

  /** Stores the request with slot k and sends the commands. */
  function Store(s: State, k: nat, t: Token, commands: seq<Command>): State
    requires k < |s.slots| && s.slots[k].Some?
  {
    s.(slots := s.slots[k := Some(s.slots[k].value.(token := t))], sent := s.sent + commands)
  }

  /** The command that ends, or answers, the call in slot k. */
  function ReleaseOf(slots: Slots, k: nat): Command
    requires k < |slots| && slots[k].Some?
  {
    Release(slots[k].value.callType, slots[k].value.id)
  }

  function AnswerOf(slots: Slots, k: nat): Command
    requires k < |slots| && slots[k].Some?
  {
    AnswerCall(slots[k].value.callType, slots[k].value.id)
  }

  function IdAt(slots: Slots, k: nat): nat
    requires k < |slots| && slots[k].Some?
  {
    slots[k].value.id
  }

  /** `ril_request_answer` from slot i on. */
  function AnswerFrom(s: State, t: Token, i: nat): State
    requires i <= |s.slots|
    decreases |s.slots| - i
  {
    if i == |s.slots| then s
    else if !In(s.slots[i], {Incoming}) then AnswerFrom(s, t, i + 1)
    else if Pending(s.slots[i]) then Complete(s, t, false)
    else AnswerFrom(Store(s, i, t, [AnswerOf(s.slots, i)]), t, i + 1)
  }

  function HangupWaiting(s: State, t: Token): State {
    var n := |s.slots|;
    var active, hold := Last(s.slots, n, Active), Last(s.slots, n, Holding);
    var wait, incoming := Last(s.slots, n, Waiting), Last(s.slots, n, Incoming);
    if Busy(s.slots, n, {Active, Holding, Waiting, Incoming}) then Complete(s, t, false)
    else if wait.Some? && hold.Some? then Store(s, wait.value, t, [ReleaseOf(s.slots, wait.value)])
    else if wait.Some? && active.Some? then Store(s, wait.value, t, [ReleaseOf(s.slots, wait.value)])
    else if active.Some? then Store(s, active.value, t, [ReleaseOf(s.slots, active.value)])
    else if hold.Some? then Store(s, hold.value, t, [ReleaseOf(s.slots, hold.value)])
    else if wait.Some? then Store(s, wait.value, t, [ReleaseOf(s.slots, wait.value)])
    else if incoming.Some? then Store(s, incoming.value, t, [ReleaseOf(s.slots, incoming.value)])
    else Complete(s, t, true)
  }

  function HangupForeground(s: State, t: Token): State {
    var n := |s.slots|;
    var active, hold := Last(s.slots, n, Active), Last(s.slots, n, Holding);
    if Busy(s.slots, n, {Active, Holding}) then Complete(s, t, false)
    else if active.Some? && hold.Some? then
      Store(s, hold.value, t, [ReleaseOf(s.slots, active.value), Activate(IdAt(s.slots, hold.value))])
    else if active.Some? then Store(s, active.value, t, [ReleaseOf(s.slots, active.value)])
    else if hold.Some? then Store(s, hold.value, t, [ReleaseOf(s.slots, hold.value)])
    else Complete(s, t, true)
  }

  function Switch(s: State, t: Token): State {
    var n := |s.slots|;
    var active, hold, wait := Last(s.slots, n, Active), Last(s.slots, n, Holding), Last(s.slots, n, Waiting);
    if Busy(s.slots, n, {Active, Holding, Waiting}) then Complete(s, t, false)
    else if active.Some? && hold.Some? then
      Store(s, active.value, t, [Swap(IdAt(s.slots, active.value), IdAt(s.slots, hold.value))])
    else if active.Some? && wait.Some? then
      Store(s, wait.value, t, [Hold(IdAt(s.slots, active.value)), AnswerOf(s.slots, wait.value)])
    else if hold.Some? && wait.Some? then Store(s, wait.value, t, [AnswerOf(s.slots, wait.value)])
    else if active.Some? then Store(s, active.value, t, [Hold(IdAt(s.slots, active.value))])
    else if hold.Some? then Store(s, hold.value, t, [Activate(IdAt(s.slots, hold.value))])
    else if wait.None? then Complete(s, t, true)
    else s
  }

  /** What a request asks of its caller: an index reported by the table. */
  predicate Callable(e: Event, n: nat) {
    e.HangupReq? && e.index.Some? ==> 1 <= e.index.value <= n
  }

  function Step(s: State, e: Event): State
    requires Callable(e, |s.slots|)
  {
    var n := |s.slots|;
    match e
    case IncomingInd(id, callType, number) =>
      var k := Free(s.slots);
      var second := exists i :: 0 <= i < n && In(s.slots[i], {Active, Holding});
      if k == n then s
      else s.(slots := s.slots[k := Some(Call(id, callType, true, number, if second then Waiting else Incoming, NO_TOKEN))])
    case EndInd(id) =>
      var k := Find(s.slots, id);
      if k == n then s else Drop(Settle(s, k, true), k)
    case SetupInd(id) =>
      var k := Find(s.slots, DIALING_ID);
      if k == n then s
      else
        var named := s.(slots := s.slots[k := Some(s.slots[k].value.(id := id))]);
        var j := Find(named.slots, id);
        if j == n then named else Settle(named, j, true)
    case AlertInd(id) =>
      var k := Find(s.slots, id);
      if k == n then s else Put(s, k, Alerting)
    case ConnectedInd(id) =>
      var k := Find(s.slots, id);
      if k == n then s else Settle(Put(s, k, Active), k, true)
    case HoldCnf(id, ok) =>
      var k := Find(s.slots, id);
      if k == n then s else Settle(if ok then Put(s, k, Holding) else s, k, ok)
    case SwapCnf(activatedId, heldId, ok) =>
      var a, h := Find(s.slots, activatedId), Find(s.slots, heldId);
      if a == n || h == n || !Pending(s.slots[h]) then s
      else Settle(if ok then Put(Put(s, a, Active), h, Holding) else s, h, ok)
    case ActivateCnf(id, ok) =>
      var k := Find(s.slots, id);
      if k == n || !Pending(s.slots[k]) then s else Settle(if ok then Put(s, k, Active) else s, k, ok)
    case ErrorInd(id) =>
      var k := Find(s.slots, id);
      if k == n then s else Drop(Settle(s, k, false), k)
    case DialReq(t, dialed) =>
      var k := Free(s.slots);
      if Find(s.slots, DIALING_ID) < n || dialed.None? || k == n then Complete(s, t, false)
      else s.(slots := s.slots[k := Some(Call(DIALING_ID, 0, false, dialed.value, Dialing, t))],
              sent := s.sent + [Setup(dialed.value)])
    case HangupReq(t, index) =>
      if index.None? || s.slots[index.value - 1].None? || Pending(s.slots[index.value - 1]) then Complete(s, t, false)
      else Store(s, index.value - 1, t, [ReleaseOf(s.slots, index.value - 1)])
    case HangupWaitingReq(t) => HangupWaiting(s, t)
    case HangupForegroundReq(t) => HangupForeground(s, t)
    case AnswerReq(t) => AnswerFrom(s, t, 0)
    case SwitchReq(t) => Switch(s, t)
  }

  const INIT := State([None, None, None, None, None, None], [], [])

  // ---------------------------------------------------------------- the table as it is

  class CallContext {
    var id: nat
    var callType: nat
    var mt: bool
    var number: string
    var state: CallState
    var token: Token

    constructor (id: nat, callType: nat, mt: bool, number: string, state: CallState)
      ensures Value() == Call(id, callType, mt, number, state, NO_TOKEN)
    {
      this.id, this.callType, this.mt, this.number, this.state, this.token := id, callType, mt, number, state, NO_TOKEN;
    }

    function Value(): Call
      reads this
    {
      Call(id, callType, mt, number, state, token)
    }

    /** A named call in one of the states. */
    predicate Matches(states: set<CallState>)
      reads this
    {
      id != DIALING_ID && state in states
    }
  }

  class CallTable {
    const calls: array<CallContext?>
    /** Requests completed, and commands handed to the modem. */
    var completed: seq<Completion>
    var sent: seq<Command>

    ghost function Contexts(): set<CallContext>
      reads calls
    {
      set i | 0 <= i < calls.Length && calls[i] != null :: calls[i]
    }

    ghost predicate Valid()
      reads calls
    {
      && calls.Length == MAX_CALLS
      && forall i, j :: 0 <= i < j < calls.Length && calls[i] != null ==> calls[i] != calls[j]
    }

    ghost function Slots(): (s: Slots)
      reads calls, Contexts()
      ensures |s| == calls.Length
    {
      seq(calls.Length, i requires 0 <= i < calls.Length reads calls, Contexts() =>
        if calls[i] == null then None else Some(calls[i].Value()))
    }

    ghost function Model(): State
      reads this, calls, Contexts()
    {
      State(Slots(), completed, sent)
    }

    constructor ()
      ensures Valid() && Model() == INIT && fresh(calls)
    {
      calls := new CallContext?[MAX_CALLS](_ => null);
      completed, sent := [], [];
    }

    method CompleteRequest(t: Token, ok: bool)
      modifies this`completed
      ensures completed == old(completed) + [Completion(t, ok)]
    {
      completed := completed + [Completion(t, ok)];
    }

    /** `find_ril_call_context`. */
    method FindContext(id: nat) returns (context: CallContext?)
      requires Valid()
      ensures var k := Find(Slots(), id);
              if k == MAX_CALLS then context == null else context != null && calls[k] == context
      ensures Slots() == old(Slots())
    {
      for i := 0 to MAX_CALLS
        invariant forall j :: 0 <= j < i ==> !IsCall(Slots()[j], id)
      {
        if calls[i] != null && calls[i].id == id {
          FindIs(Slots(), id, i);
          return calls[i];
        }
      }
      FindIs(Slots(), id, MAX_CALLS);
      return null;
    }

    /** Completes the request pending on the context, if any. */
    method SettleContext(context: CallContext, ok: bool, ghost k: nat)
      requires Valid() && k < MAX_CALLS && calls[k] == context
      modifies this`completed, context`token
      ensures Model() == Settle(old(Model()), k, ok)
    {
      if context.token != NO_TOKEN {
        CompleteRequest(context.token, ok);
        context.token := NO_TOKEN;
      }
    }

    /** `release_ril_call_context`. */
    method ReleaseContext(context: CallContext, ghost k: nat)
      requires Valid() && k < MAX_CALLS && calls[k] == context
      modifies calls
      ensures Valid() && Slots() == old(Slots())[k := None]
    {
      for i := 0 to MAX_CALLS
        invariant i <= k && calls[..] == old(calls[..])
      {
        if calls[i] == context {
          calls[i] := null;
          return;
        }
      }
    }

    /** `new_ril_call_context`, filled in. */
    method NewContext(id: nat, callType: nat, mt: bool, number: string, state: CallState)
        returns (context: CallContext?, ghost k: nat)
      requires Valid()
      modifies calls
      ensures Valid() && k == Free(old(Slots()))
      ensures context == null <==> k == MAX_CALLS
      ensures context == null ==> Slots() == old(Slots())
      ensures context != null ==> fresh(context) && calls[k] == context
      ensures context != null ==> context.Value() == Call(id, callType, mt, number, state, NO_TOKEN)
      ensures context != null ==> Slots() == old(Slots())[k := Some(context.Value())]
    {
      for i := 0 to MAX_CALLS
        invariant calls[..] == old(calls[..])
        invariant forall j :: 0 <= j < i ==> Slots()[j].Some?
      {
        if calls[i] == null {
          FreeIs(Slots(), i);
          context := new CallContext(id, callType, mt, number, state);
          calls[i] := context;
          k := i;
          return;
        }
      }
      FreeIs(Slots(), MAX_CALLS);
      context, k := null, MAX_CALLS;
    }

    /** `ipc_call_incoming`. */
    method ReceiveIncoming(id: nat, callType: nat, number: string)
      requires Valid()
      modifies calls
      ensures Valid() && Model() == Step(old(Model()), IncomingInd(id, callType, number))
    {
      var state := Incoming;
      for i := 0 to MAX_CALLS
        invariant state == Incoming && forall j :: 0 <= j < i ==> !In(Slots()[j], {Active, Holding})
      {
        if calls[i] != null && calls[i].Matches({Active, Holding}) {
          assert In(Slots()[i], {Active, Holding});
          state := Waiting;
          break;
        }
      }
      var context, k := NewContext(id, callType, true, number, state);
    }

    /** `ipc_call_end` (success) and `ipc_call_error` (failure). */
    method EndCall(id: nat, ok: bool)
      requires Valid()
      modifies this, calls, Contexts()
      ensures Valid() && Model() == Step(old(Model()), if ok then EndInd(id) else ErrorInd(id))
    {
      var context := FindContext(id);
      if context == null {
        return;
      }
      ghost var k := Find(Slots(), id);
      SettleContext(context, ok, k);
      ReleaseContext(context, k);
    }

    /** `ipc_call_setup_ind`. */
    method ReceiveSetup(id: nat)
      requires Valid()
      modifies this, Contexts()
      ensures Valid() && Model() == Step(old(Model()), SetupInd(id))
    {
      var context := FindContext(DIALING_ID);
      if context == null {
        return;
      }
      ghost var k := Find(Slots(), DIALING_ID);
      context.id := id;
      assert Slots() == old(Slots())[k := Some(old(context.Value()).(id := id))];
      ghost var named := Model();
      assert IsCall(named.slots[k], id);
      context := FindContext(id);
      assert Model() == named;
      SettleContext(context, true, Find(named.slots, id));
    }

    /** Sets the state of the call in slot k. */
    method PutState(context: CallContext, state: CallState, ghost k: nat)
      requires Valid() && k < MAX_CALLS && calls[k] == context
      modifies context`state
      ensures Model() == Put(old(Model()), k, state)
    {
      context.state := state;
    }

    /** `ipc_call_alert`. */
    method ReceiveAlert(id: nat)
      requires Valid()
      modifies Contexts()
      ensures Valid() && Model() == Step(old(Model()), AlertInd(id))
    {
      var context := FindContext(id);
      if context != null {
        PutState(context, Alerting, Find(Slots(), id));
      }
    }

    /** `ipc_call_connected`. */
    method ReceiveConnected(id: nat)
      requires Valid()
      modifies this, Contexts()
      ensures Valid() && Model() == Step(old(Model()), ConnectedInd(id))
    {
      var context := FindContext(id);
      if context != null {
        ghost var k := Find(Slots(), id);
        PutState(context, Active, k);
        SettleContext(context, true, k);
      }
    }

    /** `ipc_call_hold`. */
    method ReceiveHold(id: nat, ok: bool)
      requires Valid()
      modifies this, Contexts()
      ensures Valid() && Model() == Step(old(Model()), HoldCnf(id, ok))
    {
      var context := FindContext(id);
      if context == null {
        return;
      }
      ghost var k := Find(Slots(), id);
      if ok {
        PutState(context, Holding, k);
      }
      SettleContext(context, ok, k);
    }

    /** `ipc_call_swap`. */
    method ReceiveSwap(activatedId: nat, heldId: nat, ok: bool)
      requires Valid()
      modifies this, Contexts()
      ensures Valid() && Model() == Step(old(Model()), SwapCnf(activatedId, heldId, ok))
    {
      var activated := FindContext(activatedId);
      var held := FindContext(heldId);
      if activated == null || held == null {
        return;
      }
      ghost var a, h := Find(Slots(), activatedId), Find(Slots(), heldId);
      if held.token != NO_TOKEN {
        if ok {
          PutState(activated, Active, a);
          PutState(held, Holding, h);
        }
        SettleContext(held, ok, h);
      }
    }

    /** `ipc_call_activate`. */
    method ReceiveActivate(id: nat, ok: bool)
      requires Valid()
      modifies this, Contexts()
      ensures Valid() && Model() == Step(old(Model()), ActivateCnf(id, ok))
    {
      var context := FindContext(id);
      if context != null && context.token != NO_TOKEN {
        ghost var k := Find(Slots(), id);
        if ok {
          PutState(context, Active, k);
        }
        SettleContext(context, ok, k);
      }
    }

    /** Stores a request with the call in slot k and sends the commands. */
    method StoreRequest(context: CallContext, t: Token, commands: seq<Command>, ghost k: nat)
      requires Valid() && k < MAX_CALLS && calls[k] == context
      modifies this`sent, context`token
      ensures Model() == Store(old(Model()), k, t, commands)
    {
      context.token := t;
      sent := sent + commands;
    }

    /** `ril_request_dial`. */
    method Dial(t: Token, dialed: Option<string>)
      requires Valid()
      modifies this, calls
      ensures Valid() && Model() == Step(old(Model()), DialReq(t, dialed))
    {
      ghost var s := Model();
      var dialing := FindContext(DIALING_ID);
      if dialing != null || dialed == None {
        CompleteRequest(t, false);
        return;
      }
      assert Find(s.slots, DIALING_ID) == |s.slots|;
      var context, k := NewContext(DIALING_ID, 0, false, dialed.value, Dialing);
      if context == null {
        assert Model() == s;
        CompleteRequest(t, false);
        assert Model() == Complete(s, t, false);
        return;
      }
      // the C code's check for a request pending on the new context never fails
      assert context.token == NO_TOKEN;
      StoreRequest(context, t, [Setup(dialed.value)], k);
      var call := Call(DIALING_ID, 0, false, dialed.value, Dialing, t);
      assert Model() == s.(slots := s.slots[k := Some(call)], sent := s.sent + [Setup(dialed.value)]);
    }

    /** `ril_request_get_current_calls`. */
    method GetCurrentCalls(t: Token) returns (current: seq<CurrentCall>)
      requires Valid()
      modifies this`completed
      ensures Model() == Complete(old(Model()), t, true)
      ensures current == CurrentCalls(Slots(), MAX_CALLS)
    {
      current := [];
      for i := 0 to MAX_CALLS
        invariant current == CurrentCalls(Slots(), i)
      {
        var context := calls[i];
        if context == null || context.id == DIALING_ID {
          continue;
        }
        current := current + [Report(i + 1, context.Value())];
      }
      CompleteRequest(t, true);
    }

    /** `ril_request_hangup`; not ok where the C code reads outside the table. */
    method Hangup(t: Token, index: Option<int>) returns (ok: bool)
      requires Valid()
      modifies this, Contexts()
      ensures Valid() && (ok <==> Callable(HangupReq(t, index), MAX_CALLS))
      ensures Model() == if ok then Step(old(Model()), HangupReq(t, index)) else old(Model())
    {
      if index == None {
        CompleteRequest(t, false);
        return true;
      }
      if index.value < 1 || index.value > MAX_CALLS {
        return false;
      }
      var context := calls[index.value - 1];
      if context == null || context.token != NO_TOKEN {
        CompleteRequest(t, false);
        return true;
      }
      StoreRequest(context, t, [Release(context.callType, context.id)], index.value - 1);
      return true;
    }

    ghost predicate IsLast(context: CallContext?, n: nat, state: CallState)
      reads calls, Contexts()
      requires Valid() && n <= MAX_CALLS
    {
      var k := Last(Slots(), n, state);
      context == if k == None then null else calls[k.value]
    }

    lemma {:induction false} ScanStep(context: CallContext?, i: nat, state: CallState)
      requires Valid() && i < MAX_CALLS && IsLast(context, i, state)
      ensures IsLast(if In(Slots()[i], {state}) then calls[i] else context, i + 1, state)
    {
    }

    lemma {:induction false} ScanBusy(i: nat, states: set<CallState>)
      requires Valid() && i < MAX_CALLS && !Busy(Slots(), i, states)
      ensures Busy(Slots(), i + 1, states) <==> In(Slots()[i], states) && Pending(Slots()[i])
    {
    }

    /** The scan of the compound requests: the last named call in each of the states, until
        one of them has a request pending. */
    method Scan(states: set<CallState>)
        returns (busy: bool, active: CallContext?, hold: CallContext?, wait: CallContext?, incoming: CallContext?)
      requires Valid()
      ensures busy == Busy(Slots(), MAX_CALLS, states)
      ensures !busy && Active in states ==> IsLast(active, MAX_CALLS, Active)
      ensures !busy && Holding in states ==> IsLast(hold, MAX_CALLS, Holding)
      ensures !busy && Waiting in states ==> IsLast(wait, MAX_CALLS, Waiting)
      ensures !busy && Incoming in states ==> IsLast(incoming, MAX_CALLS, Incoming)
    {
      busy, active, hold, wait, incoming := false, null, null, null, null;
      for i := 0 to MAX_CALLS
        invariant !busy && !Busy(Slots(), i, states)
        invariant Active in states ==> IsLast(active, i, Active)
        invariant Holding in states ==> IsLast(hold, i, Holding)
        invariant Waiting in states ==> IsLast(wait, i, Waiting)
        invariant Incoming in states ==> IsLast(incoming, i, Incoming)
      {
        if Active in states { ScanStep(active, i, Active); }
        if Holding in states { ScanStep(hold, i, Holding); }
        if Waiting in states { ScanStep(wait, i, Waiting); }
        if Incoming in states { ScanStep(incoming, i, Incoming); }
        ScanBusy(i, states);
        var context := calls[i];
        if context != null && context.Matches(states) {
          if context.token != NO_TOKEN {
            busy := true;
            return;
          }
          active := if context.state == Active then context else active;
          hold := if context.state == Holding then context else hold;
          wait := if context.state == Waiting then context else wait;
          incoming := if context.state == Incoming then context else incoming;
        }
      }
    }

    /** `ril_request_hangup_waiting_or_background`. */
    method HangupWaitingOrBackground(t: Token)
      requires Valid()
      modifies this, Contexts()
      ensures Valid() && Model() == Step(old(Model()), HangupWaitingReq(t))
    {
      var busy, active, hold, wait, incoming := Scan({Active, Holding, Waiting, Incoming});
      if busy {
        CompleteRequest(t, false);
        return;
      }
      var context: CallContext? := null;
      if wait != null && hold != null {
        context := wait;
      } else if wait != null && active != null {
        context := wait;
      } else if active != null {
        context := active;
      } else if hold != null {
        context := hold;
      } else if wait != null {
        context := wait;
      } else if incoming != null {
        context := incoming;
      } else {
        CompleteRequest(t, true);
        return;
      }
      ghost var k :| 0 <= k < MAX_CALLS && calls[k] == context;
      StoreRequest(context, t, [Release(context.callType, context.id)], k);
    }

    /** `ril_request_hangup_foreground_resume_background`. */
    method HangupForegroundResumeBackground(t: Token)
      requires Valid()
      modifies this, Contexts()
      ensures Valid() && Model() == Step(old(Model()), HangupForegroundReq(t))
    {
      var busy, active, hold, _, _ := Scan({Active, Holding});
      if busy {
        CompleteRequest(t, false);
      } else if active != null && hold != null {
        StoreRequest(hold, t, [Release(active.callType, active.id), Activate(hold.id)], Last(Slots(), MAX_CALLS, Holding).value);
      } else if active != null {
        StoreRequest(active, t, [Release(active.callType, active.id)], Last(Slots(), MAX_CALLS, Active).value);
      } else if hold != null {
        StoreRequest(hold, t, [Release(hold.callType, hold.id)], Last(Slots(), MAX_CALLS, Holding).value);
      } else {
        CompleteRequest(t, true);
      }
    }

    /** `ril_request_answer`: every incoming call gets the request. */
    method Answer(t: Token)
      requires Valid()
      modifies this, Contexts()
      ensures Valid() && Model() == Step(old(Model()), AnswerReq(t))
    {
      for i := 0 to MAX_CALLS
        invariant Valid() && Contexts() == old(Contexts())
        invariant AnswerFrom(Model(), t, i) == AnswerFrom(old(Model()), t, 0)
      {
        var context := calls[i];
        if context != null && context.Matches({Incoming}) {
          if context.token != NO_TOKEN {
            CompleteRequest(t, false);
            return;
          }
          StoreRequest(context, t, [AnswerCall(context.callType, context.id)], i);
        }
      }
    }

    /** `ril_request_switch_waiting_or_holding_and_active`. */
    method SwitchWaitingOrHoldingAndActive(t: Token)
      requires Valid()
      modifies this, Contexts()
      ensures Valid() && Model() == Step(old(Model()), SwitchReq(t))
    {
      var busy, active, hold, wait, _ := Scan({Active, Holding, Waiting});
      if busy {
        CompleteRequest(t, false);
      } else if active != null && hold != null {
        StoreRequest(active, t, [Swap(active.id, hold.id)], Last(Slots(), MAX_CALLS, Active).value);
      } else if active != null && wait != null {
        StoreRequest(wait, t, [Hold(active.id), AnswerCall(wait.callType, wait.id)], Last(Slots(), MAX_CALLS, Waiting).value);
      } else if hold != null && wait != null {
        StoreRequest(wait, t, [AnswerCall(wait.callType, wait.id)], Last(Slots(), MAX_CALLS, Waiting).value);
      } else if active != null {
        StoreRequest(active, t, [Hold(active.id)], Last(Slots(), MAX_CALLS, Active).value);
      } else if hold != null {
        StoreRequest(hold, t, [Activate(hold.id)], Last(Slots(), MAX_CALLS, Holding).value);
      } else if wait == null {
        CompleteRequest(t, true);
      }
    }
  }

  lemma {:induction false} FindIs(slots: Slots, id: nat, k: nat)
    requires k <= |slots| && (k < |slots| ==> IsCall(slots[k], id))
    requires forall i :: 0 <= i < k ==> !IsCall(slots[i], id)
    ensures Find(slots, id) == k
  {
    if k > 0 {
      FindIs(slots[1..], id, k - 1);
    }
  }

  lemma {:induction false} FreeIs(slots: Slots, k: nat)
    requires k <= |slots| && (k < |slots| ==> slots[k].None?)
    requires forall i :: 0 <= i < k ==> slots[i].Some?
    ensures Free(slots) == k
  {
    if k > 0 {
      FreeIs(slots[1..], k - 1);
    }
  }
}
