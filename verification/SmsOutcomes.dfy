/** What becomes of the messages that were to be sent (mocha-ril/sms.c), told by the events alone:
    the service centre each is given, which requests are refused, and with what result each ends. */
module SmsOutcomes {
  import opened Options
  import opened Octets
  import Hex
  import Numbers
  import Sms
  import SmsForward
  import opened SmsQueue

  // ---------------------------------------------------------------- history

  /** The service centre address in the first record of the SIM that holds one. */
  function FirstCentre(events: seq<Event>): (centre: Option<seq<octet>>)
    ensures centre.Some? ==> centre.value != []
  {
    if events == [] then None
    else
      var known := FirstCentre(events[..|events| - 1]);
      match events[|events| - 1]
      case SmscRead(record) => if known.None? && HoldsCentre(record) then Some(CentreIn(record)) else known
      case _ => known
  }

  /** As text; empty as long as there is none. */
  function FirstNumber(events: seq<Event>): Hex.CString {
    match FirstCentre(events)
    case None => ""
    case Some(centre) => Hex.HexText(centre)
  }

  /** What a record holds: an address whose first octet counts the others, 15 octets from its end. */
  lemma {:induction false} CentreHeld(record: seq<octet>, centre: seq<octet>)
    requires |record| >= 15 && 0 < |centre| <= 15 && centre[0] as int == |centre| - 1 && centre <= record[|record| - 15..]
    ensures HoldsCentre(record) && CentreIn(record) == centre
  {
    assert record[|record| - 15..][0] == centre[0];
    assert record[|record| - 15..][..|centre|] == centre;
  }

  /** The request names no message, or there is no service centre to send it to: the request has an
      empty one, or none while none was read. */
  predicate Unusable(before: seq<Event>, e: Event) {
    e.Arrival?
    && (e.pdu == None || e.pdu == Some("") || e.smsc == Some("") || (e.smsc == None && FirstCentre(before) == None))
  }

  /** The octets of the message and of its own service centre; of the one read first, if it has none. */
  predicate Carries(m: Message, before: seq<Event>, e: Event) {
    e.Arrival? && e.pdu.Some? && m.token == e.t && m.pdu == Hex.HexData(e.pdu.value)
    && match e.smsc
       case Some(own) => m.smsc == Hex.HexData(own)
       case None => FirstCentre(before) == Some(m.smsc)
  }

  /** The refusals, in order. */
  function Refusals(events: seq<Event>): seq<Completion> {
    if events == [] then []
    else
      var before, e := events[..|events| - 1], events[|events| - 1];
      Refusals(before) + if Unusable(before, e) then [Rejected(e.t)] else []
  }

  /** The result an event reports, if any. */
  function ResultIn(e: Event): seq<Result> {
    if e.Status? then [if e.ok then Success else GenericFailure] else []
  }

  /** What the modem reported, in order. */
  function ReportedResults(events: seq<Event>): (results: seq<Result>)
    ensures |results| == Statuses(events)
  {
    if events == [] then []
    else
      var e := events[|events| - 1];
      ReportedResults(events[..|events| - 1]) + ResultIn(e)
  }

  /** The messages that are too large, in order. */
  function Large(messages: seq<Message>): seq<Message> {
    if messages == [] then []
    else
      var m := messages[|messages| - 1];
      Large(messages[..|messages| - 1]) + if TooLarge(m) then [m] else []
  }

  // ---------------------------------------------------------------- kinds of completions

  datatype Kind = Refusal | Retry | Report

  function KindOf(c: Completion): Kind {
    match c
    case Rejected(_) => Refusal
    case Finished(_, FailRetry) => Retry
    case Finished(_, _) => Report
  }

  /** The completions of the kind, in order. */
  function Only(completed: seq<Completion>, kind: Kind): seq<Completion> {
    if completed == [] then []
    else
      var c := completed[|completed| - 1];
      Only(completed[..|completed| - 1], kind) + if KindOf(c) == kind then [c] else []
  }

  function Results(completed: seq<Completion>): (r: seq<Result>)
    ensures |r| == |completed|
  {
    seq(|completed|, i requires 0 <= i < |completed| => if completed[i].Finished? then completed[i].result else FailRetry)
  }

  /** Each message completed with the advice to try again. */
  function Retries(messages: seq<Message>): (c: seq<Completion>)
    ensures |c| == |messages|
  {
    seq(|messages|, i requires 0 <= i < |messages| => Finished(messages[i].token, FailRetry))
  }

  lemma {:induction false} OnlyOne(completed: seq<Completion>, c: Completion, kind: Kind)
    ensures Only(completed + [c], kind) == Only(completed, kind) + if KindOf(c) == kind then [c] else []
  {
    assert (completed + [c])[..|completed|] == completed;
  }

  // ---------------------------------------------------------------- one event

  /** The accounts of a state: the number, and the completions of each kind. */
  ghost predicate Accounts(s: State, number: Hex.CString, refusals: seq<Completion>, large: seq<Message>, results: seq<Result>) {
    && s.smscNumber == number
    && Only(s.completed, Refusal) == refusals
    && Only(s.completed, Retry) == Retries(large)
    && Results(Only(s.completed, Report)) == results
  }

  /** The messages taken off the list and found too large. */
  function Skipped(list: seq<Message>): seq<Message> {
    if list == [] || !TooLarge(list[0]) then [] else [list[0]] + Skipped(list[1..])
  }

  lemma {:induction false} RetryAdded(s: State, number: Hex.CString, refusals: seq<Completion>, large: seq<Message>,
                                      results: seq<Result>, m: Message)
    requires Accounts(s, number, refusals, large, results)
    ensures Accounts(s.(completed := s.completed + [Finished(m.token, FailRetry)]), number, refusals, large + [m], results)
  {
    var c := Finished(m.token, FailRetry);
    OnlyOne(s.completed, c, Refusal);
    OnlyOne(s.completed, c, Retry);
    OnlyOne(s.completed, c, Report);
    assert Retries(large + [m]) == Retries(large) + [c];
    assert Only(s.completed, Refusal) + [] == Only(s.completed, Refusal);
    assert Only(s.completed, Report) + [] == Only(s.completed, Report);
  }

  /** Taking messages off the list changes the accounts by those that are skipped. */
  lemma {:induction false} NextAccounts(s: State, number: Hex.CString, refusals: seq<Completion>, large: seq<Message>,
                                        results: seq<Result>)
    requires Accounts(s, number, refusals, large, results)
    ensures Accounts(Next(s), number, refusals, large + Skipped(s.list), results)
    decreases |s.list|
  {
    if s.list != [] && TooLarge(s.list[0]) {
      var m := s.list[0];
      RetryAdded(s, number, refusals, large, results, m);
      var failed := s.(token := m.token, list := s.list[1..], completed := s.completed + [Finished(m.token, FailRetry)]);
      NextAccounts(failed, number, refusals, large + [m], results);
      assert large + [m] + Skipped(s.list[1..]) == large + Skipped(s.list);
    } else {
      assert large + [] == large;
    }
  }

  lemma {:induction false} LargeConcat(a: seq<Message>, b: seq<Message>)
    ensures Large(a + b) == Large(a) + Large(b)
  {
    if b == [] {
      assert a + b == a;
    } else {
      var n := |b| - 1;
      assert (a + b)[..|a| + n] == a + b[..n];
      LargeConcat(a, b[..n]);
    }
  }

  lemma {:induction false} LargeOne(m: Message)
    ensures Large([m]) == if TooLarge(m) then [m] else []
  {
    assert [m][..0] == [];
  }

  /** Of the messages taken off the list, those that are too large are those skipped. */
  lemma {:induction false} TakenLarge(s: State)
    ensures |Next(s).list| <= |s.list| && Next(s).list == s.list[|s.list| - |Next(s).list|..]
    ensures Large(s.list[..|s.list| - |Next(s).list|]) == Skipped(s.list)
    decreases |s.list|
  {
    if s.list != [] {
      var m, rest := s.list[0], s.list[1..];
      LargeOne(m);
      if TooLarge(m) {
        var failed := s.(token := m.token, list := rest, completed := s.completed + [Finished(m.token, FailRetry)]);
        TakenLarge(failed);
        assert Next(s) == Submit(s.(token := m.token, list := rest), m) == Next(failed);
        var taken := rest[..|rest| - |Next(failed).list|];
        assert s.list[..|s.list| - |Next(s).list|] == [m] + taken;
        LargeConcat([m], taken);
      } else {
        assert s.list[..1] == [m];
      }
    }
  }

  lemma {:induction false} Advanced(accepted: seq<Message>, n: nat, list: seq<Message>, taken: nat)
    requires n <= |accepted| && list == accepted[n..] && taken <= |list|
    ensures list[taken..] == accepted[n + taken..]
    ensures Large(accepted[..n + taken]) == Large(accepted[..n]) + Large(list[..taken])
  {
    assert accepted[..n + taken] == accepted[..n] + list[..taken];
    LargeConcat(accepted[..n], list[..taken]);
  }

  /** The accounts with the skipped messages told by those that were accepted. */
  ghost predicate Told(s: State, accepted: seq<Message>, number: Hex.CString, refusals: seq<Completion>, results: seq<Result>) {
    && |s.list| <= |accepted| && s.list == accepted[Started(s, accepted)..]
    && Accounts(s, number, refusals, Large(accepted[..Started(s, accepted)]), results)
  }

  lemma {:induction false} NextStarted(s: State, accepted: seq<Message>)
    requires |s.list| <= |accepted| && s.list == accepted[Started(s, accepted)..]
    ensures |Next(s).list| <= |accepted| && Next(s).list == accepted[Started(Next(s), accepted)..]
    ensures Large(accepted[..Started(Next(s), accepted)]) == Large(accepted[..Started(s, accepted)]) + Skipped(s.list)
  {
    TakenLarge(s);
    Advanced(accepted, Started(s, accepted), s.list, |s.list| - |Next(s).list|);
  }

  lemma {:induction false} NextTold(s: State, accepted: seq<Message>, number: Hex.CString, refusals: seq<Completion>,
                                    results: seq<Result>)
    requires Told(s, accepted, number, refusals, results)
    ensures Told(Next(s), accepted, number, refusals, results)
  {
    NextAccounts(s, number, refusals, Large(accepted[..Started(s, accepted)]), results);
    NextStarted(s, accepted);
  }

  lemma {:induction false} RefusalTold(s: State, accepted: seq<Message>, number: Hex.CString, refusals: seq<Completion>,
                                       results: seq<Result>, t: Token)
    requires Told(s, accepted, number, refusals, results)
    ensures Told(s.(completed := s.completed + [Rejected(t)]), accepted, number, refusals + [Rejected(t)], results)
  {
    var c := Rejected(t);
    OnlyOne(s.completed, c, Refusal);
    OnlyOne(s.completed, c, Retry);
    OnlyOne(s.completed, c, Report);
    assert Only(s.completed, Retry) + [] == Only(s.completed, Retry);
    assert Only(s.completed, Report) + [] == Only(s.completed, Report);
  }

  lemma {:induction false} ResultsMore(completed: seq<Completion>, c: Completion)
    requires c.Finished?
    ensures Results(completed + [c]) == Results(completed) + [c.result]
  {
  }

  lemma {:induction false} ReportTold(s: State, accepted: seq<Message>, number: Hex.CString, refusals: seq<Completion>,
                                      results: seq<Result>, c: Completion)
    requires Told(s, accepted, number, refusals, results) && KindOf(c) == Report
    ensures Told(s.(completed := s.completed + [c]), accepted, number, refusals, results + [c.result])
  {
    OnlyOne(s.completed, c, Refusal);
    OnlyOne(s.completed, c, Retry);
    OnlyOne(s.completed, c, Report);
    assert Only(s.completed, Retry) + [] == Only(s.completed, Retry);
    assert Only(s.completed, Refusal) + [] == Only(s.completed, Refusal);
    ResultsMore(Only(s.completed, Report), c);
  }

  lemma {:induction false} ListedTold(s: State, accepted: seq<Message>, number: Hex.CString, refusals: seq<Completion>,
                                      results: seq<Result>, m: Message)
    requires Told(s, accepted, number, refusals, results)
    ensures Told(s.(list := s.list + [m]), accepted + [m], number, refusals, results)
  {
    var n, more := Started(s, accepted), accepted + [m];
    assert more[..n] == accepted[..n];
    assert more[n..] == accepted[n..] + [m];
  }

  lemma {:induction false} ArrivalTold(s: State, accepted: seq<Message>, number: Hex.CString, refusals: seq<Completion>,
                                       results: seq<Result>, e: Event)
    requires Told(s, accepted, number, refusals, results) && e.Arrival? && (s.token == TOKEN_NULL ==> s.list == [])
    ensures Told(Step(s, e), accepted + Admitted(s, e), number,
              refusals + if Malformed(s.smscNumber, e.smsc, e.pdu) then [Rejected(e.t)] else [], results)
  {
    assert accepted + [] == accepted && refusals + [] == refusals && results + [] == results;
    if Malformed(s.smscNumber, e.smsc, e.pdu) {
      RefusalTold(s, accepted, number, refusals, results, e.t);
      NextTold(s.(completed := s.completed + [Rejected(e.t)]), accepted, number, refusals + [Rejected(e.t)], results);
    } else {
      var m := Decoded(s.smscNumber, e.t, e.smsc, e.pdu.value);
      ListedTold(s, accepted, number, refusals, results, m);
      if s.token == TOKEN_NULL {
        assert s.list + [m] == [m] && [m][1..] == [];
        NextTold(s.(list := [m]), accepted + [m], number, refusals, results);
        assert Next(s.(list := [m])) == Submit(s.(token := e.t), m);
      }
    }
  }

  lemma {:induction false} StatusTold(s: State, accepted: seq<Message>, number: Hex.CString, refusals: seq<Completion>,
                                      results: seq<Result>, ok: bool)
    requires Told(s, accepted, number, refusals, results)
    ensures Told(Step(s, Status(ok)), accepted, number, refusals, results + [if ok then Success else GenericFailure])
  {
    var c := Finished(s.token, if ok then Success else GenericFailure);
    ReportTold(s, accepted, number, refusals, results, c);
    NextTold(s.(completed := s.completed + [c]), accepted, number, refusals, results + [c.result]);
  }

  // ---------------------------------------------------------------- whole runs

  /** The messages that entered the queue, by history alone: of every request that is usable, its
      own octets. */
  ghost predicate Wanted(messages: seq<Message>, events: seq<Event>) {
    if events == [] then messages == []
    else
      var before, e := events[..|events| - 1], events[|events| - 1];
      if e.Arrival? && !Unusable(before, e) then
        messages != [] && Carries(messages[|messages| - 1], before, e) && Wanted(messages[..|messages| - 1], before)
      else Wanted(messages, before)
  }

  lemma {:induction false} UnusableIs(before: seq<Event>, e: Event)
    requires e.Arrival?
    ensures Malformed(FirstNumber(before), e.smsc, e.pdu) <==> Unusable(before, e)
  {
    NumberIs(before);
  }

  lemma {:induction false} NumberIs(events: seq<Event>)
    ensures FirstNumber(events) == "" <==> FirstCentre(events) == None
  {
    if FirstCentre(events).Some? {
      assert |FirstNumber(events)| == 2 * |FirstCentre(events).value|;
    }
  }

  /** The history one event later. */
  lemma {:induction false} HistoryStep(before: seq<Event>, e: Event, events: seq<Event>)
    requires events != [] && before == events[..|events| - 1] && e == events[|events| - 1]
    ensures Run(events) == Step(Run(before), e) && Accepted(events) == Accepted(before) + Admitted(Run(before), e)
    ensures FirstNumber(events)
            == if FirstCentre(before) == None && e.SmscRead? && HoldsCentre(e.record) then Hex.HexText(CentreIn(e.record))
               else FirstNumber(before)
    ensures Refusals(events) == Refusals(before) + if Unusable(before, e) then [Rejected(e.t)] else []
    ensures ReportedResults(events) == ReportedResults(before) + ResultIn(e)
  {
  }

  /** The accounts are told by the history. */
  ghost predicate ToldBy(s: State, accepted: seq<Message>, events: seq<Event>) {
    Told(s, accepted, FirstNumber(events), Refusals(events), ReportedResults(events))
  }

  lemma {:induction false} OutcomesStep(before: seq<Event>, e: Event, events: seq<Event>)
    requires GoodEvents(before) && events != [] && before == events[..|events| - 1] && e == events[|events| - 1]
    requires ToldBy(Run(before), Accepted(before), before)
    ensures ToldBy(Run(events), Accepted(events), events)
  {
    var s, accepted := Run(before), Accepted(before);
    HistoryStep(before, e, events);
    if e.Arrival? {
      FifoExactlyOnce(before);
      UnusableIs(before, e);
      ArrivalTold(s, accepted, FirstNumber(before), Refusals(before), ReportedResults(before), e);
      assert ReportedResults(before) + [] == ReportedResults(before);
    } else {
      assert accepted + [] == accepted && Refusals(before) + [] == Refusals(before);
      if e.Status? {
        StatusTold(s, accepted, FirstNumber(before), Refusals(before), ReportedResults(before), e.ok);
      } else {
        NumberIs(before);
        assert ReportedResults(before) + [] == ReportedResults(before);
      }
    }
  }

  lemma {:induction false} WantedStep(before: seq<Event>, e: Event, events: seq<Event>)
    requires events != [] && before == events[..|events| - 1] && e == events[|events| - 1]
    requires Run(before).smscNumber == FirstNumber(before) && Wanted(Accepted(before), before)
    ensures Wanted(Accepted(events), events)
  {
    HistoryStep(before, e, events);
    var accepted := Accepted(before);
    if e.Arrival? && !Unusable(before, e) {
      UnusableIs(before, e);
      var m := Decoded(FirstNumber(before), e.t, e.smsc, e.pdu.value);
      assert (accepted + [m])[..|accepted|] == accepted;
      if e.smsc == None {
        Hex.DataRoundTrip(FirstCentre(before).value);
      }
      assert Carries(m, before, e);
    } else {
      if e.Arrival? {
        UnusableIs(before, e);
      }
      assert accepted + [] == accepted;
    }
  }

  lemma {:induction false} AllTold(events: seq<Event>)
    requires GoodEvents(events)
    ensures ToldBy(Run(events), Accepted(events), events) && Wanted(Accepted(events), events)
  {
    if events != [] {
      var before, e := events[..|events| - 1], events[|events| - 1];
      AllTold(before);
      OutcomesStep(before, e, events);
      WantedStep(before, e, events);
    }
  }

  /** Over every run, from the events alone: the number known is the one read first; the messages
      accepted are the usable requests, each with its own service centre or else the one read
      first; exactly the unusable ones are refused, in order; exactly the started ones that are too
      large end with the advice to try again, in order; the results passed on are those the modem
      reported, in order. */
  lemma {:induction false} OutcomesToldByHistory(events: seq<Event>)
    requires GoodEvents(events)
    ensures var s, accepted := Run(events), Accepted(events);
            && s.smscNumber == FirstNumber(events)
            && Wanted(accepted, events)
            && Only(s.completed, Refusal) == Refusals(events)
            && |s.list| <= |accepted| && Only(s.completed, Retry) == Retries(Large(accepted[..|accepted| - |s.list|]))
            && Results(Only(s.completed, Report)) == ReportedResults(events)
  {
    AllTold(events);
  }

  /** The limit on a message: two octets of it count as one. */
  lemma {:induction false} SizeLimit(m: Message)
    ensures TooLarge(m) <==> m.pdu == [] || m.smsc == [] || |m.pdu| + 2 * |m.smsc| >= 510
  {
  }

  // ---------------------------------------------------------------- reports and their messages

  /** What was reported on the messages handed over, each with its own token. */
  function Reports(sent: seq<Message>, results: seq<Result>): (c: seq<Completion>)
    requires |results| <= |sent|
    ensures |c| == |results|
  {
    seq(|results|, i requires 0 <= i < |results| => Finished(sent[i].token, results[i]))
  }

  /** The message in flight is the last one handed over. */
  predicate LastInFlight(s: State) {
    s.token != TOKEN_NULL ==> s.sent != [] && s.sent[|s.sent| - 1].token == s.token
  }

  lemma {:induction false} NextReports(s: State)
    ensures LastInFlight(Next(s)) && s.sent <= Next(s).sent
    ensures Only(Next(s).completed, Report) == Only(s.completed, Report)
    decreases |s.list|
  {
    if s.list != [] && TooLarge(s.list[0]) {
      var m := s.list[0];
      var c := Finished(m.token, FailRetry);
      OnlyOne(s.completed, c, Report);
      assert Only(s.completed, Report) + [] == Only(s.completed, Report);
      var failed := s.(token := m.token, list := s.list[1..], completed := s.completed + [c]);
      NextReports(failed);
      assert Next(s) == Submit(s.(token := m.token, list := s.list[1..]), m) == Next(failed);
    }
  }

  lemma {:induction false} ArrivalReports(s: State, e: Event)
    requires e.Arrival? && LastInFlight(s) && (s.token == TOKEN_NULL ==> s.list == [])
    ensures LastInFlight(Step(s, e)) && s.sent <= Step(s, e).sent
    ensures Only(Step(s, e).completed, Report) == Only(s.completed, Report)
  {
    if Malformed(s.smscNumber, e.smsc, e.pdu) {
      OnlyOne(s.completed, Rejected(e.t), Report);
      assert Only(s.completed, Report) + [] == Only(s.completed, Report);
      NextReports(s.(completed := s.completed + [Rejected(e.t)]));
    } else if s.token == TOKEN_NULL {
      var m := Decoded(s.smscNumber, e.t, e.smsc, e.pdu.value);
      assert [m][1..] == [];
      NextReports(s.(list := [m]));
      assert Next(s.(list := [m])) == Submit(s.(token := e.t), m);
    }
  }

  lemma {:induction false} StatusReports(s: State, ok: bool)
    ensures var result := if ok then Success else GenericFailure;
            && LastInFlight(Step(s, Status(ok))) && s.sent <= Step(s, Status(ok)).sent
            && Only(Step(s, Status(ok)).completed, Report) == Only(s.completed, Report) + [Finished(s.token, result)]
  {
    var c := Finished(s.token, if ok then Success else GenericFailure);
    OnlyOne(s.completed, c, Report);
    NextReports(s.(completed := s.completed + [c]));
  }

  /** The reports so far fit the messages handed over. */
  ghost predicate Fits(s: State, results: seq<Result>) {
    LastInFlight(s) && |results| <= |s.sent| && Only(s.completed, Report) == Reports(s.sent, results)
  }

  lemma {:induction false} MoreSent(sent: seq<Message>, more: seq<Message>, results: seq<Result>)
    requires sent <= more && |results| <= |sent|
    ensures Reports(more, results) == Reports(sent, results)
  {
  }

  lemma {:induction false} FitsArrival(s: State, e: Event, results: seq<Result>)
    requires e.Arrival? && Fits(s, results) && (s.token == TOKEN_NULL ==> s.list == [])
    ensures Fits(Step(s, e), results)
  {
    ArrivalReports(s, e);
    MoreSent(s.sent, Step(s, e).sent, results);
  }

  lemma {:induction false} FitsStatus(s: State, ok: bool, results: seq<Result>)
    requires Fits(s, results) && s.token != TOKEN_NULL && |s.sent| == |results| + 1
    ensures Fits(Step(s, Status(ok)), results + [if ok then Success else GenericFailure])
  {
    StatusReports(s, ok);
    var more := results + [if ok then Success else GenericFailure];
    assert Reports(s.sent, more) == Reports(s.sent, results) + [Finished(s.token, more[|results|])];
    MoreSent(s.sent, Step(s, Status(ok)).sent, more);
  }

  lemma {:induction false} FitsStep(s: State, e: Event, results: seq<Result>)
    requires Fits(s, results) && (s.token == TOKEN_NULL ==> s.list == [])
    requires e.Status? ==> s.token != TOKEN_NULL && |s.sent| == |results| + 1
    ensures Fits(Step(s, e), results + ResultIn(e))
  {
    assert results + [] == results;
    if e.Arrival? {
      FitsArrival(s, e, results);
    } else if e.Status? {
      FitsStatus(s, e.ok, results);
    }
  }

  lemma {:induction false} ReportsFit(events: seq<Event>)
    requires GoodEvents(events) && Reported(events) && Lost(events) == 0
    ensures Fits(Run(events), ReportedResults(events))
  {
    if events != [] {
      var before := events[..|events| - 1];
      ReportsFit(before);
      FifoExactlyOnce(before);
      OneInFlight(before);
      FitsStep(Run(before), events[|events| - 1], ReportedResults(before));
      HistoryStep(before, events[|events| - 1], events);
    }
  }

  /** As long as nothing was lost, the modem's nth report completes the nth message handed over,
      with its own token and with the result reported. */
  lemma {:induction false} ReportsCompleteTheirMessages(events: seq<Event>)
    requires GoodEvents(events) && Reported(events) && Lost(events) == 0
    ensures var s, results := Run(events), ReportedResults(events);
            |results| <= |s.sent| && Only(s.completed, Report) == Reports(s.sent, results)
  {
    ReportsFit(events);
  }

  /** A message without a service centre of its own goes to the number on the SIM. */
  lemma {:induction false} SimCentreSent(m: Message, before: seq<Event>, e: Event, number: Hex.CString, toa: octet)
    requires Numbers.AllDigits(number) && |number| <= SmsForward.CENTRE_SIZE
    requires FirstCentre(before) == Some(Hex.HexData(SmsForward.CentreText(number, toa)))
    requires Carries(m, before, e) && e.smsc == None && Sms.ParseSubmit(m.pdu, m.smsc).Sent?
    ensures var sent := Sms.ParseSubmit(m.pdu, m.smsc).message;
            sent.smsc == number && (sent.internationalSmsc <==> toa == 0x91)
  {
    SmsForward.CentreSent(m.pdu, number, toa);
  }
}
