/** What SIM I/O requests (mocha-ril/sim.c) do to the files of a SIM: the packets act on records
    and on files without records; the requests are told by their own arguments. */
module SimFiles {
  import opened Options
  import opened Octets
  import Hex
  import opened SimIo
  import SimExchange

  // ---------------------------------------------------------------- the SIM

  datatype Place = Place(fileId: int, index: int)

  /** Records by file and number; files without records as one sequence of octets. */
  datatype Sim = Sim(records: map<Place, seq<octet>>, binaries: map<int, seq<octet>>)

  /** The octets from an offset on are others, and nothing else. */
  predicate IsPatched(file: seq<octet>, offset: nat, data: seq<octet>, r: seq<octet>) {
    && |r| == |file| && offset + |data| <= |r| && r[offset..offset + |data|] == data
    && forall i :: 0 <= i < |file| && !(offset <= i < offset + |data|) ==> r[i] == file[i]
  }

  function Patched(file: seq<octet>, offset: nat, data: seq<octet>): (r: seq<octet>)
    requires offset + |data| <= |file|
    ensures IsPatched(file, offset, data, r)
  {
    file[..offset] + data + file[offset + |data|..]
  }

  /** A record takes octets that fill it; a file without records takes those that fit. */
  function Act(sim: Sim, p: Packet): Sim {
    match p
    case UpdateFile(f, true, i, data) =>
      if Place(f, i) in sim.records && |sim.records[Place(f, i)]| == |data| then
        sim.(records := sim.records[Place(f, i) := data])
      else sim
    case UpdateFile(f, false, i, data) =>
      if f in sim.binaries && i + |data| <= |sim.binaries[f]| then
        sim.(binaries := sim.binaries[f := Patched(sim.binaries[f], i, data)])
      else sim
    case _ => sim
  }

  function ActAll(sim: Sim, packets: seq<Packet>): Sim {
    if packets == [] then sim else Act(ActAll(sim, packets[..|packets| - 1]), packets[|packets| - 1])
  }

  /** The octets a packet reads: the first ones of a record, or those from an offset on. */
  function Contents(sim: Sim, p: Packet): Option<seq<octet>> {
    match p
    case ReadFile(f, true, i, size) =>
      if Place(f, i) in sim.records && size <= |sim.records[Place(f, i)]| then Some(sim.records[Place(f, i)][..size]) else None
    case ReadFile(f, false, i, size) =>
      if f in sim.binaries && i + size <= |sim.binaries[f]| then Some(sim.binaries[f][i..i + size]) else None
    case _ => None
  }

  /** Record k is the first from the given one on that begins with the pattern, which has the given
      size. */
  predicate Finds(sim: Sim, p: Packet, k: int) {
    p.SearchRecord? && |p.data| == p.recordSize && FirstWith(sim, p.fileId, p.recordIndex, k, p.data)
  }

  predicate Begins(sim: Sim, file: int, k: int, data: seq<octet>) {
    Place(file, k) in sim.records && data <= sim.records[Place(file, k)]
  }

  predicate FirstWith(sim: Sim, file: int, from: int, k: int, data: seq<octet>) {
    from <= k && Begins(sim, file, k, data) && forall j :: from <= j < k ==> !Begins(sim, file, j, data)
  }

  // ---------------------------------------------------------------- requests

  /** The text writes the octets, in letters of either case. */
  predicate Writes(text: Hex.CString, data: seq<octet>) {
    Hex.LowerText(text) == Hex.HexText(data)
  }

  /** The arguments name the file and the record, or offset, in the widths of the packet. */
  predicate Names(a: Args, command: int, file: u16, index: u32) {
    a.command == command && a.fileid % 0x1_0000 == file && a.p1 % 0x1_0000_0000 == index
  }

  /** The SIM once the request's packets were sent. */
  function Served(sim: Sim, a: Args): Sim {
    ActAll(sim, Packets(Decoded(a)))
  }

  /** The request reads the octets. */
  predicate Reads(sim: Sim, a: Args, data: seq<octet>) {
    var packets := Packets(Decoded(a));
    |packets| == 1 && Contents(sim, packets[0]) == Some(data)
  }

  lemma {:induction false} LowerHex(c: char)
    ensures Hex.IsHex(Hex.Lower(c)) <==> Hex.IsHex(c)
  {
  }

  lemma {:induction false} OctetsOfText(text: Hex.CString, data: seq<octet>)
    requires Writes(text, data)
    ensures Hex.HexData(text) == data
  {
    Hex.HexTextIsHex(data);
    var lower := Hex.LowerText(text);
    forall i | 0 <= i < |text|
      ensures Hex.IsHex(text[i])
    {
      assert lower[i] == Hex.Lower(text[i]);
      LowerHex(text[i]);
    }
    Hex.TextRoundTrip(text);
    Hex.DataRoundTrip(data);
    Hex.DataRoundTrip(Hex.HexData(text));
  }

  lemma {:induction false} OnePacket(sim: Sim, p: Packet)
    ensures ActAll(sim, [p]) == Act(sim, p)
  {
    assert [p][..0] == [];
  }

  /** A request with data is refused if it has none to write, or if its first octet is 0x20; any
      request with a PIN2 is refused. */
  lemma {:induction false} RefusedArguments(a: Args, text: Hex.CString, data: seq<octet>)
    requires a.data.Some? ==> a.data == Some(text) && Writes(text, data)
    ensures Malformed(Some(a)) <==> a.pin2 || (a.data.Some? && (data == [] || data[0] == 0x20))
  {
    if a.data.Some? && data != [] {
      FirstText(text, data);
    }
  }

  lemma {:induction false} FirstText(text: Hex.CString, data: seq<octet>)
    requires Writes(text, data) && data != []
    ensures "20" <= text <==> data[0] == 0x20
  {
    var written, lower := Hex.HexText(data), Hex.LowerText(text);
    assert |text| == 2 * |data|;
    assert written[0] == Hex.HexDigit(Hex.Split(data)[0]) && written[1] == Hex.HexDigit(Hex.Split(data)[1]);
    Hex.DigitRoundTrip(data[0] / 16);
    Hex.DigitRoundTrip(data[0] % 16);
    assert lower[0] == Hex.Lower(text[0]) && lower[1] == Hex.Lower(text[1]);
  }

  // ---------------------------------------------------------------- what was written is read

  /** The request reads the octets, cut to a size of 16 bits; so all of them unless there are more. */
  predicate ReadsBack(sim: Sim, b: Args, data: seq<octet>) {
    Served(sim, b) == sim && Reads(sim, b, data[..|data| % 0x1_0000]) && (Reads(sim, b, data) <==> |data| < 0x1_0000)
  }

  /** The record holds the octets; every other record and every file is as before. */
  predicate OnlyRecord(sim: Sim, after: Sim, place: Place, data: seq<octet>) {
    && after.binaries == sim.binaries && after.records.Keys == sim.records.Keys
    && place in after.records && after.records[place] == data
    && forall other :: other in sim.records && other != place ==> after.records[other] == sim.records[other]
  }

  /** The file holds the octets from the offset on; the rest of it, every other file and every
      record are as before. */
  predicate OnlyFile(sim: Sim, after: Sim, file: int, offset: nat, data: seq<octet>) {
    && after.records == sim.records && after.binaries.Keys == sim.binaries.Keys
    && file in sim.binaries && file in after.binaries
    && IsPatched(sim.binaries[file], offset, data, after.binaries[file])
    && forall other :: other in sim.binaries && other != file ==> after.binaries[other] == sim.binaries[other]
  }

  /** An update changes the record it names, if the octets fill it, and nothing else. */
  lemma {:induction false} UpdateRecord(sim: Sim, a: Args, file: u16, index: u32, text: Hex.CString, data: seq<octet>)
    requires Names(a, SIM_COMMAND_UPDATE_RECORD, file, index) && a.data == Some(text) && Writes(text, data)
    ensures var place := Place(file, index);
            if place in sim.records && |sim.records[place]| == |data| then OnlyRecord(sim, Served(sim, a), place, data)
            else Served(sim, a) == sim
  {
    OctetsOfText(text, data);
    OnePacket(sim, UpdateFile(file, true, index, data));
  }

  /** An update changes the octets from its offset on, if the file has room, and nothing else. */
  lemma {:induction false} UpdateBinary(sim: Sim, a: Args, file: u16, index: u32, text: Hex.CString, data: seq<octet>)
    requires Names(a, SIM_COMMAND_UPDATE_BINARY, file, index) && a.data == Some(text) && Writes(text, data)
    ensures if file in sim.binaries && index + |data| <= |sim.binaries[file]| then OnlyFile(sim, Served(sim, a), file, index, data)
            else Served(sim, a) == sim
  {
    OctetsOfText(text, data);
    OnePacket(sim, UpdateFile(file, false, index, data));
  }

  lemma {:induction false} Cut(data: seq<octet>)
    ensures data[..|data| % 0x1_0000] == data <==> |data| < 0x1_0000
  {
    assert data[..|data|] == data;
  }

  lemma {:induction false} RecordContents(sim: Sim, file: u16, index: u32, size: u16, data: seq<octet>)
    requires Place(file, index) in sim.records && sim.records[Place(file, index)] == data && size == |data| % 0x1_0000
    ensures Contents(sim, ReadFile(file, true, index, size)) == Some(data[..|data| % 0x1_0000])
  {
  }

  lemma {:induction false} ReadRecord(sim: Sim, b: Args, file: u16, index: u32, data: seq<octet>)
    requires Names(b, SIM_COMMAND_READ_RECORD, file, index) && b.p3 == |data|
    requires Place(file, index) in sim.records && sim.records[Place(file, index)] == data
    ensures ReadsBack(sim, b, data)
  {
    OnePacket(sim, ReadFile(file, true, index, |data| % 0x1_0000));
    RecordContents(sim, file, index, |data| % 0x1_0000, data);
    Cut(data);
  }

  lemma {:induction false} Slice(file: seq<octet>, index: nat, data: seq<octet>, size: nat)
    requires index + |data| <= |file| && file[index..index + |data|] == data && size <= |data|
    ensures file[index..index + size] == data[..size]
  {
    assert file[index..index + size] == file[index..index + |data|][..size];
  }

  lemma {:induction false} BinaryContents(sim: Sim, file: u16, index: u32, size: u16, data: seq<octet>)
    requires file in sim.binaries && index + |data| <= |sim.binaries[file]| && size == |data| % 0x1_0000
    requires sim.binaries[file][index..index + |data|] == data
    ensures Contents(sim, ReadFile(file, false, index, size)) == Some(data[..|data| % 0x1_0000])
  {
    Slice(sim.binaries[file], index, data, size);
  }

  lemma {:induction false} ReadBinary(sim: Sim, b: Args, file: u16, index: u32, data: seq<octet>)
    requires Names(b, SIM_COMMAND_READ_BINARY, file, index) && b.p3 == |data|
    requires file in sim.binaries && index + |data| <= |sim.binaries[file]|
    requires sim.binaries[file][index..index + |data|] == data
    ensures ReadsBack(sim, b, data)
  {
    OnePacket(sim, ReadFile(file, false, index, |data| % 0x1_0000));
    BinaryContents(sim, file, index, |data| % 0x1_0000, data);
    Cut(data);
  }

  /** A record updated with hexadecimal text and read back with the same record number, and the
      number of octets as size, yields exactly the octets of the text; nothing else changes. */
  lemma {:induction false} UpdateThenReadRecord(
      sim: Sim, a: Args, b: Args, file: u16, index: u32, text: Hex.CString, data: seq<octet>)
    requires Names(a, SIM_COMMAND_UPDATE_RECORD, file, index) && a.data == Some(text) && Writes(text, data)
    requires Names(b, SIM_COMMAND_READ_RECORD, file, index) && b.p3 == |data|
    requires Place(file, index) in sim.records && |sim.records[Place(file, index)]| == |data|
    ensures OnlyRecord(sim, Served(sim, a), Place(file, index), data) && ReadsBack(Served(sim, a), b, data)
  {
    UpdateRecord(sim, a, file, index, text, data);
    ReadRecord(Served(sim, a), b, file, index, data);
  }

  /** The same for a file without records: the octets from offset p1 on, and no others. */
  lemma {:induction false} UpdateThenReadBinary(
      sim: Sim, a: Args, b: Args, file: u16, index: u32, text: Hex.CString, data: seq<octet>)
    requires Names(a, SIM_COMMAND_UPDATE_BINARY, file, index) && a.data == Some(text) && Writes(text, data)
    requires Names(b, SIM_COMMAND_READ_BINARY, file, index) && b.p3 == |data|
    requires file in sim.binaries && index + |data| <= |sim.binaries[file]|
    ensures OnlyFile(sim, Served(sim, a), file, index, data) && ReadsBack(Served(sim, a), b, data)
  {
    UpdateBinary(sim, a, file, index, text, data);
    ReadBinary(Served(sim, a), b, file, index, data);
  }

  /** A search from record p1 on finds the first record that begins with the octets of the text,
      p3 being their number: for up to 255 octets, and for no more. */
  lemma {:induction false} SeekFinds(sim: Sim, a: Args, file: u16, index: u32, text: Hex.CString, data: seq<octet>, k: int)
    requires Names(a, SIM_COMMAND_SEEK, file, index) && a.data == Some(text) && Writes(text, data)
    requires a.p3 == |data| < 0x1_0000_0000
    ensures var packets := Packets(Decoded(a));
            && |packets| == 1 && Served(sim, a) == sim
            && (Finds(sim, packets[0], k) <==> |data| < 256 && FirstWith(sim, file, index, k, data))
  {
    OctetsOfText(text, data);
    var p := SearchRecord(file, index, |data|, data[..|data| % 256]);
    OnePacket(sim, p);
    if |data| < 256 {
      assert data[..|data|] == data;
    }
  }

  /** A request for a response asks about its file, and changes nothing. */
  lemma {:induction false} ResponseAsksFile(sim: Sim, a: Args, file: u16)
    requires a.command == SIM_COMMAND_GET_RESPONSE && a.fileid % 0x1_0000 == file
    ensures Packets(Decoded(a)) == [FileInfo(file)] && Served(sim, a) == sim
  {
    OnePacket(sim, FileInfo(file));
  }

  // ---------------------------------------------------------------- over whole runs

  /** The arguments the event brings to the queue. */
  function AskedBy(e: Event): seq<Args> {
    if e.Arrival? && !Malformed(e.args) then [e.args.value] else []
  }

  /** The arguments of the requests that entered the queue, in order of arrival. */
  function Asked(events: seq<Event>): seq<Args> {
    if events == [] then [] else Asked(events[..|events| - 1]) + AskedBy(events[|events| - 1])
  }

  /** What the record holds once the requests were served, told by the last update that fills it. */
  function Written(record: seq<octet>, asked: seq<Args>, file: u16, index: u32): (r: seq<octet>)
    ensures |r| == |record|
  {
    if asked == [] then record
    else
      var a := asked[|asked| - 1];
      if Names(a, SIM_COMMAND_UPDATE_RECORD, file, index) && |OctetsIn(a)| == |record| then OctetsIn(a)
      else Written(record, asked[..|asked| - 1], file, index)
  }

  function OctetsIn(a: Args): seq<octet> {
    if a.data.Some? then Hex.HexData(a.data.value) else []
  }

  function ServedAll(sim: Sim, asked: seq<Args>): Sim {
    if asked == [] then sim else Served(ServedAll(sim, asked[..|asked| - 1]), asked[|asked| - 1])
  }

  lemma {:induction false} ServedRecord(sim: Sim, a: Args, file: u16, index: u32)
    requires Place(file, index) in sim.records
    ensures var place := Place(file, index); var after := Served(sim, a);
            && place in after.records
            && after.records[place]
               == if Names(a, SIM_COMMAND_UPDATE_RECORD, file, index) && |OctetsIn(a)| == |sim.records[place]| then OctetsIn(a)
                  else sim.records[place]
  {
    var packets := Packets(Decoded(a));
    if packets != [] {
      OnePacket(sim, packets[0]);
      assert packets == [packets[0]];
    }
  }

  lemma {:induction false} ServedWritten(sim: Sim, asked: seq<Args>, file: u16, index: u32)
    requires Place(file, index) in sim.records
    ensures var place := Place(file, index); var after := ServedAll(sim, asked);
            place in after.records && after.records[place] == Written(sim.records[place], asked, file, index)
  {
    if asked != [] {
      var before := asked[..|asked| - 1];
      ServedWritten(sim, before, file, index);
      ServedRecord(ServedAll(sim, before), asked[|asked| - 1], file, index);
    }
  }

  lemma {:induction false} AcceptedAsked(events: seq<Event>)
    ensures |Accepted(events)| == |Asked(events)|
    ensures forall i :: 0 <= i < |Asked(events)| ==> Accepted(events)[i].1 == Decoded(Asked(events)[i])
  {
    if events != [] {
      AcceptedAsked(events[..|events| - 1]);
    }
  }

  lemma {:induction false} ActAllConcat(sim: Sim, p: seq<Packet>, q: seq<Packet>)
    ensures ActAll(sim, p + q) == ActAll(ActAll(sim, p), q)
  {
    if q == [] {
      assert p + q == p;
    } else {
      var n := |q| - 1;
      assert (p + q)[..|p| + n] == p + q[..n];
      ActAllConcat(sim, p, q[..n]);
    }
  }

  lemma {:induction false} SentServes(sim: Sim, requests: seq<(Token, Request)>, asked: seq<Args>)
    requires |requests| == |asked| && forall i :: 0 <= i < |asked| ==> requests[i].1 == Decoded(asked[i])
    ensures ActAll(sim, PacketsOf(requests)) == ServedAll(sim, asked)
  {
    if asked != [] {
      var n := |asked| - 1;
      SentServes(sim, requests[..n], asked[..n]);
      ActAllConcat(sim, PacketsOf(requests[..n]), Packets(requests[n].1));
    }
  }

  /** Over every run: after the packets sent so far, a record holds what the last of the started
      requests that fills it asked for; the started ones are the first in order of arrival, all
      but those that still wait in the list. */
  lemma {:induction false} RunWrites(sim: Sim, events: seq<Event>, file: u16, index: u32)
    requires forall i :: 0 <= i < |events| ==> GoodEvent(events[i])
    requires Place(file, index) in sim.records
    ensures var r := Run(INIT, events); var place := Place(file, index);
            && |r.started| <= |Asked(events)| && |Asked(events)| == |r.replies| + |r.list|
            && |r.started| - |r.replies| == (if RequestToken(r.token) then 1 else 0)
            && var after := ActAll(sim, r.sent);
               place in after.records
               && after.records[place] == Written(sim.records[place], Asked(events)[..|r.started|], file, index)
  {
    StartedAsked(sim, events);
    RunToken(events);
    ServedWritten(sim, Asked(events)[..|Run(INIT, events).started|], file, index);
  }

  /** What was sent serves the first of the requests. */
  lemma {:induction false} StartedAsked(sim: Sim, events: seq<Event>)
    requires forall i :: 0 <= i < |events| ==> GoodEvent(events[i])
    ensures var r := Run(INIT, events);
            && |r.started| <= |Asked(events)| && |Asked(events)| == |r.replies| + |r.list|
            && ActAll(sim, r.sent) == ServedAll(sim, Asked(events)[..|r.started|])
  {
    QueueInvariant(events);
    AcceptedAsked(events);
    var r := Run(INIT, events);
    assert |Tokens(Accepted(events))| == |r.replies| + |r.list|;
    SentServes(sim, r.started, Asked(events)[..|r.started|]);
  }

  lemma {:induction false} RunToken(events: seq<Event>)
    requires forall i :: 0 <= i < |events| ==> GoodEvent(events[i])
    ensures var r := Run(INIT, events); |r.started| - |r.replies| == if RequestToken(r.token) then 1 else 0
  {
    QueueInvariant(events);
    var r := Run(INIT, events);
    if r.token != TOKEN_NULL && r.token != TOKEN_WAITING {
      assert InFlight(r);
    }
  }

  /** What waits for the number, and what does not. */
  predicate Waits(s: State) {
    s.smscKnown ==> s.token != TOKEN_WAITING
  }

  /** The token marks waiting only with a head that waits. */
  predicate MarkFits(s: State) {
    s.token == TOKEN_WAITING ==> s.list != [] && s.list[0].waiting
  }

  lemma {:induction false} NextWaits(s: State)
    requires MarkFits(Next(s))
    ensures Waits(Next(s)) && Next(s).smscKnown == s.smscKnown
  {
  }

  lemma {:induction false} StepWaits(s: State, e: Event)
    requires Waits(s) && MarkFits(Step(s, e)) && (e.Arrival? ==> RequestToken(e.t))
    ensures Waits(Step(s, e)) && Step(s, e).smscKnown == (s.smscKnown || e.SmscNumber?)
  {
    match e
    case Arrival(t, args) =>
    case Response =>
      var k := TokenPosition(s.list, s.token);
      NextWaitsIf(if k == |s.list| then s else s.(replies := s.replies + [s.token], list := Without(s.list, k)));
    case SmscNumber =>
      if !s.smscKnown && s.token == TOKEN_WAITING {
        NextWaitsIf(s.(smscKnown := true));
      }
  }

  lemma {:induction false} NextWaitsIf(s: State)
    ensures MarkFits(Next(s)) ==> Waits(Next(s))
    ensures Next(s).smscKnown == s.smscKnown
  {
    if MarkFits(Next(s)) {
      NextWaits(s);
    }
  }

  lemma {:induction false} RunMarkFits(events: seq<Event>)
    requires forall i :: 0 <= i < |events| ==> GoodEvent(events[i])
    ensures MarkFits(Run(INIT, events))
  {
    QueueInvariant(events);
  }

  /** The service centre number was read. */
  predicate NumberRead(events: seq<Event>) {
    events != [] && (events[|events| - 1].SmscNumber? || NumberRead(events[..|events| - 1]))
  }

  lemma {:induction false} KnownOnceRead(events: seq<Event>)
    requires forall i :: 0 <= i < |events| ==> GoodEvent(events[i])
    ensures Waits(Run(INIT, events)) && (Run(INIT, events).smscKnown <==> NumberRead(events))
  {
    if events != [] {
      var before, e := events[..|events| - 1], events[|events| - 1];
      KnownOnceRead(before);
      RunMarkFits(events);
      StepWaits(Run(INIT, before), e);
    }
  }

  /** Requests alone start nothing. */
  lemma {:induction false} NothingStarted(events: seq<Event>)
    requires forall i :: 0 <= i < |events| ==> events[i].Arrival?
    ensures var r := Run(INIT, events); !r.smscKnown && r.started == [] && r.sent == []
  {
    if events != [] {
      NothingStarted(events[..|events| - 1]);
    }
  }

  /** Once the service centre number was read, nothing is held back; until then, and unless the
      modem replies to something it was not sent, nothing is started. */
  lemma {:induction false} HeldUntilNumber(events: seq<Event>)
    requires forall i :: 0 <= i < |events| ==> GoodEvent(events[i])
    ensures var r := Run(INIT, events);
            && (r.smscKnown <==> NumberRead(events)) && (r.smscKnown ==> r.token != TOKEN_WAITING)
            && (!NumberRead(events) && Response !in events ==> r.started == [] && r.sent == [])
  {
    KnownOnceRead(events);
    if !NumberRead(events) && Response !in events {
      OnlyArrivals(events);
      NothingStarted(events);
    }
  }

  lemma {:induction false} OnlyArrivals(events: seq<Event>)
    requires !NumberRead(events) && Response !in events
    ensures forall i :: 0 <= i < |events| ==> events[i].Arrival?
  {
    if events != [] {
      var before := events[..|events| - 1];
      assert forall e :: e in before ==> e in events;
      assert events[|events| - 1] in events;
      OnlyArrivals(before);
    }
  }

  /** When the SIM becomes ready and the modem tells the size of the service centre file, what is
      asked for is the whole of its first record. */
  lemma {:induction false} CentreRecordRead(sim: Sim, size: u16)
    requires Place(0x6F42, 1) in sim.records && |sim.records[Place(0x6F42, 1)]| == size
    ensures var w := SimExchange.Run(SimExchange.INIT, [SimExchange.SimReady, SimExchange.Reply(0, size)]);
            && |w.outstanding| == 1 && Contents(sim, w.outstanding[0]) == Some(sim.records[Place(0x6F42, 1)])
            && ActAll(sim, w.outstanding) == sim
  {
    var ready, reply := SimExchange.SimReady, SimExchange.Reply(0, size);
    SimExchange.FirstReplies(size);
    SimExchange.RunThen(SimExchange.INIT, [], ready, [ready]);
    SimExchange.RunThen(SimExchange.INIT, [ready], reply, [ready, reply]);
    OnePacket(sim, ReadFile(0x6F42, true, 1, size));
    assert sim.records[Place(0x6F42, 1)][..size] == sim.records[Place(0x6F42, 1)];
  }
}
