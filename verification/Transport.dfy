/** Multi-frame packets: cut up by `wave_ipc_send` (mocha-ipc/device/wave/wave_ipc.c), put
    together again by `ipc_dispatch` (mocha-ipc/ipc_dispatch.c). */
module Transport {
  import opened Octets
  import opened Options

  type u32 = x: int | 0 <= x < 0x1_0000_0000

  const FIFO_INTERNAL: u32 := 30
  const MAX_SINGLE_FRAME_DATA: nat := 0xFF4
  const HEADER_SIZE: nat := 12

  /** A frame; its datasize is |data|. */
  datatype Frame = Frame(cmd: u32, data: seq<octet>)

  /** n octets of a number as they lie in memory, least significant first. */
  function LittleEndian(x: nat, n: nat): (d: seq<octet>)
    ensures |d| == n
  {
    if n == 0 then [] else [x % 256] + LittleEndian(x / 256, n - 1)
  }

  function Value(d: seq<octet>): nat {
    if d == [] then 0 else d[0] + 256 * Value(d[1..])
  }

  lemma {:induction false} ValueBound(d: seq<octet>)
    requires |d| <= 4
    ensures |d| == 4 ==> Value(d) < 0x1_0000_0000
    ensures |d| == 3 ==> Value(d) < 0x100_0000
    ensures |d| == 2 ==> Value(d) < 0x1_0000
    ensures |d| == 1 ==> Value(d) < 0x100
  {
    if d != [] {
      ValueBound(d[1..]);
    }
  }

  /** The 32-bit field at offset i. */
  function U32At(d: seq<octet>, i: nat): u32
    requires i + 4 <= |d|
  {
    ValueBound(d[i..i + 4]);
    Value(d[i..i + 4])
  }

  lemma {:induction false} LittleEndianRoundTrip(x: nat, n: nat)
    requires n == 0 ==> x == 0
    requires n == 1 ==> x < 0x100
    requires n == 2 ==> x < 0x1_0000
    requires n == 3 ==> x < 0x100_0000
    requires n == 4 ==> x < 0x1_0000_0000
    requires n <= 4
    ensures Value(LittleEndian(x, n)) == x
  {
    if n > 0 {
      LittleEndianRoundTrip(x / 256, n - 1);
    }
  }

  lemma {:induction false} U32RoundTrip(x: u32, d: seq<octet>, i: nat)
    requires i + 4 <= |d| && d[i..i + 4] == LittleEndian(x, 4)
    ensures U32At(d, i) == x
  {
    LittleEndianRoundTrip(x, 4);
  }

  // ---------------------------------------------------------------- sending

  /** The frame that announces a packet: command 2, length, type. */
  function Header(size: u32, cmd: u32): Frame {
    Frame(FIFO_INTERNAL, LittleEndian(2, 4) + LittleEndian(size, 4) + LittleEndian(cmd, 4))
  }

  /** Data cut into internal frames. */
  function Chunks(data: seq<octet>): seq<Frame> {
    if data == [] then []
    else if |data| > MAX_SINGLE_FRAME_DATA then
      [Frame(FIFO_INTERNAL, data[..MAX_SINGLE_FRAME_DATA])] + Chunks(data[MAX_SINGLE_FRAME_DATA..])
    else [Frame(FIFO_INTERNAL, data)]
  }

  lemma {:induction false} ChunksFirst(rest: seq<octet>, size: nat)
    requires rest != [] && size == if |rest| > MAX_SINGLE_FRAME_DATA then MAX_SINGLE_FRAME_DATA else |rest|
    ensures Chunks(rest) == [Frame(FIFO_INTERNAL, rest[..size])] + Chunks(rest[size..])
  {
    assert size == |rest| ==> rest[..size] == rest && rest[size..] == [];
  }

  /** A length as the signed variable that counts it down holds it. */
  function Int32(x: u32): int {
    if x < 0x8000_0000 then x else x - 0x1_0000_0000
  }

  /** The frames a packet travels as. The countdown is signed: of 2^31 octets and more,
      nothing but the header is sent. */
  function Fragments(packet: Frame): seq<Frame>
    requires |packet.data| < 0x1_0000_0000
  {
    if |packet.data| > MAX_SINGLE_FRAME_DATA then
      [Header(|packet.data|, packet.cmd)] + if |packet.data| < 0x8000_0000 then Chunks(packet.data) else []
    else [packet]
  }

  /** Four octets, the least significant first, spell the number. */
  predicate Spells(d: seq<octet>, i: nat, x: int) {
    i + 4 <= |d| && d[i] as int + 0x100 * d[i + 1] as int + 0x1_0000 * d[i + 2] as int + 0x100_0000 * d[i + 3] as int == x
  }

  lemma {:induction false} LittleSpells(x: u32)
    ensures Spells(LittleEndian(x, 4), 0, x)
  {
    var d := LittleEndian(x, 4);
    assert d[1] == LittleEndian(x / 256, 3)[0] == x / 256 % 256;
    assert d[2] == LittleEndian(x / 256, 3)[1] == LittleEndian(x / 256 / 256, 2)[0] == x / 256 / 256 % 256;
    assert d[3] == LittleEndian(x / 256, 3)[2] == LittleEndian(x / 256 / 256, 2)[1] == LittleEndian(x / 256 / 256 / 256, 1)[0];
  }

  /** A large packet is announced by three numbers: command 2, the length and the type. */
  lemma {:induction false} HeaderFields(packet: Frame)
    requires MAX_SINGLE_FRAME_DATA < |packet.data| < 0x1_0000_0000
    ensures var h := Fragments(packet)[0];
            && h.cmd == FIFO_INTERNAL && |h.data| == HEADER_SIZE
            && Spells(h.data, 0, 2) && Spells(h.data, 4, |packet.data|) && Spells(h.data, 8, packet.cmd)
  {
    var h := Header(|packet.data|, packet.cmd);
    LittleSpells(2);
    LittleSpells(|packet.data|);
    LittleSpells(packet.cmd);
    assert h.data[4..8] == LittleEndian(|packet.data|, 4) && h.data[8..12] == LittleEndian(packet.cmd, 4);
  }

  class Sender {
    /** Everything written to the modem. */
    var wire: seq<Frame>

    constructor ()
      ensures wire == []
    {
      wire := [];
    }

    method SendPacket(frame: Frame)
      modifies this
      ensures wire == old(wire) + [frame]
    {
      wire := wire + [frame];
    }

    /** `wave_ipc_send`. */
    method Send(packet: Frame)
      requires |packet.data| < 0x1_0000_0000
      modifies this
      ensures wire == old(wire) + Fragments(packet)
    {
      if |packet.data| > MAX_SINGLE_FRAME_DATA {
        SendPacket(Header(|packet.data|, packet.cmd));
        assert packet.data[0..] == packet.data;
        ghost var goal := old(wire) + Fragments(packet);
        var left := Int32(|packet.data|);
        var at := 0;
        while left > 0
          invariant 0 <= at
          invariant left > 0 ==> at + left == |packet.data| && wire + Chunks(packet.data[at..]) == goal
          invariant left <= 0 ==> wire == goal
        {
          var size := if left > MAX_SINGLE_FRAME_DATA then MAX_SINGLE_FRAME_DATA else left;
          ghost var rest := packet.data[at..];
          ChunksFirst(rest, size);
          assert packet.data[at..at + size] == rest[..size] && packet.data[at + size..] == rest[size..];
          SendPacket(Frame(FIFO_INTERNAL, packet.data[at..at + size]));
          at := at + MAX_SINGLE_FRAME_DATA;
          left := left - MAX_SINGLE_FRAME_DATA;
        }
      } else {
        SendPacket(packet);
      }
    }
  }

  // ---------------------------------------------------------------- receiving

  /** The packet being put together: none, or an announced one with what arrived so far. */
  datatype Rx = Idle | Receiving(cmd: u32, size: nat, got: seq<octet>)

  datatype State = State(rx: Rx, delivered: seq<Frame>)

  /** What one frame does; None where the C code writes outside a live buffer. */
  function Step(s: State, f: Frame): Option<State> {
    if f.cmd != FIFO_INTERNAL then Some(State(s.rx, s.delivered + [f]))
    else if |f.data| == HEADER_SIZE then Some(State(Receiving(U32At(f.data, 8), U32At(f.data, 4), []), s.delivered))
    else if s.rx.Idle? || |s.rx.got| + |f.data| > s.rx.size then None
    else
      var got := s.rx.got + f.data;
      if |got| < s.rx.size then Some(State(s.rx.(got := got), s.delivered))
      else if s.rx.cmd != FIFO_INTERNAL then Some(State(Idle, s.delivered + [Frame(s.rx.cmd, got)]))
      // the packet is itself an internal frame: a header is read and its buffer freed at once
      else if |got| == HEADER_SIZE then Some(State(Idle, s.delivered))
      else None
  }

  function Run(s: State, frames: seq<Frame>): Option<State>
    decreases |frames|
  {
    if frames == [] then Some(s)
    else
      match Step(s, frames[0])
      case None => None
      case Some(next) => Run(next, frames[1..])
  }

  class Dispatcher {
    /** multi_packet and multiFramePosition; `data` is null while no buffer is live. */
    var cmd: u32
    var data: array?<octet>
    var position: nat
    /** The frames handed to the protocol parsers. */
    var delivered: seq<Frame>

    ghost predicate Valid()
      reads this, data
    {
      data != null ==> position <= data.Length
    }

    ghost function Model(): State
      reads this, data
      requires Valid()
    {
      State(if data == null then Idle else Receiving(cmd, data.Length, data[..position]), delivered)
    }

    constructor ()
      ensures Valid() && Model() == State(Idle, [])
    {
      cmd, data, position, delivered := 0, null, 0, [];
    }

    /** `ipc_dispatch`; not ok where the C code leaves its buffers. */
    method Dispatch(f: Frame) returns (ok: bool)
      requires Valid()
      modifies this, data
      ensures Valid()
      ensures Step(old(Model()), f) == if ok then Some(Model()) else None
      ensures !ok ==> Model() == old(Model())
    {
      if f.cmd != FIFO_INTERNAL {
        delivered := delivered + [f];
        return true;
      }
      if |f.data| == HEADER_SIZE {
        var size := U32At(f.data, 4);
        data := new octet[size];
        cmd := U32At(f.data, 8);
        position := 0;
        return true;
      }
      if data == null || position + |f.data| > data.Length {
        return false;
      }
      if position + |f.data| == data.Length && cmd == FIFO_INTERNAL && data.Length != HEADER_SIZE {
        return false;
      }
      forall i | 0 <= i < |f.data| {
        data[position + i] := f.data[i];
      }
      ghost var got := old(data[..position]) + f.data;
      assert data[..position + |f.data|] == got;
      position := position + |f.data|;
      if data.Length == position {
        if cmd != FIFO_INTERNAL {
          assert data[..] == got;
          delivered := delivered + [Frame(cmd, data[..])];
        }
        data := null;
        position := 0;
      }
      return true;
    }
  }

  // ---------------------------------------------------------------- both ends

  function Concat(data: seq<Frame>): seq<octet> {
    if data == [] then [] else data[0].data + Concat(data[1..])
  }

  /** The send loop cuts without loss, into internal frames of 1 to 0xFF4 octets. */
  lemma {:induction false} ChunksWhole(data: seq<octet>)
    ensures Concat(Chunks(data)) == data
    ensures forall i :: 0 <= i < |Chunks(data)| ==> 
      Chunks(data)[i].cmd == FIFO_INTERNAL && 1 <= |Chunks(data)[i].data| <= MAX_SINGLE_FRAME_DATA
    ensures forall i :: 0 <= i < |Chunks(data)| - 1 ==> |Chunks(data)[i].data| == MAX_SINGLE_FRAME_DATA
  {
    if |data| > MAX_SINGLE_FRAME_DATA {
      ChunksWhole(data[MAX_SINGLE_FRAME_DATA..]);
      assert Chunks(data)[1..] == Chunks(data[MAX_SINGLE_FRAME_DATA..]);
    } else if data != [] {
      assert Chunks(data)[1..] == [];
    }
  }

  lemma {:induction false} RunConcat(s: State, a: seq<Frame>, b: seq<Frame>)
    ensures Run(s, a + b) == match Run(s, a) case None => None case Some(mid) => Run(mid, b)
    decreases |a|
  {
    if a == [] {
      assert a + b == b;
    } else {
      assert (a + b)[1..] == a[1..] + b;
      match Step(s, a[0])
      case None =>
      case Some(next) => RunConcat(next, a[1..], b);
    }
  }

  /** The last fragment is taken for a header. */
  predicate Misread(size: nat) {
    size > MAX_SINGLE_FRAME_DATA && size % MAX_SINGLE_FRAME_DATA == HEADER_SIZE
  }

  /** The rest of a packet completes it, unless its last fragment reads as a header. */
  lemma {:induction false} FeedChunks(s: State, rest: seq<octet>)
    requires s.rx.Receiving? && s.rx.cmd != FIFO_INTERNAL && rest != [] && |s.rx.got| + |rest| == s.rx.size
    ensures Run(s, Chunks(rest)).Some?
    ensures var r := Run(s, Chunks(rest)).value;
            if |rest| % MAX_SINGLE_FRAME_DATA == HEADER_SIZE then r.rx.Receiving? && r.delivered == s.delivered
            else r == State(Idle, s.delivered + [Frame(s.rx.cmd, s.rx.got + rest)])
    decreases |rest|
  {
    var size := if |rest| > MAX_SINGLE_FRAME_DATA then MAX_SINGLE_FRAME_DATA else |rest|;
    var first, others := rest[..size], rest[size..];
    ChunksFirst(rest, size);
    assert Chunks(rest)[1..] == Chunks(others);
    assert s.rx.got + first + others == s.rx.got + rest;
    if |rest| > MAX_SINGLE_FRAME_DATA {
      FeedChunks(State(s.rx.(got := s.rx.got + first), s.delivered), others);
      assert |rest| % MAX_SINGLE_FRAME_DATA == |others| % MAX_SINGLE_FRAME_DATA;
    } else {
      assert others == [] && first == rest;
    }
  }

  /** One packet, in whatever state the receiver is: it arrives as it was sent, exactly
      unless its last fragment has the size of a header. */
  lemma {:induction false} PacketRoundTrip(s: State, packet: Frame)
    requires packet.cmd != FIFO_INTERNAL && |packet.data| < 0x8000_0000
    ensures Run(s, Fragments(packet)).Some?
    ensures Run(s, Fragments(packet)).value.delivered == s.delivered + [packet] <==> !Misread(|packet.data|)
    ensures Run(s, Fragments(packet)).value.delivered == s.delivered <==> Misread(|packet.data|)
    ensures |packet.data| > MAX_SINGLE_FRAME_DATA && !Misread(|packet.data|)
            ==> Run(s, Fragments(packet)).value.rx == Idle
  {
    if |packet.data| > MAX_SINGLE_FRAME_DATA {
      var h := Header(|packet.data|, packet.cmd);
      U32RoundTrip(|packet.data|, h.data, 4);
      U32RoundTrip(packet.cmd, h.data, 8);
      var next := State(Receiving(packet.cmd, |packet.data|, []), s.delivered);
      assert Step(s, h) == Some(next);
      assert Fragments(packet)[1..] == Chunks(packet.data);
      FeedChunks(next, packet.data);
      assert [] + packet.data == packet.data;
    } else {
      assert Fragments(packet)[1..] == [];
    }
  }

  predicate Sendable(packets: seq<Frame>) {
    forall i :: 0 <= i < |packets| ==> packets[i].cmd != FIFO_INTERNAL && |packets[i].data| < 0x8000_0000
  }

  /** Everything written for a sequence of packets. */
  function Wire(packets: seq<Frame>): seq<Frame>
    requires Sendable(packets)
  {
    if packets == [] then [] else Fragments(packets[0]) + Wire(packets[1..])
  }

  function Arrived(packet: Frame): seq<Frame> {
    if Misread(|packet.data|) then [] else [packet]
  }

  /** The packets whose last fragment is not taken for a header. */
  function Readable(packets: seq<Frame>): seq<Frame> {
    if packets == [] then []
    else Arrived(packets[0]) + Readable(packets[1..])
  }

  lemma {:induction false} PacketThen(s: State, packet: Frame, others: seq<Frame>) returns (mid: State)
    requires packet.cmd != FIFO_INTERNAL && |packet.data| < 0x8000_0000
    ensures Run(s, Fragments(packet) + others) == Run(mid, others)
    ensures mid.delivered == s.delivered + Arrived(packet)
  {
    PacketRoundTrip(s, packet);
    RunConcat(s, Fragments(packet), others);
    mid := Run(s, Fragments(packet)).value;
  }

  /** Any sequence of packets, small and large: what arrives is that sequence without the
      misread ones, in order, and no buffer is ever left. */
  lemma {:induction false} StreamRoundTrip(s: State, packets: seq<Frame>)
    requires Sendable(packets)
    ensures match Run(s, Wire(packets))
            case None => false
            case Some(r) => r.delivered == s.delivered + Readable(packets)
    decreases |packets|
  {
    if packets == [] {
      assert s.delivered + [] == s.delivered;
    } else {
      var mid := PacketThen(s, packets[0], Wire(packets[1..]));
      StreamRoundTrip(mid, packets[1..]);
      Associative(s.delivered, Arrived(packets[0]), Readable(packets[1..]));
    }
  }

  lemma {:induction false} Associative(a: seq<Frame>, b: seq<Frame>, c: seq<Frame>)
    ensures (a + b) + c == a + (b + c)
  {
  }

  lemma {:induction false} ReadableAll(packets: seq<Frame>)
    ensures Readable(packets) == packets <==> forall p :: p in packets ==> !Misread(|p.data|)
    ensures |Readable(packets)| <= |packets|
  {
    if packets != [] {
      ReadableAll(packets[1..]);
      assert packets == [packets[0]] + packets[1..];
      if !Misread(|packets[0].data|) {
        assert Readable(packets)[1..] == Readable(packets[1..]);
      }
    }
  }

  /** A run only adds to what was delivered, whatever that was. */
  lemma {:induction false} DeliveredGrows(s: State, before: seq<Frame>, frames: seq<Frame>)
    ensures Run(s, frames).Some? <==> Run(State(s.rx, before + s.delivered), frames).Some?
    ensures Run(s, frames).Some? ==>
              && s.delivered <= Run(s, frames).value.delivered
              && Run(State(s.rx, before + s.delivered), frames).value
                 == State(Run(s, frames).value.rx, before + Run(s, frames).value.delivered)
    decreases |frames|
  {
    if frames != [] {
      var t := State(s.rx, before + s.delivered);
      match Step(s, frames[0])
      case None =>
      case Some(next) =>
        assert Step(t, frames[0]) == Some(State(next.rx, before + next.delivered)) by {
          if next.delivered != s.delivered {
            var d := next.delivered[|s.delivered|];
            assert before + (s.delivered + [d]) == before + s.delivered + [d];
          }
        }
        DeliveredGrows(next, before, frames[1..]);
    }
  }

  /** A frame of another kind anywhere in the stream is delivered in its place, and neither
      the packet being put together nor any later delivery is disturbed. */
  lemma {:induction false} Interleaved(s: State, a: seq<Frame>, d: Frame, b: seq<Frame>)
    requires d.cmd != FIFO_INTERNAL
    ensures Run(s, a + [d] + b).Some? <==> Run(s, a + b).Some?
    ensures Run(s, a + b).Some? ==>
              && Run(s, a).Some?
              && Run(s, a).value.delivered <= Run(s, a + b).value.delivered
              && Run(s, a + [d] + b).value
                 == State(Run(s, a + b).value.rx,
                          Run(s, a).value.delivered + [d] + Run(s, a + b).value.delivered[|Run(s, a).value.delivered|..])
  {
    RunConcat(s, a, b);
    RunConcat(s, a + [d], b);
    RunConcat(s, a, [d]);
    if Run(s, a).Some? {
      var mid := Run(s, a).value;
      var anew := State(mid.rx, []);
      DeliveredGrows(anew, mid.delivered, b);
      DeliveredGrows(anew, mid.delivered + [d], b);
      assert mid.delivered + [] == mid.delivered;
      assert mid.delivered + [d] + [] == mid.delivered + [d];
    }
  }

  // ---------------------------------------------------------------- interleaving

  /** The internal frames among frames. */
  function Internal(frames: seq<Frame>): seq<Frame> {
    if frames == [] then []
    else (if frames[0].cmd == FIFO_INTERNAL then [frames[0]] else []) + Internal(frames[1..])
  }

  /** The others. */
  function Foreign(frames: seq<Frame>): seq<Frame> {
    if frames == [] then []
    else (if frames[0].cmd == FIFO_INTERNAL then [] else [frames[0]]) + Foreign(frames[1..])
  }

  /** c consists of the frames of a and of b, those of each in their order. */
  predicate Merged(a: seq<Frame>, b: seq<Frame>, c: seq<Frame>) {
    if c == [] then a == [] && b == []
    else
      || (a != [] && a[0] == c[0] && Merged(a[1..], b, c[1..]))
      || (b != [] && b[0] == c[0] && Merged(a, b[1..], c[1..]))
  }

  lemma {:induction false} MergedLeft(d: seq<Frame>, a: seq<Frame>, b: seq<Frame>, c: seq<Frame>)
    requires |d| <= 1 && Merged(a, b, c)
    ensures Merged(d + a, b, d + c)
  {
    if d == [] {
      assert d + a == a && d + c == c;
    } else {
      assert (d + a)[1..] == a && (d + c)[1..] == c;
    }
  }

  lemma {:induction false} MergedRight(f: Frame, a: seq<Frame>, b: seq<Frame>, c: seq<Frame>)
    requires Merged(a, b, c)
    ensures Merged(a, [f] + b, [f] + c)
  {
    assert ([f] + b)[1..] == b && ([f] + c)[1..] == c;
  }

  /** What was delivered before comes first, and changes nothing. */
  lemma {:induction false} FromNothing(s: State, frames: seq<Frame>)
    ensures Run(s, frames).Some? <==> Run(State(s.rx, []), frames).Some?
    ensures Run(s, frames).Some? ==>
              Run(s, frames).value
              == State(Run(State(s.rx, []), frames).value.rx, s.delivered + Run(State(s.rx, []), frames).value.delivered)
  {
    DeliveredGrows(State(s.rx, []), s.delivered, frames);
    assert s.delivered + [] == s.delivered;
  }

  lemma {:induction false} ForeignFirst(rx: Rx, frames: seq<Frame>)
    requires frames != [] && frames[0].cmd != FIFO_INTERNAL && Splits(rx, frames[1..])
    ensures Splits(rx, frames)
  {
    var f, rest := frames[0], frames[1..];
    assert Internal(frames) == Internal(rest) && Foreign(frames) == [f] + Foreign(rest);
    assert [] + [f] == [f];
    assert Step(State(rx, []), f) == Some(State(rx, [f]));
    FromNothing(State(rx, [f]), rest);
    if Run(State(rx, []), rest).Some? {
      MergedRight(f, Run(State(rx, []), Internal(rest)).value.delivered, Foreign(rest), Run(State(rx, []), rest).value.delivered);
    }
  }

  lemma {:induction false} InternalFirst(rx: Rx, frames: seq<Frame>, next: State)
    requires frames != [] && frames[0].cmd == FIFO_INTERNAL
    requires Step(State(rx, []), frames[0]) == Some(next) && Splits(next.rx, frames[1..])
    ensures Splits(rx, frames)
  {
    var f, rest := frames[0], frames[1..];
    assert Internal(frames) == [f] + Internal(rest) && Internal(frames)[1..] == Internal(rest);
    assert Foreign(frames) == Foreign(rest);
    FromNothing(next, rest);
    FromNothing(next, Internal(rest));
    if Run(State(next.rx, []), rest).Some? {
      MergedLeft(next.delivered, Run(State(next.rx, []), Internal(rest)).value.delivered, Foreign(rest),
                 Run(State(next.rx, []), rest).value.delivered);
    }
  }

  /** Reassembly sees only the internal frames; their deliveries and the other frames are
      delivered in order. */
  predicate Splits(rx: Rx, frames: seq<Frame>) {
    var all, own := Run(State(rx, []), frames), Run(State(rx, []), Internal(frames));
    && (all.Some? <==> own.Some?)
    && (all.Some? ==> all.value.rx == own.value.rx && Merged(own.value.delivered, Foreign(frames), all.value.delivered))
  }

  lemma {:induction false} SplitsAlways(rx: Rx, frames: seq<Frame>)
    ensures Splits(rx, frames)
    decreases |frames|
  {
    if frames != [] {
      if frames[0].cmd != FIFO_INTERNAL {
        SplitsAlways(rx, frames[1..]);
        ForeignFirst(rx, frames);
      } else {
        match Step(State(rx, []), frames[0])
        case None => assert Internal(frames)[0] == frames[0];
        case Some(next) =>
          SplitsAlways(next.rx, frames[1..]);
          InternalFirst(rx, frames, next);
      }
    }
  }

  /** Any frames, internal ones and others in any order: the packet being put together is that
      of the internal frames alone, and what is delivered is the other frames and the deliveries
      of the internal ones, merged in order. */
  lemma {:induction false} ForeignIgnored(s: State, frames: seq<Frame>)
    ensures Run(s, frames).Some? <==> Run(s, Internal(frames)).Some?
    ensures Run(s, frames).Some? ==>
              var all, own := Run(s, frames).value, Run(s, Internal(frames)).value;
              && all.rx == own.rx && s.delivered <= all.delivered && s.delivered <= own.delivered
              && Merged(own.delivered[|s.delivered|..], Foreign(frames), all.delivered[|s.delivered|..])
  {
    SplitsAlways(s.rx, frames);
    FromNothing(s, frames);
    FromNothing(s, Internal(frames));
    if Run(s, frames).Some? {
      var all, own := Run(State(s.rx, []), frames).value, Run(State(s.rx, []), Internal(frames)).value;
      assert (s.delivered + all.delivered)[|s.delivered|..] == all.delivered;
      assert (s.delivered + own.delivered)[|s.delivered|..] == own.delivered;
    }
  }

  /** Large packets with frames of other kinds, small packets among them, anywhere between their
      fragments: the packets arrive but for the misread ones, the other frames all arrive, and
      both do in order. */
  lemma {:induction false} InterleavedStream(s: State, packets: seq<Frame>, frames: seq<Frame>)
    requires Sendable(packets) && forall i :: 0 <= i < |packets| ==> |packets[i].data| > MAX_SINGLE_FRAME_DATA
    requires Internal(frames) == Wire(packets)
    ensures Run(s, frames).Some? && s.delivered <= Run(s, frames).value.delivered
    ensures Merged(Readable(packets), Foreign(frames), Run(s, frames).value.delivered[|s.delivered|..])
  {
    StreamRoundTrip(s, packets);
    ForeignIgnored(s, frames);
    assert (s.delivered + Readable(packets))[|s.delivered|..] == Readable(packets);
  }
}
