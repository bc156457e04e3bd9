# Mocha RIL: a verified model

mocha-ril is the Android radio layer for Samsung Mocha modems: it turns requests of the telephony
framework into packets for the modem and the modem's packets into replies. This project models the
parts of it that carry state or arithmetic and proves what they keep, lose and undo.

| file | what it models |
|---|---|
| Octets.dfy | octets as numbers 0 to 255 with their bits, OR and shifts |
| Gsm7.dfy | the GSM 7-bit packer and unpacker against the bit stream of 3GPP TS 23.038 |
| Hex.dfy, Numbers.dfy | hexadecimal text and semi-octet phone numbers |
| Sms.dfy | user data of received messages, and the parser of submitted ones |
| SmsDeliver.dfy | what the fields of a received message mean to a reader of the PDU |
| OwnSeptets.dfy, SmsForward.dfy | the round trip: a received message submitted to its sender |
| SmsQueue.dfy, SmsOutcomes.dfy | outgoing messages, one in flight, and what becomes of each |
| Transport.dfy | packets cut into frames and put together again |
| LinkedList.dfy | the doubly linked list every queue is kept in |
| SimIo.dfy | SIM I/O requests, one in flight |
| SimExchange.dfy | the same with the modem's replies: which requests complete |
| SimFiles.dfy | what the requests do to the files of a SIM |
| Calls.dfy, CallRuns.dfy | the call table, and what whole runs of it keep |
| CallChoice.dfy | which calls the compound requests act on, and where the listed calls come from |
| NetSearch.dfy | the networks found by a search, and PLMN numbers |
| Radio.dfy, RadioHistory.dfy | power, radio and SIM states and the parked version request; the same told by the events alone |
| Connections.dfy | data connections and their ids |
| Utf8.dfy | USSD text from UCS-2 to UTF-8 |
| Options.dfy | optional values |

Code that updates state in place is a class or a method over arrays, proved against a function on
values (`Step`, `Pack`, `ParseSubmit`, ...); what holds over whole runs is proved about those
functions. Laws that start and end outside these functions hold them in turn: a reader or a writing
with a definition of its own, or the history of events alone. The radio layer handles one event at a
time under its lock, so an event is one step. Requests are named by their tokens; what goes to the
modem or back to the framework is appended to a trace. Time, randomness and the modem's answers are
parameters of events. Octets are integers, and the places where the C code narrows a number are
written out (`% 256`, `Int32`, `U32At`).

Where the code falls short of what it seems meant for, the model follows the code and the exact
condition is proved: the fragment of 12 octets that is read as a header
(`Transport.PacketRoundTrip`), the malformed message that advances the queue
(`SmsQueue.FifoExactlyOnce`, `SmsQueue.MalformedLosesToken`), the answer and switch requests that
are lost or kept twice (`CallRuns.ExactlyOnce`, `CallRuns.AnswerKeptTwice`,
`CallRuns.SwitchForgotten`), the SIM request that blocks the queue for good because its command is
not supported or it asks for the service centre file (`SimExchange.AdvancesIffAnswered`,
`SimExchange.BlockingInputs`), the version request dropped by the token check (`Radio.AnsweredOnce`,
`Radio.EmptyVersionLosesToken`), the text cut at '@' and the flash message and MMS notification
parsed as 7-bit text (`SmsForward.ForwardRoundTrip`), the types whose status report or header bit is
overlooked (`SmsForward.TypeSent`), the search for more than 255 octets and the read of more than 65535
(`SimFiles.SeekFinds`, `SimFiles.UpdateThenReadRecord`), the three-digit MNC below 100
(`NetSearch.CellInfoAgrees`), the MNC above 999 (`NetSearch.LongMncCollides`), the request that is
completed for a modem that is not ready and then handled all the same (`CallRuns.OnRequestLedger`).
The results on runs of SMS, version and call requests are about a modem that is ready.

`dafny verify dfyconfig.toml` checks the project. Every lemma, recursive or not, is
proved without automatic induction: the hypothesis that Dafny 4.11 adds for a parameter of a datatype
states facts about values of other types too, from which `false` can follow.

## Model

| member | source | states |
|---|---|---|
| `Gsm7.AsciiToGsm7` | mocha-ril/util.c:118-157 | `ascii2gsm7` lays the septets end to end, least significant bit first, in ceil(7n/8) octets (section 6.1.2.1.1 of 3GPP TS 23.038); what its two writes outside the buffer OR in is always 0 |
| `Gsm7.PackBits` | mocha-ril/util.c:118-157 | bit 7i+j of the packed stream is bit j of character i, and the padding bits are 0 |
| `Gsm7.PackUnique` | mocha-ril/util.c:118-157 | the packing is the only octet string of its length with that bit stream |
| `Gsm7.InRange` | mocha-ril/util.c:139-151 | every write of the packing loop lies inside the output unless its value is 0: no nonzero spill is lost |
| `Gsm7.Gsm7ToAscii` | mocha-ril/util.c:82-113 | `gsm72ascii` gives the floor(8n/7) septets of the octets' bit stream; it writes a nonzero value past its buffer exactly when a bit is set after the last whole septet |
| `Gsm7.NoCarry` | mocha-ril/util.c:99-107 | the two `+=` of the unpacking loop never carry: each addition is an OR of disjoint bits and stays below 128 |
| `Gsm7.UnpackBits` | mocha-ril/util.c:82-113 | bit j of septet i is bit 7i+j of the octets' stream |
| `Gsm7.SpillIsLeftover` | mocha-ril/util.c:99-107 | what the last round adds one past the buffer is nonzero exactly when the octets carry a set bit after their last whole septet |
| `Gsm7.UnpackPack` | mocha-ril/util.c:82-157 | unpacking what was packed gives the text back, plus one trailing 0 exactly when the length is 7 modulo 8 |
| `Gsm7.PackUnpack` | mocha-ril/util.c:82-157 | packing what was unpacked gives every octet string of length 7k back |
| `Gsm7.PackedSpill` | mocha-ril/util.c:99-107 | packed text never makes the unpacker write past its buffer, not even with the first six octets overwritten by a header |
| `Gsm7.TailSeptet` | mocha-ril/sms.c:569-574 | septets from the eighth on do not depend on the six octets the header overwrites |
| `Hex.DataToString` | mocha-ril/util.c:359-383 | `data2string` writes two lower-case digits for each octet, high nibble first |
| `Hex.StringToData` | mocha-ril/util.c:405-450 | `string2data` fills exactly the octets whose nibbles are the digits read one by one with `sscanf`, padded on the left for odd length |
| `Hex.HexData` | mocha-ril/util.c:385-403 | exactly `string2data_size` octets are written |
| `Hex.DataRoundTrip` | mocha-ril/util.c:347-450 | reading back written octets is the identity, for every octet string |
| `Hex.TextRoundTrip` | mocha-ril/util.c:347-450 | writing back read text gives it in lower case, padded on the left to even length: for hexadecimal text and for no other |
| `Hex.ValueRead` | mocha-ril/util.c:405-450 | the octets read from hexadecimal text, of even or odd length, spell the same number, most significant first |
| `Hex.ValueWritten` | mocha-ril/util.c:359-383 | and so does the text written for octets |
| `Hex.HexDataConcat` | mocha-ril/util.c:405-450 | hexadecimal text of even length is read part by part |
| `Numbers.AppendSwapped` | mocha-ril/sms.c:447-466 | the address loops append the number padded with F to even length, each pair exchanged (semi-octets, section 9.1.2.3 of 3GPP TS 23.040) |
| `Numbers.Bcd2Ascii` | mocha-ipc/util.c:52-86 | `bcd2ascii` writes the meaning of each nibble, low one first, and a terminator |
| `Numbers.NumberRoundTrip` | mocha-ril/sms.c:447-466 | a number written as semi-octets and read with `string2data` and `bcd2ascii` comes back exactly when it consists of decimal digits |
| `Hex.DigitTable` | mocha-ril/util.c:359-450 | the value of a digit is its place in 0123456789abcdef, or ABCDEF; it is written in lower case |
| `Hex.ScanSkips` | mocha-ril/util.c:436-439 | `sscanf` skips white space, and reads 0 at the end of the text or at a character that is no digit |
| `Numbers.DialRoundTrip` | mocha-ipc/util.c:52-86 | a dial string over 0123456789*#P?, each character coded by its place, the first of a pair in the low half of its octet and an odd one beside 15, is read back whole |
| `Numbers.NumberWrites` | mocha-ril/sms.c:447-466 | a number of decimal digits is written as exactly those octets |
| `Numbers.AlphaCoversPacked` | mocha-ril/sms.c:435-445 | the semi-octets announced for an alphanumeric sender cover exactly its packed octets |
| `Sms.StrnCat` | mocha-ril/sms.c:564-567 | the text is copied up to its first NUL; what follows in the buffer stays NUL |
| `Sms.MultiPart` | mocha-ril/sms.c:563-575 | multi-part 7-bit user data is the header length, the five header octets, and the packing of seven placeholders and the text from octet 6 on |
| `Sms.BuildUserData` | mocha-ril/sms.c:538-596 | TP-DCS, TP-UDL and the text of TP-UD, over the four branches and the flash bit |
| `Sms.AppendAddress` | mocha-ril/sms.c:430-467 | TP-OA: packed text with its announced length for alphanumeric senders, semi-octets otherwise |
| `SmsDeliver.NameRoundTrip` | mocha-ril/sms.c:430-445 | a reader of section 9.1.2.5 of 3GPP TS 23.040 gets the name of an alphanumeric sender back from TP-OA: length, type 5, packed characters |
| `SmsDeliver.SchemeMeaning` | mocha-ril/sms.c:538-596 | of TP-DCS, bit 2 says MMS, bit 3 Unicode, bit 4 flash (class 0); the other bits are clear (section 4 of 3GPP TS 23.038) |
| `SmsDeliver.LengthCovers` | mocha-ril/sms.c:538-596 | TP-UDL covers TP-UD exactly: counted in septets for 7-bit text, else in octets |
| `SmsDeliver.HeaderInFront` | mocha-ril/sms.c:538-596 | TP-UD of a part starts with length 5 and its header; any other is the text from the start |
| `SmsForward.FillBit` | mocha-ril/sms.c:563-575 | the fill bit between the user data header and the text is 0 |
| `Sms.LocateFields` | mocha-ril/sms.c:187-226 | the PDU parser finds its fields where the C code does, and says when that leaves the PDU or the number field |
| `SmsForward.LocateLayout` | mocha-ril/sms.c:187-226 | the parser finds exactly the fields any PDU was laid out from |
| `Sms.FillBody` | mocha-ril/sms.c:252-270 | messageBody: copied octets for Unicode; the unpacked septets otherwise, with the five header octets in place of the first seven septets |
| `SmsForward.MultiPartBody` | mocha-ril/sms.c:262-269 | of multi-part 7-bit user data the parser gets exactly the header octets and the text |
| `SmsForward.BodyBack` | mocha-ril/sms.c:244-270 | the body the parser finds in any user data the incoming path builds: 7-bit and Unicode text exactly when it survives, and of an MMS notification, unpacked as septets, the original exactly when it is one character followed by zeros |
| `Sms.ParseSubmit` | mocha-ril/sms.c:179-185 | a submission is failed before any parsing exactly when a part is missing or both are too large |
| `Sms.CompleteSendSms` | mocha-ril/sms.c:173-280 | the whole conversion of a submitted PDU refines ParseSubmit, whose fields the next rows tie to what was written |
| `SmsForward.CentreSent` | mocha-ril/sms.c:234-236 | for any submission that is sent, with a service centre written as length, type and semi-octets of up to 22 decimal digits: the modem is given exactly that number, its even-rounded length, and international exactly for the type 0x91 |
| `SmsForward.TypeSent` | mocha-ril/sms.c:203-250 | whatever is sent has a status report and a header exactly as bits 5 and 6 of its type say, exactly if the type has neither bit or is 0x21, 0x41 or 0x61 |
| `OwnSeptets.FixedText` | mocha-ril/util.c:82-113 | octets that are unpacked although they are no packed text come out as they are exactly when they are one 7-bit character followed by zeros |
| `SmsForward.NameIsLost` | mocha-ril/sms.c:435-445 | an alphanumeric sender never comes back: its announced length is not its length |
| `SmsForward.OtherCharactersAreLost` | mocha-ril/sms.c:447-466 | a sender with any character but decimal digits never comes back |
| `SmsForward.ForwardRoundTrip` | mocha-ril/sms.c:173-280 | for every received message, 7-bit, Unicode or MMS, in one part or several, from any sender: put into a submission to its sender it reaches the modem with the same number, length, body and alphabet, for the service centre that was named and with the status report that was asked for, exactly if the sender is a number of decimal digits, the type is one the parser knows, and the text survives (7-bit text unless a multi-part one goes on after a NUL; Unicode unless flash or shorter than its header; MMS only if it is one character) |
| `Utf8.Marked` | mocha-ril/util.c:216-248 | ORing a prefix into a byte is adding it: the bits are clear |
| `Utf8.Utf8Write` | mocha-ril/util.c:216-248 | `utf8_write` puts the octets of section 3 of RFC 3629 at the offset, returns their number, and leaves what is before them |
| `Utf8.FirstBack` | mocha-ril/util.c:216-248 | the decoder of section 4 of RFC 3629 reads a written number back with its length, exactly unless it is a surrogate |
| `Utf8.TextRoundTrip` | mocha-ril/ss.c:62-66 | a written text decodes to its units exactly when none is a surrogate, and not at all otherwise |
| `Utf8.SentTextRoundTrip` | mocha-ril/ss.c:59-66 | text written big-endian from any 16-bit units, of even length or cut by one octet: what it is turned into decodes to those units exactly when none is a surrogate |
| `Utf8.Ucs2ToUtf8` | mocha-ril/ss.c:59-66 | decoding what the loop writes for the big-endian text of any units gives the units back exactly when none is a surrogate; the encodings lie one right after the other, and the terminator fits the buffer of 4 len + 1, the octet behind a text of odd length included |
| `Transport.Sender.Send` | mocha-ipc/device/wave/wave_ipc.c:234-286 | `wave_ipc_send` writes the header and the fragments of a large packet, or the packet itself; the send loop terminates |
| `Transport.ChunksWhole` | mocha-ipc/device/wave/wave_ipc.c:258-278 | the fragments have 1 to 0xFF4 octets, all but the last 0xFF4, and together are the packet's data |
| `Transport.HeaderFields` | mocha-ipc/device/wave/wave_ipc.c:248-256 | the header of a large packet spells 2, the length and the type, four octets each, least significant first |
| `Transport.U32RoundTrip` | mocha-ipc/ipc_dispatch.c:92-98 | the receiver reads the length and type the sender put into the header |
| `Transport.Dispatcher.Dispatch` | mocha-ipc/ipc_dispatch.c:49-126 | `ipc_dispatch`: a header starts a packet, a fragment extends it within its announced size and delivers it when complete, other frames are delivered at once |
| `Transport.FeedChunks` | mocha-ipc/ipc_dispatch.c:89-110 | the remaining fragments of a packet complete it exactly unless the last has 12 octets |
| `Transport.PacketRoundTrip` | mocha-ipc/ipc_dispatch.c:89-110 | for every packet of less than 2^31 octets, in any receiver state: it is delivered once with its command and bytes and the receiver is idle again, exactly unless its last fragment has 12 octets, when nothing is delivered |
| `Transport.StreamRoundTrip` | mocha-ipc/ipc_dispatch.c:49-126 | any sequence of packets, small and large, arrives as that sequence without the misread ones, and no buffer is left |
| `Transport.ReadableAll` | mocha-ipc/ipc_dispatch.c:89-101 | the whole sequence arrives exactly when no packet's last fragment has 12 octets |
| `Transport.DeliveredGrows` | mocha-ipc/ipc_dispatch.c:49-126 | what was delivered stays delivered and does not influence reassembly |
| `Transport.Interleaved` | mocha-ipc/ipc_dispatch.c:49-126 | a frame of another kind between any two frames is delivered in its place and disturbs nothing |
| `Transport.ForeignIgnored` | mocha-ipc/ipc_dispatch.c:49-126 | for any frames in any order: the packet being put together is that of the internal frames alone, and the deliveries are those of the internal frames and all other frames, merged in order |
| `Transport.InterleavedStream` | mocha-ipc/ipc_dispatch.c:49-126 | large packets with any frames of other kinds, small packets among them, anywhere between their fragments: all but the misread packets and all other frames arrive, both in order |
| `LinkedList.ListHead.constructor` | mocha-ril/util.c:45-63 | `list_head_alloc` links the new node between its neighbours |
| `LinkedList.List.Register` | mocha-ril/mocha-ril.c:78-102 | walking to the tail and linking a node appends to the sequence the list stands for, and keeps next and prev inverse |
| `LinkedList.List.Unregister` | mocha-ril/mocha-ril.c:104-127 | removes exactly the first node with the data, be it head, middle, last or only node |
| `LinkedList.List.Free` | mocha-ril/util.c:65-77 | `list_head_free` unlinks node k and keeps the list well formed |
| `LinkedList.RemoveFirstCounts` | mocha-ril/mocha-ril.c:104-127 | exactly one occurrence is removed, if there is one |
| `SimIo.Queue.Register` | mocha-ril/sim.c:576-612 | appends a waiting request |
| `SimIo.Queue.Unregister` | mocha-ril/sim.c:614-637 | takes one request off the list |
| `SimIo.Queue.FindToken` | mocha-ril/sim.c:657-676 | finds the first listed request with the token |
| `SimIo.Queue.Transmit` | mocha-ril/sim.c:705-777 | sends the packet of the command, and nothing for an unsupported one |
| `SimIo.Queue.NextRequest` | mocha-ril/sim.c:678-703 | starts the head of the list and sends its packet, if it has one, or leaves the token NULL |
| `SimIo.Queue.Arrive` | mocha-ril/sim.c:779-860 | refuses a malformed request; lists any other, and starts it if nothing is outstanding and the service centre number is known |
| `SimIo.Queue.Respond` | mocha-ril/sim.c:240-346 | answers and unlinks the request in flight, and starts the next |
| `SimIo.Queue.ReceiveSmscNumber` | mocha-ril/sim.c:215-238 | releases requests held back for the service centre number |
| `SimIo.FoundAtHead` | mocha-ril/sim.c:248-254 | in every reachable state the token in flight is found at the head of the list |
| `SimIo.StepKeeps` | mocha-ril/sim.c:240-860 | every event keeps the queue invariant |
| `SimIo.QueueInvariant` | mocha-ril/sim.c:576-860 | over every run: accepted tokens are the completed ones followed by the listed ones, in order; requests are started once each in that order with at most one unanswered; what was sent for them is exactly the packets of those started, none for an unsupported command; a NULL token means an empty list, the waiting marker a nonempty list with nothing started; the head alone is not waiting |
| `SimIo.Drains` | mocha-ril/sim.c:330-342 | n responses complete the first n listed requests, each with its own token, and put the next in flight |
| `SimIo.OnlyResponsesAdvance` | mocha-ril/sim.c:833-836 | without a response nothing moves: the request in flight stays, later ones only queue up |
| `SimFiles.UpdateRecord` | mocha-ril/sim.c:744-762 | an UPDATE_RECORD with hexadecimal text, in letters of either case, changes the record it names to the octets of the text if they fill it, and nothing else |
| `SimFiles.UpdateThenReadRecord` | mocha-ril/sim.c:717-762 | on a SIM of files and records, for requests as they come: a record updated with hexadecimal text and then read with the same p1, p3 being the number of octets, yields exactly the octets of the text, if they are fewer than 2^16, and their first so many otherwise; every other record and file stays |
| `SimFiles.UpdateThenReadBinary` | mocha-ril/sim.c:717-762 | the same for the binary commands, at the offset p1 of a file that has room: the octets before and behind stay |
| `SimFiles.SeekFinds` | mocha-ril/sim.c:763-772 | a SEEK finds the first record from p1 on that begins with the octets of its text, p3 being their number, exactly if there are at most 255: the length is passed in an octet |
| `SimFiles.ResponseAsksFile` | mocha-ril/sim.c:714-717 | GET_RESPONSE asks about its file and changes nothing |
| `SimFiles.RefusedArguments` | mocha-ril/sim.c:791-817 | a request is refused exactly for a PIN2, or data with no octet, or with 0x20 as its first octet |
| `SimFiles.RunWrites` | mocha-ril/sim.c:576-860 | over every run of the queue: a record of the SIM holds what the last of the started requests that fills it asked for, the started ones being the first in order of arrival |
| `SimFiles.HeldUntilNumber` | mocha-ril/sim.c:833-841 | over every run: nothing is held back once the service centre number was read; until then nothing is started, unless the modem replies to something it was not sent |
| `SimFiles.CentreRecordRead` | mocha-ipc/sim.c:179-203 | when the SIM becomes ready and the modem tells the size of the service centre file, the whole of its first record is asked for |
| `SimExchange.Link.ParseEvent` | mocha-ipc/sim.c:137-229 | `sim_parse_event` takes a reply to the queue, except that a file info of the service centre file is followed by a read, and that a read of it goes to `ipc_sim_smsc_number` |
| `SimExchange.Link.ReadySim` | mocha-ril/sim.c:79-81 | the service centre file is asked for when the SIM is ready and its number not known |
| `SimExchange.AnsweredBearer` | mocha-ril/sim.c:705-777 | a request sends a packet that leads to a response exactly if its command is supported and it does not ask for info or contents of file 0x6F42 |
| `SimExchange.ExchangeInvariant` | mocha-ipc/sim.c:179-220 | over every run of queue and modem: a packet that leads to a response is outstanding exactly while an answered request is the one started |
| `SimExchange.CompletesUpToBlocker` | mocha-ril/sim.c:678-777 | over every run: only requests before the first unanswered one are completed, and all of them once the modem has replied on everything it was sent and the service centre number is known; so all requests are completed exactly if all are answered |
| `SimExchange.AdvancesIffAnswered` | mocha-ril/sim.c:769-777 | in every reachable state the queue can get past a started request, by whatever happens, exactly if the request is answered |
| `SimExchange.StaysBlocked` | mocha-ril/sim.c:769-777 | a started request that is not answered stays at the head through any events |
| `SimExchange.SecondNeverStarts` | mocha-ril/sim.c:773-775 | after a first request that is not answered the second never starts, whatever happens |
| `SimExchange.BlockingInputs` | mocha-ipc/sim.c:182-209 | two inputs that block the queue for good: command 242, and a request for the info of file 0x6F42 |
| `SmsQueue.Queue.SubmitMessage` | mocha-ril/sms.c:173-290 | hands the message over, or fails it and takes the next; the mutual recursion with NextMessage terminates because the list shrinks |
| `SmsQueue.Queue.NextMessage` | mocha-ril/sms.c:135-171 | takes messages off the list until one is handed over or none is left |
| `SmsQueue.Queue.Arrive` | mocha-ril/sms.c:292-365 | malformed requests are failed and advance the queue; others are listed or submitted |
| `SmsQueue.Queue.ReceiveSmscNumber` | mocha-ril/sim.c:215-238 | the first service centre address read, 15 octets from the end of its record, is kept as hexadecimal text; not ok exactly where the C code reads outside the record |
| `SmsQueue.Queue.ReceiveStatus` | mocha-ril/sms.c:30-56 | completes the message in flight and takes the next |
| `SmsQueue.StepKeeps` | mocha-ril/sms.c:30-365 | every event keeps the accounts of accepted, sent, listed, completed and lost messages |
| `SmsQueue.FifoExactlyOnce` | mocha-ril/sms.c:30-365 | over every run with the modem ready: the accepted tokens are the completed ones, the one in flight and the listed ones, in order, exactly if no malformed request came while a message was in flight; in any case messages are handed over once each in order, and a NULL token means an empty list |
| `SmsQueue.OneInFlight` | mocha-ril/sms.c:336-344 | with no loss, the messages handed over are those reported on and at most one more |
| `SmsOutcomes.OutcomesToldByHistory` | mocha-ril/sms.c:292-365 | over every run, from the events alone: the number known is the one read first; accepted are the requests with a message and a service centre, own or known, each with its own octets and its own centre or else the known one; exactly the others are refused, in order; exactly the started ones that are too large end with the advice to try again, in order; the results passed on are those reported, in order |
| `SmsOutcomes.ReportsCompleteTheirMessages` | mocha-ril/sms.c:30-56 | with no loss, the nth report of the modem completes the nth message handed over, with its token and with the result reported |
| `SmsOutcomes.SimCentreSent` | mocha-ril/sms.c:326-334 | a message without a service centre of its own goes to the number on the SIM |
| `SmsOutcomes.SizeLimit` | mocha-ril/sms.c:179-185 | a message is failed before it is looked into exactly if it or its service centre is empty, or its octets and twice those of the service centre are 510 or more |
| `SmsQueue.MalformedLosesToken` | mocha-ril/sms.c:355-364 | how a malformed request loses the token of the message in flight |
| `Calls.CallTable.NewContext` | mocha-ril/call.c:45-58 | takes the first free slot, or none if all are taken |
| `Calls.CallTable.FindContext` | mocha-ril/call.c:60-72 | finds the first call with the identity |
| `Calls.CallTable.ReleaseContext` | mocha-ril/call.c:74-87 | frees exactly the slot of the call |
| `Calls.CallTable.ReceiveIncoming` | mocha-ril/call.c:89-118 | a call comes in |
| `Calls.CallTable.EndCall` | mocha-ril/call.c:120-139 | completes what is pending and frees the slot, with success on end and failure on error |
| `Calls.CallTable.ReceiveSetup` | mocha-ril/call.c:141-156 | names the dialed call and completes what is pending on the call of that identity |
| `Calls.CallTable.ReceiveAlert` | mocha-ril/call.c:158-169 | the call is alerting |
| `Calls.CallTable.ReceiveConnected` | mocha-ril/call.c:171-187 | the call is active, and what is pending is completed |
| `Calls.CallTable.ReceiveHold` | mocha-ril/call.c:228-249 | hold confirmed or refused |
| `Calls.CallTable.ReceiveSwap` | mocha-ril/call.c:251-273 | swap confirmed or refused |
| `Calls.CallTable.ReceiveActivate` | mocha-ril/call.c:275-295 | activation confirmed or refused |
| `Calls.CallTable.Dial` | mocha-ril/call.c:315-370 | fills a free slot unless one is dialing; the C code's check for a request pending on the new call never fails |
| `Calls.CallTable.GetCurrentCalls` | mocha-ril/call.c:372-406 | lists the named calls |
| `Calls.CallTable.Hangup` | mocha-ril/call.c:408-429 | stores the request with the indexed call, or fails; not ok for an index outside 1 to 6, with which the C code reads outside the table |
| `Calls.CallTable.Scan` | mocha-ril/call.c:443-470 | the last named call of each state, unless a call among them has a request pending |
| `Calls.CallTable.HangupWaitingOrBackground` | mocha-ril/call.c:431-522 | which call is released, and which requests fail |
| `Calls.CallTable.HangupForegroundResumeBackground` | mocha-ril/call.c:524-579 | which call is released, and which requests fail |
| `Calls.CallTable.Answer` | mocha-ril/call.c:581-601 | every incoming call gets the request, up to one that has a request pending |
| `Calls.CallTable.SwitchWaitingOrHoldingAndActive` | mocha-ril/call.c:686-765 | which calls are held, activated or swapped, and which requests fail |
| `CallRuns.StepLedger` | mocha-ril/call.c:120-765 | one event: a request is completed or stored exactly once exactly in a safe state (for answer: one incoming call, or the first has a request pending; for switch: not only a waiting call), and no other request's account changes |
| `CallRuns.OneCopy` | mocha-ril/call.c:585-597 | an answer leaves exactly one copy of the request exactly in a state that is safe for it |
| `CallRuns.AnswerLost` | mocha-ril/call.c:585-597 | an answer with no incoming call is lost |
| `CallRuns.AnswerDuplicated` | mocha-ril/call.c:585-597 | an answer with several incoming calls is accounted for more than once |
| `CallRuns.SwitchLost` | mocha-ril/call.c:722-765 | a switch with nothing but a waiting call is lost |
| `CallRuns.AnswerKeptTwice` | mocha-ril/call.c:585-597 | a run from the start: two calls come in, and an answer is pending with both |
| `CallRuns.SwitchForgotten` | mocha-ril/call.c:722-765 | a run from the start: a call is answered, a second one waits, the first ends, and a switch is neither completed nor kept |
| `CallRuns.OnRequestLedger` | mocha-ril/mocha-ril.c:333-344 | a modem that is not ready has a request completed with an error and then handled: it is accounted for exactly once if the modem is ready and the state safe, or if it is not and the request is forgotten |
| `CallRuns.TokenConservation` | mocha-ril/call.c:89-765 | over every run with the modem ready in which every request comes in a safe state, each request is completed or pending exactly as often as it was made |
| `CallRuns.ExactlyOnce` | mocha-ril/call.c:89-765 | over every run with the modem ready, a request made once is either completed once and stored nowhere, or not completed and stored in one slot, exactly if the state it came in was safe |
| `CallRuns.RequestStored` | mocha-ril/call.c:408-765 | a request that comes in a safe state is completed at once, or stored with a call that had none pending and that the last command sent for it is about |
| `CallRuns.ReplySettles` | mocha-ril/call.c:120-313 | the modem's reply on a command about a call completes what is pending on that call, and nothing else, with the reply's success; then the table shows the command as carried out |
| `CallRuns.RequestStays` | mocha-ril/call.c:120-765 | over any run that settles neither the call of a command nor ends the one it is swapped with, the request stays pending with the call |
| `CallRuns.ReplyCompletesRequest` | mocha-ril/call.c:120-765 | requests and replies fit over runs, for hangup, both compound hangups, answer and switch: through any events with fresh identities that leave its last command, the reply on its first one included, a request stays pending; the reply on the last command then completes it, and no other, with its success, and the table shows the command as carried out |
| `CallRuns.BothReplies` | mocha-ril/call.c:524-579 | the two-command requests in the order they run: the reply on the first command completes nothing, that on the second the request |
| `CallChoice.HangupWaitingOutcome` | mocha-ril/call.c:431-522 | told by the calls in the table: with a request pending on a call it looks at the request fails; else the released call is a waiting one that stands beside an active or held one, else an active, a held, a lone waiting, an incoming one, in the highest slot of that state; every other call stays, the modem's report completes the request, and without such a call it succeeds at once |
| `CallChoice.HangupForegroundOutcome` | mocha-ril/call.c:524-579 | of an active and a held call the active one ends and the held one becomes active; a lone one of them ends; the replies complete the request, every other call stays |
| `CallChoice.SwitchOutcome` | mocha-ril/call.c:686-765 | after the replies the active call is held and the held one active, or else the waiting one; a held call beside a waiting one stays held and the waiting one is active; a lone active call is held, a lone held one active; the request completes, every other call stays; a lone waiting call and the request are dropped |
| `CallChoice.AnswerOutcome` | mocha-ril/call.c:581-601 | the one incoming call becomes active with the reply, and the request completes; it fails with one pending |
| `CallChoice.HangupOutcome` | mocha-ril/call.c:408-429 | a hangup by index releases that call, which then is gone, every other one staying; it fails with no such call or a request pending on it |
| `CallChoice.DialOutcome` | mocha-ril/call.c:315-370 | the number goes to the modem and enters the lowest free slot, exactly if there is one and no call is being dialed |
| `CallChoice.IncomingOutcome` | mocha-ril/call.c:89-118 | a call that comes in takes the lowest free slot and waits exactly if it stands beside an active or held one |
| `CallChoice.RefusedOutcome` | mocha-ril/call.c:228-295 | a refused hold, swap or activation leaves every call as it is and fails the request |
| `CallChoice.AlertOutcome` | mocha-ril/call.c:158-169 | an alert report makes the call alerting and changes nothing else |
| `CallChoice.CallsToldTruly` | mocha-ril/call.c:372-400 | over every run: a listed call is mobile terminated exactly if it came in, has the number it came in or was dialed with, is of type 145 exactly if that starts with +, and else 129, and has the state of its slot |
| `CallRuns.IdsDistinct` | mocha-ril/call.c:45-87 | with fresh identities from the modem, live calls have distinct identities in every reachable state, so at most one is the unnamed 0xFF |
| `CallRuns.NamingCompletesDial` | mocha-ril/call.c:141-156 | the naming of a dialed call completes the dial request and no other |
| `CallRuns.StepKeepsCall` | mocha-ril/call.c:89-765 | a named call keeps its slot through every event that does not end it |
| `CallRuns.CallsReported` | mocha-ril/call.c:372-397 | the named calls, and no others, are reported once each, in slot order, with the number of their slot |
| `CallRuns.IndexStaysValid` | mocha-ril/call.c:408-429 | until a call ends, a hangup by its index releases that call or fails because a request is pending on it |
| `CallRuns.ReportedIndexHangsUp` | mocha-ril/call.c:372-429 | an index out of the list of calls still hangs up that very call any number of events later |
| `NetSearch.Networks.Clear` | mocha-ril/network.c:60-74 | empties the list |
| `NetSearch.Networks.FindPlmn` | mocha-ril/network.c:76-95 | the first entry with the PLMN |
| `NetSearch.Networks.AddEntry` | mocha-ril/network.c:344-368 | one round: a new PLMN is appended, a known one replaced only for a greater system type |
| `NetSearch.Networks.Search` | mocha-ril/network.c:338-368 | the list after the loop is the fold of the entries, and so the selection below |
| `NetSearch.SearchSelects` | mocha-ril/network.c:344-368 | for every search result: each PLMN once, in order of first appearance, each with its first entry of the greatest system type |
| `NetSearch.DecimalInjective` | mocha-ril/network.c:353 | numbers printed with %d are equal exactly when the numbers are |
| `NetSearch.DecimalBack` | mocha-ril/network.c:353 | a printed number is decimal digits that stand for the number |
| `NetSearch.PlmnSpells` | mocha-ril/network.c:348-353 | a PLMN reads as the MCC and then the MNC, in two digits up to 99 and in three above |
| `NetSearch.PlmnTellsApart` | mocha-ril/network.c:348-353 | for MCC 100 to 999 and MNC up to 999 the printed PLMN is injective in (MCC, MNC) |
| `NetSearch.LongMncCollides` | mocha-ril/network.c:348-353 | an MNC above 999 shares its printed PLMN with another network |
| `NetSearch.CellInfoAgrees` | mocha-ril/network.c:284-299 | the PLMN number of the cell-info path is that of the search exactly when the MNC is broadcast in three digits from 100 on and in two below |
| `Radio.Ril.StartSystem` | mocha-ril/pwr.c:35-64 | power LPM, radio off, version stored, tokens checked; not ok exactly for a text of more than 32 characters, whose terminator the C code writes outside its field |
| `Radio.Ril.StoreVersion` | mocha-ril/pwr.c:46-51 | the text is copied into the field and terminated; one that is not terminated within its packet only cuts what is stored |
| `Radio.Ril.RequestRadioPower` | mocha-ril/pwr.c:71-98 | refused while power is off; otherwise the states follow the request, through `network_start` |
| `Radio.Ril.UpdateState` | mocha-ril/sim.c:423-459 | the SIM state is kept; at normal power the radio state follows it and tokens are checked |
| `Radio.Ril.OpenSim` | mocha-ril/sim.c:39-64 | card events |
| `Radio.Ril.CheckTokens` | mocha-ril/mocha-ril.c:257-264 | the parked version request is made again and cleared once the radio is on |
| `Radio.Ril.RequestBasebandVersion` | mocha-ril/misc.c:40-48 | answered if a version is known, parked otherwise |
| `Radio.StatesConsistent` | mocha-ril/pwr.c:35-98 | in every reachable state the radio is not OFF exactly if power is NORMAL, and at NORMAL the radio is SIM_READY exactly if the SIM is READY |
| `RadioHistory.StatesToldByHistory` | mocha-ril/sim.c:39-74 | over every run, from the events alone: the power is that of the last start or power request, the SIM state is the one last reported, and at NORMAL the radio is SIM_READY for a ready card, ON before any other report since power was asked for, SIM_LOCKED_OR_ABSENT for a card that is missing, blocked or asks for a code, and SIM_NOT_READY for any other; the version is that of the last start, or the first characters of the one before it if its text ends past its packet |
| `RadioHistory.RepliesToldByHistory` | mocha-ril/pwr.c:71-98 | over every run, at every event: a version reply carries the version of the last start; a power request gets one power reply, refused exactly before the first start |
| `RadioHistory.VersionAnsweredAtOnce` | mocha-ril/misc.c:40-48 | a version request is answered at once, with the version of the last start, exactly if that is not empty |
| `Radio.StepLedger` | mocha-ril/mocha-ril.c:257-264 | an event keeps every version request answered or parked, unless it drops the parked one; exactly when it does |
| `Radio.AnsweredOnce` | mocha-ril/mocha-ril.c:257-264 | over every run with the modem ready each version request is answered once or parked exactly if no event dropped one; each drop loses one request |
| `Radio.NeverDropped` | mocha-ril/misc.c:40-48 | with version texts that are not empty and terminated within their packet nothing is dropped exactly if no second request comes while one is parked and no version is known |
| `Radio.EmptyVersionLosesToken` | mocha-ril/mocha-ril.c:257-264 | after an empty version text the token check loses a parked request |
| `Connections.Connections.UnusedCid` | mocha-ril/gprs.c:240-260 | the least id from 1 to the bound that no connection has, or 0 |
| `Connections.Connections.Register` | mocha-ril/gprs.c:141-165 | appends a connection with the id |
| `Connections.Connections.StartConnection` | mocha-ril/gprs.c:232-281 | a new connection with the least free id, or the list as it was when there is none or its interface can not be created |
| `Connections.Connections.StopConnection` | mocha-ril/gprs.c:283-295 | removes exactly that connection |
| `Connections.CidsAllocated` | mocha-ril/gprs.c:141-295 | for any bound, over every run: live ids are distinct and in 1..bound, the next start takes the least free one, and there is none exactly if bound connections live |

## Left out

- Sockets, devices, files, logging, NV data, threads and locks, `malloc` failure, frees and double frees.
- The SRS, sound, Bluetooth, GPS, test-mode and TAPI wrappers: fixed-layout copies.
- The Jet transport: the loop of Wave with a header that is freed before it is sent.
- Transport.Dispatcher.Dispatch: an internal frame for which no buffer of the announced size is live makes the C code write outside its memory; the model says so (not ok) instead of modelling what then happens. The magic word of a frame is a constant and not carried.
- Sms.BuildUserData: messages are 1 to 160 octets long, 7-bit text consists of septets and has its five header octets when it is multi-part, which the C code relies on; messageBody after messageLength is NUL, as `strncat` would otherwise copy past its buffer.
- Sms.AppendAddress: the sender fits its field of 20 characters, and an alphanumeric one is 7-bit and not empty.
- SmsForward.ForwardRoundTrip: the submission is built for the purpose, for a service centre of at most 22 decimal digits, which its field of 24 characters has room for, and with the header bit of its type as in the message.
- Sms.CompleteSendSms: where the C code would read past the PDU or overrun a field the model says OutOfBounds; fields that are constants (NPI, validity, class) are not carried.
- The rest of the DELIVER PDU (service centre, type, time stamps printed with `strftime`) and status reports.
- SmsQueue.Queue.SubmitMessage: a message whose parsing leaves the C code's buffers counts as handed over; listed messages are values, so two equal ones are not told apart.
- SimIo.Queue.Respond: what the reply contains, and the file tables behind it.
- SimFiles.UpdateThenReadBinary: the SIM takes the index field of a packet for the offset; p2, which holds the low octet of the offset in TS 51.011, is not sent at all.
- SimFiles.UpdateThenReadRecord: a record takes octets that fill it; what a SIM does with fewer or more is not modelled.
- SmsQueue.Queue.ReceiveSmscNumber: a record that is read outside its bounds leaves the number empty.
- SimIo.Queue.Transmit: packet fields that are constants, and the framing of packets; the modem is taken to reply with the file it was asked for.
- SimIo.QueueInvariant: tokens of requests are neither NULL nor the waiting marker 0xFF, which the C code takes for granted.
- Utf8.Ucs2ToUtf8: a plain `char` that is signed.
- Calls.CallTable.Scan: the compound requests scan the table with a loop each; the model has one loop with the states as a parameter.
- Radio.Ril.StartSystem: what follows once the C code has written the terminator of a longer text outside its field; runs have texts of at most 32 characters.
- Connections.CidsAllocated: `MAX_CONNECTIONS` is any bound; the tunneling thread and the interface itself are left out.
- The IMEI and IMSI tokens of the token check, DTMF and lock-status tokens, call fail causes, network modes and the text of the search reply: single-branch facts.
- The request list of mocha-ril.c, in which nothing in the repository registers a request, beyond the list operations it shares with the other queues.
- SmsQueue.FifoExactlyOnce: the modem is ready; where it is not, `ril_on_request` completes a request before it is handled all the same. So for the other results on runs of requests, but for `CallRuns.OnRequestLedger`.
