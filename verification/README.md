# A verified model of the O-KAM native camera transport

The repository talks to a camera over an undocumented UDP protocol (CS2/PPPP) and shares one
live H.264 stream among viewers. This project models four parts of it in Dafny and proves what
they promise:

1. the reliable ordered channel of `CS2Session`: chunking, 16-bit wrapping sequence numbers,
   acknowledgement, timed retransmission, the 64-entry reorder buffer;
2. what lies around it: the rendezvous that finds a peer, the mixed clear and encrypted
   envelopes, the service parameter, and the framing of commands on channel 0;
3. the shared stream session: the incremental NAL unit scanner, the lifecycle of viewers,
   idle timers, helper processes and pump threads, and the bounded drop-oldest queues;
4. the C parsers that duplicate two of the Python ones, and the exact inputs on which they agree.

`dafny verify dfyconfig.toml` checks the whole project.

## How it is modelled

- What the source updates in place is a class: `Session.CS2Session` (`CS2Session.dfy`) for the
  connected session, and `MediaMemory.NativeStreamSession` for the scanner's buffers. Their
  methods keep the source's loops and branches and are proved equal to functions
  (`Channel.Accept`, `Retransmission.PassOutcome`, `Rendezvous.Learn`, `Scanner.Feed`, ...)
  about which the theorems are proved.
- The network is a run of events in `Link`: a frame or an acknowledgement, once sent, may arrive
  at any later time, any number of times, in any order, or never. Beneath the 16-bit numbers each
  frame has an absolute index that neither end can see.
  `Endpoints` shows that the methods of two sessions carry out exactly these events.
- The lifecycle is a state machine in `Lifecycle` whose steps are the blocks under the session's
  lock, the firing of a timer, a terminate, an exit, and single queue puts, so a run is any
  interleaving of the threads.
- The environment of a session is the list `feed`: the clock reading and the packet, if any, of
  each turn of a waiting loop. Times are whole milliseconds. `trace` is the list of packets in
  and out, in clear form; `Wire` proves that the envelopes around them can be taken off.

## Main results

- **Prefix safety** (`Link.ReaderSeesPrefix`). Under any loss, repetition and reordering and
  through any number of wraps, what a reader took followed by what waits for it is a prefix of
  what was written. It needs each delivered frame to arrive at a harmless offset from the expected
  one, and `Channel.HarmlessIsExact` shows that exactly these offsets are safe: the window ahead
  is half a circle, and everything in the half behind it is dropped, however long ago it was sent.
- **Acknowledged means delivered, up to 65 chunks** (`Link.WritesAreDelivered`,
  `WriteBound.WriteBoundIsExact`, and for the methods themselves `Endpoints.WriteAll`). A data frame
  is acknowledged before the room check, so an acknowledged frame can be discarded. With prompt
  acknowledgements, a normal return of `write` implies delivery if and only if the write has at most
  65 chunks; from 66 on there is a run that returns without having delivered. An acknowledgement is
  prompt if no later frame of the write has its number, and `Link.PromptIsExact` shows that exactly
  the prompt ones are safe.
  Every camera command needs at most 4 chunks (`Commands.RequestIsOneFrame`).
- **No leaked helper** (`Lifecycle.NoHelperLeaks`), in every interleaving.
- **What the scanner remembers does not depend on chunking**, trimmed or not, as long as no chunk is
  longer than 3 MiB less two octets, and `ScannerTrimming.ChunkBoundIsExact` shows this bound exact;
  the pump reads at most 64 KiB. For chunks of any size no unit is ever invented or spliced
  (`ScannerSoundness.TrimmingIsSound`).
- **Chunks are neither skipped nor repeated for a viewer** (`LiveFeed.CacheAndLiveDataMeet`): those
  scanned when it came and those offered since are all chunks scanned. This needs a guard on starting
  helpers, and `LiveFeed.StartGuardIsExact` shows the guard exact, for starts that succeed and starts
  that fail. It is a statement about chunks: of what was scanned before, a viewer is given only the
  three cached units (see `Splice` below).
- **Nobody is left waiting** (`EndMarks.NobodyIsForgotten`, `EndMarks.StreamsEnd`), in every
  interleaving: a viewer that loses its stream is sent one end mark. (A full queue can lose it, see
  `ViewerQueue.OfferedArrives`.)
- **Waiting ends for a reason**: `write`, `read_exact`, `read_command` and `connect` succeed if and only
  if what they wait for comes in turns before their deadline, and no turn fails before
  (`Turns.EndsWellIffAcked`, `Turns.ReadsIffFilled`, `FrameReading.ReturnsIffBrought`,
  `Attempts.ConnectsIffOffered`).
- **Rendezvous safety** (`Connect.Connect`, `Attempts.ConductedIsKept`), over every sequence of packets
  and clock readings.
- **Frame boundaries survive** every normal return and timeout on channel 0
  (`Commands.ReadCommand`, `Commands.AuthenticateCamera`).
- **Every packet built is taken in at the other end** (`Datagrams.PacketsArrive`), and `Layouts` states
  what each packet looks like and means, octet by octet, apart from the definitions that build and
  parse it. `Vectors` shows that the model has the octets the repository's own tests expect.

## Where the code does less than it seems to promise

Each of these is proved, with a run or an exact condition:

- a `write` of 66 or more chunks can return although a frame of it was neither appended nor is held
  (`WriteBound.OverflowRun`);
- a late copy of an old acknowledgement, whose number is in use again, can make even a `write` of one
  chunk return undelivered (`WriteBound.LateAcknowledgementRun`, `Link.PromptIsExact`);
- a `write` of more than 65536 chunks can return although a frame of it was never acknowledged
  (`Retransmission.WriteAcknowledgedIsExact`);
- a stop decided while nobody watches is carried out under a viewer who came in between
  (`Races.IdleStopRace`), and under no other (`Lifecycle.StopHitsNewcomers`);
- an old pump's last block can drop the viewer of the helper started after it
  (`Races.OldPumpDropsViewer`), exactly if it was running when that helper was started
  (`LiveFeed.DropIsExact`); then both pumps can also offer to one viewer, whose chunks no longer meet
  the cache (`Races.OldPumpGap`, `LiveFeed.StartGuardIsExact`);
- a start that fails empties the cache; viewers an old pump still serves are harmed exactly if there
  are any and something was scanned (`Races.FailedStartForgets`, `LiveFeed.StartGuardIsExact`);
- a viewer who comes in the middle of a unit is given the rest of it right behind the cached
  keyframe, so its decoder sees a spliced unit (`Races.SplicedKeyframe`): the keyframe arrives whole
  if and only if the live data begins with a start code (`Splice.SpliceIsExact`);
- a timer that fired late clears the reference to a newer timer (`Races.LateTimerLosesNewer`), and
  only such a timer does (`Timers.NamedIsExact`);
- queue overflow drops the preamble first (`ViewerQueue.PreambleComesFirst`); if the viewer takes
  items between the queue being found full and room being made, the oldest one left is dropped
  although there is room, or, if none is left, the item being offered
  (`ViewerQueue.OfferLosesOne`, `ViewerQueue.DropOldestIsExact`), so an end mark can be lost
  (`ViewerQueue.OfferedArrives`);
- two pumps that offer to one queue can put items in the wrong order, and one cannot
  (`ViewerQueue.WritersAreExact`);
- with a key whose octets add up to 27 modulo 256, no encrypted datagram is decoded
  (`Wire.DatagramsAreDecoded`);
- the C scan misses a bare start code whose NAL header is the last octet (`H264Inspection.CompareScans`),
  and the C result parser gives up on numbers beyond 1000009 (`ResultParser.ParseResultCode`).

## Model

| member | source | states |
|---|---|---|
| Channel.CircleIsModular | src/okam_native/cs2.py:650-657 | the piecewise successor and distance are the masked arithmetic on 16-bit numbers |
| Channel.AcceptTracks | src/okam_native/cs2.py:648-659 | a frame at a harmless offset appends exactly the frames it makes consecutive, and what is held stays right |
| Channel.HarmlessIsExact | src/okam_native/cs2.py:648-659 | the offsets at which a frame is safe for every stream and every receiver, in both directions |
| Channel.ReorderBufferIsBounded | src/okam_native/cs2.py:648-659 | whatever arrives, at most 64 frames are held, each strictly ahead by less than half a circle |
| Channel.ArrivalOrderIsIrrelevant | src/okam_native/cs2.py:648-659 | any arrival order and repetition of at most 65 consecutive frames ends in one and the same state |
| Link.ReaderSeesPrefix | src/okam_native/cs2.py:520-553 | end to end: taken and waiting bytes are a prefix of the written ones, in every timely run, however late acknowledgements come |
| Link.PromptIsExact | src/okam_native/cs2.py:535-539 | the acknowledgements that keep every round sound are exactly those with no later frame of the same number |
| Link.ReturnedIsDelivered | src/okam_native/cs2.py:524-539 | a promptly acknowledged write of at most 65 chunks that returns has delivered every byte in order and left nothing held |
| Link.WritesAreDelivered | src/okam_native/cs2.py:520-539 | the same over any sequence of such writes |
| WriteBound.OverflowRun | src/okam_native/cs2.py:645-659 | for every size from 66 chunks a promptly acknowledged run where the write returns and an acknowledged frame is neither appended nor held |
| WriteBound.WriteBoundIsExact | src/okam_native/cs2.py:524-539 | with prompt acknowledgements, returning always means delivered if and only if there are at most 65 chunks |
| WriteBound.LateAcknowledgementRun | src/okam_native/cs2.py:535-539 | a run in which a late acknowledgement makes a one-chunk write return undelivered |
| Retransmission.TransmissionsAreBounded | src/okam_native/cs2.py:661-676 | over every run: at most 20 transmissions, at least 500 ms apart, exhaustion no earlier than 10 s after the first |
| Retransmission.WriteAcknowledgedIsExact | src/okam_native/cs2.py:524-539 | each frame of a write that returns was acknowledged, in every run, if and only if there are at most 65536 chunks |
| Packets.DataRoundTrip | src/okam_native/cs2.py:529-530 | a data packet is read back as its channel, number and chunk |
| Packets.AckRoundTrip | src/okam_native/cs2.py:623-647 | the acknowledgement of a data packet removes exactly its key |
| Packets.ChunksCover | src/okam_native/cs2.py:525-526 | cutting a payload into chunks loses, repeats and reorders nothing |
| Packets.AddressRoundTrip | src/okam_native/cs2.py:134-156 | a usable address is decoded from its encoding |
| Opening.UidIsFaithful | src/okam_native/cs2.py:120-131 | identifiers with the same encoding have the same letters and number |
| Opening.UidOctets | src/okam_native/cs2.py:120-131 | which identifiers are accepted, and where their letters and their number go in the twenty octets |
| Vectors.UidVector | tests/test_cs2.py:64-67 | the octets of VSTN123456ABCDE |
| Opening.Open | src/okam_native/cs2.py:261-286 | a session is made exactly if the identifier and the parameter are well-formed, unconnected, and from what they mean |
| Session.CS2Session.HandleAck | src/okam_native/cs2.py:623-633 | exactly the keys of a well-formed acknowledgement leave the pending map |
| Session.CS2Session.HandleData | src/okam_native/cs2.py:635-659 | a well-formed frame is acknowledged to the peer and accepted by its channel, a malformed one changes nothing |
| Session.CS2Session.Retransmit | src/okam_native/cs2.py:661-676 | one pass sends each due entry once and counts it, or stops at an exhausted one, in any map order |
| Session.CS2Session.Pump | src/okam_native/cs2.py:581-621 | the whole effect of a turn: answers, drifted ports, foreign hosts, acknowledgements, data, and on a close whom it tells |
| Session.CS2Session.Close | src/okam_native/cs2.py:555-579 | one close packet to every endpoint touched and to the peer, once only |
| Session.CS2Session.Write | src/okam_native/cs2.py:520-539 | each chunk goes out once under consecutive numbers; the write returns if and only if the peer acknowledges all of them in turns that come before the deadline and do not fail, and otherwise time is up or the next turn fails |
| Session.CS2Session.ReadExact | src/okam_native/cs2.py:541-553 | hands over exactly the next bytes after what arrived in the turns it waited, or none; waiting bytes at once; a timeout means that time was up with too few bytes, a failure that the next turn fails |
| Turns.PassIsResend | src/okam_native/cs2.py:661-676 | a pass fails exactly if an entry half a second old was sent 20 times; otherwise each entry half a second old is sent once more |
| Turns.EndsWellIffAcked | src/okam_native/cs2.py:535-539 | waiting for acknowledgements ends well if and only if each key is acknowledged in some turn before the deadline, with no turn failing before |
| Turns.ReadsIffFilled | src/okam_native/cs2.py:547-550 | waiting for bytes ends well if and only if turns before the deadline, none of them failing, bring enough |
| Endpoints.Send | src/okam_native/cs2.py:526-534 | sending a chunk is the link's next frame, with its number, on the wire and pending |
| Endpoints.SenderTurn | src/okam_native/cs2.py:581-621 | a turn without an acknowledgement on the channel is no step, and what it sends again are frames of the link under their own numbers |
| Endpoints.ReceiverTurn | src/okam_native/cs2.py:581-621 | a turn without the peer's data on the channel is no step of the link |
| Endpoints.Deliver | src/okam_native/cs2.py:635-659 | an arriving frame is the link's delivery, and the answer acknowledges that frame |
| Endpoints.Acknowledge | src/okam_native/cs2.py:623-633 | an arriving acknowledgement is the link's acknowledgement |
| Endpoints.Take | src/okam_native/cs2.py:541-553 | a read is the link's deliveries in the turns it waits for and then its taking; what was returned is a prefix of what was written |
| Endpoints.WriteReturned | src/okam_native/cs2.py:535-539 | the loop condition of a returned write is what delivery is proved from |
| WholeWrite.WriteIsRun | src/okam_native/cs2.py:524-539 | sending all chunks and then waiting, turn by turn, is a run of the link, and what was acknowledged has left its pending numbers |
| Endpoints.WriteAll | src/okam_native/cs2.py:520-539 | a whole write is a run of the link; with at most 65 chunks, prompt acknowledgements and a normal return, everything was delivered |
| Rendezvous.PunchesProbe | src/okam_native/cs2.py:398-407 | punched are exactly the ports at most three from a known endpoint's |
| Rendezvous.RoundKeepsSound | src/okam_native/cs2.py:372-407 | the timed sends obey the rules on relay requests and port asks |
| Rendezvous.PacketKeepsSound | src/okam_native/cs2.py:422-515 | learning from any packet and answering it keeps those rules, and one relay stays chosen |
| Attempts.PathIsExact | src/okam_native/cs2.py:465-516 | which packet connects on which path, by its 24 octets, its identifier and its sender |
| Attempts.ConnectsIffOffered | src/okam_native/cs2.py:371-518 | an attempt connects if and only if a completing packet comes in a turn before the deadline, with every turn before it in time |
| Attempts.ConductedIsKept | src/okam_native/cs2.py:371-516 | the rules on relay requests and port asks, and on whom a close tells, hold for the traffic of every sequence of turns, and what came in is what those turns received |
| Connect.SendDue | src/okam_native/cs2.py:372-407 | sends exactly what is due and sets exactly those timers |
| Connect.Hear | src/okam_native/cs2.py:408-515 | what a packet changes, what it is answered with, and whether it connects |
| Connect.Connect | src/okam_native/cs2.py:327-518 | the traffic is that of the turns taken: in each, what is due is sent and what comes is answered; success: the last turn brought a packet with the camera's own identifier from no directory server, F1 84 on the relay or, without relay preference, F1 41 or F1 42, its sender is the peer and will be told of a close; failure: no such packet came before the deadline, and the session is closed and everyone who offered itself or was found is told |
| Layouts.RoundOctets | src/okam_native/cs2.py:372-407 | which lookups, greetings, list requests and punches go out in a turn, when, to whom, and no others |
| Layouts.RelayRoundOctets | src/okam_native/cs2.py:384-397 | which of the three relay packets goes out in a turn, when, and to whom |
| Layouts.LearnOctets | src/okam_native/cs2.py:422-455 | what each kind of packet teaches, by its octets and its sender, and that the others teach nothing |
| Layouts.RelayAnswers | src/okam_native/cs2.py:445-464 | the token goes twice to the target and twice to the server that names it; both ends of a relayed path are knocked at twice |
| Layouts.OfferAnswers | src/okam_native/cs2.py:465-516 | what an offer is answered with, on either preference, and that false offers are not answered |
| Layouts.AddressOctets | src/okam_native/cs2.py:146-156 | the sixteen octets that are an address, and which one |
| Layouts.RelayListOctets | src/okam_native/cs2.py:208-221 | a relay list holds exactly the usable addresses of its entries, or none if its size is wrong |
| Layouts.RequestOctets | src/okam_native/cs2.py:224-255 | a relay request carries the relay's host, the allocated port of octets 8 to 9, and the token of octets 4 to 7 |
| Vectors.AddressVector | tests/test_cs2.py:68-70 | 192.168.3.60 and port 0x1234 to their sixteen octets and back |
| Vectors.RelayVectors | tests/test_cs2.py:82-93 | the relay request for an answer with port 40000, and the relay punch |
| Vectors.RelayListVectors | tests/test_cs2.py:73-103 | one relay list that is read and three that are ignored |
| Layouts.AckedOctets | src/okam_native/cs2.py:623-633 | which keys a packet acknowledges, octet by octet |
| Layouts.AckedByOctets | src/okam_native/cs2.py:591-613 | only an acknowledgement from the peer's host, from whatever port, acknowledges |
| Layouts.ParsedOctets | src/okam_native/cs2.py:635-659 | which packets are data, and the channel, number and bytes they carry, octet by octet |
| Layouts.TouchedOctets | src/okam_native/cs2.py:416-434 | whom a close will tell because of a packet: who sent an offer, and the endpoint a lookup answer names |
| Layouts.ReplyOctets | src/okam_native/cs2.py:595-612 | what a packet is answered with on a connected session, octet by octet |
| Vectors.ReorderVector | tests/test_cs2.py:149-170 | the second frame before the first: both are appended in order |
| Vectors.DriftVector | tests/test_cs2.py:677-706 | media from another port of the peer's host is taken, from another host it is not |
| Layouts.SentToAllIsExact | src/okam_native/cs2.py:560-570 | what is sent to a set of endpoints goes to each of them, to no other, and once |
| Wire.CipherIsBijective | src/okam_native/cs2.py:173-191 | encryption and decryption undo each other both ways for every key |
| Wire.CipherIsSequential | src/okam_native/cs2.py:173-181 | equal clear prefixes have equal cipher prefixes |
| Cipher.HashIsSum | src/okam_native/cs2.py:159-170 | the first two hash values are the octet sum and its negative modulo 256 |
| Cipher.HashCombines | src/okam_native/cs2.py:159-170 | the hash of joined keys is their hashes combined: sums modulo 256, and exclusive or |
| Vectors.GreetingVector | tests/test_cs2.py:35-40 | under the public key F1 00 00 00 is encrypted to B1 96 EC 02 and back |
| Vectors.Envelopes | tests/test_cs2.py:43-61 | which of five packets travel clear, encrypted, or both ways |
| Wire.EncryptPacket | src/okam_native/cs2.py:173-181 | the loop computes the recursive cipher |
| Wire.DecryptPacket | src/okam_native/cs2.py:184-191 | the loop computes its inverse |
| Wire.EncodeWirePackets | src/okam_native/cs2.py:194-202 | which kinds travel clear, encrypted, or both ways |
| Wire.ReceiveClear | src/okam_native/cs2.py:678-696 | accepts only well-formed packets that are the datagram or encrypt to it |
| Wire.DatagramsAreDecoded | src/okam_native/cs2.py:678-705 | the clear form is always decoded; the encrypted form if and only if the key's octet sum is not 27 modulo 256 |
| Datagrams.ReceivedIsExact | src/okam_native/cs2.py:678-696 | taken in are exactly the datagrams that are, or decrypt to, a packet with F1 in front and a length field four less than its size |
| Datagrams.WrongLengthIsDropped | src/okam_native/cs2.py:689-696 | a clear datagram whose length field is not four less than its size is dropped |
| Datagrams.PacketsArrive | src/okam_native/cs2.py:678-705 | every packet a session or a rendezvous builds is taken in as it was sent: clear always, encrypted if and only if the key's octet sum is not 27 modulo 256 |
| ServiceParameter.CodecIsBijective | tests/test_cs2.py:489-500 | decoder and encoder are mutual inverses on all octet strings and all valid letter strings |
| ServiceParameter.ChainOf | src/okam_native/cs2.py:101-103 | recomputing from all earlier octets equals one running accumulator |
| ServiceParameter.ParameterRoundTrip | src/okam_native/cs2.py:86-117 | one to sixteen addresses and a key are recovered from their encoding |
| ServiceParameter.EncodeServiceParameter | tests/test_cs2.py:489-500 | the encoder with one running accumulator from 57 computes the encoding that is decoded |
| ServiceParameter.ItemsSkipEmpty | src/okam_native/cs2.py:107-109 | empty items of the server list are skipped |
| ServiceParameter.StrippedIsExact | src/okam_native/cs2.py:108 | exactly the zeros at the end are stripped |
| ServiceParameter.MeaningIsStrict | src/okam_native/cs2.py:89-117 | whatever is accepted is 2 to 4096 letters A to P, a colon and an ASCII key, and lists 1 to 16 addresses |
| ServiceParameter.DecodeServiceParameter | src/okam_native/cs2.py:86-117 | the loops compute the meaning, including every rejection |
| Commands.RequestIsOneFrame | src/okam_native/cs2.py:712-727 | a request is one frame and needs at most four chunks |
| Commands.RequestOctets | src/okam_native/cs2.py:712-727 | the octets of a request: its head with the length, then path, user and password in their places |
| Commands.RequestTellsPassword | src/okam_native/cs2.py:720-723 | two requests of one user for one path are the same only if the password is |
| Vectors.RequestVector | tests/test_cs2.py:118-127 | the text of a status request |
| Commands.RequestsRefused | src/okam_native/cs2.py:713-727 | exactly which texts are refused |
| Commands.WriteCommand | src/okam_native/cs2.py:730-739 | a request of eight octets or more goes to the peer whole, and returns if and only if it is acknowledged in turns within five seconds |
| Commands.ReadCommand | src/okam_native/cs2.py:742-759 | a return consumes exactly the next frame, a timeout nothing; a waiting frame is returned; a failure means that a turn failed, the header is wrong, or time is up behind a header |
| FrameReading.ReturnsIffBrought | src/okam_native/cs2.py:742-759 | a command is returned if and only if turns before the deadline, none of them failing, bring a whole one, though it is read in two parts |
| Commands.ReadResponse | src/okam_native/cs2.py:817-834 | the answer is the first that answers, and the position stays on a frame boundary; no answer means that time is up; a failure is that of a read within the window |
| Commands.TryCandidate | src/okam_native/cs2.py:860-866 | an attempt's result is that of the first login answer within its own window of at most fifteen seconds, or none came; it fails only if the request is not acknowledged or a read fails |
| Commands.AuthenticateCamera | src/okam_native/cs2.py:849-869 | accepted means the last candidate tried was the first answered with zero, rejected that none was and all were tried or time ran out, broken off that an attempt made in time failed; each attempt sent its own request and has its own answer; the login ends on a boundary |
| Commands.CandidatesAreDistinct | src/okam_native/cs2.py:785-796 | the given password first, the common and the empty one among the rest, none twice |
| Commands.CandidatesInOrder | src/okam_native/cs2.py:793-796 | the candidates are the given, the common and the empty password, each where it first occurs |
| Commands.StatusRequestsAre | src/okam_native/cs2.py:860-864 | each candidate's request asks for the status with that candidate's own password |
| ResultParser.FirstFromFindsFirst | src/okam_native/cs2.py:762-782 | a number is found exactly when some marker has one, and then the first such marker's |
| ResultParser.ReadingIsField | src/okam_native/cs2.py:765-781 | a marker has a number exactly when a field of the written form starts there |
| ResultParser.ParseResult | src/okam_native/cs2.py:762-782 | the Python loops find that number |
| Vectors.MinusOneVector | tests/test_cs2.py:106-115 | the number in quotes, with blanks and a minus, is -1 |
| ResultParser.ParseResultCode | native/hybris_connect/hybris_connect.c:133-157 | the C parser answers exactly when that number is at most 1000009 in magnitude, without overflow |
| H264Inspection.InspectH264 | src/okam_native/cs2.py:882-897 | the flags are those of the three-octet start codes; the four-octet branch adds nothing |
| H264Inspection.KeyUnitOctets | src/okam_native/cs2.py:886-896 | a start code sets the keyframe flag exactly before one of the sixteen headers of types 5 and 7 |
| Vectors.InspectionVectors | tests/test_cs2.py:143-146 | the flags of a final short start code, of a longer one, and of other octets |
| H264Inspection.InspectH264Payload | native/hybris_connect/hybris_connect.c:190-209 | the flags of the start codes the C scan can see |
| H264Inspection.CompareScans | native/hybris_connect/hybris_connect.c:190-209 | exactly when the two scans disagree |
| Scanner.ResumeScan | src/okam_native/session.py:189-200 | scanning on from the residue finds the rest of the units and the same residue |
| Scanner.UntrimmedIsWhole | src/okam_native/session.py:179-200 | while nothing is trimmed, any cut into chunks leaves even the buffer as one scan of the whole stream does |
| Scanner.RecordByHeader | src/okam_native/session.py:202-211 | which units replace which field, by the 24 header octets and the size limits |
| Scanner.TrimmedIsNewest | src/okam_native/session.py:186-188 | the newest 4194304 octets are scanned |
| Scanner.PreambleIsExact | src/okam_native/session.py:213-219 | there is no preamble exactly if a parameter set is missing or the units are more than 1 MiB |
| ScannerTrimming.ChunkingIsIrrelevant | src/okam_native/session.py:179-219 | trimmed or not, chunks of at most 3 MiB less two octets leave the same parameter sets, keyframe and preamble as one scan of the whole stream |
| ScannerTrimming.ChunkBoundIsExact | src/okam_native/session.py:186-206 | that holds for chunks of at most `n` octets if and only if `n` is within the bound |
| ScannerSoundness.TrimmingIsSound | src/okam_native/session.py:186-211 | the buffer is at most 4 MiB and an end of the stream; every recorded unit lies between two consecutive start codes |
| ScannerSoundness.CacheHoldsNewest | src/okam_native/session.py:202-211 | of each kind the newest kept unit is remembered |
| ScannerSoundness.JoinedUnit | src/okam_native/session.py:190-200 | joining units makes no new start code |
| ScannerSoundness.PreambleRebuildsCache | src/okam_native/session.py:190-219 | a fresh scanner fed the preamble and a start code remembers the same units |
| MediaMemory.NativeStreamSession.NoteMedia | src/okam_native/session.py:179-200 | the in-place scan has exactly the effect of one feed |
| MediaMemory.NativeStreamSession.RecordUnit | src/okam_native/session.py:202-211 | a unit of type 7, 8 or 5, whatever the bits above the type, and within the size limits, replaces its field, and no other unit replaces any |
| MediaMemory.NativeStreamSession.Forget | src/okam_native/session.py:245-247 | a new helper starts from an empty memory |
| MediaMemory.NativeStreamSession.PreambleBytes | src/okam_native/session.py:213-219 | the preamble of the remembered units |
| Lifecycle.RunIsLeakless | src/okam_native/session.py:86-113 | every run keeps: one helper, someone to stop it, and no viewer older than a decided stop |
| Lifecycle.NoHelperLeaks | src/okam_native/session.py:231-346 | from the start, at most one helper is live; when nothing is pending and nobody holds a subscription, or the session is closed, none is |
| EndMarks.NobodyIsForgotten | src/okam_native/session.py:284-300 | in every interleaving, a viewer that holds its subscription is subscribed, has been sent an end mark, or is owed it by one pump that can send it, and only one of these |
| EndMarks.MarksAreSentOnce | src/okam_native/session.py:293-300 | no pump sends an end mark to a viewer that is subscribed or has been sent one |
| EndMarks.StreamsEnd | src/okam_native/session.py:284-300 | when no pump runs and none owes an end mark, every viewer that holds its subscription has been sent one |
| EndMarks.SomePumpGoesOn | src/okam_native/session.py:275-300 | once the helpers have exited, as long as somebody waits for an end mark some pump has a step to take |
| Lifecycle.StopHitsNewcomers | src/okam_native/session.py:329-346 | a pending stop of a live helper hits a viewer exactly when one that came after the decision is subscribed |
| Lifecycle.QuietStopHitsNobody | src/okam_native/session.py:329-346 | as long as nobody new comes after the decision, nobody is hit |
| Timers.NamedIsExact | src/okam_native/session.py:91-113 | the one armed timer can be cancelled throughout a run if and only if no timer takes the lock late in it |
| Timers.AcquireDisarms | src/okam_native/session.py:90-92 | without a late timer, acquiring and closing leave no timer armed |
| Timers.ViewersAreUntimed | src/okam_native/session.py:90-113 | without a late timer, no timer is armed while anybody is subscribed |
| LiveFeed.CacheAndLiveDataMeet | src/okam_native/session.py:95-103 | chunks scanned before a viewer and offered since are all chunks scanned, up to one on its way, and the preamble is that of the first part scanned at once |
| LiveFeed.StartGuardIsExact | src/okam_native/session.py:93-103 | a start, successful or failed, keeps that for every subscribed viewer in every continuation without a new one if and only if it is guarded |
| LiveFeed.DropIsExact | src/okam_native/session.py:284-292 | the first viewer of a helper stays subscribed, until its own pump ends or it releases, in every continuation if and only if no earlier pump was running |
| LiveFeed.OwnPumpIsExact | src/okam_native/session.py:262-300 | only the session's own pump runs throughout a run if and only if no helper is started over a running pump |
| LiveFeed.OnlyOwnPumpActs | src/okam_native/session.py:284-292 | in such a run no older pump reads, offers, or drops a viewer |
| Races.IdleStopRace | src/okam_native/session.py:329-335 | a run in which an idle stop hits a new viewer |
| Races.OldPumpDropsViewer | src/okam_native/session.py:284-300 | a run in which an old pump ends a newer helper's viewer |
| Races.OldPumpGap | src/okam_native/session.py:262-283 | a run in which two pumps offer to one viewer and its chunks no longer meet the cache |
| Races.FailedStartForgets | src/okam_native/session.py:240-253 | a run in which a failed start empties the cache under a viewer |
| Splice.SpliceIsExact | src/okam_native/session.py:199-219 | from preamble and live data a viewer decodes the parameter sets always, and the keyframe whole if and only if the live data begins with a start code |
| Races.SplicedKeyframe | src/okam_native/session.py:95-103 | a run in which a viewer decodes the keyframe with the rest of another unit behind it |
| Races.LateTimerLosesNewer | src/okam_native/session.py:329-331 | a run in which the reference to a newer timer is lost |
| ViewerQueue.EachItemOnce | src/okam_native/session.py:46-65 | with any number of writers, end marks included: at most 32 wait, no item is in two places, nothing is taken behind an end mark |
| ViewerQueue.WritersAreExact | src/okam_native/session.py:275-283 | items stay in offer order in every run of a set of writers if and only if the set has not two |
| ViewerQueue.TwoWritersSwap | src/okam_native/session.py:275-283 | from every full queue, six steps of two writers that put two items in the wrong order |
| ViewerQueue.QueueHoldsNewest | src/okam_native/session.py:275-283 | one writer, not disturbed before it makes room, keeps exactly the 32 newest items not yet taken |
| ViewerQueue.OfferLosesOne | src/okam_native/session.py:278-283 | which item a disturbed overflow loses, for every number of takes |
| ViewerQueue.DropOldestIsExact | src/okam_native/session.py:278-283 | a disturbed overflow keeps the newest items if and only if nothing was taken before room was made |
| ViewerQueue.OfferedArrives | src/okam_native/session.py:293-300 | the item offered, be it the end mark, is lost exactly when all 32 were taken before room was made |
| ViewerQueue.EndMarkStops | src/okam_native/session.py:46-50 | an end mark that is taken is the last item taken, whatever is offered before or behind it |
| ViewerQueue.PreambleComesFirst | src/okam_native/session.py:96-102 | the preamble is taken first exactly when at most 31 chunks came before the first take |

## Left out

- Sockets, DNS, threads and real clocks: `feed` stands for them. It is finite, and when it is used up a waiting loop has run late. The clock is read once per turn of a loop.
- Network errors when sending or receiving, a socket that cannot be opened at all, counters and diagnostic text.
- Which characters are letters or digits, and what `int` makes of six digits, are parameters; the uncaught error of `int` for digits that are not decimal is one more rejection here.
- `inet_aton`: hosts are the four octets they resolve to, so a server written in another than the usual dotted form, which the source compares as text, counts as the same directory server here; whether a string is an address is a parameter; the uncaught error it raises for an embedded zero octet is one more rejection here.
- The three lists per channel are one list of `Channel.Receiver` values, and the locals of the connect loop are one `Negotiation.Progress` value.
- The order in which maps and sets are walked is left open, so results hold for any order.
- Link.ReaderSeesPrefix: assumes each delivered frame has a harmless offset; a frame delayed for half a circle or more in the unsafe direction is outside it, as `Channel.HarmlessIsExact` shows it must be.
- Link.ReturnedIsDelivered: assumes prompt acknowledgements, as `Link.PromptIsExact` and `WriteBound.LateAcknowledgementRun` show it must.
- LiveFeed.CacheAndLiveDataMeet: assumes guarded starts; `LiveFeed.StartGuardIsExact` shows that exact, and `Races.OldPumpGap` and `Races.FailedStartForgets` are runs without it. It says nothing of the bytes scanned before a viewer came that are in none of the cached units: nobody is given those (`Splice.SpliceIsExact`).
- Scanner.UntrimmedIsWhole: assumes that the 4 MiB limit is never exceeded, because a trimmed buffer is shorter; what is remembered needs no such assumption.
- Commands.AuthenticateCamera: does not say which candidate an answer belongs to, because the code does not establish it: a late answer to one candidate can be read as that to the next.
- The lifecycle is modelled on values, one atomic step for each lock block, rather than as a class: the thread interleavings are the point. Pending stops are a set, so two pending stops of one helper are one.
- In the lifecycle a viewer's queue is only the list of chunks offered and whether an end mark was put; what a full queue does with them is modelled in `ViewerQueue`.
- Python's limit on the number of digits `int` converts (4300 by default): the parser model reads numbers of any length.
- `read_video_frame`, snapshots and FFmpeg, the HTTP bridge, Home Assistant, account and wake clients, and the vendor library's side of the C file: plumbing around foreign code.
- Secrecy of the cipher: it is not claimed by the code.
