# Verified model of the link protocol

The repository implements one framed link between a PC host, an ESP32-C3 bridge and a TCP client:
several codecs for the same frame, a keepalive protocol that the bridge runs with the client, a
host process that mirrors the bridge's state from its USB frames, a second frame format for the
display, and the generator of the brew data that travels over it all. This project models these
parts in Dafny and proves what they promise each other.

Run `dafny verify dfyconfig.toml` to check everything.

## Parts

| modules | models |
|---|---|
| Options, Bytes, Bits, Crc16, CrcStraddle, Frames | absent values, little-endian fields, exclusive or on naturals, the CRC of section 2 of Recommendation ITU-T V.41, the frame layout |
| PythonCodec, PythonStream, FrameDamage, DecoderRecovery | the host's encoder and its decoder over a growing buffer: streams, cuts, damage, and how it goes on after a raise |
| NativeCodec | the C++ codec and its C entry point, and that it refines the same function |
| UsbStream | the bridge's frame parser and its in-place accumulation buffer |
| Text, Metadata, HostText, KeepaliveText, HostInitialize | decimal text, the bridge's `strstr` parser, the host's UTF-8 decoding and token parsers, the printed keepalive payload |
| Bridge, BridgeRuntime | the session protocol as functions on its state, and the firmware's routines over its globals, each proved to compute its function |
| BridgeMoves, BridgeInvariant, BridgeRuns, BridgeResponses, BridgeTiming | what a step can do to a session, what all steps keep, whole runs, responses and waiting in vain, when requests and retries go out |
| BridgeWires, BridgeUsb | the bytes that leave the bridge on TCP and on USB |
| BridgeTraffic, BridgeAnswers, BridgeEndings | what of it reaches client and host: requests, answers, forwarded data, realtime packets, and what the host shows when a session ends |
| Mirror, MirrorRuntime | the host's mirror: received frames, telemetry, client commands, operator actions |
| MirrorFlow, MirrorOrders | what the host's actions come to: its automatic flow, its commands at the bridge, a client's order and its echo |
| Simulation, LinkSystem, LinkRecovery, HostReading | bridge, line and host together: when the mirror follows the bridge, which payloads of a client take it away, and when it is back |
| Crc32, Glcp | GLCP frames and hello messages; the CRC of clause 3.2.9 of IEEE 802.3 |
| Brew, BrewPackets, BrewSamples, UplinkFifo | the sample table, the packets of a brew, what of the table they report, the uplink queue |

A step of the bridge takes everything uncertain from its environment: the frame that arrives, whether
its send breaks off and after how many bytes, the clock (any readings that do not go back), the Wi-Fi
driver. A send that breaks off closes the client in the middle of the handler, as in the firmware,
so the session invariant is stated for an attached client in a keepalive state. Runs may have any
length; what they are bounded by is the width of the counters, which is modelled: no session completes
2^31 - 1 exchanges and no 2^32 - 2 sessions are opened (Roomy, and RunsHaveRoom in terms of the frames received).

The host reads its frames under a lock, and an exception on the way ends the poll: the frames already taken
are lost and the link is faulted, as the API's fail-safe does it. Digits and spaces are those of Unicode 14.

## What the proofs brought up

- `decode_frames` loses a lone trailing 0xA5 and the frames decoded before an error in the same
  call; the bridge's USB loop does neither. SplitExact and NativeIsPython state both exactly.
- The checksum travels low byte first, so a burst over the last body byte and the first checksum
  byte is not contiguous for the code: flips of 0x89 and 0xA1 there go unnoticed (DamageNoticed).
- `si_decode_one_frame` consumes a frame that does not fit the caller's payload buffer and then
  asks for more data: the frame is lost.
- A stale response that states no interface version puts the bridge into Error, because the version
  is checked before the request number (StaleRequestInert gives the exact condition).
- The host's INITIALIZE payload has no `data_ver` field, so the bridge refuses it, unless a configured text brings
  one along: a network name `a;data_ver=1` does (HostInitializeExactly has the exact condition, HostInitializeAccepted
  the name, HostInitializeRefused the ordinary case).
- The first request of a session carries client counter 1 and server counter 0, which the mirror's guard
  rejects; the mirror shows Connect until the first exchange completes (MirrorFollowsBridge).
- A client's DATA payload can fault the host. The host looks for telemetry in every frame, tests a value with
  `isdigit` and converts it with `int`, which refuses digits that are no decimals: `terr=` and a superscript two
  (bytes C2 B2) raise. The mirror then shows Error although the session goes on, until it reads a frame left on
  the line that moves it, or the bridge next opens a session, completes an exchange, or asks after the first one. PayloadExactly states for
  which payloads this happens, MirrorRecoversExactly when it is over, and MirrorFollowsReadableClients that otherwise,
  and but for the operator, the mirror follows.
- A reset, also the one on opening the port, is to be followed by INITIALIZE and Connect at the next two snapshots.
  But the bridge's own acknowledgement of the reset, read before the first of these, clears the pending stage, and
  the link stays uninitialized (ResetAnswerEndsFlow; InitializeSentExactly has the exact condition).
- When the bridge gives up a client while realtime packets are running, it tells the host first that the retries are
  exhausted and then that the stream is halted. The mirror ends in Connect, the bridge in Initialize; likewise
  Connect against Reset after Wi-Fi is switched off (EndingsShown).
- After a packet with a wrong checksum the host's decoder goes on behind its start pair and takes a frame from inside
  the packet; the bridge's loop drops the packet whole (InsideCorrupt).
- A shot target set on the Home page outlives the start of a brew: packets then state that target while the weight
  runs up to the brew's own. The last packet weighs what it states exactly if they are the same (LastWeightIsTarget).
- Comments in the firmware speak of a wait window of 0.3 seconds; the code waits 500 ms. The documentation
  rules out an implicit way out of the mirror's error state; received frames are one. LeavesErrorExactly says which,
  ResponseLeavesError gives one. The model follows the code.

## Model

| member | source | states |
|---|---|---|
| Crc16.ComputeCrc | ServerInterface/frame_codec.py:50-65 | the checksum loops compute the fold of the byte step over the data |
| Crc16.BitStepInjective | ServerInterface/frame_codec.py:57-64 | one turn of the bit loop loses nothing: different registers stay different |
| Crc16.TurnsLinear | ServerInterface/frame_codec.py:57-64 | any number of turns is linear over exclusive or |
| Crc16.TwoBytesAsWord | ServerInterface/frame_codec.py:55-64 | two bytes act on the register like one 16-bit word and sixteen turns |
| Crc16.WindowChangesCrc | ServerInterface/frame_codec.py:50-65 | bodies of any one length that differ only within two adjacent bytes have different checksums |
| CrcStraddle.LowEffects | ServerInterface/frame_codec.py:50-65 | of all changes of one byte, only 0x89 leaves the upper half of the checksum alone, and changes the lower by 0xA1 |
| CrcStraddle.StraddlingWindow | ServerInterface/frame_codec.py:50-86 | a change over the last body byte and the low checksum byte goes unnoticed exactly when it flips 0x89 and 0xA1 |
| Frames.EncodeThenFields | ServerInterface/frame_codec.py:68-86 | every encoded in-range frame is well formed and reads back as itself |
| Frames.FieldsThenEncode | ServerInterface/frame_codec.py:114-138 | every well formed packet is byte for byte the encoding of its fields |
| PythonCodec.EncodeFrame | ServerInterface/frame_codec.py:68-86 | encoding succeeds exactly on frames whose integers and payload length fit, and gives a well formed packet with those fields |
| PythonCodec.DecodeFrames | ServerInterface/frame_codec.py:89-140 | one call on the caller's buffer: the frames returned or the error raised, and the buffer left, are those of Decode on the old contents |
| PythonStream.StreamRoundTrip | ServerInterface/frame_codec.py:68-140 | any in-range frames, noise without a start pair before each, and a proper frame prefix of two bytes or more behind them: exactly those frames come out, in order, and exactly the prefix stays |
| PythonStream.RaiseStays | ServerInterface/frame_codec.py:114-127 | an error is raised at the same place however many bytes follow |
| PythonStream.SplitLaw | ServerInterface/frame_codec.py:96-140 | cutting a stream in two changes nothing unless a lone first start byte is cleared and the other begins the second part |
| PythonStream.SplitExact | ServerInterface/frame_codec.py:99-102 | a stream may be cut at a point, whatever follows, if and only if the call there does not clear a lone trailing 0xA5 |
| PythonStream.ChunkingIrrelevant | ServerInterface/frame_codec.py:89-140 | delivery in any chunks that keep the start pairs together decodes what one call decodes |
| PythonStream.ReaderLoop | server/transport/serial_link.py:476-520 | the reader thread's buffer and frames, a raising call losing the frames it decoded |
| PythonStream.ReaderFeeds | server/transport/serial_link.py:476-520 | while nothing raises it receives what the stream decodes to |
| DecoderRecovery.CorruptAmong | ServerInterface/frame_codec.py:109-122 | frames in front of a packet with a wrong checksum are lost to the caller, and of the packet only the start pair is dropped |
| DecoderRecovery.UnknownAmong | ServerInterface/frame_codec.py:123-127 | frames in front of a packet of an unknown type are lost, and the packet is dropped whole |
| DecoderRecovery.BehindCorrupt | server/transport/serial_link.py:476-520 | behind a corrupt packet without a start pair of its own the reader receives what it would without the packet |
| DecoderRecovery.InsideCorrupt | ServerInterface/frame_codec.py:114-122 | a frame inside a corrupt packet is received by the host; the bridge's drain passes over it |
| FrameDamage.DamageNoticed | ServerInterface/frame_codec.py:109-127 | two adjacent bytes altered behind the length field are refused with a checksum error and nothing decoded, exactly unless they are the last body byte and low checksum byte altered by 0x89 and 0xA1 |
| NativeCodec.EncodeFrame | ServerInterface/native/src/protocol.cpp:26-54 | the vector filled byte by byte holds the encoding of the frame |
| NativeCodec.DecodeOneFrame | ServerInterface/native/src/protocol.cpp:56-119 | status, frame and remaining vector of one call, as DecodeOne gives them on the old contents |
| NativeCodec.SiDecodeOneFrame | ServerInterface/native/src/protocol.cpp:153-198 | the C entry point shifts what is left to the front; a frame whose payload exceeds the caller's capacity is consumed and reported as more data needed |
| NativeCodec.NativeIsPython | ServerInterface/native/src/protocol.cpp:56-119 | iterating the one-frame decoder yields the frames, residue and error of the Python decoder on every buffer |
| UsbStream.ParseExact | firmware/esp32c3_bridge/main/CommunicationFunctions.c:317-362 | a packet is accepted exactly when it is well formed and has at most 2300 payload bytes, and then re-encodes to the same bytes |
| UsbStream.EncodeParse | firmware/esp32c3_bridge/main/CommunicationFunctions.c:317-362 | an encoded frame parses back to itself if and only if its payload is at most 2300 bytes |
| UsbStream.UsbAccumulator.Poll | firmware/esp32c3_bridge/main/CommunicationFunctions.c:1838-1902 | one read and drain of the in-place buffer: frames dispatched and bytes held are those of the pure drain; at most 2316 bytes stay, so a whole frame always fits |
| UsbStream.UsbAccumulator.Serve | firmware/esp32c3_bridge/main/CommunicationFunctions.c:1830-1902 | passes until all input is read: there is always room to go on, and the frames are those of the whole stream |
| UsbStream.UsbAccumulator.DrainLoop | firmware/esp32c3_bridge/main/CommunicationFunctions.c:1852-1902 | the drain loop ends, stays inside the buffer, and refines Drain |
| UsbStream.FindPair | firmware/esp32c3_bridge/main/CommunicationFunctions.c:1855-1864 | the inner search finds the first start pair, or none |
| UsbStream.DrainSplit | firmware/esp32c3_bridge/main/CommunicationFunctions.c:1852-1902 | draining a stream in two parts dispatches what draining it whole dispatches, wherever it is cut |
| UsbStream.ChunkingIrrelevant | firmware/esp32c3_bridge/main/CommunicationFunctions.c:1838-1902 | the frames dispatched do not depend on how the stream is split into reads |
| UsbStream.EveryFrameArrives | firmware/esp32c3_bridge/main/CommunicationFunctions.c:1838-1902 | frames of at most 2300 payload bytes arrive once and in order, and nothing else, through any reads and anything passable between: noise, headers that announce too much, whole packets with a wrong checksum and whatever these contain |
| UsbStream.OversizedSkips | firmware/esp32c3_bridge/main/CommunicationFunctions.c:1876-1886 | a header that announces more than is allowed costs its first byte and no more |
| UsbStream.JunkPasses | firmware/esp32c3_bridge/main/CommunicationFunctions.c:1852-1902 | bytes whose start pairs all announce too much are passed over: what stands behind is dispatched as if it were alone |
| UsbStream.DamagedSkips | firmware/esp32c3_bridge/main/CommunicationFunctions.c:1887-1902 | a packet with a wrong checksum costs exactly itself |
| UsbStream.FrameBehindBadHeader | firmware/esp32c3_bridge/main/CommunicationFunctions.c:1882-1886 | an input: five bytes that announce 65535 more, and the frame behind them is dispatched |
| Metadata.BridgeTryParse | firmware/esp32c3_bridge/main/CommunicationFunctions.c:376-417 | the strstr and strtoul loop computes BridgeParse |
| Metadata.BridgeParseByTokens | firmware/esp32c3_bridge/main/CommunicationFunctions.c:376-417 | for every text, the search for `key=` at a field boundary is the number of the first semicolon field that begins with `key=` |
| KeepaliveText.BridgeReadsBack | firmware/esp32c3_bridge/main/CommunicationFunctions.c:376-417 | the bridge reads back session, request and version it printed, for all values, although the tag `ka_req` contains the key `req` |
| HostText.RaisesExactly | server/sim/link_state_machine.py:657-673 | looking for a number raises exactly when the first value of digits of that key holds one that is no decimal |
| HostText.AsciiNeverRaises | server/sim/link_state_machine.py:657-673 | in ASCII text it never raises |
| HostText.NormalSmall | server/sim/link_state_machine.py:922 | a payload of small ASCII characters is seen as it is |
| KeepaliveText.HostReadsBack | server/sim/link_state_machine.py:657-697 | the host's token parsers read back session, request, delay (signed), maximum delay and error count |
| KeepaliveText.PayloadFits | firmware/esp32c3_bridge/main/CommunicationFunctions.c:577-597 | the printed payload always fits its 256 characters |
| HostInitialize.HostInitializeExactly | server/sim/link_state_machine.py:541-557 | for every configuration and in every state, the host's INITIALIZE request leads to Initialize if the first semicolon-separated piece of its first 256 bytes that begins with `data_ver=` stands for 1, else to Error |
| HostInitialize.HostInitializeRefused | server/sim/link_state_machine.py:541-557 | so a configuration without a semicolon in its texts is refused, however long it is |
| HostInitialize.HostInitializeAccepted | server/sim/link_state_machine.py:541-557 | an input that is accepted: the network name a;data_ver=1, with any other values |
| BridgeMoves.StepMoves | firmware/esp32c3_bridge/main/CommunicationFunctions.c:1307-1687 | every step, with sends failing anywhere, does one of a few things to the session: nothing, quiet, open, ask, retry, answer, and perhaps lose the client |
| BridgeMoves.JudgeAccepts | firmware/esp32c3_bridge/main/CommunicationFunctions.c:1436-1508 | a response is accepted only in ClientReturn, pending, with exactly the expected counters |
| BridgeInvariant.MoveKeeps | firmware/esp32c3_bridge/main/CommunicationFunctions.c:1071-1621 | one move keeps the session invariant, the order of transmissions and the order of completed exchanges |
| BridgeInvariant.ParityHolds | firmware/esp32c3_bridge/main/CommunicationFunctions.c:1143-1148 | in a live session the parity corrections change nothing and the counters advance by two |
| BridgeRuns.EveryRunKeeps | firmware/esp32c3_bridge/main/CommunicationFunctions.c:1793-1904 | all invariants hold in every state reached from power-on, in runs of any length |
| BridgeRuns.RunsHaveRoom | firmware/esp32c3_bridge/main/CommunicationFunctions.c:1389-1392 | no counter wraps in a run with fewer than 2^31 - 1 keepalive frames of clients and 2^32 - 2 CONNECT requests |
| BridgeRuns.LiveSessionsAgree | firmware/esp32c3_bridge/main/CommunicationFunctions.c:1125-1162 | attached and in a keepalive state: server counter is twice the completed exchanges, client counter 1 or server less 1, a response pending exactly in ClientReturn |
| BridgeRuns.ExactlyOnce | firmware/esp32c3_bridge/main/CommunicationFunctions.c:1425-1540 | no exchange is completed twice, sessions never go back, requests completed in a session follow one another |
| BridgeRuns.NoneSkipped | firmware/esp32c3_bridge/main/CommunicationFunctions.c:1516-1527 | before a request is completed, all lower requests of its session were |
| BridgeRuns.SessionsAreFresh | firmware/esp32c3_bridge/main/CommunicationFunctions.c:1389-1392 | a session opened in a run has an id greater than that of every session before it |
| BridgeRuns.RetriesBounded | firmware/esp32c3_bridge/main/CommunicationFunctions.c:1204-1295 | each request is sent at most three times, as tries 0, 1, 2; requests of a session are at least 300 ms apart, tries of one at least 500 ms |
| BridgeRuns.TeardownNotEarly | firmware/esp32c3_bridge/main/CommunicationFunctions.c:1256-1290 | giving up follows three tries of the pending request and comes no earlier than 1500 ms after the first |
| BridgeRuns.GivesUpExactly | firmware/esp32c3_bridge/main/CommunicationFunctions.c:1256-1290 | a turn of the watchdog leads to Initialize exactly when the last window has run out, and then the client is closed |
| BridgeResponses.AcceptedExactly | firmware/esp32c3_bridge/main/CommunicationFunctions.c:1436-1527 | in a live session an exchange completes if and only if a response is awaited and states the current session, next request, version and counters |
| BridgeResponses.ForeignSessionInert | firmware/esp32c3_bridge/main/CommunicationFunctions.c:1436-1448 | a response for another session changes at most the error count, in every state |
| BridgeResponses.StaleRequestInert | firmware/esp32c3_bridge/main/CommunicationFunctions.c:1450-1494 | in every state, a response that does not name the pending request changes at most the error count, if and only if the version check before the request check does not catch it |
| BridgeResponses.StaleRequestCanFault | firmware/esp32c3_bridge/main/CommunicationFunctions.c:1471-1494 | an input that shows the exception: a stale response without a version puts the bridge into Error |
| BridgeResponses.FirstRequest | firmware/esp32c3_bridge/main/CommunicationFunctions.c:1345-1417 | a run from power-on reaches a live session that awaits its first response |
| BridgeResponses.StaleRequestReached | firmware/esp32c3_bridge/main/CommunicationFunctions.c:1471-1494 | and one more response, stale and without a version, ends it in Error |
| BridgeResponses.EchoCompletes | firmware/esp32c3_bridge/main/CommunicationFunctions.c:1436-1536 | a client that echoes the session and request it was sent, with the next counter, completes the exchange; EchoOfWireCompletes has it for the frame the client received |
| BridgeResponses.UnansweredStep | firmware/esp32c3_bridge/main/CommunicationFunctions.c:1256-1295 | what one step that brings no accepted response does to a waiting session: an expiry takes one try or the client; anything else leaves it waiting unless it loses the client or states another version |
| BridgeResponses.ThreeWindows | firmware/esp32c3_bridge/main/CommunicationFunctions.c:1256-1295 | however long a session waits in vain, with any other traffic and any failing sends, there are at most three expiries; it waits on with that many tries, or the client is gone, by the third expiry into Initialize or by a broken send or closed stream, or a response stated another version |
| BridgeTraffic.RequestOnWire | firmware/esp32c3_bridge/main/CommunicationFunctions.c:1125-1162 | any step that sends a request whole puts exactly one frame on the connection, which states session and request as recorded and pending, and the version, with the session's counters; the host is written the same bytes |
| BridgeTraffic.RunAsksWell | firmware/esp32c3_bridge/main/CommunicationFunctions.c:1149-1155 | in every reached state that awaits a response the last request the client received states the awaited session and request, with the counters to be carried on |
| BridgeTraffic.EchoOfWireCompletes | firmware/esp32c3_bridge/main/CommunicationFunctions.c:1488-1536 | in every such state, first try or retry, a client that echoes what the frame it received states completes the exchange |
| BridgeTraffic.HostDataReachesClient | firmware/esp32c3_bridge/main/CommunicationFunctions.c:1562-1584 | in a live session data of the host that is no command of the bridge is one DATA frame to the client with the same bytes, the session's counters and the next number; text is acknowledged to the host |
| BridgeTraffic.HostDataRefused | firmware/esp32c3_bridge/main/CommunicationFunctions.c:1562-1584 | without a session nothing reaches the client, text is turned down, and an error is counted |
| BridgeTraffic.ClientDataReachesHost | firmware/esp32c3_bridge/main/CommunicationFunctions.c:1585-1609 | in a live session data of the client is one DATA frame to the host with the same bytes and the client's number; text is acknowledged to the client |
| BridgeTraffic.ClientDataRefused | firmware/esp32c3_bridge/main/CommunicationFunctions.c:1585-1609 | without a session nothing reaches the host, text is turned down, and an error is counted |
| BridgeTraffic.RealtimeFields | firmware/esp32c3_bridge/main/CommunicationFunctions.c:814-856 | a realtime packet read back: version, number, length 160, samples |
| BridgeTraffic.CompletionOnWire | firmware/esp32c3_bridge/main/CommunicationFunctions.c:1510-1536 | a completed exchange sends the client the next realtime packet and nothing else; delay since the request, longest delay and packet number are booked |
| BridgeTiming.RequestsExactly | firmware/esp32c3_bridge/main/CommunicationFunctions.c:1230-1247 | in every reached session with nothing awaited the engine sends the next request exactly when 300 ms have passed since the last, or at once if it is the first |
| BridgeTiming.TriesExactly | firmware/esp32c3_bridge/main/CommunicationFunctions.c:1256-1295 | in every reached state that awaits a response the watchdog does nothing within 500 ms, then tries twice more with the same request, then gives up |
| BridgeTiming.WaitBegins | firmware/esp32c3_bridge/main/CommunicationFunctions.c:1160-1183 | the wait is counted from the reading after the transmission |
| BridgeTiming.StepBooks | firmware/esp32c3_bridge/main/CommunicationFunctions.c:1307-1621 | apart from accepted answers only the host's command clears the longest delay, and only reset and initialize restart the packet numbers |
| BridgeAnswers.ClientAnswered | firmware/esp32c3_bridge/main/CommunicationFunctions.c:1323-1424 | every request of the client gets exactly one frame, the answer due, with the counters the session then has and the next number |
| BridgeAnswers.HostAnswered | firmware/esp32c3_bridge/main/CommunicationFunctions.c:1323-1424 | every request of the host gets the answer due with its own number, and the client nothing |
| BridgeAnswers.CommandAnswered | firmware/esp32c3_bridge/main/CommunicationFunctions.c:1541-1561 | each command of the host for the bridge itself gets its answer, a failed Wi-Fi start an error |
| BridgeAnswers.PlainlyAnswered | firmware/esp32c3_bridge/main/CommunicationFunctions.c:1537-1609 | empty data, text with no client there and keepalive of the host are answered as such |
| BridgeAnswers.EmptyAnswered | firmware/esp32c3_bridge/main/CommunicationFunctions.c:1585-1609 | empty data of the client is acknowledged |
| BridgeAnswers.FaultTold | firmware/esp32c3_bridge/main/CommunicationFunctions.c:1366-1370 | a version mismatch is answered, and told to the host as critical besides |
| BridgeAnswers.Greeted | firmware/esp32c3_bridge/main/CommunicationFunctions.c:1630-1687 | a client taken on is greeted on a connection of its own, numbered from 0 |
| BridgeAnswers.AnnouncedSession | firmware/esp32c3_bridge/main/CommunicationFunctions.c:1401-1404 | the announcement states the session to the bridge's kind of parser and to the host's |
| BridgeEndings.EndingsShown | firmware/esp32c3_bridge/main/CommunicationFunctions.c:1071-1221 | what any mirror shows after a step that resets, initializes, disconnects, takes a client on, loses it, gives it up, or switches Wi-Fi off |
| BridgeWires.SendGood | firmware/esp32c3_bridge/main/CommunicationFunctions.c:611-734 | a send that may break off keeps the numbering of the open connection, or ends it with part of the next frame |
| BridgeWires.StepGood | firmware/esp32c3_bridge/main/CommunicationFunctions.c:1307-1687 | every step keeps the record of every connection intact |
| BridgeWires.ConnectionsIntact | firmware/esp32c3_bridge/main/CommunicationFunctions.c:680-734 | each connection carried whole valid frames numbered from 0 modulo 65536, broken only by a closing reset_ack; a partial frame only ends a closed one |
| BridgeWires.ConnectionReadBack | firmware/esp32c3_bridge/main/CommunicationFunctions.c:680-734 | a stream reader gets exactly the whole frames from those bytes, in any pieces |
| BridgeUsb.RunWritable | firmware/esp32c3_bridge/main/CommunicationFunctions.c:611-665 | every frame written to USB in any run has a known type and fits, and is text the host sees as it is, or a client's payload in a DATA frame |
| BridgeUsb.FailsExactly | server/sim/link_state_machine.py:657-673 | of these frames the host fails to read exactly those that pass on a poisonous payload |
| BridgeUsb.KeepaliveTeaches | server/sim/link_state_machine.py:339-369 | a keepalive text of the bridge gives the host the bridge's delays, sign included, and error count |
| BridgeUsb.TelemetryTeaches | firmware/esp32c3_bridge/main/CommunicationFunctions.c:548-566 | a telemetry text teaches the host last delay, longest delay and error count |
| BridgeUsb.UsbBytesDecode | firmware/esp32c3_bridge/main/CommunicationFunctions.c:611-665 | the bytes of those frames decode to exactly those frames at the host |
| BridgeUsb.MirrorAgreesThroughBytes | server/sim/link_state_machine.py:909-1119 | bridge session, bytes on USB from the opening of a session on, host decoder and poll together, whatever the host was doing before: the poll raises if and only if a poisonous payload was passed on, and otherwise leaves the mirror in agreement |
| BridgeRuntime.Firmware.constructor | firmware/esp32c3_bridge/main/CommunicationFunctions.c:60-131 | power-on state |
| BridgeRuntime.Firmware.SendTcpAll | firmware/esp32c3_bridge/main/CommunicationFunctions.c:680-734 | arbitrary short writes and interruptions put exactly the frame, or its first bytes up to the failure, on the open connection; a failure counts an error and closes the client |
| BridgeRuntime.Firmware.SendTcpFrame | firmware/esp32c3_bridge/main/CommunicationFunctions.c:611-665 | the frame takes the next TCP number, whether or not a client is there |
| BridgeRuntime.Firmware.SendFrame | firmware/esp32c3_bridge/main/CommunicationFunctions.c:744-759 | a reply on the transport the request came from |
| BridgeRuntime.Firmware.SendUnsolicitedUsbFrame | firmware/esp32c3_bridge/main/CommunicationFunctions.c:772-785 | a frame with the current counters and the next USB number |
| BridgeRuntime.Firmware.CloseTcpClient | firmware/esp32c3_bridge/main/CommunicationFunctions.c:1071-1098 | everything of the session is forgotten, the peer's version too, and a running stream is reported halted |
| BridgeRuntime.Firmware.EnterState | firmware/esp32c3_bridge/main/CommunicationFunctions.c:211-256 | state, delay telemetry, stream halt and reset bookkeeping |
| BridgeRuntime.Firmware.PrepareRequest | firmware/esp32c3_bridge/main/CommunicationFunctions.c:1134-1148 | the request number, and the counters corrected to parity |
| BridgeRuntime.Firmware.SendServerKeepalive | firmware/esp32c3_bridge/main/CommunicationFunctions.c:1125-1162 | request, mirror frame and window, also when the send closes the client midway |
| BridgeRuntime.Firmware.ServiceKeepaliveEngine | firmware/esp32c3_bridge/main/CommunicationFunctions.c:1230-1247 | a request when one is due, else nothing |
| BridgeRuntime.Firmware.ServiceTransportWatchdog | firmware/esp32c3_bridge/main/CommunicationFunctions.c:1256-1295 | retry or give up when the window has run out, else nothing |
| BridgeRuntime.Firmware.HandleRunningIntegerFailure | firmware/esp32c3_bridge/main/CommunicationFunctions.c:1204-1221 | client closed, Initialize entered, counters back to the start |
| BridgeRuntime.Firmware.OnReset | firmware/esp32c3_bridge/main/CommunicationFunctions.c:1323-1344 | RESET: all cleared, acknowledged, client closed |
| BridgeRuntime.Firmware.OnInitialize | firmware/esp32c3_bridge/main/CommunicationFunctions.c:1345-1375 | INITIALIZE: version taken or refused |
| BridgeRuntime.Firmware.OnConnect | firmware/esp32c3_bridge/main/CommunicationFunctions.c:1376-1417 | CONNECT: new session, announced to both sides, or version fault |
| BridgeRuntime.Firmware.OnDisconnect | firmware/esp32c3_bridge/main/CommunicationFunctions.c:1418-1424 | DISCONNECT: acknowledged; over TCP the client is closed |
| BridgeRuntime.Firmware.OnKeepalive | firmware/esp32c3_bridge/main/CommunicationFunctions.c:1425-1540 | the response checks in their order |
| BridgeRuntime.Firmware.AcceptResponse | firmware/esp32c3_bridge/main/CommunicationFunctions.c:1510-1536 | delay, counters, completion, mirror frame and realtime packet |
| BridgeRuntime.Firmware.SendRealtimeDataPacket | firmware/esp32c3_bridge/main/CommunicationFunctions.c:814-856 | one numbered packet in keepalive states, else the stream is halted |
| BridgeRuntime.Firmware.OnUsbData | firmware/esp32c3_bridge/main/CommunicationFunctions.c:1541-1561 | the commands the bridge obeys itself |
| BridgeRuntime.Firmware.ForwardToClient | firmware/esp32c3_bridge/main/CommunicationFunctions.c:1562-1584 | host data forwarded, refused or acknowledged |
| BridgeRuntime.Firmware.OnTcpData | firmware/esp32c3_bridge/main/CommunicationFunctions.c:1585-1609 | client data forwarded, refused or acknowledged |
| BridgeRuntime.Firmware.WifiDisableTransport | firmware/esp32c3_bridge/main/CommunicationFunctions.c:984-993 | client and listener closed, Reset entered |
| BridgeRuntime.Firmware.WifiEnableTransport | firmware/esp32c3_bridge/main/CommunicationFunctions.c:1005-1021 | access point and listener, in that order |
| BridgeRuntime.Firmware.OnFrame | firmware/esp32c3_bridge/main/CommunicationFunctions.c:1307-1621 | dispatch on the message type |
| BridgeRuntime.Firmware.AcceptTcpClient | firmware/esp32c3_bridge/main/CommunicationFunctions.c:1630-1687 | a new client replaces the old one and waits for CONNECT |
| BridgeRuntime.Firmware.Service | firmware/esp32c3_bridge/main/CommunicationFunctions.c:1830-1902 | one job of the main loop: the step of the model |
| BridgeRuntime.Firmware.MainLoop | firmware/esp32c3_bridge/main/CommunicationFunctions.c:1830-1904 | the main loop takes the globals through a run of the model, so session invariant and connection records hold of them |
| Mirror.ReceiveInv | server/sim/link_state_machine.py:937-1119 | every received frame keeps the mirror's invariant |
| Mirror.PollInv | server/sim/link_state_machine.py:909-1119 | so does a poll, also one that an exception ends |
| Mirror.ActInv | server/sim/link_state_machine.py:1274-1496 | every action keeps it, whatever was received before |
| Mirror.EveryPlayKeeps | server/sim/link_state_machine.py:1316-1496 | after any actions and frames: a keepalive state shows with all its flags, no fault, no failures; its counters belong together; every command sent fits the encoder |
| MirrorRuntime.TryParseU32 | server/sim/link_state_machine.py:657-673 | the token loop: the first value of digits of that key, none, or an exception |
| MirrorRuntime.TryParseI32 | server/sim/link_state_machine.py:676-697 | the token loop for signed values, which catches the exception |
| MirrorRuntime.LinkRuntime.IngestTelemetry | server/sim/link_state_machine.py:339-369 | delays and error count taken from a text, or an exception before anything is stored |
| MirrorRuntime.LinkRuntime.DescribeFrame | server/sim/link_state_machine.py:763-784 | looking up session and request for the log raises as the parser does |
| MirrorRuntime.LinkRuntime.HandleClientCommand | server/sim/link_state_machine.py:829-907 | a client's order is recorded and answered, or raises |
| MirrorRuntime.LinkRuntime.PollReceivedFrames | server/sim/link_state_machine.py:909-1119 | all frames received are taken, one after the other, up to one that raises; the rest is lost |
| MirrorRuntime.LinkRuntime.ReceiveFrame | server/sim/link_state_machine.py:921-1119 | one frame: telemetry, log, peer numbering, then error, data with the client's command, request, response or progress text; what is done when it raises |
| MirrorRuntime.LinkRuntime.HandleRequest | server/sim/link_state_machine.py:961-996 | a request is shown only if its counters fit, and proves everything before it |
| MirrorRuntime.LinkRuntime.HandleResponse | server/sim/link_state_machine.py:998-1030 | a response likewise |
| MirrorRuntime.LinkRuntime.HandleError | server/sim/link_state_machine.py:939-955 | the error texts that move the state |
| MirrorRuntime.LinkRuntime.HandleText | server/sim/link_state_machine.py:1043-1119 | the progress texts that move the state |
| MirrorRuntime.LinkRuntime.SetRuntimeFault | server/sim/link_state_machine.py:371-382 | fault latched, flow cleared |
| MirrorRuntime.LinkRuntime.BeginInitialize | server/sim/link_state_machine.py:439-465 | initialize stage, or a fault |
| MirrorRuntime.LinkRuntime.AdvanceAutomaticFlow | server/sim/link_state_machine.py:486-498 | one automatic stage |
| MirrorRuntime.LinkRuntime.GetSnapshot | server/sim/link_state_machine.py:1695-1701 | poll, port check and automatic flow in order; an exception faults the link |
| MirrorRuntime.LinkRuntime.ResetCommunication | server/sim/link_state_machine.py:1392-1430 | received frames dropped, counters zeroed, flow cleared, RESET sent, automatic flow started |
| MirrorRuntime.LinkRuntime.OpenTransport | server/sim/link_state_machine.py:1288-1314 | a port that opens is reset, one that does not faults the link |
| MirrorRuntime.LinkRuntime.InitializeLinkNow | server/sim/link_state_machine.py:1432-1448 | refused in Error, else restarted |
| MirrorRuntime.LinkRuntime.SendDataText | server/sim/link_state_machine.py:1463-1496 | sent only in a keepalive state |
| MirrorRuntime.LinkRuntime.SendDownlink | server/sim/link_state_machine.py:1624-1660 | sent only in a keepalive state |
| MirrorRuntime.LinkRuntime.ClosePort | server/sim/link_state_machine.py:1316-1326 | back to Reset |
| MirrorRuntime.LinkRuntime.ForceReleasePort | server/sim/link_state_machine.py:1328-1353 | back to Reset, fault cleared |
| MirrorRuntime.LinkRuntime.ToggleWifiEnabled | server/sim/link_state_machine.py:1355-1390 | the switch is told to the bridge, then back to Reset |
| MirrorRuntime.LinkRuntime.ResetTotalErrors | server/sim/link_state_machine.py:1662-1674 | error count zeroed here and at the bridge |
| MirrorRuntime.LinkRuntime.ResetTransportMaxDelay | server/sim/link_state_machine.py:1676-1693 | longest delay zeroed here and at the bridge |
| MirrorFlow.AutomaticFlow | server/sim/link_state_machine.py:486-498 | after a reset, by the operator or on opening the port, the next two snapshots show Initialize and Connect; the commands sent are one RESET with the text reset and then one INITIALIZE with the configuration |
| MirrorFlow.InitializeSentExactly | server/sim/link_state_machine.py:486-498 | with a reset under way the next snapshot sends INITIALIZE if and only if all received is read, none of it settles the mirror, Wi-Fi is enabled, and port, configuration and send are good |
| MirrorFlow.FlowEnds | server/sim/link_state_machine.py:1085-1095 | once a reset is acknowledged, or no flow is under way, no snapshot sends INITIALIZE |
| MirrorFlow.ResetAnswerEndsFlow | server/sim/link_state_machine.py:1085-1095 | an input: the bridge's own answer to the RESET, read before the next snapshot goes on, ends the automatic flow |
| MirrorFlow.InitializeLinkExactly | server/sim/link_state_machine.py:1432-1448 | with nothing to read, the operator's INITIALIZE is sent exactly outside Error with everything good; else Error is shown |
| MirrorFlow.SendDataExactly | server/sim/link_state_machine.py:1463-1496 | with nothing to read, data goes out as one DATA frame exactly in a keepalive state; a refused send shows Error |
| MirrorOrders.ToggleReachesBridge | server/sim/link_state_machine.py:1355-1390 | the Wi-Fi switch sends one command; taken by the bridge it leaves it switched as the host shows, unless the access point fails |
| MirrorOrders.TelemetryReachesBridge | server/sim/link_state_machine.py:1662-1693 | resetting error count or longest delay at the host resets it at the bridge |
| MirrorOrders.OrdersUnderstood | server/sim/link_state_machine.py:829-907 | the orders as a client writes them, with any profile number, in capitals and small letters |
| MirrorOrders.OrderAndEcho | server/sim/link_state_machine.py:829-907 | an order to start or stop the brew goes from client through bridge to host, is obeyed once, and its echo comes back to the client in one DATA frame |
| MirrorOrders.StartBrewAndEcho | server/sim/link_state_machine.py:860-877 | so does StartBrew with any profile number |
| MirrorOrders.DownlinkReachesClient | server/sim/link_state_machine.py:1624-1660 | what the host sends down in a keepalive state reaches the client of a live session byte for byte |
| MirrorOrders.PollCounts | server/sim/link_state_machine.py:937-1030 | a poll counts every DATA frame and every fitting request and response once |
| MirrorOrders.NumberedReadClean | server/sim/link_state_machine.py:930-937 | frames numbered on from the last are read without a sequence error |
| Simulation.TakeMoves | server/sim/link_state_machine.py:921-1119 | what a frame that does not raise does to the displayed state and counters depends on these and the frame alone |
| Simulation.PollMoves | server/sim/link_state_machine.py:909-1119 | a poll raises if and only if one of the frames fails; if none does, the display is moved by all of them, and an announced session ends the automatic flow |
| Simulation.AnnouncedForgets | server/sim/link_state_machine.py:1067-1080 | after the announcement of a session it does not matter what was displayed before |
| Simulation.SettledForgets | server/sim/link_state_machine.py:937-1119 | frames either settle the display, to the same place wherever it stood and never to Error, or leave it alone |
| Simulation.LeavesErrorExactly | server/sim/link_state_machine.py:921-1119 | a shown Error stays through a frame exactly if handling it raises or it is none of: fitting keepalive request or response, the two error texts, the six progress texts that move |
| Simulation.TagNormal | server/sim/link_state_machine.py:747-760 | the printed keepalive texts are recognised as request and response after lower-casing and stripping |
| Simulation.HarmlessMovesNothing | server/sim/link_state_machine.py:1043-1119 | texts that begin otherwise move nothing |
| Simulation.RequestShown | server/sim/link_state_machine.py:961-996 | a request frame of the bridge moves the display to its counters if they fit, and otherwise not at all |
| Simulation.RequestSim | server/sim/link_state_machine.py:957-996 | a request moves the display to ClientReturn with the bridge's counter, except the first of a session, which the mirror's guard rejects |
| Simulation.CompleteSim | server/sim/link_state_machine.py:998-1030 | a completed exchange brings the display to ServerSend, whatever it showed |
| Simulation.StepSim | server/sim/link_state_machine.py:909-1119 | every step of the bridge keeps its session and what the written frames display in agreement |
| Simulation.OpeningSim | firmware/esp32c3_bridge/main/CommunicationFunctions.c:1376-1417 | the step that opens a session brings any display into agreement, and announces it |
| Simulation.LiveStep | firmware/esp32c3_bridge/main/CommunicationFunctions.c:1307-1687 | a step of a live session that opens it, completes an exchange, or asks after the first one brings any display into agreement; every other step leaves any display alone |
| Simulation.SettlesExactly | firmware/esp32c3_bridge/main/CommunicationFunctions.c:1307-1687 | the frames a step of a live session writes settle the display exactly if it is such a step |
| Simulation.TraceSim | firmware/esp32c3_bridge/main/CommunicationFunctions.c:1793-1904 | over any run, all frames written since a session was opened display that session |
| LinkSystem.SnapshotReads | server/sim/link_state_machine.py:1695-1701 | with the port open, nothing failing and no automatic flow left, a snapshot only reads |
| LinkSystem.BridgeKeeps | firmware/esp32c3_bridge/main/CommunicationFunctions.c:1307-1687 | a step of the bridge keeps host and unread frames in step with it |
| LinkSystem.RestoringInStep | firmware/esp32c3_bridge/main/CommunicationFunctions.c:1376-1540 | such a step brings a host with no automatic flow under way in step, whatever it shows |
| LinkSystem.RaiseFaults | server/api/routes.py:64-74 | a poll that raises leaves the host in Error with nothing under way and nothing received |
| LinkSystem.HostKeeps | server/sim/link_state_machine.py:1463-1701 | so does every action of the host that is not an operator's command and reads nothing that raises |
| LinkSystem.MirrorFollowsBridge | server/sim/link_state_machine.py:909-1119 | for all runs of bridge, line and host, with anything before the opening of a session, or before any exchange completed or request sent after the first one while no automatic flow is under way; and no operator command and nothing that raises since: once all is read, attached and in keepalive, the mirror shows the bridge's state and counters, or Connect before the first completed exchange |
| LinkRecovery.MirrorRecoversExactly | server/sim/link_state_machine.py:909-1119 | after the last read that raised, in any run: all read and a session live, the mirror agrees if and only if a frame left on the line settles it or the bridge has opened a session, completed an exchange or, after the first one, asked since; else it shows Error |
| LinkRecovery.EndAgreesExactly | server/sim/link_state_machine.py:909-1119 | any end of the frames written, read from Error on, agrees with the live session if and only if one of them settles |
| LinkSystem.SnapshotAgreesExactly | server/sim/link_state_machine.py:909-1119 | in the runs of MirrorFollowsBridge the snapshot that reads the last frames ends in agreement if and only if none of them fails |
| HostReading.MirrorFollowsReadableClients | server/sim/link_state_machine.py:909-1119 | the same with the condition on what clients send: no poisonous payload |
| HostReading.PayloadExactly | firmware/esp32c3_bridge/main/CommunicationFunctions.c:1585-1609 | one DATA frame of a client, forwarded and read: the mirror still agrees if and only if the payload is not poisonous, else it is in Error while the session goes on |
| HostReading.NextExchangeRestores | firmware/esp32c3_bridge/main/CommunicationFunctions.c:1516-1536 | after such a payload the next exchange, request or session brings the mirror in step again |
| HostReading.ResponseLeavesError | server/sim/link_state_machine.py:998-1030 | an input: a keepalive response of the bridge takes any mirror from Error to ServerSend with its counters |
| HostReading.SquaredIsPoisonous | server/sim/link_state_machine.py:657-673 | an input: the seven bytes of terr= and a superscript two |
| Crc32.ComputeCrc | firmware/esp32c3_bridge/main/ProtocolLCD_Controller.c:80-100 | the reflected CRC loops compute the checksum of the range |
| Crc32.WindowChangesCrc | firmware/esp32c3_bridge/main/ProtocolLCD_Controller.c:80-100 | data that differ only within four adjacent bytes have different checksums |
| Glcp.WriteLe | firmware/esp32c3_bridge/main/ProtocolLCD_Controller.c:14-33 | the little-endian writers write the value and nothing else |
| Glcp.BuildFrame | firmware/esp32c3_bridge/main/ProtocolLCD_Controller.c:102-151 | status in the order of the checks; on success exactly the frame bytes, the rest of the buffer untouched; on failure nothing written |
| Glcp.ParseFrame | firmware/esp32c3_bridge/main/ProtocolLCD_Controller.c:153-210 | status and header of any buffer |
| Glcp.BuildThenParse | firmware/esp32c3_bridge/main/ProtocolLCD_Controller.c:102-210 | every built frame parses to the normalised header and the same payload |
| Glcp.ParseThenBuild | firmware/esp32c3_bridge/main/ProtocolLCD_Controller.c:102-210 | an accepted frame is byte for byte what is built from it, if and only if its minor version is 0 |
| Glcp.DamageRejected | firmware/esp32c3_bridge/main/ProtocolLCD_Controller.c:196-204 | a payload altered anywhere within four adjacent bytes is refused |
| Glcp.EncodeHello | firmware/esp32c3_bridge/main/ProtocolLCD_Controller.c:217-258 | status, and on success exactly the hello bytes, the rest of the buffer untouched |
| Glcp.DecodeHello | firmware/esp32c3_bridge/main/ProtocolLCD_Controller.c:260-305 | status, hello as soon as its fixed part is there, hashes only on success |
| Glcp.HelloRoundTrip | firmware/esp32c3_bridge/main/ProtocolLCD_Controller.c:217-305 | what is encoded decodes to the same hello and hashes |
| Glcp.HelloReencodes | firmware/esp32c3_bridge/main/ProtocolLCD_Controller.c:217-305 | any accepted hello payload re-encodes to the same bytes |
| Glcp.HelloThroughFrame | firmware/esp32c3_bridge/main/ProtocolLCD_Controller.c:102-305 | a hello goes through a frame unharmed if and only if it lists at most 285 hashes |
| Glcp.SelectSchemaHash | firmware/esp32c3_bridge/main/ProtocolLCD_Controller.c:358-382 | the first of the server's hashes the peer knows, or none exists |
| Brew.PiecewiseCurveValue | server/sim/data_payload.py:557-583 | the segment loop computes the curve |
| Brew.CurveBounded | server/sim/data_payload.py:557-583 | a curve over ordered points stays within the range of their values |
| Brew.CurveRises | server/sim/data_payload.py:557-583 | a curve over points rising in both coordinates never falls |
| Brew.RoundHalfEven | server/sim/data_payload.py:595 | nearest integer, ties to even |
| Brew.SampleOnce | server/sim/data_payload.py:614-636 | the first pass: each sample and the weight poured so far |
| Brew.BuildProfileSamples | server/sim/data_payload.py:586-657 | weights start at 0, never fall, and end at the shot target, or are all 0 when nothing is poured; last pressure and temperature are the targets |
| Brew.TableWeightGrows | server/sim/data_payload.py:644-648 | scaled weights are shares of the target in proportion to what is poured |
| BrewSamples.CurveHits | server/sim/data_payload.py:557-583 | a curve goes through its points |
| BrewSamples.CurveStraight | server/sim/data_payload.py:557-583 | between two points a curve is a straight line |
| BrewSamples.SampleTimes | server/sim/data_payload.py:593-621 | sample i of a brew of n intervals stands for the time of i intervals |
| BrewSamples.SamplesHit | server/sim/data_payload.py:620-636 | pressure, flow and temperature of a sample at a point of the curve are target and point, the temperature counted from its start |
| BrewSamples.TemperatureSpan | server/sim/data_payload.py:612-628 | the temperature starts 8 degrees below its target, or at 20, and stays between |
| BrewSamples.WeightShares | server/sim/data_payload.py:644-648 | a sample's weight is to the target as what is poured by then to what is poured in all |
| BrewSamples.TableReported | server/sim/data_payload.py:1209-1289 | before the end a packet between sample k and the next reports the weight of sample k, or the share of the target that the time passed makes, whichever is less |
| BrewSamples.ProfileReported | server/sim/data_payload.py:1209-1289 | with the table built for a profile that is the weight of the profile's sample |
| BrewSamples.SynthesisedReported | server/sim/data_payload.py:1227-1289 | without a table the weight grows with the square of time until a sample reaches the end |
| BrewSamples.WaterExactly | server/sim/data_payload.py:1291 | the water level falls by 0.45 percent a gram, to 0 |
| BrewSamples.EvenBrew | server/sim/data_payload.py:1209-1291 | an input: 36 g rising evenly over 30 s are 18 g and 91.9 percent of water after 15 s |
| BrewPackets.ReportMoves | server/sim/data_payload.py:1200-1291 | later packets report no less weight and no more water; weight in [0, S], S at the end; water a percentage |
| BrewPackets.WholeBrew | server/sim/data_payload.py:1120-1398 | the same over all packets of one brew |
| BrewPackets.Generator.StartBrew | server/sim/data_payload.py:1038-1055 | a brew starts with a plan the report theorems apply to |
| BrewPackets.Generator.StopBrew | server/sim/data_payload.py:1057-1065 | a stopped brew sends nothing more of it |
| BrewPackets.Generator.GenerateAndSend | server/sim/data_payload.py:1120-1398 | one packet with the reported weight and water level and the target of the Home page or, without one, of the brew; the brew ends with the delivered packet of the full shot |
| BrewPackets.Generator.SetShotTarget | server/sim/data_payload.py:978-985 | a target between 0 and 200 g, which no brew clears |
| BrewPackets.LastWeightIsTarget | server/sim/data_payload.py:1322-1326 | the full shot weighs the target stated if and only if none is set on the Home page, or this one |
| BrewPackets.TargetCanDiffer | server/sim/data_payload.py:1322-1326 | an input: a brew of 36 g with 20 g set on the Home page ends with a packet that states 20 and weighs 36 |
| BrewPackets.Generator.Run | server/sim/data_payload.py:1071-1086 | the sending loop over a clock that never goes back, targets being set between: packets numbered on, steady reports, the targets in effect, the full shot at the end and whether it is the target stated |
| UplinkFifo.Conservation | server/sim/data_payload.py:1405-1440 | accepted = popped + queued + dropped + cleared, at most 10 queued, counters true, popped packets a subsequence of the accepted ones in order |
| UplinkFifo.RunConserves | server/sim/data_payload.py:1405-1440 | what left and then what is queued is what was accepted, in that order |
| UplinkFifo.Fifo.ReceiveUplink | server/sim/data_payload.py:1405-1428 | an undecodable payload is ignored; a full queue drops its oldest packet |
| UplinkFifo.Fifo.PopUplink | server/sim/data_payload.py:1430-1440 | the oldest packet, or none |
| UplinkFifo.Fifo.StopDownlink | server/sim/data_payload.py:830-846 | the queue is cleared, the counters are kept |

## Left out

- The TCP receive loop: after a handler that has flushed the buffer it subtracts the frame length from a
  length already zero (firmware/esp32c3_bridge/main/CommunicationFunctions.c:1779-1782). The handler is modelled apart from it; a client
  stream arrives as frames, or as one of the loop's reasons to close.
- BridgeRuntime.Firmware: the globals are fields of one object, grouped in records; frames come in parsed and go
  out as records of what was written, apart from the byte-wise TCP send.
- Fields the firmware only writes: activity time, window-has-message flag, empty-window and timeout
  counts, start of the reset cycle. Log texts and state names.
- Partial writes to USB: the firmware ignores the count written. The line to the host is taken as lossless, but for what the host clears.
- Waiting for ever inside `send` while interrupted: interruptions are finite in number.
- Two jobs of the main loop never overlap, as in the firmware; other threads of the host are its lock's.
- The packed doubles of a realtime packet are given bytes of fixed size; the Wi-Fi, socket and USB driver calls are inputs.
- Lower-casing beyond ASCII: only the two letters that turn into ASCII letters are followed. Python's limit
  of 4300 digits for `int` is out of reach: a payload has at most 2300 bytes.
- What the data manager does with a client's orders, and the float parameters of the sine mode; the texts the
  display protocol answers with are inputs. The delayed shot_done_success, throughput and log texts are presentation.
- Clearing the port's buffers loses whole frames of the line; the halves of a frame cut in two are not followed.
- LinkSystem.MirrorFollowsBridge: the mirror's sequence number, flags and statistics are not compared, only state and counters.
- HostInitialize.HostInitializeExactly: the configured texts are given as their UTF-8 bytes; the checks before sending are inputs of the mirror.
- BridgeRuntime.Firmware.Service: a client's stream arrives as parsed frames or as a reason to close; the receive loop that cuts it is not part of the step.
- BridgeRuntime.Firmware.MainLoop: the same.
- Retry and escalation helpers of the mirror that nothing calls; the alternative controller state; the serial port but for its reader's buffer.
- GLCP hello acknowledgement: fixed fields without a check; schema chunks and message bodies are not modelled.
- `si_encode_frame` and `si_crc16_ccitt`: wrappers of the C++ functions that are modelled.
- Null checks of the out-parameters for lengths and views: methods return these.
- Brew: floating-point rounding; real numbers take its place. The sine mode and the packing of a packet are left out;
  pressure, flow and temperature are followed up to the table, weight and water level up to the packet.
- BrewPackets.WholeBrew: the profile and the packet interval are held fixed during the brew, as StartBrew sets them.
- UplinkFifo: what `decode_uplink` makes of a payload is an input.
