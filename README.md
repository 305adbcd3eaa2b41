# Server session media — a verified model

This project models `serverSessionMedia` from gortsplib's RTSP server
(`server_session_media.go`): the binding of one media of a server session to its
transport (UDP unicast, UDP multicast or TCP interleaving), in either direction
(Play: server to client; Record: client to server). It covers:

- **wiring**: `start` starts every format, then registers read callbacks with the
  server's UDP listeners (or writes them into the session's TCP channel table at
  channels `c` and `c+1`), opening the firewall first in UDP Record; `stop`
  leaves the UDP listeners (UDP unicast only) and stops every format;
- **outbound writes**: `writePacketRTP`/`writePacketRTCP` push a task onto the
  session's bounded write queue, or report `ErrServerWriteQueueFull`; the queued
  task bumps `bytesSent` and performs one transport write;
- **inbound classification**: `readRTPTCPPlay` does nothing; `readRTPTCPRecord`
  checks the parse result, then the payload type; every other read handler
  checks size first, then the parse result, then (RTP) the payload type; each
  of these produces exactly one decode error or one dispatch;
- **SSRC correlation**: RTCP sender reports in Record go to the format whose RTCP
  receiver knows the sender SSRC; every decoded RTCP packet reaches the user's
  `onPacketRTCP` callback once, in order.

Layout:

- `packets.dfy`, module `Packets`: the integer widths (`uint8`, `uint32`,
  `uint64` with explicit wrap-around), RTP/RTCP packets, parse results, the
  decode errors, and the pure classification functions the handlers use.
- `formats.dfy`, module `Formats`: media formats, the `formats` map built at
  construction, and what `findFormatWithSSRC` may answer.
- `server.dfy`, module `Server`: the classes `Session` (the session-level state a
  media touches) and `SessionMedia` (the component itself), the `Event` trace of
  calls made to code outside the component, the functions that specify those
  traces, and the lemmas about them.

Every call into a collaborator (format `start`/`stop`/`readRTPUDP`/`readRTPTCP`,
`ProcessSenderReport`, `onPacketRTCP`, `onDecodeError`, listener
`addClient`/`removeClient`/`write`, `SetWriteDeadline`, `WriteInterleavedFrame`,
the session's `WritePacketRTP`/`WritePacketRTCP`) is appended to `Session.trace`,
so that the order of effects is part of each method's postcondition. Go ranges
over maps in no fixed order; the methods that do (`start`, `stop`,
`findFormatWithSSRC`) choose with `:|`, and their contracts are relational: a
ghost out-parameter returns the order used (an enumeration of the keys) or the
search results obtained (each a valid answer).

Points where the source's behaviour is easy to misread, modelled as written:

- `bytesSent` grows when the queued task runs (`writePacketRTPInQueue...`,
  server_session_media.go:121-143), not when the write is accepted into the queue.
- The UDP RTP handler stores `udpLastPacketTime` only after the payload-type
  lookup succeeds, not right after parsing (server_session_media.go:208-215).
- The TCP RTCP size limit is `udpMaxPayloadSize`, not the server's maximum packet
  size; the TCP handlers do not touch `bytesReceived` (server_session_media.go:255,
  289).
- `formats` is filled only when the session is in PreRecord at construction, not
  in every Record-capable state (server_session_media.go:40).
- `stop` removes the client from both UDP listeners even in Play, where only the
  RTCP listener was registered; removing an absent key changes nothing
  (server_session_media.go:101).

`udpMaxPayloadSize` is defined elsewhere in the library, which is not part of
this model; the model uses its value, 1472 (1500-byte MTU minus IP and UDP
headers).

## Model

| member | source | states |
|---|---|---|
| `Packets.AddUint64` | server_session_media.go:194 | the byte counters add the length as an unsigned 64-bit value: exact below 2^64, wrapping past it |
| `Packets.UnixSeconds` | server_session_media.go:214-215 | the stored last-packet time is the instant's whole seconds, rounded down (bounds on both sides) |
| `Packets.ClassifyRtp` | server_session_media.go:271-285 | parse failure gives that error; otherwise the packet is accepted iff its payload type is a known format, else exactly one unknown-payload-type error carrying that type |
| `Packets.ClassifyRtpUdp` | server_session_media.go:191-212 | the sentinel length `udpMaxPayloadSize+1` is rejected as too big whatever the parse says; any other length is classified as over TCP |
| `Packets.ClassifyRtcpUdp` | server_session_media.go:220-234 | too-big iff the length is exactly the sentinel; accepted iff not the sentinel and parsed, with the parsed packets; parse failure reported otherwise |
| `Packets.ClassifyRtcpTcp` | server_session_media.go:288-298 | too-big, carrying the length and `udpMaxPayloadSize`, iff the length exceeds `udpMaxPayloadSize` (so that length itself passes); accepted iff within it and parsed |
| `Formats.FormatsOfKeys` | server_session_media.go:40-45 | the constructed map has exactly one key per payload type of the media's formats |
| `Formats.FormatsOfEntries` | server_session_media.go:42-44 | every entry is a new format of the media, filed under its own payload type, whose receiver knows no sender yet |
| `Formats.FormatsOfLastWins` | server_session_media.go:42-44 | a payload type listed several times ends up holding its last format |
| `Server.LifecycleEventsAt` | server_session_media.go:53-55 | the format-lifecycle trace holds one start (or stop) call per entry of the order, at the same position |
| `Server.FormatsStartBeforeWiring` | server_session_media.go:50-75 | in the trace `start` leaves, every format start precedes every other call; in UDP Record the two firewall packets precede both registrations |
| `Server.TcpTable` | server_session_media.go:82-92 | channel `c` gets the RTP callback and `c+1` the RTCP callback, Play variants iff the state is Play; every other channel keeps its entry; a nil table starts empty |
| `Server.PlayDeliversEachPacketOnce` | server_session_media.go:186-188 | in Play every decoded RTCP packet reaches the callback exactly once, in order, and nothing else is called |
| `Server.RecordDeliversEachPacketOnce` | server_session_media.go:239-248 | in Record every decoded RTCP packet, matched or not, reaches the callback exactly once, in order |
| `Server.RecordDeliversToCallback` | server_session_media.go:302-311 | in Record the packets reach the user only through the media's current callback |
| `Server.RecordProcessesMatchedReports` | server_session_media.go:239-246 | exactly the sender reports whose SSRC some format knows are processed, one call each, in order; unmatched reports trigger none |
| `Server.RecordReportsReachMatchingFormat` | server_session_media.go:302-308 | each processed report goes to a format whose receiver reports that SSRC, with the handler's time |
| `Server.Session.Push` | server_session_media.go:146-149 | the write queue accepts a task iff it is below capacity, appending exactly that task |
| `Server.Session.PopTask` | server_session_media.go:146-148 | the queue's worker takes the oldest task |
| `Server.Session.OnDecodeError` | server_session_media.go:173 | a decode error is reported once to the session |
| `Server.SessionMedia.constructor` | server_session_media.go:33-48 | formats are built from the media only when the session is in PreRecord (else none); the RTCP callback starts as the no-op |
| `Server.SessionMedia.CallFormats` | server_session_media.go:106-108 | every format is called exactly once, in some order of the map's keys |
| `Server.SessionMedia.Start` | server_session_media.go:50-98 | formats started first; UDP Play registers only the RTCP listener; UDP Record sends an empty RTP packet (version 2) and an empty receiver report, each queued on the write queue when there is room, then registers both listeners; multicast registers nothing; UDP and multicast select the UDP writes; TCP fills channels `c`/`c+1`, builds the two frames on `c`/`c+1` and a fresh buffer of `MaxPacketSize+4` bytes; afterwards `Started` holds |
| `Server.SessionMedia.Stop` | server_session_media.go:100-109 | UDP unicast only: this client's keys leave both listeners, then every format is stopped; the TCP channel table is unchanged |
| `Server.SessionMedia.FindFormatWithSSRC` | server_session_media.go:111-119 | without side effects, returns a format whose receiver reports the SSRC, or none exactly when no format does |
| `Server.SessionMedia.WritePacketRTPInQueueUDP` | server_session_media.go:121-124 | `bytesSent` grows by the payload length (mod 2^64) and one write to the RTP listener's client address follows |
| `Server.SessionMedia.WritePacketRTCPInQueueUDP` | server_session_media.go:126-129 | the same for the RTCP listener and address |
| `Server.SessionMedia.WritePacketRTPInQueueTCP` | server_session_media.go:131-136 | `bytesSent` grows; the RTP frame (channel `c`) now carries the payload; the deadline is set to now plus the write timeout, then that frame is written |
| `Server.SessionMedia.WritePacketRTCPInQueueTCP` | server_session_media.go:138-143 | the same for the RTCP frame (channel `c+1`) |
| `Server.SessionMedia.WritePacketRTP` | server_session_media.go:145-154 | `ErrServerWriteQueueFull` exactly when the push fails, with the queue unchanged; otherwise nil and exactly one RTP task appended |
| `Server.SessionMedia.WritePacketRTCP` | server_session_media.go:156-165 | the same with one RTCP task |
| `Server.SessionMedia.RunQueuedTask` | server_session_media.go:146-148 | running the oldest task removes it, grows `bytesSent` by its length and performs the one write the transport selected at `start`; over TCP the written frame keeps its channel (`c` or `c+1`) and now holds the payload, the other frame is unchanged, so `Started` holds again for the next task |
| `Server.SessionMedia.DeliverPlayRTCP` | server_session_media.go:266-268 | the trace grows by one callback call per packet, in order |
| `Server.SessionMedia.DeliverRecordRTCP` | server_session_media.go:302-311 | per packet: a sender report with a found format is processed, then the callback is called; the searches made are valid |
| `Server.SessionMedia.ReadRTCPUDPPlay` | server_session_media.go:167-189 | `bytesReceived` always grows; a rejection gives exactly one decode error and leaves the time alone; otherwise the time is stored and each packet reaches the callback |
| `Server.SessionMedia.ReadRTPUDPRecord` | server_session_media.go:191-218 | `bytesReceived` always grows; exactly one decode error, or exactly one dispatch to `formats[pt]` with the time, in which case alone the time is stored and that format's receiver then reports the sender SSRC it learned (so a later search for it succeeds); formats are otherwise unchanged |
| `Server.SessionMedia.ReadRTCPUDPRecord` | server_session_media.go:220-249 | `bytesReceived` always grows; one decode error, or time stored and the Record RTCP trace with valid SSRC searches |
| `Server.SessionMedia.ReadRTPTCPPlay` | server_session_media.go:251-252 | does nothing |
| `Server.SessionMedia.ReadRTCPTCPPlay` | server_session_media.go:254-269 | one decode error (too big or unparsable), or each packet reaches the callback in order |
| `Server.SessionMedia.ReadRTPTCPRecord` | server_session_media.go:271-286 | one decode error, or exactly one dispatch to `formats[pt]` without a time, after which that format's receiver reports the sender SSRC it learned (so a later search for it succeeds); formats are otherwise unchanged |
| `Server.SessionMedia.ReadRTCPTCPRecord` | server_session_media.go:288-311 | one decode error, or the Record RTCP trace with valid SSRC searches; no counter or time is touched |

## Left out

- `rtp.Packet.Unmarshal` and `rtcp.Unmarshal` (pion libraries) are not modelled: each read handler takes their result as an argument (`RtpParse`, `RtcpParse`), and RTCP packets are reduced to sender reports, receiver reports and others.
- Network I/O (`udpListener.write`, `SetWriteDeadline`, `WriteInterleavedFrame`) and the clock (`timeNow`, `time.Now`) are not modelled: calls are recorded as events, and time is an input in nanoseconds. Their error results, which the source ignores, are not modelled either.
- Atomicity and concurrency (`atomic.AddUint64`, `atomic.StoreInt64`, listeners calling back concurrently, the write queue's own goroutine) are modelled as plain sequential updates and an explicit `RunQueuedTask` step.
- The internals of `serverSessionFormat` (RTCP receiver statistics, RTP ingestion) are not modelled: a format is its description plus the sender SSRC its receiver reports. How the receiver learns that SSRC is outside this model: the RTP Record handlers take the SSRC the receiver reports after the packet (`learned`) as an input and store it in that format.
- `ServerSession.WritePacketRTP`/`WritePacketRTCP`, used by `start` to open the firewall, are recorded as calls, followed by the push onto this media's write queue that they end in; the serialization is not modelled: the model pushes the RFC 3550 wire form of the two empty packets, and ignores the push result as the source ignores the call's error.
- Session- and server-level state (counters, TCP channel table, write queue, both UDP listener registries) is held in one `Session` object; sharing of the listeners among several sessions is not modelled.
- The contents of `tcpBuffer` are not modelled: it is only scratch space for the interleaved-frame encoder, so only its allocation and size are.
- A nil `formats` map and an empty one are the same map here: no operation of the component tells them apart.
- The setter for `onPacketRTCP` lives in the session code; the field is public and callers may assign it.
- The bounded-queue property over N writes with no draining (at least N minus the free room fail) follows from `WritePacketRTP`'s contract by repetition; it is not stated as a separate lemma.
- "`findFormatWithSSRC` finds a format once a sender report for it was processed" depends on the receiver's internals and is not stated.
- `Task.payload` is a value: the Go closure captures the caller's `payload` slice (server_session_media.go:146-148), so bytes the caller changed before the worker ran would be the ones sent; the session's callers allocate a fresh buffer per write, so no behaviour depends on this.
- `tcpChannel`, `udpRTPReadPort`, `udpRTCPReadPort`, `udpRTPWriteAddr` and `udpRTCPWriteAddr` are set by the session's SETUP handling, outside this component; the constructor leaves them at zero or none, and callers assign them before `start`.
