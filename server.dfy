/**
 * The server session and one media of it, as a pair of objects. `Session` holds
 * the state shared by all media of a session (and, here, the two UDP listener
 * registries of the server); `SessionMedia` is the per-media transport binding.
 * Every call this component makes into code outside it is recorded, in order,
 * as an `Event` on the session's trace.
 */
module Server {
  import opened Packets
  import opened Formats

  datatype SessionState = Initial | PrePlay | Play | PreRecord | Record

  datatype Transport = TransportUDP | TransportUDPMulticast | TransportTCP

  /** The seven read callbacks a media can install. */
  datatype HandlerKind =
    | ReadRTCPUDPPlay | ReadRTPUDPRecord | ReadRTCPUDPRecord
    | ReadRTPTCPPlay | ReadRTCPTCPPlay | ReadRTPTCPRecord | ReadRTCPTCPRecord

  /** A read callback bound to the media it belongs to (a Go method value). */
  datatype Handler = Handler(media: SessionMedia, kind: HandlerKind)

  datatype Listener = RTPListener | RTCPListener

  /** Listener registrations are keyed by client IP and local read port. */
  datatype ClientKey = ClientKey(ip: seq<byte>, port: int)

  datatype UdpAddr = UdpAddr(ip: seq<byte>, port: int)

  datatype InterleavedFrame = InterleavedFrame(channel: int, payload: seq<byte>)

  datatype Stream = RTPStream | RTCPStream

  /** A closure pushed onto the session's write queue. */
  datatype Task = Task(media: SessionMedia, stream: Stream, payload: seq<byte>)

  /** Which pair of `...InQueue` functions `start` selected. */
  datatype WriteMode = WriteUDP | WriteTCP

  /** The user's `onPacketRTCP` callback; a media starts with the no-op. */
  datatype Callback = NoOpCallback | UserCallback(id: nat)

  datatype WriteError = ErrServerWriteQueueFull

  /** Calls into code outside this component. */
  datatype Event =
    | FormatStarted(pt: uint8)
    | FormatStopped(pt: uint8)
    | SessionWroteRTP(rtpPacket: RtpPacket)
    | SessionWroteRTCP(rtcpPacket: RtcpPacket)
    | ClientAdded(listener: Listener, key: ClientKey, handler: Handler)
    | ClientRemoved(listener: Listener, key: ClientKey)
    | DecodeErrorReported(err: DecodeError)
    | FormatReadRTPUDP(format: uint8, rtp: RtpPacket, time: int)
    | FormatReadRTPTCP(format: uint8, rtp: RtpPacket)
    | SenderReportProcessed(format: uint8, report: RtcpPacket, time: int)
    | RTCPDelivered(callback: Callback, packet: RtcpPacket)
    | UdpWritten(listener: Listener, payload: seq<byte>, addr: Option<UdpAddr>)
    | WriteDeadlineSet(deadline: int)
    | InterleavedFrameWritten(frame: InterleavedFrame)

  // ---------------------------------------------------------------------------
  // Wiring

  /** `start`/`stop` called on each format, in the order the map was ranged over. */
  function LifecycleEvents(order: seq<uint8>, starting: bool): (evs: seq<Event>)
    decreases |order|
  {
    if order == [] then []
    else
      var pt := order[|order| - 1];
      LifecycleEvents(order[..|order| - 1], starting) + [if starting then FormatStarted(pt) else FormatStopped(pt)]
  }

  lemma {:induction false} LifecycleEventsAt(order: seq<uint8>, starting: bool)
    ensures |LifecycleEvents(order, starting)| == |order|
    ensures forall i | 0 <= i < |order| ::
              LifecycleEvents(order, starting)[i] == if starting then FormatStarted(order[i]) else FormatStopped(order[i])
    decreases |order|
  {
    if order != [] {
      LifecycleEventsAt(order[..|order| - 1], starting);
    }
  }

  /** `order` ranges over `keys`: every key exactly once. */
  ghost predicate IsEnumeration(order: seq<uint8>, keys: set<uint8>)
  {
    && (forall i | 0 <= i < |order| :: order[i] in keys)
    && (forall k | k in keys :: k in order)
    && (forall i, j | 0 <= i < j < |order| :: order[i] != order[j])
  }

  /** What `start` does on the UDP listeners after the formats are started. */
  function UdpStartEvents(media: SessionMedia, transport: Transport, state: SessionState,
                          ip: seq<byte>, rtpPort: int, rtcpPort: int): seq<Event>
  {
    if transport != TransportUDP then []
    else if state == Play then
      [ClientAdded(RTCPListener, ClientKey(ip, rtcpPort), Handler(media, ReadRTCPUDPPlay))]
    else
      [ SessionWroteRTP(EmptyRtpPacket), SessionWroteRTCP(EmptyReceiverReport),
        ClientAdded(RTPListener, ClientKey(ip, rtpPort), Handler(media, ReadRTPUDPRecord)),
        ClientAdded(RTCPListener, ClientKey(ip, rtcpPort), Handler(media, ReadRTCPUDPRecord)) ]
  }

  /** The trace left by `start`: every format is started before any firewall
      packet is sent or any listener registration is made, and in Record the two
      empty firewall packets precede both registrations. */
  lemma FormatsStartBeforeWiring(order: seq<uint8>, media: SessionMedia, transport: Transport,
                                 state: SessionState, ip: seq<byte>, rtpPort: int, rtcpPort: int)
    ensures var t := LifecycleEvents(order, true) + UdpStartEvents(media, transport, state, ip, rtpPort, rtcpPort);
            forall i, j | 0 <= i < |t| && 0 <= j < |t| && t[i].FormatStarted? && !t[j].FormatStarted? :: i < j
    ensures var t := UdpStartEvents(media, transport, state, ip, rtpPort, rtcpPort);
            forall i, j | 0 <= i < |t| && 0 <= j < |t| && t[i].ClientAdded? && (t[j].SessionWroteRTP? || t[j].SessionWroteRTCP?) :: j < i
  {
    LifecycleEventsAt(order, true);
  }

  /** The channel table after `start` over TCP: the media's RTP callback at its
      channel, its RTCP callback at the next one, Play or Record variants by the
      session state, and every other channel as before (a nil table reads as empty). */
  function TcpTable(table: Option<map<int, Handler>>, channel: int, media: SessionMedia, state: SessionState): (r: map<int, Handler>)
    ensures channel in r && channel + 1 in r
    ensures r[channel] == Handler(media, if state == Play then ReadRTPTCPPlay else ReadRTPTCPRecord)
    ensures r[channel + 1] == Handler(media, if state == Play then ReadRTCPTCPPlay else ReadRTCPTCPRecord)
    ensures forall ch | ch != channel && ch != channel + 1 ::
              (ch in r <==> table.Some? && ch in table.value) && (ch in r ==> r[ch] == table.value[ch])
  {
    var t := if table.Some? then table.value else map[];
    if state == Play then
      t[channel := Handler(media, ReadRTPTCPPlay)][channel + 1 := Handler(media, ReadRTCPTCPPlay)]
    else
      t[channel := Handler(media, ReadRTPTCPRecord)][channel + 1 := Handler(media, ReadRTCPTCPRecord)]
  }

  // ---------------------------------------------------------------------------
  // Inbound RTCP

  /** Play: the callback once per decoded packet, in order. */
  function PlayRtcpEvents(cb: Callback, packets: seq<RtcpPacket>): seq<Event>
    decreases |packets|
  {
    if packets == [] then []
    else PlayRtcpEvents(cb, packets[..|packets| - 1]) + [RTCPDelivered(cb, packets[|packets| - 1])]
  }

  /** Record, one packet: a sender report goes to the format found for its SSRC
      (if any), then the callback sees the packet whatever its type. */
  function RecordRtcpStep(cb: Callback, p: RtcpPacket, found: Option<uint8>, now: int): seq<Event>
  {
    (if p.SenderReport? && found.Some? then [SenderReportProcessed(found.value, p, now)] else [])
    + [RTCPDelivered(cb, p)]
  }

  /** Record: the steps for all packets, `found[i]` being the search result for packet i. */
  function RecordRtcpEvents(cb: Callback, packets: seq<RtcpPacket>, found: seq<Option<uint8>>, now: int): seq<Event>
    requires |found| == |packets|
    decreases |packets|
  {
    if packets == [] then []
    else
      var n := |packets| - 1;
      RecordRtcpEvents(cb, packets[..n], found[..n], now) + RecordRtcpStep(cb, packets[n], found[n], now)
  }

  /** The search results a Record handler may have obtained: a `findFormatWithSSRC`
      answer for every sender report, and no search for other packets. */
  ghost predicate ValidSearches(formats: map<uint8, Format>, packets: seq<RtcpPacket>, found: seq<Option<uint8>>)
  {
    && |found| == |packets|
    && forall i | 0 <= i < |packets| ::
         if packets[i].SenderReport? then IsFindResult(formats, packets[i].ssrc, found[i]) else found[i] == None
  }

  /** The packets handed to the user callback, in order. */
  function Deliveries(evs: seq<Event>): seq<RtcpPacket>
    decreases |evs|
  {
    if evs == [] then []
    else Deliveries(evs[..|evs| - 1]) + (if evs[|evs| - 1].RTCPDelivered? then [evs[|evs| - 1].packet] else [])
  }

  /** The sender reports handed to formats, in order. */
  function ProcessedReports(evs: seq<Event>): seq<RtcpPacket>
    decreases |evs|
  {
    if evs == [] then []
    else ProcessedReports(evs[..|evs| - 1]) + (if evs[|evs| - 1].SenderReportProcessed? then [evs[|evs| - 1].report] else [])
  }

  /** The sender reports some format's receiver knows the SSRC of, in order. */
  ghost function MatchedReports(formats: map<uint8, Format>, packets: seq<RtcpPacket>): seq<RtcpPacket>
    decreases |packets|
  {
    if packets == [] then []
    else
      var p := packets[|packets| - 1];
      MatchedReports(formats, packets[..|packets| - 1]) + (if p.SenderReport? && HasSender(formats, p.ssrc) then [p] else [])
  }

  lemma {:induction false} DeliveriesAppend(a: seq<Event>, b: seq<Event>)
    ensures Deliveries(a + b) == Deliveries(a) + Deliveries(b)
    ensures ProcessedReports(a + b) == ProcessedReports(a) + ProcessedReports(b)
    decreases |b|
  {
    if b == [] {
      assert a + b == a;
    } else {
      var n := |b| - 1;
      assert (a + b)[..|a + b| - 1] == a + b[..n];
      assert (a + b)[|a + b| - 1] == b[n];
      DeliveriesAppend(a, b[..n]);
    }
  }

  /** In Play every decoded packet reaches the callback exactly once, in order,
      and nothing else happens. */
  lemma {:induction false} PlayDeliversEachPacketOnce(cb: Callback, packets: seq<RtcpPacket>)
    ensures Deliveries(PlayRtcpEvents(cb, packets)) == packets
    ensures forall e | e in PlayRtcpEvents(cb, packets) :: e.RTCPDelivered? && e.callback == cb
    decreases |packets|
  {
    if packets != [] {
      var n := |packets| - 1;
      PlayDeliversEachPacketOnce(cb, packets[..n]);
      DeliveriesAppend(PlayRtcpEvents(cb, packets[..n]), [RTCPDelivered(cb, packets[n])]);
      assert packets == packets[..n] + [packets[n]];
    }
  }

  /** In Record every decoded packet, matched or not, reaches the callback exactly
      once, in order. */
  lemma {:induction false} RecordDeliversEachPacketOnce(cb: Callback, packets: seq<RtcpPacket>, found: seq<Option<uint8>>, now: int)
    requires |found| == |packets|
    ensures Deliveries(RecordRtcpEvents(cb, packets, found, now)) == packets
    decreases |packets|
  {
    if packets != [] {
      var n := |packets| - 1;
      var prev, step := RecordRtcpEvents(cb, packets[..n], found[..n], now), RecordRtcpStep(cb, packets[n], found[n], now);
      calc {
        Deliveries(RecordRtcpEvents(cb, packets, found, now));
        Deliveries(prev + step);
        { DeliveriesAppend(prev, step); }
        Deliveries(prev) + Deliveries(step);
        { RecordDeliversEachPacketOnce(cb, packets[..n], found[..n], now);
          RecordStepContents(cb, packets[n], found[n], now); }
        packets[..n] + [packets[n]];
        packets;
      }
    }
  }

  /** In Record the packets reach the user only through the media's current callback. */
  lemma {:induction false} RecordDeliversToCallback(cb: Callback, packets: seq<RtcpPacket>, found: seq<Option<uint8>>, now: int)
    requires |found| == |packets|
    ensures forall e | e in RecordRtcpEvents(cb, packets, found, now) && e.RTCPDelivered? :: e.callback == cb
    decreases |packets|
  {
    if packets != [] {
      var n := |packets| - 1;
      RecordDeliversToCallback(cb, packets[..n], found[..n], now);
    }
  }

  /** What one Record step hands over: the callback's packet, preceded by the
      report when a format was found for it. */
  lemma RecordStepContents(cb: Callback, p: RtcpPacket, found: Option<uint8>, now: int)
    ensures Deliveries(RecordRtcpStep(cb, p, found, now)) == [p]
    ensures ProcessedReports(RecordRtcpStep(cb, p, found, now)) == if p.SenderReport? && found.Some? then [p] else []
  {
    var step := RecordRtcpStep(cb, p, found, now);
    if p.SenderReport? && found.Some? {
      DeliveriesAppend([step[0]], [step[1]]);
      assert step == [step[0]] + [step[1]];
    }
  }

  /** Dropping the last packet keeps the searches valid for the others. */
  lemma ValidSearchesPrefix(formats: map<uint8, Format>, packets: seq<RtcpPacket>, found: seq<Option<uint8>>, n: nat)
    requires ValidSearches(formats, packets, found) && n <= |packets|
    ensures ValidSearches(formats, packets[..n], found[..n])
  {
  }

  /** A search result for the next packet extends the valid searches by one. */
  lemma ValidSearchesExtend(formats: map<uint8, Format>, packets: seq<RtcpPacket>, found: seq<Option<uint8>>, i: nat, r: Option<uint8>)
    requires i < |packets| && ValidSearches(formats, packets[..i], found)
    requires if packets[i].SenderReport? then IsFindResult(formats, packets[i].ssrc, r) else r == None
    ensures ValidSearches(formats, packets[..i + 1], found + [r])
  {
  }

  /** In Record exactly the sender reports whose SSRC some format knows are
      processed, one each, in order. */
  lemma {:induction false} RecordProcessesMatchedReports(formats: map<uint8, Format>, cb: Callback, packets: seq<RtcpPacket>,
                                                         found: seq<Option<uint8>>, now: int)
    requires ValidSearches(formats, packets, found)
    ensures ProcessedReports(RecordRtcpEvents(cb, packets, found, now)) == MatchedReports(formats, packets)
    decreases |packets|
  {
    if packets != [] {
      var n := |packets| - 1;
      var p := packets[n];
      ValidSearchesPrefix(formats, packets, found, n);
      RecordProcessesMatchedReports(formats, cb, packets[..n], found[..n], now);
      DeliveriesAppend(RecordRtcpEvents(cb, packets[..n], found[..n], now), RecordRtcpStep(cb, p, found[n], now));
      RecordStepContents(cb, p, found[n], now);
      assert p.SenderReport? ==> IsFindResult(formats, p.ssrc, found[n]);
    }
  }

  /** In Record each processed sender report goes to a format whose receiver
      knows its SSRC, stamped with the handler's time. */
  lemma {:induction false} RecordReportsReachMatchingFormat(formats: map<uint8, Format>, cb: Callback, packets: seq<RtcpPacket>,
                                                            found: seq<Option<uint8>>, now: int)
    requires ValidSearches(formats, packets, found)
    ensures forall e | e in RecordRtcpEvents(cb, packets, found, now) && e.SenderReportProcessed? ::
              && e.report.SenderReport? && e.time == now
              && e.format in formats && formats[e.format].senderSSRC == Some(e.report.ssrc)
    decreases |packets|
  {
    if packets != [] {
      var n := |packets| - 1;
      var p := packets[n];
      ValidSearchesPrefix(formats, packets, found, n);
      RecordReportsReachMatchingFormat(formats, cb, packets[..n], found[..n], now);
      assert p.SenderReport? ==> IsFindResult(formats, p.ssrc, found[n]);
    }
  }

  // ---------------------------------------------------------------------------
  // Outbound

  /** The write queue after one push that ignores its result: the task is
      appended when there is room, and dropped otherwise. */
  function Enqueued(q: seq<Task>, t: Task, capacity: nat): seq<Task>
  {
    if |q| < capacity then q + [t] else q
  }

  /** The wire form of `rtp.Packet{Header: rtp.Header{Version: 2}}`: a bare
      12-byte RTP fixed header (section 5.1 of RFC 3550) with version 2 and every
      other field zero. */
  const EmptyRtpBytes: seq<byte> := [0x80, 0, 0, 0, 0, 0, 0, 0, 0, 0, 0, 0]

  /** The wire form of `rtcp.ReceiverReport{}`: a receiver report header
      (section 6.4.2 of RFC 3550) with no report blocks: version 2, packet type
      201, length one word, SSRC zero. */
  const EmptyReceiverReportBytes: seq<byte> := [0x80, 201, 0, 1, 0, 0, 0, 0]

  // ---------------------------------------------------------------------------
  // The objects

  /** The parts of `ServerSession` (and of its server) that a media reads and writes. */
  class Session {
    var state: SessionState
    const setuppedTransport: Transport
    const authorIp: seq<byte>
    const maxPacketSize: nat
    const writeTimeout: int
    const writeQueueCapacity: nat
    var tcpCallbackByChannel: Option<map<int, Handler>>
    var bytesSent: uint64
    var bytesReceived: uint64
    var udpLastPacketTime: int
    var writeQueue: seq<Task>
    var udpRTPClients: map<ClientKey, Handler>
    var udpRTCPClients: map<ClientKey, Handler>
    var trace: seq<Event>

    constructor (state: SessionState, transport: Transport, authorIp: seq<byte>,
                 maxPacketSize: nat, writeTimeout: int, writeQueueCapacity: nat)
      ensures this.state == state && setuppedTransport == transport && this.authorIp == authorIp
      ensures this.maxPacketSize == maxPacketSize && this.writeTimeout == writeTimeout
      ensures this.writeQueueCapacity == writeQueueCapacity
      ensures tcpCallbackByChannel == None && bytesSent == 0 && bytesReceived == 0 && udpLastPacketTime == 0
      ensures writeQueue == [] && udpRTPClients == map[] && udpRTCPClients == map[] && trace == []
    {
      this.state := state;
      setuppedTransport := transport;
      this.authorIp := authorIp;
      this.maxPacketSize := maxPacketSize;
      this.writeTimeout := writeTimeout;
      this.writeQueueCapacity := writeQueueCapacity;
      tcpCallbackByChannel := None;
      bytesSent, bytesReceived, udpLastPacketTime := 0, 0, 0;
      writeQueue := [];
      udpRTPClients, udpRTCPClients := map[], map[];
      trace := [];
    }

    /** `ss.writer.push`: refuses when the bounded queue is full. */
    method Push(t: Task) returns (ok: bool)
      modifies this`writeQueue
      ensures ok <==> |old(writeQueue)| < writeQueueCapacity
      ensures writeQueue == if ok then old(writeQueue) + [t] else old(writeQueue)
    {
      ok := |writeQueue| < writeQueueCapacity;
      if ok {
        writeQueue := writeQueue + [t];
      }
    }

    /** The write queue's worker taking the oldest task. */
    method PopTask() returns (t: Task)
      requires writeQueue != []
      modifies this`writeQueue
      ensures t == old(writeQueue[0]) && writeQueue == old(writeQueue[1..])
    {
      t := writeQueue[0];
      writeQueue := writeQueue[1..];
    }

    /** `ss.onDecodeError`. */
    method OnDecodeError(err: DecodeError)
      modifies this`trace
      ensures trace == old(trace) + [DecodeErrorReported(err)]
    {
      trace := trace + [DecodeErrorReported(err)];
    }
  }

  /** `serverSessionMedia`: one media of a session bound to its transport. */
  class SessionMedia {
    const ss: Session
    const media: Media
    var tcpChannel: int
    var udpRTPReadPort: int
    var udpRTPWriteAddr: Option<UdpAddr>
    var udpRTCPReadPort: int
    var udpRTCPWriteAddr: Option<UdpAddr>
    var tcpRTPFrame: Option<InterleavedFrame>
    var tcpRTCPFrame: Option<InterleavedFrame>
    var tcpBuffer: array?<byte>
    var formats: map<uint8, Format>
    var writeMode: Option<WriteMode>
    var onPacketRTCP: Callback

    /** `newServerSessionMedia`: formats only for a session that is about to record. */
    constructor (ss: Session, medi: Media)
      ensures this.ss == ss && media == medi
      ensures formats == if ss.state == PreRecord then FormatsOf(medi.formats) else map[]
      ensures onPacketRTCP == NoOpCallback
      ensures writeMode == None && tcpRTPFrame == None && tcpRTCPFrame == None && tcpBuffer == null
      ensures tcpChannel == 0 && udpRTPReadPort == 0 && udpRTCPReadPort == 0
      ensures udpRTPWriteAddr == None && udpRTCPWriteAddr == None
    {
      this.ss := ss;
      media := medi;
      onPacketRTCP := NoOpCallback;
      var fs: map<uint8, Format> := map[];
      if ss.state == PreRecord {
        var i := 0;
        while i < |medi.formats|
          invariant 0 <= i <= |medi.formats|
          invariant fs == FormatsOf(medi.formats[..i])
        {
          assert medi.formats[..i + 1][..i] == medi.formats[..i];
          fs := fs[medi.formats[i].payloadType := NewFormat(medi.formats[i])];
          i := i + 1;
        }
        assert medi.formats[..i] == medi.formats;
      }
      formats := fs;
      writeMode := None;
      tcpRTPFrame, tcpRTCPFrame, tcpBuffer := None, None, null;
      tcpChannel, udpRTPReadPort, udpRTCPReadPort := 0, 0, 0;
      udpRTPWriteAddr, udpRTCPWriteAddr := None, None;
    }

    /** Calls `start` (or `stop`) on every format, in map order. */
    method CallFormats(starting: bool) returns (ghost order: seq<uint8>)
      modifies ss`trace
      ensures IsEnumeration(order, formats.Keys)
      ensures ss.trace == old(ss.trace) + LifecycleEvents(order, starting)
    {
      var remaining := formats.Keys;
      order := [];
      while remaining != {}
        invariant remaining <= formats.Keys
        invariant forall i | 0 <= i < |order| :: order[i] in formats && order[i] !in remaining
        invariant forall k | k in formats.Keys && k !in remaining :: k in order
        invariant forall i, j | 0 <= i < j < |order| :: order[i] != order[j]
        invariant ss.trace == old(ss.trace) + LifecycleEvents(order, starting)
        decreases |remaining|
      {
        var pt :| pt in remaining;
        var event := if starting then FormatStarted(pt) else FormatStopped(pt);
        ss.trace := ss.trace + [event];
        assert (order + [pt])[..|order|] == order;
        assert LifecycleEvents(order + [pt], starting) == LifecycleEvents(order, starting) + [event];
        order := order + [pt];
        remaining := remaining - {pt};
      }
    }

    /** After `start`: the write functions match the transport and, over TCP,
        the two frames sit on the media's channels `c` and `c+1`. */
    predicate Started()
      reads this, ss
    {
      && writeMode == Some(if ss.setuppedTransport == TransportTCP then WriteTCP else WriteUDP)
      && (writeMode == Some(WriteTCP) ==>
            && tcpRTPFrame.Some? && tcpRTPFrame.value.channel == tcpChannel
            && tcpRTCPFrame.Some? && tcpRTCPFrame.value.channel == tcpChannel + 1)
    }

    /** `start`: formats first, then the transport wiring. */
    method Start() returns (ghost order: seq<uint8>)
      modifies ss`trace, ss`udpRTPClients, ss`udpRTCPClients, ss`tcpCallbackByChannel, ss`writeQueue
      modifies this`writeMode, this`tcpRTPFrame, this`tcpRTCPFrame, this`tcpBuffer
      ensures Started()
      ensures IsEnumeration(order, formats.Keys)
      ensures ss.trace == old(ss.trace) + LifecycleEvents(order, true) +
                UdpStartEvents(this, ss.setuppedTransport, ss.state, ss.authorIp, udpRTPReadPort, udpRTCPReadPort)
      ensures writeMode == Some(if ss.setuppedTransport == TransportTCP then WriteTCP else WriteUDP)
      ensures ss.udpRTPClients ==
                if ss.setuppedTransport == TransportUDP && ss.state != Play
                then old(ss.udpRTPClients)[ClientKey(ss.authorIp, udpRTPReadPort) := Handler(this, HandlerKind.ReadRTPUDPRecord)]
                else old(ss.udpRTPClients)
      ensures ss.udpRTCPClients ==
                if ss.setuppedTransport != TransportUDP then old(ss.udpRTCPClients)
                else old(ss.udpRTCPClients)[ClientKey(ss.authorIp, udpRTCPReadPort) :=
                       Handler(this, if ss.state == Play then HandlerKind.ReadRTCPUDPPlay else HandlerKind.ReadRTCPUDPRecord)]
      ensures ss.writeQueue ==
                if ss.setuppedTransport == TransportUDP && ss.state != Play
                then Enqueued(Enqueued(old(ss.writeQueue), Task(this, RTPStream, EmptyRtpBytes), ss.writeQueueCapacity),
                              Task(this, RTCPStream, EmptyReceiverReportBytes), ss.writeQueueCapacity)
                else old(ss.writeQueue)
      ensures ss.setuppedTransport == TransportTCP ==>
                && ss.tcpCallbackByChannel == Some(TcpTable(old(ss.tcpCallbackByChannel), tcpChannel, this, ss.state))
                && tcpRTPFrame == Some(InterleavedFrame(tcpChannel, []))
                && tcpRTCPFrame == Some(InterleavedFrame(tcpChannel + 1, []))
                && tcpBuffer != null && fresh(tcpBuffer) && tcpBuffer.Length == ss.maxPacketSize + 4
      ensures ss.setuppedTransport != TransportTCP ==>
                && ss.tcpCallbackByChannel == old(ss.tcpCallbackByChannel)
                && tcpRTPFrame == old(tcpRTPFrame) && tcpRTCPFrame == old(tcpRTCPFrame) && tcpBuffer == old(tcpBuffer)
    {
      order := CallFormats(true);
      var ip := ss.authorIp;
      match ss.setuppedTransport
      case TransportUDP =>
        writeMode := Some(WriteUDP);
        if ss.state == Play {
          var key := ClientKey(ip, udpRTCPReadPort);
          ss.udpRTCPClients := ss.udpRTCPClients[key := Handler(this, HandlerKind.ReadRTCPUDPPlay)];
          ss.trace := ss.trace + [ClientAdded(RTCPListener, key, Handler(this, HandlerKind.ReadRTCPUDPPlay))];
        } else {
          ss.trace := ss.trace + [SessionWroteRTP(EmptyRtpPacket)];
          var _ := WritePacketRTP(EmptyRtpBytes);
          ss.trace := ss.trace + [SessionWroteRTCP(EmptyReceiverReport)];
          var _ := WritePacketRTCP(EmptyReceiverReportBytes);
          var rtpKey, rtcpKey := ClientKey(ip, udpRTPReadPort), ClientKey(ip, udpRTCPReadPort);
          ss.udpRTPClients := ss.udpRTPClients[rtpKey := Handler(this, HandlerKind.ReadRTPUDPRecord)];
          ss.trace := ss.trace + [ClientAdded(RTPListener, rtpKey, Handler(this, HandlerKind.ReadRTPUDPRecord))];
          ss.udpRTCPClients := ss.udpRTCPClients[rtcpKey := Handler(this, HandlerKind.ReadRTCPUDPRecord)];
          ss.trace := ss.trace + [ClientAdded(RTCPListener, rtcpKey, Handler(this, HandlerKind.ReadRTCPUDPRecord))];
        }
      case TransportUDPMulticast =>
        writeMode := Some(WriteUDP);
      case TransportTCP =>
        writeMode := Some(WriteTCP);
        var table := if ss.tcpCallbackByChannel.Some? then ss.tcpCallbackByChannel.value else map[];
        if ss.state == Play {
          table := table[tcpChannel := Handler(this, HandlerKind.ReadRTPTCPPlay)];
          table := table[tcpChannel + 1 := Handler(this, HandlerKind.ReadRTCPTCPPlay)];
        } else {
          table := table[tcpChannel := Handler(this, HandlerKind.ReadRTPTCPRecord)];
          table := table[tcpChannel + 1 := Handler(this, HandlerKind.ReadRTCPTCPRecord)];
        }
        ss.tcpCallbackByChannel := Some(table);
        tcpRTPFrame := Some(InterleavedFrame(tcpChannel, []));
        tcpRTCPFrame := Some(InterleavedFrame(tcpChannel + 1, []));
        tcpBuffer := new byte[ss.maxPacketSize + 4];
    }

    /** `stop`: leave both UDP listeners (unicast only), then stop every format.
        The TCP channel table keeps its entries. */
    method Stop() returns (ghost order: seq<uint8>)
      modifies ss`trace, ss`udpRTPClients, ss`udpRTCPClients
      ensures IsEnumeration(order, formats.Keys)
      ensures ss.setuppedTransport == TransportUDP ==>
                && ss.udpRTPClients == old(ss.udpRTPClients) - {ClientKey(ss.authorIp, udpRTPReadPort)}
                && ss.udpRTCPClients == old(ss.udpRTCPClients) - {ClientKey(ss.authorIp, udpRTCPReadPort)}
                && ss.trace == old(ss.trace) + [ClientRemoved(RTPListener, ClientKey(ss.authorIp, udpRTPReadPort)),
                                                ClientRemoved(RTCPListener, ClientKey(ss.authorIp, udpRTCPReadPort))]
                                             + LifecycleEvents(order, false)
      ensures ss.setuppedTransport != TransportUDP ==>
                && ss.udpRTPClients == old(ss.udpRTPClients) && ss.udpRTCPClients == old(ss.udpRTCPClients)
                && ss.trace == old(ss.trace) + LifecycleEvents(order, false)
      ensures ss.tcpCallbackByChannel == old(ss.tcpCallbackByChannel)
    {
      if ss.setuppedTransport == TransportUDP {
        var rtpKey, rtcpKey := ClientKey(ss.authorIp, udpRTPReadPort), ClientKey(ss.authorIp, udpRTCPReadPort);
        ss.udpRTPClients := ss.udpRTPClients - {rtpKey};
        ss.trace := ss.trace + [ClientRemoved(RTPListener, rtpKey)];
        ss.udpRTCPClients := ss.udpRTCPClients - {rtcpKey};
        ss.trace := ss.trace + [ClientRemoved(RTCPListener, rtcpKey)];
      }
      order := CallFormats(false);
    }

    /** `findFormatWithSSRC`: a read-only search over the formats. */
    method FindFormatWithSSRC(ssrc: uint32) returns (r: Option<uint8>)
      ensures IsFindResult(formats, ssrc, r)
    {
      var remaining := formats.Keys;
      while remaining != {}
        invariant remaining <= formats.Keys
        invariant forall pt | pt in formats && pt !in remaining :: formats[pt].senderSSRC != Some(ssrc)
        decreases |remaining|
      {
        var pt :| pt in remaining;
        var sender := formats[pt].senderSSRC;
        if sender.Some? && sender.value == ssrc {
          return Some(pt);
        }
        remaining := remaining - {pt};
      }
      return None;
    }

    // -------------------------------------------------------------------------
    // Outbound

    /** The queued UDP write of an RTP packet. */
    method WritePacketRTPInQueueUDP(payload: seq<byte>)
      modifies ss`bytesSent, ss`trace
      ensures ss.bytesSent == AddUint64(old(ss.bytesSent), |payload|)
      ensures ss.trace == old(ss.trace) + [UdpWritten(RTPListener, payload, udpRTPWriteAddr)]
    {
      ss.bytesSent := AddUint64(ss.bytesSent, |payload|);
      ss.trace := ss.trace + [UdpWritten(RTPListener, payload, udpRTPWriteAddr)];
    }

    /** The queued UDP write of an RTCP packet. */
    method WritePacketRTCPInQueueUDP(payload: seq<byte>)
      modifies ss`bytesSent, ss`trace
      ensures ss.bytesSent == AddUint64(old(ss.bytesSent), |payload|)
      ensures ss.trace == old(ss.trace) + [UdpWritten(RTCPListener, payload, udpRTCPWriteAddr)]
    {
      ss.bytesSent := AddUint64(ss.bytesSent, |payload|);
      ss.trace := ss.trace + [UdpWritten(RTCPListener, payload, udpRTCPWriteAddr)];
    }

    /** The queued TCP write of an RTP packet: the deadline is refreshed, then the
        RTP frame is written with the payload. `now` is the time the task runs. */
    method WritePacketRTPInQueueTCP(payload: seq<byte>, now: int)
      requires tcpRTPFrame.Some?
      modifies ss`bytesSent, ss`trace, this`tcpRTPFrame
      ensures ss.bytesSent == AddUint64(old(ss.bytesSent), |payload|)
      ensures tcpRTPFrame == Some(InterleavedFrame(old(tcpRTPFrame.value.channel), payload))
      ensures ss.trace == old(ss.trace) + [WriteDeadlineSet(now + ss.writeTimeout), InterleavedFrameWritten(tcpRTPFrame.value)]
    {
      ss.bytesSent := AddUint64(ss.bytesSent, |payload|);
      tcpRTPFrame := Some(tcpRTPFrame.value.(payload := payload));
      ss.trace := ss.trace + [WriteDeadlineSet(now + ss.writeTimeout), InterleavedFrameWritten(tcpRTPFrame.value)];
    }

    /** The queued TCP write of an RTCP packet. */
    method WritePacketRTCPInQueueTCP(payload: seq<byte>, now: int)
      requires tcpRTCPFrame.Some?
      modifies ss`bytesSent, ss`trace, this`tcpRTCPFrame
      ensures ss.bytesSent == AddUint64(old(ss.bytesSent), |payload|)
      ensures tcpRTCPFrame == Some(InterleavedFrame(old(tcpRTCPFrame.value.channel), payload))
      ensures ss.trace == old(ss.trace) + [WriteDeadlineSet(now + ss.writeTimeout), InterleavedFrameWritten(tcpRTCPFrame.value)]
    {
      ss.bytesSent := AddUint64(ss.bytesSent, |payload|);
      tcpRTCPFrame := Some(tcpRTCPFrame.value.(payload := payload));
      ss.trace := ss.trace + [WriteDeadlineSet(now + ss.writeTimeout), InterleavedFrameWritten(tcpRTCPFrame.value)];
    }

    /** `writePacketRTP`: queue the write, or report a full queue. */
    method WritePacketRTP(payload: seq<byte>) returns (err: Option<WriteError>)
      modifies ss`writeQueue
      ensures err == None <==> |old(ss.writeQueue)| < ss.writeQueueCapacity
      ensures err != None ==> err == Some(ErrServerWriteQueueFull) && ss.writeQueue == old(ss.writeQueue)
      ensures err == None ==> ss.writeQueue == old(ss.writeQueue) + [Task(this, RTPStream, payload)]
    {
      var ok := ss.Push(Task(this, RTPStream, payload));
      if !ok {
        return Some(ErrServerWriteQueueFull);
      }
      return None;
    }

    /** `writePacketRTCP`: queue the write, or report a full queue. */
    method WritePacketRTCP(payload: seq<byte>) returns (err: Option<WriteError>)
      modifies ss`writeQueue
      ensures err == None <==> |old(ss.writeQueue)| < ss.writeQueueCapacity
      ensures err != None ==> err == Some(ErrServerWriteQueueFull) && ss.writeQueue == old(ss.writeQueue)
      ensures err == None ==> ss.writeQueue == old(ss.writeQueue) + [Task(this, RTCPStream, payload)]
    {
      var ok := ss.Push(Task(this, RTCPStream, payload));
      if !ok {
        return Some(ErrServerWriteQueueFull);
      }
      return None;
    }

    /** The write queue's worker running this media's oldest task: the closure
        calls whichever `...InQueue` function `start` selected. */
    method RunQueuedTask(now: int)
      requires ss.writeQueue != [] && ss.writeQueue[0].media == this
      requires Started()
      modifies ss`writeQueue, ss`bytesSent, ss`trace, this`tcpRTPFrame, this`tcpRTCPFrame
      ensures Started()
      ensures var t := old(ss.writeQueue[0]);
              && tcpRTPFrame == (if writeMode == Some(WriteTCP) && t.stream == RTPStream
                                 then Some(InterleavedFrame(tcpChannel, t.payload)) else old(tcpRTPFrame))
              && tcpRTCPFrame == (if writeMode == Some(WriteTCP) && t.stream == RTCPStream
                                  then Some(InterleavedFrame(tcpChannel + 1, t.payload)) else old(tcpRTCPFrame))
      ensures ss.writeQueue == old(ss.writeQueue[1..])
      ensures ss.bytesSent == AddUint64(old(ss.bytesSent), |old(ss.writeQueue[0]).payload|)
      ensures var t := old(ss.writeQueue[0]);
              ss.trace == old(ss.trace) +
                match (writeMode.value, t.stream)
                case (WriteUDP, RTPStream) => [UdpWritten(RTPListener, t.payload, udpRTPWriteAddr)]
                case (WriteUDP, RTCPStream) => [UdpWritten(RTCPListener, t.payload, udpRTCPWriteAddr)]
                case (WriteTCP, RTPStream) =>
                  [WriteDeadlineSet(now + ss.writeTimeout), InterleavedFrameWritten(InterleavedFrame(old(tcpRTPFrame.value.channel), t.payload))]
                case (WriteTCP, RTCPStream) =>
                  [WriteDeadlineSet(now + ss.writeTimeout), InterleavedFrameWritten(InterleavedFrame(old(tcpRTCPFrame.value.channel), t.payload))]
    {
      var t := ss.PopTask();
      match (writeMode.value, t.stream)
      case (WriteUDP, RTPStream) => WritePacketRTPInQueueUDP(t.payload);
      case (WriteUDP, RTCPStream) => WritePacketRTCPInQueueUDP(t.payload);
      case (WriteTCP, RTPStream) => WritePacketRTPInQueueTCP(t.payload, now);
      case (WriteTCP, RTCPStream) => WritePacketRTCPInQueueTCP(t.payload, now);
    }

    // -------------------------------------------------------------------------
    // Inbound

    /** The callback loop of the Play RTCP handlers. */
    method DeliverPlayRTCP(packets: seq<RtcpPacket>)
      modifies ss`trace
      ensures ss.trace == old(ss.trace) + PlayRtcpEvents(onPacketRTCP, packets)
    {
      for i := 0 to |packets|
        invariant ss.trace == old(ss.trace) + PlayRtcpEvents(onPacketRTCP, packets[..i])
      {
        assert packets[..i + 1][..i] == packets[..i];
        ss.trace := ss.trace + [RTCPDelivered(onPacketRTCP, packets[i])];
      }
      assert packets[..|packets|] == packets;
    }

    /** The loop of the Record RTCP handlers: sender reports go to the format
        that knows their SSRC, and every packet to the callback. */
    method DeliverRecordRTCP(packets: seq<RtcpPacket>, now: int) returns (ghost found: seq<Option<uint8>>)
      modifies ss`trace
      ensures ValidSearches(formats, packets, found)
      ensures ss.trace == old(ss.trace) + RecordRtcpEvents(onPacketRTCP, packets, found, now)
    {
      found := [];
      for i := 0 to |packets|
        invariant ValidSearches(formats, packets[..i], found)
        invariant ss.trace == old(ss.trace) + RecordRtcpEvents(onPacketRTCP, packets[..i], found, now)
      {
        var p := packets[i];
        var r: Option<uint8> := None;
        if p.SenderReport? {
          r := FindFormatWithSSRC(p.ssrc);
          if r.Some? {
            ss.trace := ss.trace + [SenderReportProcessed(r.value, p, now)];
          }
        }
        ss.trace := ss.trace + [RTCPDelivered(onPacketRTCP, p)];
        ValidSearchesExtend(formats, packets, found, i, r);
        assert packets[..i + 1][..i] == packets[..i] && (found + [r])[..i] == found;
        assert RecordRtcpEvents(onPacketRTCP, packets[..i + 1], found + [r], now)
            == RecordRtcpEvents(onPacketRTCP, packets[..i], found, now) + RecordRtcpStep(onPacketRTCP, p, r, now);
        found := found + [r];
      }
      assert packets[..|packets|] == packets;
    }

    /** `readRTCPUDPPlay`. */
    method ReadRTCPUDPPlay(payload: seq<byte>, parse: RtcpParse, now: int)
      modifies ss`bytesReceived, ss`udpLastPacketTime, ss`trace
      ensures ss.bytesReceived == AddUint64(old(ss.bytesReceived), |payload|)
      ensures match ClassifyRtcpUdp(|payload|, parse)
              case RtcpRejected(err) =>
                ss.trace == old(ss.trace) + [DecodeErrorReported(err)] && ss.udpLastPacketTime == old(ss.udpLastPacketTime)
              case RtcpAccepted(packets) =>
                ss.trace == old(ss.trace) + PlayRtcpEvents(onPacketRTCP, packets) && ss.udpLastPacketTime == UnixSeconds(now)
    {
      ss.bytesReceived := AddUint64(ss.bytesReceived, |payload|);
      match ClassifyRtcpUdp(|payload|, parse)
      case RtcpRejected(err) => ss.OnDecodeError(err);
      case RtcpAccepted(packets) =>
        ss.udpLastPacketTime := UnixSeconds(now);
        DeliverPlayRTCP(packets);
    }

    /** `readRTPUDPRecord`. */
    method ReadRTPUDPRecord(payload: seq<byte>, parse: RtpParse, now: int, learned: Option<uint32>)
      modifies ss`bytesReceived, ss`udpLastPacketTime, ss`trace, this`formats
      ensures ss.bytesReceived == AddUint64(old(ss.bytesReceived), |payload|)
      ensures match ClassifyRtpUdp(|payload|, old(formats).Keys, parse)
              case RtpRejected(err) =>
                && ss.trace == old(ss.trace) + [DecodeErrorReported(err)] && ss.udpLastPacketTime == old(ss.udpLastPacketTime)
                && formats == old(formats)
              case RtpAccepted(pkt) =>
                && ss.trace == old(ss.trace) + [FormatReadRTPUDP(pkt.payloadType, pkt, now)] && ss.udpLastPacketTime == UnixSeconds(now)
                && formats == old(formats)[pkt.payloadType := old(formats)[pkt.payloadType].(senderSSRC := learned)]
                && (learned.Some? ==> HasSender(formats, learned.value))
    {
      ss.bytesReceived := AddUint64(ss.bytesReceived, |payload|);
      match ClassifyRtpUdp(|payload|, formats.Keys, parse)
      case RtpRejected(err) => ss.OnDecodeError(err);
      case RtpAccepted(pkt) =>
        ss.udpLastPacketTime := UnixSeconds(now);
        ss.trace := ss.trace + [FormatReadRTPUDP(pkt.payloadType, pkt, now)];
        ReceiverLearned(pkt.payloadType, learned);
    }

    /** The RTP packet handed to `formats[pt]` feeds its RTCP receiver;
        `learned` is the sender SSRC that receiver reports afterwards. */
    method ReceiverLearned(pt: uint8, learned: Option<uint32>)
      requires pt in formats
      modifies this`formats
      ensures formats == old(formats)[pt := old(formats)[pt].(senderSSRC := learned)]
      ensures learned.Some? ==> HasSender(formats, learned.value)
    {
      formats := formats[pt := formats[pt].(senderSSRC := learned)];
      assert learned.Some? ==> formats[pt].senderSSRC == Some(learned.value);
    }

    /** `readRTCPUDPRecord`. */
    method ReadRTCPUDPRecord(payload: seq<byte>, parse: RtcpParse, now: int) returns (ghost found: seq<Option<uint8>>)
      modifies ss`bytesReceived, ss`udpLastPacketTime, ss`trace
      ensures ss.bytesReceived == AddUint64(old(ss.bytesReceived), |payload|)
      ensures match ClassifyRtcpUdp(|payload|, parse)
              case RtcpRejected(err) =>
                ss.trace == old(ss.trace) + [DecodeErrorReported(err)] && ss.udpLastPacketTime == old(ss.udpLastPacketTime)
              case RtcpAccepted(packets) =>
                && ValidSearches(formats, packets, found)
                && ss.trace == old(ss.trace) + RecordRtcpEvents(onPacketRTCP, packets, found, now)
                && ss.udpLastPacketTime == UnixSeconds(now)
    {
      found := [];
      ss.bytesReceived := AddUint64(ss.bytesReceived, |payload|);
      match ClassifyRtcpUdp(|payload|, parse)
      case RtcpRejected(err) => ss.OnDecodeError(err);
      case RtcpAccepted(packets) =>
        ss.udpLastPacketTime := UnixSeconds(now);
        found := DeliverRecordRTCP(packets, now);
    }

    /** `readRTPTCPPlay`: a client that plays sends no RTP; nothing happens. */
    method ReadRTPTCPPlay(payload: seq<byte>)
      ensures unchanged(this, ss)
    {
    }

    /** `readRTCPTCPPlay`. */
    method ReadRTCPTCPPlay(payload: seq<byte>, parse: RtcpParse)
      modifies ss`trace
      ensures match ClassifyRtcpTcp(|payload|, parse)
              case RtcpRejected(err) => ss.trace == old(ss.trace) + [DecodeErrorReported(err)]
              case RtcpAccepted(packets) => ss.trace == old(ss.trace) + PlayRtcpEvents(onPacketRTCP, packets)
    {
      match ClassifyRtcpTcp(|payload|, parse)
      case RtcpRejected(err) => ss.OnDecodeError(err);
      case RtcpAccepted(packets) => DeliverPlayRTCP(packets);
    }

    /** `readRTPTCPRecord`: no size check and no time. */
    method ReadRTPTCPRecord(payload: seq<byte>, parse: RtpParse, learned: Option<uint32>)
      modifies ss`trace, this`formats
      ensures match ClassifyRtp(old(formats).Keys, parse)
              case RtpRejected(err) => ss.trace == old(ss.trace) + [DecodeErrorReported(err)] && formats == old(formats)
              case RtpAccepted(pkt) =>
                && ss.trace == old(ss.trace) + [FormatReadRTPTCP(pkt.payloadType, pkt)]
                && formats == old(formats)[pkt.payloadType := old(formats)[pkt.payloadType].(senderSSRC := learned)]
                && (learned.Some? ==> HasSender(formats, learned.value))
    {
      match ClassifyRtp(formats.Keys, parse)
      case RtpRejected(err) => ss.OnDecodeError(err);
      case RtpAccepted(pkt) =>
        ss.trace := ss.trace + [FormatReadRTPTCP(pkt.payloadType, pkt)];
        ReceiverLearned(pkt.payloadType, learned);
    }

    /** `readRTCPTCPRecord`: the time is read once after a successful parse. */
    method ReadRTCPTCPRecord(payload: seq<byte>, parse: RtcpParse, now: int) returns (ghost found: seq<Option<uint8>>)
      modifies ss`trace
      ensures match ClassifyRtcpTcp(|payload|, parse)
              case RtcpRejected(err) => ss.trace == old(ss.trace) + [DecodeErrorReported(err)]
              case RtcpAccepted(packets) =>
                && ValidSearches(formats, packets, found)
                && ss.trace == old(ss.trace) + RecordRtcpEvents(onPacketRTCP, packets, found, now)
    {
      found := [];
      match ClassifyRtcpTcp(|payload|, parse)
      case RtcpRejected(err) => ss.OnDecodeError(err);
      case RtcpAccepted(packets) => found := DeliverRecordRTCP(packets, now);
    }
  }
}
