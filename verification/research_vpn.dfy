/** The research pipeline's per-packet logic (`TrafficVpnService.analyzePacket`):
    decode the IPv4 destination and the TCP/UDP destination port, record the
    packet in the flow table as outbound, and emit the two broadcasts, a
    connection record throttled on packet length and the one-shot MEDIA event.

    Broadcasts are returned as a sequence of event records. */
module ResearchVpn {
  import opened Common
  import opened Models
  import opened PacketCodec
  import opened FlowTable

  /** `ByteBuffer.allocate(65535)`: a read never returns more than this. */
  const BUFFER_SIZE: int := 65535
  /** The smallest IPv4 header. */
  const MIN_PACKET_LENGTH: int := 20
  const PROTO_TCP: int := 6
  const PROTO_UDP: int := 17

  /** The destination a tracked packet is counted against. */
  datatype Target = Target(protocol: uint8, destIp: string, destPort: int)

  /** The header decoding of `analyzePacket`. Packets shorter than 20 bytes,
      packets that are not IPv4, and packets that are neither TCP nor UDP (port
      left at -1) yield nothing. The port is the big-endian word at bytes 22..23,
      a fixed offset that assumes a 20-byte header whatever the IHL says. */
  function DecodeTarget(buffer: seq<uint8>, length: int): (r: Option<Target>)
    requires |buffer| == BUFFER_SIZE
    ensures r.Some? <==> length >= MIN_PACKET_LENGTH && Version(buffer[0]) == 4
                         && (buffer[9] == PROTO_TCP || buffer[9] == PROTO_UDP)
    ensures r.Some? ==> r.value.protocol == buffer[9] && r.value.destIp == IpAt(buffer, 16)
                        && r.value.destPort == Word16(buffer[22], buffer[23])
  {
    if length < MIN_PACKET_LENGTH then None
    else if Version(buffer[0]) != 4 then None
    else
      var protocol := buffer[9];
      var destIp := IpAt(buffer, 16);
      var destPort := if protocol == PROTO_TCP || protocol == PROTO_UDP
                      then Word16(buffer[22], buffer[23]) else -1;
      if destPort != -1 then Some(Target(protocol, destIp, destPort)) else None
  }

  /** The first 24 bytes of a packet with a 20-byte IPv4 header (version 4,
      IHL 5) from 10.0.0.2 to `dst`, followed by the transport ports. */
  function PacketPrefix(protocol: uint8, dst: (uint8, uint8, uint8, uint8),
                        srcPort: int, dstPort: int): (r: seq<uint8>)
    requires 0 <= srcPort < 65536 && 0 <= dstPort < 65536
    ensures |r| == 24
  {
    [0x45, 0, 0, 0, 0, 0, 0, 0, 64, protocol, 0, 0, 10, 0, 0, 2, dst.0, dst.1, dst.2, dst.3,
     WordBytes(srcPort).0, WordBytes(srcPort).1, WordBytes(dstPort).0, WordBytes(dstPort).1]
  }

  /** Decoding a packet built from a destination gives that destination back for
      TCP and UDP, and nothing for any other protocol. */
  lemma DecodePacketPrefix(protocol: uint8, dst: (uint8, uint8, uint8, uint8),
                           srcPort: int, dstPort: int, rest: seq<uint8>, length: int)
    requires 0 <= srcPort < 65536 && 0 <= dstPort < 65536
    requires |rest| == BUFFER_SIZE - 24 && length >= MIN_PACKET_LENGTH
    ensures var r := DecodeTarget(PacketPrefix(protocol, dst, srcPort, dstPort) + rest, length);
      if protocol == PROTO_TCP || protocol == PROTO_UDP
      then r == Some(Target(protocol, DottedQuad(dst.0, dst.1, dst.2, dst.3), dstPort))
      else r == None
  {
    var buffer := PacketPrefix(protocol, dst, srcPort, dstPort) + rest;
    Word16RoundTrip(0, 0, dstPort);
    assert buffer[22] == WordBytes(dstPort).0 && buffer[23] == WordBytes(dstPort).1;
    assert buffer[0] == 0x45;
  }

  /** The port bytes are read whatever the packet length: a 20-byte packet's
      port comes from bytes 22..23 of the buffer, which the packet does not
      cover, so two buffers holding the same 20-byte TCP packet can decode to
      different ports. */
  lemma PortReadPastShortPacket(buffer: seq<uint8>, other: seq<uint8>)
    requires |buffer| == |other| == BUFFER_SIZE
    requires buffer[..MIN_PACKET_LENGTH] == other[..MIN_PACKET_LENGTH]
    requires Version(buffer[0]) == 4 && buffer[9] == PROTO_TCP
    requires buffer[22] != other[22]
    ensures DecodeTarget(buffer, MIN_PACKET_LENGTH).Some?
    ensures DecodeTarget(other, MIN_PACKET_LENGTH).Some?
    ensures DecodeTarget(buffer, MIN_PACKET_LENGTH).value.destPort
         != DecodeTarget(other, MIN_PACKET_LENGTH).value.destPort
  {
    assert buffer[0] == buffer[..MIN_PACKET_LENGTH][0] == other[0];
    assert buffer[9] == buffer[..MIN_PACKET_LENGTH][9] == other[9];
  }

  // ---------------------------------------------------------------------------
  // Events

  /** The two broadcasts: "VPN-CONN" with the flow's running total, and "MEDIA". */
  datatype VpnEvent =
    | VpnConn(host: string, port: int, proto: string, bytes: int)
    | MediaDetected(host: string, classification: StreamType, bytes: int)

  /** The "proto" extra of a connection broadcast: anything but TCP is labelled UDP. */
  function ProtoLabel(protocol: int): (r: string)
    ensures r == "TCP" <==> protocol == PROTO_TCP
    ensures r == "UDP" <==> protocol != PROTO_TCP
  {
    if protocol == PROTO_TCP then "TCP" else "UDP"
  }

  /** `flow.hostname ?: flow.destIp`. */
  function DisplayHost(f: FlowState): string {
    if f.hostname.Some? then f.hostname.value else f.destIp
  }

  /** The broadcasts for the tracked record `f` of a packet: log the connection
      when `length % 10 == 0`, then report the flow once if it is a candidate
      not yet reported, which records its total as the reported size. */
  function Emit(tracked: map<string, FlowState>, key: string, t: Target, length: int)
    : (r: (map<string, FlowState>, seq<VpnEvent>))
    requires key in tracked
    ensures r.0.Keys == tracked.Keys
    ensures forall k | k in tracked && k != key :: r.0[k] == tracked[k]
  {
    var f := tracked[key];
    var conn := if length % 10 == 0
                then [VpnConn(DisplayHost(f), t.destPort, ProtoLabel(t.protocol), f.TotalBytes())]
                else [];
    if f.isMediaCandidate && f.lastReportedSize == 0 then
      var g := f.(lastReportedSize := f.TotalBytes());
      (tracked[key := g], conn + [MediaDetected(DisplayHost(g), g.classification, g.TotalBytes())])
    else
      (tracked, conn)
  }

  /** Everything after decoding, on the value view of the table: track the
      packet as outbound, then emit. */
  function FlowStep(table: map<string, FlowState>, dns: map<string, string>,
                    t: Target, length: int, now: int): (r: (map<string, FlowState>, seq<VpnEvent>))
    ensures var key := FlowKey(t.destIp, t.destPort, ProtocolName(t.protocol));
      && r.0.Keys == table.Keys + {key}
      && (forall k | k in table && k != key :: r.0[k] == table[k])
  {
    var key := FlowKey(t.destIp, t.destPort, ProtocolName(t.protocol));
    Emit(TrackTable(table, dns, t.destIp, t.destPort, t.protocol, length, true, now), key, t, length)
  }

  /** One packet, as `analyzePacket` handles it. */
  function PacketStep(table: map<string, FlowState>, dns: map<string, string>,
                      buffer: seq<uint8>, length: int, now: int): (r: (map<string, FlowState>, seq<VpnEvent>))
    requires |buffer| == BUFFER_SIZE
    ensures DecodeTarget(buffer, length).None? ==> r == (table, [])
  {
    match DecodeTarget(buffer, length)
    case None => (table, [])
    case Some(t) => FlowStep(table, dns, t, length, now)
  }

  function MediaCount(events: seq<VpnEvent>): nat {
    if events == [] then 0
    else (if events[0].MediaDetected? then 1 else 0) + MediaCount(events[1..])
  }

  function ConnCount(events: seq<VpnEvent>): nat {
    if events == [] then 0
    else (if events[0].VpnConn? then 1 else 0) + ConnCount(events[1..])
  }

  lemma {:induction false} CountsOfConcat(a: seq<VpnEvent>, b: seq<VpnEvent>)
    ensures MediaCount(a + b) == MediaCount(a) + MediaCount(b)
    ensures ConnCount(a + b) == ConnCount(a) + ConnCount(b)
    decreases |a|
  {
    if a == [] {
      assert a + b == b;
    } else {
      assert (a + b)[0] == a[0];
      assert (a + b)[1..] == a[1..] + b;
      CountsOfConcat(a[1..], b);
    }
  }

  /** The connection broadcast is throttled on the packet's length, not on a
      packet count: it is emitted exactly when the length is a multiple of 10,
      and it carries the flow's running total. */
  lemma ConnEventIffLengthMultipleOfTen(table: map<string, FlowState>, dns: map<string, string>,
                                        t: Target, length: int, now: int)
    ensures var r := FlowStep(table, dns, t, length, now);
      && (ConnCount(r.1) == 1 <==> length % 10 == 0)
      && (ConnCount(r.1) == 0 <==> length % 10 != 0)
      && (length % 10 == 0 ==>
            var f := r.0[FlowKey(t.destIp, t.destPort, ProtocolName(t.protocol))];
            r.1[0] == VpnConn(DisplayHost(f), t.destPort, ProtoLabel(t.protocol), f.TotalBytes()))
  {
    var key := FlowKey(t.destIp, t.destPort, ProtocolName(t.protocol));
    var tracked := TrackTable(table, dns, t.destIp, t.destPort, t.protocol, length, true, now);
    var f := tracked[key];
    var conn := if length % 10 == 0
                then [VpnConn(DisplayHost(f), t.destPort, ProtoLabel(t.protocol), f.TotalBytes())]
                else [];
    if f.isMediaCandidate && f.lastReportedSize == 0 {
      var g := f.(lastReportedSize := f.TotalBytes());
      CountsOfConcat(conn, [MediaDetected(DisplayHost(g), g.classification, g.TotalBytes())]);
    }
  }

  /** The MEDIA guard on a tracked table: the event is emitted exactly when the
      flow is a candidate that has never been reported; then its reported size
      becomes its total, and otherwise the table is left as it is. */
  lemma EmitGuard(tracked: map<string, FlowState>, key: string, t: Target, length: int)
    requires key in tracked
    ensures var f := tracked[key];
      var r := Emit(tracked, key, t, length);
      && (MediaCount(r.1) == 1 <==> f.isMediaCandidate && f.lastReportedSize == 0)
      && (MediaCount(r.1) == 0 <==> !(f.isMediaCandidate && f.lastReportedSize == 0))
      && (MediaCount(r.1) == 1 ==> r.0 == tracked[key := f.(lastReportedSize := f.TotalBytes())])
      && (MediaCount(r.1) == 0 ==> r.0 == tracked)
  {
    var f := tracked[key];
    var conn := if length % 10 == 0
                then [VpnConn(DisplayHost(f), t.destPort, ProtoLabel(t.protocol), f.TotalBytes())]
                else [];
    if f.isMediaCandidate && f.lastReportedSize == 0 {
      var g := f.(lastReportedSize := f.TotalBytes());
      CountsOfConcat(conn, [MediaDetected(DisplayHost(g), g.classification, g.TotalBytes())]);
    }
  }

  /** The MEDIA guard over one packet: for a sound table, a reported flow's
      reported size is at least 15 KiB, and the table stays sound. */
  lemma MediaGuard(table: map<string, FlowState>, dns: map<string, string>,
                   t: Target, length: int, now: int)
    requires TableSound(table) && length >= 0
    ensures var key := FlowKey(t.destIp, t.destPort, ProtocolName(t.protocol));
      var tracked := TrackTable(table, dns, t.destIp, t.destPort, t.protocol, length, true, now);
      var r := FlowStep(table, dns, t, length, now);
      && (MediaCount(r.1) == 1 <==> tracked[key].isMediaCandidate && tracked[key].lastReportedSize == 0)
      && (MediaCount(r.1) == 0 <==> !(tracked[key].isMediaCandidate && tracked[key].lastReportedSize == 0))
      && (MediaCount(r.1) == 1 ==> r.0[key].lastReportedSize == r.0[key].TotalBytes() >= MEDIA_SIZE_THRESHOLD)
      && (MediaCount(r.1) == 0 ==> r.0[key] == tracked[key])
      && TableSound(r.0)
  {
    var key := FlowKey(t.destIp, t.destPort, ProtocolName(t.protocol));
    var tracked := TrackTable(table, dns, t.destIp, t.destPort, t.protocol, length, true, now);
    TrackTableSound(table, dns, t.destIp, t.destPort, t.protocol, length, true, now);
    EmitGuard(tracked, key, t, length);
  }

  // ---------------------------------------------------------------------------
  // Packet sequences

  /** A decoded packet with its length and arrival time. */
  datatype Arrival = Arrival(target: Target, length: int, now: int)

  function Run(table: map<string, FlowState>, dns: map<string, string>,
               arrivals: seq<Arrival>): (map<string, FlowState>, seq<VpnEvent>)
    decreases |arrivals|
  {
    if arrivals == [] then (table, [])
    else
      var a := arrivals[0];
      var (t1, e1) := FlowStep(table, dns, a.target, a.length, a.now);
      var (t2, e2) := Run(t1, dns, arrivals[1..]);
      (t2, e1 + e2)
  }

  /** The flow key a decoded packet is tracked under. */
  function ArrivalKey(a: Arrival): string {
    FlowKey(a.target.destIp, a.target.destPort, ProtocolName(a.target.protocol))
  }

  /** The flow key of each MEDIA event of `Run`, in the order the events are
      sent. */
  function MediaKeys(table: map<string, FlowState>, dns: map<string, string>,
                     arrivals: seq<Arrival>): seq<string>
    decreases |arrivals|
  {
    if arrivals == [] then []
    else
      var a := arrivals[0];
      var (t1, e1) := FlowStep(table, dns, a.target, a.length, a.now);
      (if MediaCount(e1) > 0 then [ArrivalKey(a)] else []) + MediaKeys(t1, dns, arrivals[1..])
  }

  /** `Run` and `MediaKeys` take the first packet, then the rest. */
  lemma RunCons(table: map<string, FlowState>, dns: map<string, string>, arrivals: seq<Arrival>,
                r: (map<string, FlowState>, seq<VpnEvent>))
    requires arrivals != []
    requires FlowStep(table, dns, arrivals[0].target, arrivals[0].length, arrivals[0].now) == r
    ensures var (t1, e1) := r;
      Run(table, dns, arrivals).1 == e1 + Run(t1, dns, arrivals[1..]).1
    ensures var (t1, e1) := r;
      MediaKeys(table, dns, arrivals)
         == (if MediaCount(e1) > 0 then [ArrivalKey(arrivals[0])] else []) + MediaKeys(t1, dns, arrivals[1..])
  {
  }

  /** The flow under `k` has been reported: its MEDIA event was sent. */
  predicate Reported(table: map<string, FlowState>, k: string) {
    k in table && table[k].lastReportedSize != 0
  }

  /** What one packet does to the reported sizes: a MEDIA event is sent at
      most once, only for a flow not reported before, which is reported
      afterwards; a flow reported before stays reported. */
  lemma MediaStep(table: map<string, FlowState>, dns: map<string, string>, a: Arrival,
                  r: (map<string, FlowState>, seq<VpnEvent>))
    requires TableSound(table) && a.length >= 0
    requires FlowStep(table, dns, a.target, a.length, a.now) == r
    ensures TableSound(r.0) && MediaCount(r.1) <= 1
    ensures MediaCount(r.1) > 0 ==> Reported(r.0, ArrivalKey(a)) && !Reported(table, ArrivalKey(a))
    ensures forall k | Reported(table, k) :: Reported(r.0, k)
  {
    var key := ArrivalKey(a);
    var tracked := TrackTable(table, dns, a.target.destIp, a.target.destPort, a.target.protocol,
                              a.length, true, a.now);
    MediaGuard(table, dns, a.target, a.length, a.now);
    if key in table {
      assert tracked[key].lastReportedSize == table[key].lastReportedSize;
    }
  }

  /** The keys of one packet's MEDIA event put in front of the keys of the
      rest of the run: still no repetition, and still no key reported before. */
  /** No key occurs twice in `ks`, and none is reported in `table`. */
  predicate FreshKeys(table: map<string, FlowState>, ks: seq<string>)
  {
    && (forall i, j | 0 <= i < j < |ks| :: ks[i] != ks[j])
    && (forall i | 0 <= i < |ks| :: !Reported(table, ks[i]))
  }

  lemma MediaKeysCons(table: map<string, FlowState>, t1: map<string, FlowState>,
                      k: string, media: bool, rest: seq<string>)
    requires FreshKeys(t1, rest)
    requires media ==> Reported(t1, k) && !Reported(table, k)
    requires forall x | Reported(table, x) :: Reported(t1, x)
    ensures FreshKeys(table, (if media then [k] else []) + rest)
  {
    var ks := (if media then [k] else []) + rest;
    if media {
      assert k !in rest;
      forall i, j | 0 <= i < j < |ks| ensures ks[i] != ks[j] {
        assert ks[j] == rest[j - 1];
        if i > 0 {
          assert ks[i] == rest[i - 1];
        }
      }
      forall i | 0 <= i < |ks| ensures !Reported(table, ks[i]) {
        if i > 0 {
          assert ks[i] == rest[i - 1];
        }
      }
    } else {
      assert ks == rest;
    }
  }

  /** Over any interleaving of packets of any flows, the MEDIA events are
      attributed one per entry of `MediaKeys`, no flow key occurs twice there,
      and a flow that was already reported before the run does not occur at
      all: the MEDIA broadcast fires at most once per flow. */
  lemma MediaAtMostOncePerFlow(table: map<string, FlowState>, dns: map<string, string>, arrivals: seq<Arrival>)
    requires TableSound(table)
    requires forall i | 0 <= i < |arrivals| :: arrivals[i].length >= 0
    ensures var ks := MediaKeys(table, dns, arrivals);
      && MediaCount(Run(table, dns, arrivals).1) == |ks|
      && (forall i, j | 0 <= i < j < |ks| :: ks[i] != ks[j])
      && (forall i | 0 <= i < |ks| :: !Reported(table, ks[i]))
  {
    MediaKeysCount(table, dns, arrivals);
    MediaKeysFresh(table, dns, arrivals);
  }

  /** One MEDIA event per entry of `MediaKeys`. */
  lemma {:induction false} MediaKeysCount(table: map<string, FlowState>, dns: map<string, string>,
                                          arrivals: seq<Arrival>)
    requires TableSound(table)
    requires forall i | 0 <= i < |arrivals| :: arrivals[i].length >= 0
    ensures MediaCount(Run(table, dns, arrivals).1) == |MediaKeys(table, dns, arrivals)|
    decreases |arrivals|
  {
    if arrivals != [] {
      var t1, e1 := RunHead(table, dns, arrivals);
      MediaKeysCount(t1, dns, arrivals[1..]);
      CountsOfConcat(e1, Run(t1, dns, arrivals[1..]).1);
    }
  }

  /** The flows reported along a run are pairwise distinct and none of them
      had been reported before the run. */
  lemma {:induction false} MediaKeysFresh(table: map<string, FlowState>, dns: map<string, string>,
                                          arrivals: seq<Arrival>)
    requires TableSound(table)
    requires forall i | 0 <= i < |arrivals| :: arrivals[i].length >= 0
    ensures FreshKeys(table, MediaKeys(table, dns, arrivals))
    decreases |arrivals|
  {
    if arrivals != [] {
      var t1, e1 := RunHead(table, dns, arrivals);
      MediaKeysFresh(t1, dns, arrivals[1..]);
      MediaKeysCons(table, t1, ArrivalKey(arrivals[0]), MediaCount(e1) > 0, MediaKeys(t1, dns, arrivals[1..]));
    }
  }

  /** The first packet of a run, as `MediaStep` describes it. */
  lemma RunHead(table: map<string, FlowState>, dns: map<string, string>, arrivals: seq<Arrival>)
    returns (t1: map<string, FlowState>, e1: seq<VpnEvent>)
    requires arrivals != [] && TableSound(table) && arrivals[0].length >= 0
    ensures Run(table, dns, arrivals).1 == e1 + Run(t1, dns, arrivals[1..]).1
    ensures MediaKeys(table, dns, arrivals)
         == (if MediaCount(e1) > 0 then [ArrivalKey(arrivals[0])] else []) + MediaKeys(t1, dns, arrivals[1..])
    ensures TableSound(t1) && MediaCount(e1) <= 1
    ensures MediaCount(e1) > 0 ==> Reported(t1, ArrivalKey(arrivals[0])) && !Reported(table, ArrivalKey(arrivals[0]))
    ensures forall k | Reported(table, k) :: Reported(t1, k)
  {
    var a := arrivals[0];
    var r := FlowStep(table, dns, a.target, a.length, a.now);
    RunCons(table, dns, arrivals, r);
    MediaStep(table, dns, a, r);
    t1, e1 := r.0, r.1;
  }

  /** The one-flow reading: packets of a single flow give at most one MEDIA
      event, and none once the flow has been reported. */
  lemma OneFlowMediaAtMostOnce(table: map<string, FlowState>, dns: map<string, string>,
                               t: Target, arrivals: seq<Arrival>)
    requires TableSound(table)
    requires forall i | 0 <= i < |arrivals| :: arrivals[i].target == t && arrivals[i].length >= 0
    ensures var key := FlowKey(t.destIp, t.destPort, ProtocolName(t.protocol));
      && MediaCount(Run(table, dns, arrivals).1) <= 1
      && (Reported(table, key) ==> MediaCount(Run(table, dns, arrivals).1) == 0)
  {
    MediaAtMostOncePerFlow(table, dns, arrivals);
    var ks := MediaKeys(table, dns, arrivals);
    if |ks| > 1 {
      assert ks[0] != ks[1];
      MediaKeysOfOneFlow(table, dns, t, arrivals);
      assert false;
    }
    if |ks| == 1 {
      MediaKeysOfOneFlow(table, dns, t, arrivals);
      assert ks[0] == FlowKey(t.destIp, t.destPort, ProtocolName(t.protocol));
    }
  }

  lemma {:induction false} MediaKeysOfOneFlow(table: map<string, FlowState>, dns: map<string, string>,
                                              t: Target, arrivals: seq<Arrival>)
    requires forall i | 0 <= i < |arrivals| :: arrivals[i].target == t
    ensures forall i | 0 <= i < |MediaKeys(table, dns, arrivals)| ::
      MediaKeys(table, dns, arrivals)[i] == FlowKey(t.destIp, t.destPort, ProtocolName(t.protocol))
    decreases |arrivals|
  {
    if arrivals != [] {
      var a := arrivals[0];
      var r := FlowStep(table, dns, a.target, a.length, a.now);
      RunCons(table, dns, arrivals, r);
      MediaKeysOfOneFlow(r.0, dns, t, arrivals[1..]);
    }
  }

  /** The worked example: six outbound TCP packets to 1.2.3.4:443, 20000 bytes
      over 4000 ms, with no DNS names known. */
  const SCENARIO_TARGET := Target(PROTO_TCP, "1.2.3.4", 443)

  function ScenarioKey(): string {
    FlowKey(SCENARIO_TARGET.destIp, SCENARIO_TARGET.destPort, ProtocolName(SCENARIO_TARGET.protocol))
  }

  function ScenarioArrivals(): seq<Arrival> {
    var t := SCENARIO_TARGET;
    [Arrival(t, 4000, 0), Arrival(t, 4000, 800), Arrival(t, 4000, 1600),
     Arrival(t, 4000, 2400), Arrival(t, 2000, 3200), Arrival(t, 2000, 4000)]
  }

  /** The record of the scenario's flow after `n` of its packets. */
  function ScenarioFlow(n: nat): FlowState
    requires 1 <= n <= 6
  {
    var base := FlowState("1.2.3.4", 443, "TCP", 0, 0, 0, 0, None, false, Unsupported, 0, 0);
    var sent := [4000, 8000, 12000, 16000, 18000, 20000][n - 1];
    var f := base.(lastActiveTime := (n - 1) * 800, bytesSent := sent, packetCount := n);
    if n >= 5 then f.(isMediaCandidate := true, classification := AdaptiveStream, lastReportedSize := 18000)
    else f
  }

  /** One scenario packet on the table that holds only the scenario's flow. */
  lemma ScenarioStep(f: FlowState, length: int, now: int, g: FlowState,
                     f': FlowState, events: seq<VpnEvent>)
    requires Track(f, length, true, now, map[]) == g
    requires Emit(map[ScenarioKey() := g], ScenarioKey(), SCENARIO_TARGET, length)
          == (map[ScenarioKey() := f'], events)
    ensures FlowStep(map[ScenarioKey() := f], map[], SCENARIO_TARGET, length, now)
         == (map[ScenarioKey() := f'], events)
  {
    assert map[ScenarioKey() := f][ScenarioKey() := g] == map[ScenarioKey() := g];
  }


  /** The broadcasts of the scenario's packets from the `n`-th on. */
  function ScenarioEvents(n: nat): seq<VpnEvent>
    decreases 6 - n
  {
    if n == 0 then [VpnConn("1.2.3.4", 443, "TCP", 4000)] + ScenarioEvents(1)
    else if n == 1 then [VpnConn("1.2.3.4", 443, "TCP", 8000)] + ScenarioEvents(2)
    else if n == 2 then [VpnConn("1.2.3.4", 443, "TCP", 12000)] + ScenarioEvents(3)
    else if n == 3 then [VpnConn("1.2.3.4", 443, "TCP", 16000)] + ScenarioEvents(4)
    else if n == 4 then [VpnConn("1.2.3.4", 443, "TCP", 18000), MediaDetected("1.2.3.4", AdaptiveStream, 18000)] + ScenarioEvents(5)
    else if n == 5 then [VpnConn("1.2.3.4", 443, "TCP", 20000)] + ScenarioEvents(6)
    else []
  }

  lemma ScenarioFrom5(rest: seq<Arrival>)
    requires rest == ScenarioArrivals()[5..]
    ensures Run(map[ScenarioKey() := ScenarioFlow(5)], map[], rest)
         == (map[ScenarioKey() := ScenarioFlow(6)], ScenarioEvents(5))
  {
    assert rest[0] == Arrival(SCENARIO_TARGET, 2000, 4000);
    ScenarioStep(ScenarioFlow(5), 2000, 4000, ScenarioFlow(6), ScenarioFlow(6), [VpnConn("1.2.3.4", 443, "TCP", 20000)]);
    assert rest[1..] == [];
  }

  lemma ScenarioFrom4(rest: seq<Arrival>)
    requires rest == ScenarioArrivals()[4..]
    ensures Run(map[ScenarioKey() := ScenarioFlow(4)], map[], rest)
         == (map[ScenarioKey() := ScenarioFlow(6)], ScenarioEvents(4))
  {
    assert rest[0] == Arrival(SCENARIO_TARGET, 2000, 3200);
    var c := VpnConn("1.2.3.4", 443, "TCP", 18000);
    var m := MediaDetected("1.2.3.4", AdaptiveStream, 18000);
    assert FlowStep(map[ScenarioKey() := ScenarioFlow(4)], map[], SCENARIO_TARGET, 2000, 3200)
        == (map[ScenarioKey() := ScenarioFlow(5)], [c, m]) by {
      var g := ScenarioFlow(5).(lastReportedSize := 0);
      assert g.(lastReportedSize := g.TotalBytes()) == ScenarioFlow(5);
      assert map[ScenarioKey() := g][ScenarioKey() := ScenarioFlow(5)] == map[ScenarioKey() := ScenarioFlow(5)];
      assert [c] + [m] == [c, m];
      ScenarioStep(ScenarioFlow(4), 2000, 3200, g, ScenarioFlow(5), [c, m]);
    }
    ScenarioFrom5(rest[1..]);
  }

  lemma ScenarioFrom3(rest: seq<Arrival>)
    requires rest == ScenarioArrivals()[3..]
    ensures Run(map[ScenarioKey() := ScenarioFlow(3)], map[], rest)
         == (map[ScenarioKey() := ScenarioFlow(6)], ScenarioEvents(3))
  {
    assert rest[0] == Arrival(SCENARIO_TARGET, 4000, 2400);
    ScenarioStep(ScenarioFlow(3), 4000, 2400, ScenarioFlow(4), ScenarioFlow(4), [VpnConn("1.2.3.4", 443, "TCP", 16000)]);
    ScenarioFrom4(rest[1..]);
  }

  lemma ScenarioFrom2(rest: seq<Arrival>)
    requires rest == ScenarioArrivals()[2..]
    ensures Run(map[ScenarioKey() := ScenarioFlow(2)], map[], rest)
         == (map[ScenarioKey() := ScenarioFlow(6)], ScenarioEvents(2))
  {
    assert rest[0] == Arrival(SCENARIO_TARGET, 4000, 1600);
    ScenarioStep(ScenarioFlow(2), 4000, 1600, ScenarioFlow(3), ScenarioFlow(3), [VpnConn("1.2.3.4", 443, "TCP", 12000)]);
    ScenarioFrom3(rest[1..]);
  }

  lemma ScenarioFrom1(rest: seq<Arrival>)
    requires rest == ScenarioArrivals()[1..]
    ensures Run(map[ScenarioKey() := ScenarioFlow(1)], map[], rest)
         == (map[ScenarioKey() := ScenarioFlow(6)], ScenarioEvents(1))
  {
    assert rest[0] == Arrival(SCENARIO_TARGET, 4000, 800);
    ScenarioStep(ScenarioFlow(1), 4000, 800, ScenarioFlow(2), ScenarioFlow(2), [VpnConn("1.2.3.4", 443, "TCP", 8000)]);
    ScenarioFrom2(rest[1..]);
  }

  /** The six packets give one connection event each (every length is a
      multiple of ten) and exactly one MEDIA event, on the fifth packet, when
      the flow has 18000 bytes, five packets and 3200 ms; the sixth packet
      does not report the flow again. */
  lemma SixPacketScenario()
    ensures Run(map[], map[], ScenarioArrivals()) == (map[ScenarioKey() := ScenarioFlow(6)], ScenarioEvents(0))
  {
    var t := SCENARIO_TARGET;
    var arrivals := ScenarioArrivals();
    assert arrivals[0] == Arrival(t, 4000, 0);
    assert FlowStep(map[], map[], t, 4000, 0)
        == (map[ScenarioKey() := ScenarioFlow(1)], [VpnConn("1.2.3.4", 443, "TCP", 4000)]) by {
      assert TrackTable(map[], map[], t.destIp, t.destPort, t.protocol, 4000, true, 0)
          == map[ScenarioKey() := ScenarioFlow(1)];
    }
    ScenarioFrom1(arrivals[1..]);
  }

  /** Among the scenario's broadcasts, six are connection events and exactly
      one is a MEDIA event, for the 18000 bytes the flow held at its fifth packet. */
  lemma ScenarioEventCounts()
    ensures ConnCount(ScenarioEvents(0)) == 6 && MediaCount(ScenarioEvents(0)) == 1
    ensures |ScenarioEvents(0)| == 7
    ensures ScenarioEvents(0)[5] == MediaDetected("1.2.3.4", AdaptiveStream, 18000)
  {
  }

  // ---------------------------------------------------------------------------
  // The in-place implementation

  /** `analyzePacket` against the live analyzer; the DNS peek inside
      `trackPacket` is a no-op. */
  method AnalyzePacket(analyzer: VpnTrafficAnalyzer, buffer: seq<uint8>, length: int, now: int)
    returns (events: seq<VpnEvent>)
    requires |buffer| == BUFFER_SIZE && analyzer.Valid()
    modifies analyzer, analyzer.flows.Values
    ensures analyzer.Valid() && analyzer.dnsMap == old(analyzer.dnsMap)
    ensures (analyzer.Snapshot(), events)
         == PacketStep(old(analyzer.Snapshot()), analyzer.dnsMap, buffer, length, now)
  {
    var target := DecodeTarget(buffer, length);
    if target.None? {
      return [];
    }
    var t := target.value;
    ghost var before := analyzer.Snapshot();
    var protocolStr := ProtocolName(t.protocol);
    analyzer.TrackPacket(t.destIp, t.destPort, t.protocol, length, true, now);
    ghost var tracked := analyzer.Snapshot();
    var flow := analyzer.GetFlow(t.destIp, t.destPort, protocolStr);
    events := EmitEvents(analyzer, flow, t, length);
    assert (analyzer.Snapshot(), events) == FlowStep(before, analyzer.dnsMap, t, length, now);
  }

  /** The two broadcasts of `analyzePacket` for the record just tracked. */
  method EmitEvents(analyzer: VpnTrafficAnalyzer, flow: ConnectionFlow, t: Target, length: int)
    returns (events: seq<VpnEvent>)
    requires analyzer.Valid() && flow.Key() in analyzer.flows && analyzer.flows[flow.Key()] == flow
    modifies flow
    ensures (analyzer.Snapshot(), events) == Emit(old(analyzer.Snapshot()), flow.Key(), t, length)
  {
    ghost var before := analyzer.Snapshot();
    ghost var f := flow.State();
    ghost var key := flow.Key();
    assert before[key] == f;
    events := [];
    if length % 10 == 0 {
      var host := if flow.hostname.Some? then flow.hostname.value else flow.destIp;
      events := events + [VpnConn(host, t.destPort, ProtoLabel(t.protocol),
                                  flow.bytesReceived + flow.bytesSent)];
    }
    ghost var conn := events;
    assert conn == if length % 10 == 0
                   then [VpnConn(DisplayHost(f), t.destPort, ProtoLabel(t.protocol), f.TotalBytes())]
                   else [];
    if flow.isMediaCandidate && flow.lastReportedSize == 0 {
      // the report carries host, class and total, which the write below leaves as they are
      var host := if flow.hostname.Some? then flow.hostname.value else flow.destIp;
      var report := MediaDetected(host, flow.classification, flow.bytesReceived + flow.bytesSent);
      MarkReported(analyzer, flow);
      events := events + [report];
      ghost var g := f.(lastReportedSize := f.TotalBytes());
      assert Emit(before, key, t, length)
          == (before[key := g], conn + [MediaDetected(DisplayHost(g), g.classification, g.TotalBytes())]);
    } else {
      assert Emit(before, key, t, length) == (before, conn);
    }
  }

  /** `flow.lastReportedSize = total`, written by the service into the
      analyzer's record. */
  method MarkReported(analyzer: VpnTrafficAnalyzer, flow: ConnectionFlow)
    requires analyzer.Valid() && flow.Key() in analyzer.flows && analyzer.flows[flow.Key()] == flow
    modifies flow
    ensures flow.State() == old(flow.State()).(lastReportedSize := old(flow.State()).TotalBytes())
    ensures analyzer.Snapshot() == old(analyzer.Snapshot())[flow.Key() := flow.State()]
  {
    ghost var before := analyzer.Snapshot();
    flow.lastReportedSize := flow.bytesReceived + flow.bytesSent;
    ghost var after := analyzer.Snapshot();
    forall k | k in after
      ensures k in before[flow.Key() := flow.State()]
      ensures after[k] == before[flow.Key() := flow.State()][k]
    {
      if k != flow.Key() {
        assert analyzer.flows[k] != flow;
      }
    }
  }
}
