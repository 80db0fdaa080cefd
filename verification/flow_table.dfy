/** The research pipeline's flow table (`VpnTrafficAnalyzer`): one mutable
    `ConnectionFlow` record per "destIp:destPort:protocol" key, its byte and
    packet counters, and the sticky promotion of a flow to media candidate.

    The pure part (FlowState and the step functions over it) states what one
    packet does to one flow and to the table; the classes below are the
    in-place implementation and are proved against it. */
module FlowTable {
  import opened Common
  import opened Models

  /** 15 KiB: the volume a flow needs before it can be promoted. */
  const MEDIA_SIZE_THRESHOLD: int := 15 * 1024
  /** Milliseconds between the flow's first and latest packet. */
  const MEDIA_TIME_THRESHOLD: int := 3000
  const PACKET_COUNT_THRESHOLD: int := 5
  const HTTPS_PORT: int := 443

  /** The protocol label used in the flow key. */
  function ProtocolName(protocol: int): (r: string)
    ensures r == "TCP" <==> protocol == 6
    ensures r == "UDP" <==> protocol == 17
    ensures r == "TCP" || r == "UDP" || r == "RAW"
  {
    if protocol == 6 then "TCP" else if protocol == 17 then "UDP" else "RAW"
  }

  /** The table key "destIp:destPort:protocol". */
  function FlowKey(destIp: string, destPort: int, protocolStr: string): string {
    destIp + ":" + IntToString(destPort) + ":" + protocolStr
  }

  function Lookup(m: map<string, string>, k: string): (r: Option<string>)
    ensures r.Some? <==> k in m
    ensures r.Some? ==> r.value == m[k]
  {
    if k in m then Some(m[k]) else None
  }

  // ---------------------------------------------------------------------------
  // The value view of one flow

  datatype FlowState = FlowState(
    destIp: string,
    destPort: int,
    protocol: string,
    startTime: int,
    lastActiveTime: int,
    bytesReceived: int,
    bytesSent: int,
    hostname: Option<string>,
    isMediaCandidate: bool,
    classification: StreamType,
    lastReportedSize: int,
    packetCount: int)
  {
    function Key(): string {
      FlowKey(destIp, destPort, protocol)
    }

    function TotalBytes(): int {
      bytesReceived + bytesSent
    }

    function Duration(): int {
      lastActiveTime - startTime
    }

    /** The joint promotion threshold: HTTPS port, volume, duration and packet count. */
    predicate MeetsMediaThreshold() {
      && destPort == HTTPS_PORT
      && TotalBytes() >= MEDIA_SIZE_THRESHOLD
      && Duration() >= MEDIA_TIME_THRESHOLD
      && packetCount >= PACKET_COUNT_THRESHOLD
    }

    /** What holds of every flow the analyzer has built from non-negative lengths:
        counters are non-negative, and a candidate was promoted by the threshold. */
    predicate Sound() {
      && bytesReceived >= 0 && bytesSent >= 0 && packetCount >= 0
      && (isMediaCandidate ==>
            && classification == AdaptiveStream
            && destPort == HTTPS_PORT
            && TotalBytes() >= MEDIA_SIZE_THRESHOLD
            && packetCount >= PACKET_COUNT_THRESHOLD)
    }
  }

  /** The record `getOrPut` creates for an unseen key at time `now`, with the
      hostname already taken from the DNS map. */
  function NewFlowState(destIp: string, destPort: int, protocolStr: string, now: int,
                        dns: map<string, string>): (f: FlowState)
    ensures f.Key() == FlowKey(destIp, destPort, protocolStr)
    ensures f.bytesReceived == 0 && f.bytesSent == 0 && f.packetCount == 0
    ensures !f.isMediaCandidate && f.classification == Unsupported && f.lastReportedSize == 0
    ensures f.hostname == Lookup(dns, destIp)
    ensures f.Sound()
  {
    FlowState(destIp, destPort, protocolStr, now, now, 0, 0, Lookup(dns, destIp),
              false, Unsupported, 0, 0)
  }

  /** `analyzeFlow`: fill a missing hostname from the DNS map, then promote the
      flow once if it meets the threshold. */
  function Analyze(f: FlowState, dns: map<string, string>): (r: FlowState)
    ensures r.isMediaCandidate <==> f.isMediaCandidate || f.MeetsMediaThreshold()
    ensures f.isMediaCandidate ==> r.classification == f.classification
    ensures !f.isMediaCandidate && f.MeetsMediaThreshold() ==> r.classification == AdaptiveStream
    ensures !f.isMediaCandidate && !f.MeetsMediaThreshold() ==> r.classification == f.classification
    ensures f.hostname.Some? ==> r.hostname == f.hostname
    ensures f.hostname.None? ==> r.hostname == Lookup(dns, f.destIp)
    ensures r == f.(hostname := r.hostname, isMediaCandidate := r.isMediaCandidate,
                    classification := r.classification)
  {
    var named := if f.hostname.None? then f.(hostname := Lookup(dns, f.destIp)) else f;
    if f.MeetsMediaThreshold() && !f.isMediaCandidate then
      named.(isMediaCandidate := true, classification := AdaptiveStream)
    else
      named
  }

  /** The counter updates of `trackPacket`, before the flow is analyzed. */
  function Count(f: FlowState, length: int, isOutbound: bool, now: int): FlowState {
    var g := f.(lastActiveTime := now, packetCount := f.packetCount + 1);
    if isOutbound then g.(bytesSent := g.bytesSent + length)
    else g.(bytesReceived := g.bytesReceived + length)
  }

  /** One packet applied to one flow. */
  function Track(f: FlowState, length: int, isOutbound: bool, now: int,
                 dns: map<string, string>): (r: FlowState)
    ensures r.packetCount == f.packetCount + 1
    ensures isOutbound ==> r.bytesSent == f.bytesSent + length && r.bytesReceived == f.bytesReceived
    ensures !isOutbound ==> r.bytesReceived == f.bytesReceived + length && r.bytesSent == f.bytesSent
    ensures r.lastActiveTime == now
    ensures r.Key() == f.Key() && r.startTime == f.startTime
    ensures r.lastReportedSize == f.lastReportedSize
    ensures r.isMediaCandidate <==> f.isMediaCandidate || r.MeetsMediaThreshold()
    ensures f.isMediaCandidate ==> r.classification == f.classification
    ensures f.hostname.Some? ==> r.hostname == f.hostname
    ensures f.Sound() && length >= 0 ==> r.Sound()
  {
    Analyze(Count(f, length, isOutbound, now), dns)
  }

  /** `trackPacket` on the whole table: create the flow on first sight, then
      count the packet and analyze that flow; every other key is untouched. */
  function TrackTable(table: map<string, FlowState>, dns: map<string, string>,
                      destIp: string, destPort: int, protocol: int,
                      length: int, isOutbound: bool, now: int): (r: map<string, FlowState>)
    ensures r.Keys == table.Keys + {FlowKey(destIp, destPort, ProtocolName(protocol))}
    ensures forall k | k in table && k != FlowKey(destIp, destPort, ProtocolName(protocol)) :: r[k] == table[k]
  {
    var key := FlowKey(destIp, destPort, ProtocolName(protocol));
    var f := if key in table then table[key]
             else NewFlowState(destIp, destPort, ProtocolName(protocol), now, dns);
    table[key := Track(f, length, isOutbound, now, dns)]
  }

  /** `TrackTable` replaces the record under the packet's key by the tracked
      record, whatever record `start` was looked up or created for it. */
  lemma TrackTableAt(table: map<string, FlowState>, dns: map<string, string>,
                     destIp: string, destPort: int, protocol: int,
                     length: int, isOutbound: bool, now: int, start: FlowState)
    requires var key := FlowKey(destIp, destPort, ProtocolName(protocol));
      start == if key in table then table[key]
               else NewFlowState(destIp, destPort, ProtocolName(protocol), now, dns)
    ensures TrackTable(table, dns, destIp, destPort, protocol, length, isOutbound, now)
         == table[FlowKey(destIp, destPort, ProtocolName(protocol)) := Track(start, length, isOutbound, now, dns)]
  {
  }

  lemma UpdateSame<K, V>(m: map<K, V>, k: K)
    requires k in m
    ensures m[k := m[k]] == m
  {
  }

  lemma UpdateTwice<K, V>(m: map<K, V>, k: K, a: V, b: V)
    ensures m[k := a][k := b] == m[k := b]
  {
  }

  ghost predicate TableSound(table: map<string, FlowState>) {
    forall k | k in table :: table[k].Key() == k && table[k].Sound()
  }

  /** One packet with a non-negative length keeps a sound table sound. */
  lemma TrackTableSound(table: map<string, FlowState>, dns: map<string, string>,
                        destIp: string, destPort: int, protocol: int,
                        length: int, isOutbound: bool, now: int)
    requires TableSound(table) && length >= 0
    ensures TableSound(TrackTable(table, dns, destIp, destPort, protocol, length, isOutbound, now))
  {
  }

  // ---------------------------------------------------------------------------
  // Packet sequences

  /** What `trackPacket` is called with. */
  datatype PacketInfo = PacketInfo(destIp: string, destPort: int, protocol: int,
                                   length: int, isOutbound: bool, now: int)

  function TrackAll(table: map<string, FlowState>, dns: map<string, string>,
                    packets: seq<PacketInfo>): map<string, FlowState>
    decreases |packets|
  {
    if packets == [] then table
    else
      var p := packets[0];
      TrackAll(TrackTable(table, dns, p.destIp, p.destPort, p.protocol, p.length, p.isOutbound, p.now),
               dns, packets[1..])
  }

  /** Over any packet sequence with non-negative lengths: no flow is ever dropped,
      both byte counters and the packet count never decrease, a candidate stays a
      candidate with its classification, and a known hostname is never overwritten. */
  lemma {:induction false} TrackAllMonotone(table: map<string, FlowState>, dns: map<string, string>,
                                            packets: seq<PacketInfo>)
    requires forall i | 0 <= i < |packets| :: packets[i].length >= 0
    ensures var r := TrackAll(table, dns, packets);
      forall k | k in table ::
        && k in r
        && r[k].bytesSent >= table[k].bytesSent
        && r[k].bytesReceived >= table[k].bytesReceived
        && r[k].packetCount >= table[k].packetCount
        && (table[k].isMediaCandidate ==> r[k].isMediaCandidate && r[k].classification == table[k].classification)
        && (table[k].hostname.Some? ==> r[k].hostname == table[k].hostname)
    decreases |packets|
  {
    if packets != [] {
      var p := packets[0];
      var t1 := TrackTable(table, dns, p.destIp, p.destPort, p.protocol, p.length, p.isOutbound, p.now);
      TrackAllMonotone(t1, dns, packets[1..]);
    }
  }

  /** Every table the analyzer builds from non-negative lengths keeps each flow
      under its own key, and every candidate flow is on port 443, classified
      adaptive, and has at least 15 KiB and 5 packets behind it. */
  lemma {:induction false} TrackAllSound(table: map<string, FlowState>, dns: map<string, string>,
                                         packets: seq<PacketInfo>)
    requires TableSound(table)
    requires forall i | 0 <= i < |packets| :: packets[i].length >= 0
    ensures TableSound(TrackAll(table, dns, packets))
    decreases |packets|
  {
    if packets != [] {
      var p := packets[0];
      var t1 := TrackTable(table, dns, p.destIp, p.destPort, p.protocol, p.length, p.isOutbound, p.now);
      TrackAllSound(t1, dns, packets[1..]);
    }
  }

  /** The packet that creates a flow never promotes it: one packet is below the
      five-packet threshold. */
  lemma FirstPacketNeverPromotes(table: map<string, FlowState>, dns: map<string, string>,
                                 p: PacketInfo)
    requires FlowKey(p.destIp, p.destPort, ProtocolName(p.protocol)) !in table
    ensures var key := FlowKey(p.destIp, p.destPort, ProtocolName(p.protocol));
      var r := TrackTable(table, dns, p.destIp, p.destPort, p.protocol, p.length, p.isOutbound, p.now);
      && r[key].packetCount == 1
      && !r[key].isMediaCandidate
      && r[key].classification == Unsupported
  {
  }

  // ---------------------------------------------------------------------------
  // The in-place implementation

  /** A flow record. The key fields are immutable, so a flow's key never changes. */
  class ConnectionFlow {
    const destIp: string
    const destPort: int
    const protocol: string
    const startTime: int
    var lastActiveTime: int
    var bytesReceived: int
    var bytesSent: int
    var hostname: Option<string>
    var isMediaCandidate: bool
    var classification: StreamType
    var lastReportedSize: int
    var packetCount: int

    /** The primary constructor with its defaults; `hostname` is the value
        the `apply` block of `trackPacket` assigns right after construction. */
    constructor (destIp: string, destPort: int, protocol: string, now: int, hostname: Option<string>)
      ensures State() == FlowState(destIp, destPort, protocol, now, now, 0, 0, hostname,
                                   false, Unsupported, 0, 0)
    {
      this.destIp := destIp;
      this.destPort := destPort;
      this.protocol := protocol;
      this.startTime := now;
      this.lastActiveTime := now;
      this.bytesReceived := 0;
      this.bytesSent := 0;
      this.hostname := hostname;
      this.isMediaCandidate := false;
      this.classification := Unsupported;
      this.lastReportedSize := 0;
      this.packetCount := 0;
    }

    function Key(): string {
      FlowKey(destIp, destPort, protocol)
    }

    function State(): (s: FlowState)
      reads this
      ensures s.Key() == Key()
    {
      FlowState(destIp, destPort, protocol, startTime, lastActiveTime, bytesReceived, bytesSent,
                hostname, isMediaCandidate, classification, lastReportedSize, packetCount)
    }

    function TotalBytes(): int
      reads this
    {
      bytesReceived + bytesSent
    }

    /** The counter updates of `trackPacket`. */
    method CountCounters(length: int, isOutbound: bool, now: int)
      modifies this
      ensures State() == Count(old(State()), length, isOutbound, now)
    {
      lastActiveTime := now;
      packetCount := packetCount + 1;
      if isOutbound {
        bytesSent := bytesSent + length;
      } else {
        bytesReceived := bytesReceived + length;
      }
    }
  }

  /** The flow table and the side DNS map (IP -> hostname). */
  class VpnTrafficAnalyzer {
    var flows: map<string, ConnectionFlow>
    var dnsMap: map<string, string>

    /** Each flow is stored under its own key; since the key fields are constants,
        two keys never share one record. */
    ghost predicate Valid()
      reads this
    {
      forall k | k in flows :: flows[k].Key() == k
    }

    /** The table as values. */
    ghost function Snapshot(): map<string, FlowState>
      reads this, flows.Values
    {
      map k | k in flows :: flows[k].State()
    }

    constructor ()
      ensures Valid() && flows == map[] && dnsMap == map[]
    {
      flows := map[];
      dnsMap := map[];
    }

    /** `trackPacket`. The DNS peek at UDP port 53 calls an empty placeholder in
        the source and does nothing here. */
    method TrackPacket(destIp: string, destPort: int, protocol: int, length: int,
                       isOutbound: bool, now: int)
      requires Valid()
      modifies this, flows.Values
      ensures Valid()
      ensures dnsMap == old(dnsMap)
      ensures Snapshot() == TrackTable(old(Snapshot()), dnsMap, destIp, destPort, protocol,
                                       length, isOutbound, now)
      ensures forall k | k in old(flows) :: k in flows && flows[k] == old(flows[k])
      ensures var key := FlowKey(destIp, destPort, ProtocolName(protocol));
        key in flows && (key !in old(flows) ==> fresh(flows[key]))
    {
      var protocolStr := ProtocolName(protocol);
      var key := FlowKey(destIp, destPort, protocolStr);
      ghost var before := Snapshot();
      var flow := GetOrCreate(destIp, destPort, protocolStr, now);
      ghost var start := flow.State();
      assert start == if key in before then before[key]
                      else NewFlowState(destIp, destPort, protocolStr, now, dnsMap);
      ghost var middle := Snapshot();
      CountPacket(flow, length, isOutbound, now);
      TrackTableAt(before, dnsMap, destIp, destPort, protocol, length, isOutbound, now, start);
      UpdateTwice(before, key, start, flow.State());
    }

    /** The `getOrPut` step of `trackPacket`: the record under `key`, created
        (with the hostname from the DNS map) when the key is new. */
    method GetOrCreate(destIp: string, destPort: int, protocolStr: string, now: int)
      returns (flow: ConnectionFlow)
      requires Valid()
      modifies this
      ensures Valid() && dnsMap == old(dnsMap)
      ensures var key := FlowKey(destIp, destPort, protocolStr);
        && flows == old(flows)[key := flow]
        && flow.Key() == key
        && (key in old(flows) ==> flow == old(flows)[key])
        && (key !in old(flows) ==>
              fresh(flow) && flow.State() == NewFlowState(destIp, destPort, protocolStr, now, dnsMap))
      ensures Snapshot() == old(Snapshot())[FlowKey(destIp, destPort, protocolStr) := flow.State()]
      ensures FlowKey(destIp, destPort, protocolStr) in old(flows) ==>
                flow.State() == old(Snapshot())[FlowKey(destIp, destPort, protocolStr)]
    {
      var key := FlowKey(destIp, destPort, protocolStr);
      ghost var before := Snapshot();
      if key in flows {
        flow := flows[key];
        assert before[key] == flow.State();
        UpdateSame(before, key);
      } else {
        flow := new ConnectionFlow(destIp, destPort, protocolStr, now, Lookup(dnsMap, destIp));
        Insert(flow);
      }
    }

    /** Stores a record under its own key, which the table does not hold yet. */
    method Insert(flow: ConnectionFlow)
      requires Valid() && flow.Key() !in flows
      modifies this
      ensures Valid() && dnsMap == old(dnsMap)
      ensures flows == old(flows)[flow.Key() := flow]
      ensures Snapshot() == old(Snapshot())[flow.Key() := flow.State()]
    {
      ghost var before := Snapshot();
      flows := flows[flow.Key() := flow];
      assert Snapshot() == before[flow.Key() := flow.State()] by {
        ghost var after := Snapshot();
        forall k | k in after
          ensures k in before[flow.Key() := flow.State()] && after[k] == before[flow.Key() := flow.State()][k]
        {
          if k != flow.Key() {
            assert flows[k] == old(flows[k]);
          }
        }
      }
    }

    /** The counter updates of `trackPacket` followed by `analyzeFlow`. */
    method CountPacket(flow: ConnectionFlow, length: int, isOutbound: bool, now: int)
      requires Valid() && flow.Key() in flows && flows[flow.Key()] == flow
      modifies flow
      ensures flow.State() == Track(old(flow.State()), length, isOutbound, now, dnsMap)
      ensures Snapshot() == old(Snapshot())[flow.Key() := flow.State()]
    {
      ghost var before := Snapshot();
      flow.CountCounters(length, isOutbound, now);
      AnalyzeFlow(flow);
      ghost var after := Snapshot();
      forall k | k in after
        ensures k in before[flow.Key() := flow.State()]
        ensures after[k] == before[flow.Key() := flow.State()][k]
      {
        if k != flow.Key() {
          assert flows[k] != flow;
        }
      }
    }

    /** `analyzeFlow`. */
    method AnalyzeFlow(flow: ConnectionFlow)
      modifies flow
      ensures flow.State() == Analyze(old(flow.State()), dnsMap)
    {
      if flow.hostname.None? {
        flow.hostname := Lookup(dnsMap, flow.destIp);
      }
      if flow.destPort == HTTPS_PORT && flow.TotalBytes() >= MEDIA_SIZE_THRESHOLD
         && flow.lastActiveTime - flow.startTime >= MEDIA_TIME_THRESHOLD
         && flow.packetCount >= PACKET_COUNT_THRESHOLD {
        if !flow.isMediaCandidate {
          flow.isMediaCandidate := true;
          flow.classification := AdaptiveStream;
        }
      }
    }

    method AddDnsMapping(ip: string, host: string)
      modifies this
      ensures dnsMap == old(dnsMap)[ip := host]
      ensures flows == old(flows)
    {
      dnsMap := dnsMap[ip := host];
    }

    /** `getFlow`: the record under "destIp:destPort:protocolStr", or null. */
    function GetFlow(destIp: string, destPort: int, protocolStr: string): (r: ConnectionFlow?)
      reads this
      requires Valid()
      ensures r != null <==> FlowKey(destIp, destPort, protocolStr) in flows
      ensures r != null ==> r in flows.Values && r.Key() == FlowKey(destIp, destPort, protocolStr)
    {
      var key := FlowKey(destIp, destPort, protocolStr);
      if key in flows then flows[key] else null
    }

    /** `getFlows`: every record, one per key. */
    function GetFlows(): (r: set<ConnectionFlow>)
      reads this
      requires Valid()
      ensures forall k | k in flows :: flows[k] in r
      ensures forall f | f in r :: f.Key() in flows && flows[f.Key()] == f
      ensures |r| == |flows|
    {
      KeyedValuesCount(flows);
      flows.Values
    }

    /** `getMediaFlows`: exactly the records marked as media candidates. */
    function GetMediaFlows(): (r: set<ConnectionFlow>)
      reads this, flows.Values
      ensures r <= flows.Values
      ensures forall f | f in flows.Values :: f in r <==> f.isMediaCandidate
    {
      set f | f in flows.Values && f.isMediaCandidate
    }

    method Clear()
      modifies this
      ensures Valid()
      ensures flows == map[] && dnsMap == map[]
    {
      flows := map[];
      dnsMap := map[];
    }
  }

  /** A map that stores each flow under that flow's own key has as many
      distinct flows as keys. */
  lemma {:induction false} KeyedValuesCount(m: map<string, ConnectionFlow>)
    requires forall k | k in m :: m[k].Key() == k
    ensures |m.Values| == |m.Keys| == |m|
    decreases |m.Keys|
  {
    if |m.Keys| > 0 {
      var k :| k in m.Keys;
      var m' := m - {k};
      KeyedValuesCount(m');
      assert m'.Values == m.Values - {m[k]} by {
        forall f | f in m.Values - {m[k]} ensures f in m'.Values {
          var j :| j in m && m[j] == f;
          assert j != k;
          assert j in m';
        }
        forall f | f in m'.Values ensures f in m.Values - {m[k]} {
          var j :| j in m' && m'[j] == f;
          assert m[j].Key() == j && j != k;
        }
      }
      assert m'.Keys == m.Keys - {k};
    }
  }
}
