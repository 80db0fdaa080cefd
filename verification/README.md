# Traffic analysis and media download, modelled in Dafny

The system is an Android application with two pipelines that find video
streams and download them.

- **Research pipeline** (`com.research.mediaanalyzer`):
  - A VPN service reads raw IPv4 packets.
  - `VpnTrafficAnalyzer` keeps one mutable flow record per
    "destIp:destPort:protocol" key. A flow is promoted to a media candidate
    once it is on port 443 and has at least 15 KiB, 3 seconds and 5 packets
    behind it.
  - The service broadcasts a throttled "VPN-CONN" event and a one-shot
    "MEDIA" event per flow.
  - `MediaDetectionLogic` classifies URLs as DRM, adaptive or direct media.
  - `MainActivity` lets one detection per session through. It opens a DRM
    alert or a download confirmation, then picks the segmented `HlsDownloader`
    for adaptive streams. The downloader fetches a playlist's segments one
    after another into a new file.
- **Fikfap pipeline** (`com.fikfap.downloader`):
  - The VPN service counts traffic to five CDN addresses. For UDP packets
    to or from port 443 it hands the IP payload to a QUIC decoder that looks
    for a manifest URL. It also hunts every payload for manifest URLs and
    for base64 `data:application/x-mpegURL` playlists.
  - `StreamAnalyzerService` filters a WebView's console messages and
    requests for HLS URLs.
  - `MainActivity` starts one download at a time, guarded by its
    `isHlsProcessing` flag.
  - `HLSProcessor` builds the FFmpeg argument list.
  - `VideoAdapter` keeps the library's selection set.

The project has one module per source file of that core, plus four shared
modules:

- `Common`: Option, unsigned bytes, and the Kotlin string functions used.
- `Models`: the stream record.
- `PacketCodec`: IPv4 header fields and dotted-decimal addresses, with
  their round trips.
- `ManifestScan` and `Base64`: the regular expressions written as scanners,
  and RFC 4648 base64.

Code that changes state in place is modelled in the same form:

- the flow table and its records, the two activities, the fikfap VPN
  service's volume map and the adapter are classes;
- the download loop and the hunter's loops are methods with loop
  invariants.

Each method is proved equal to a pure step function. The lemmas are about
those step functions.

Where the code does something other than its names or comments suggest, the
model follows the code:

- **Partial download kept.** `downloadHls` returns null when a segment fetch
  throws, but the output file it has written so far stays on disk.
  `HlsDownloader.DownloadHls` states this.
- **No separate tag for base64 playlists.** The hunter adds decoded base64
  playlists to the same result list as the URLs.
- **DRM ends in Idle, not Failed.** A DRM detection opens an alert whose OK
  runs `stopAnalysis`, which sets the status to Idle.
- **The Completed/Failed status is overwritten.** `onDownloadComplete` sets
  it and then calls `stopAnalysis`, which sets Idle straight away.
- **Priority hosts are exact addresses, not /24 subnets.** The fikfap volume
  tracking uses a string-prefix test against "a.b.c.0". It matches only the
  five ".0" addresses, not the /24 subnets their route masks name
  (`FikfapVpn.PriorityHostIff`).
- **The QUIC test reads the UDP header.** The payload given to
  `decodeQuicPacket` starts at the end of the IP header, so it still begins
  with the 8-byte UDP header. The "long header" test on its first byte
  therefore reads the high byte of the UDP source port. A packet sent from
  port 443 never yields a QUIC event (`FikfapVpn.QuicNeverFromPort443`), and
  any QUIC event needs a source port of at least 0xC000 and destination port
  443 (`FikfapVpn.QuicNeedsHighSourcePort`).
- **The research port is read at bytes 22-23.** The analyzer reads the port
  there whatever the IHL and the packet length. A 20-byte packet therefore
  gets the port from stale buffer bytes (`ResearchVpn.PortReadPastShortPacket`).

## Model

| member | source | states |
|---|---|---|
| Common.ToLower | app/src/main/java/com/research/mediaanalyzer/logic/MediaDetectionLogic.kt:34 | `lowercase()` keeps the length and lower-cases each ASCII capital, leaving every other character |
| Common.LastIndexOf | app/src/main/java/com/research/mediaanalyzer/logic/HlsDownloader.kt:28 | the last occurrence of a character: absent exactly when the character is not in the text, otherwise no later occurrence |
| Common.ParseNatToString | app/src/main/java/com/fikfap/downloader/TrafficVpnService.kt:222 | the decimal text of a number parses back to that number, as the octets of an address text do |
| PacketCodec.HeaderLength | app/src/main/java/com/fikfap/downloader/TrafficVpnService.kt:134 | the IHL in bytes is a multiple of 4 between 0 and 60 |
| PacketCodec.NibblesRecompose | app/src/main/java/com/research/mediaanalyzer/vpn/TrafficVpnService.kt:139 | byte 0 is exactly its version and IHL nibbles; version 4 means byte 0 lies in [64, 80) |
| PacketCodec.Word16RoundTrip | app/src/main/java/com/fikfap/downloader/TrafficVpnService.kt:146-147 | a big-endian port word and its two bytes convert into each other both ways |
| PacketCodec.ParseDottedQuadRoundTrip | app/src/main/java/com/fikfap/downloader/TrafficVpnService.kt:221-223 | the dotted-decimal text of four octets parses back to those octets |
| PacketCodec.DottedQuadInjective | app/src/main/java/com/fikfap/downloader/TrafficVpnService.kt:221-223 | distinct addresses have distinct texts, so an address text identifies its four bytes |
| PacketCodec.PrefixOfZeroHost | app/src/main/java/com/fikfap/downloader/TrafficVpnService.kt:165 | an address text starting with the text of "a.b.c.0" is the address a.b.c.0 itself |
| FlowTable.ProtocolName | app/src/main/java/com/research/mediaanalyzer/vpn/VpnTrafficAnalyzer.kt:34 | 6 is "TCP", 17 is "UDP", anything else "RAW", each label for exactly those numbers |
| FlowTable.Lookup | app/src/main/java/com/research/mediaanalyzer/vpn/VpnTrafficAnalyzer.kt:44 | `dnsMap[ip]` is null exactly for an unmapped address, otherwise the mapped host |
| FlowTable.NewFlowState | app/src/main/java/com/research/mediaanalyzer/vpn/VpnTrafficAnalyzer.kt:8-21 | a new flow has its key, zero counters and packet count, is not a candidate, is UNSUPPORTED with reported size 0, takes its hostname from the DNS map, and is sound |
| FlowTable.Analyze | app/src/main/java/com/research/mediaanalyzer/vpn/VpnTrafficAnalyzer.kt:60-78 | a missing hostname is filled from the DNS map; the flow is a candidate afterwards iff it was one or meets all four thresholds; a flow promoted now becomes ADAPTIVE_STREAM and any other keeps its classification; nothing else changes |
| FlowTable.Track | app/src/main/java/com/research/mediaanalyzer/vpn/VpnTrafficAnalyzer.kt:48-57 | one packet adds 1 to the packet count and `length` to exactly one byte counter by direction, sets the active time, keeps key, start, reported size and a known hostname; the flow is a candidate afterwards iff it was one or now meets the thresholds, a candidate keeps its classification, and a sound flow stays sound for non-negative lengths |
| FlowTable.TrackTable | app/src/main/java/com/research/mediaanalyzer/vpn/VpnTrafficAnalyzer.kt:33-58 | `trackPacket` adds only the packet's key to the table and leaves every other flow as it was |
| FlowTable.TrackTableSound | app/src/main/java/com/research/mediaanalyzer/vpn/VpnTrafficAnalyzer.kt:33-78 | one packet with a non-negative length keeps every flow stored under its own key and sound |
| FlowTable.TrackAllMonotone | app/src/main/java/com/research/mediaanalyzer/vpn/VpnTrafficAnalyzer.kt:42-77 | over any packet sequence no flow is dropped, counters and packet count never decrease, a candidate stays a candidate with its classification, and a known hostname is never replaced |
| FlowTable.TrackAllSound | app/src/main/java/com/research/mediaanalyzer/vpn/VpnTrafficAnalyzer.kt:71-77 | every candidate the analyzer ever builds is on port 443, ADAPTIVE_STREAM, and has at least 15 KiB and 5 packets |
| FlowTable.FirstPacketNeverPromotes | app/src/main/java/com/research/mediaanalyzer/vpn/VpnTrafficAnalyzer.kt:42-49 | the packet that creates a flow leaves it at packet count 1, not a candidate, UNSUPPORTED |
| FlowTable.ConnectionFlow.constructor | app/src/main/java/com/research/mediaanalyzer/vpn/VpnTrafficAnalyzer.kt:8-21 | the primary constructor's defaults |
| FlowTable.ConnectionFlow.CountCounters | app/src/main/java/com/research/mediaanalyzer/vpn/VpnTrafficAnalyzer.kt:48-55 | the in-place counter updates equal the value-level count step |
| FlowTable.VpnTrafficAnalyzer.constructor | app/src/main/java/com/research/mediaanalyzer/vpn/VpnTrafficAnalyzer.kt:25-26 | both maps start empty |
| FlowTable.VpnTrafficAnalyzer.TrackPacket | app/src/main/java/com/research/mediaanalyzer/vpn/VpnTrafficAnalyzer.kt:33-58 | the table after `trackPacket` is `TrackTable` of the table before; existing records keep their identity; the DNS map is unchanged |
| FlowTable.VpnTrafficAnalyzer.GetOrCreate | app/src/main/java/com/research/mediaanalyzer/vpn/VpnTrafficAnalyzer.kt:42-46 | `getOrPut` returns the stored record for a known key and otherwise stores and returns a fresh one built from the DNS map |
| FlowTable.VpnTrafficAnalyzer.Insert | app/src/main/java/com/research/mediaanalyzer/vpn/VpnTrafficAnalyzer.kt:42-46 | storing a record under its own absent key adds exactly that entry |
| FlowTable.VpnTrafficAnalyzer.CountPacket | app/src/main/java/com/research/mediaanalyzer/vpn/VpnTrafficAnalyzer.kt:48-57 | the record's new state is `Track` of its old one; no other entry changes |
| FlowTable.VpnTrafficAnalyzer.AnalyzeFlow | app/src/main/java/com/research/mediaanalyzer/vpn/VpnTrafficAnalyzer.kt:60-78 | the record's new state is `Analyze` of its old one |
| FlowTable.VpnTrafficAnalyzer.AddDnsMapping | app/src/main/java/com/research/mediaanalyzer/vpn/VpnTrafficAnalyzer.kt:88-90 | the DNS map gains or overwrites one entry; flows are untouched |
| FlowTable.VpnTrafficAnalyzer.GetFlow | app/src/main/java/com/research/mediaanalyzer/vpn/VpnTrafficAnalyzer.kt:92-94 | the record is returned exactly when its key is present, and it is the record with that key |
| FlowTable.VpnTrafficAnalyzer.GetFlows | app/src/main/java/com/research/mediaanalyzer/vpn/VpnTrafficAnalyzer.kt:96 | every stored record, each stored under its own key, as many as there are keys |
| FlowTable.VpnTrafficAnalyzer.GetMediaFlows | app/src/main/java/com/research/mediaanalyzer/vpn/VpnTrafficAnalyzer.kt:98 | exactly the stored records that are media candidates |
| FlowTable.VpnTrafficAnalyzer.Clear | app/src/main/java/com/research/mediaanalyzer/vpn/VpnTrafficAnalyzer.kt:100-103 | both maps are empty afterwards |
| FlowTable.KeyedValuesCount | app/src/main/java/com/research/mediaanalyzer/vpn/VpnTrafficAnalyzer.kt:96 | a table storing each flow under its own key has as many records as keys |
| ResearchVpn.DecodeTarget | app/src/main/java/com/research/mediaanalyzer/vpn/TrafficVpnService.kt:134-160 | a target exists iff the length is at least 20, the version is 4 and the protocol is TCP or UDP; it holds byte 9, the address at 16 and the word at 22-23 |
| ResearchVpn.DecodePacketPrefix | app/src/main/java/com/research/mediaanalyzer/vpn/TrafficVpnService.kt:134-158 | decoding a packet built from a destination gives that destination back for TCP and UDP and nothing otherwise |
| ResearchVpn.PortReadPastShortPacket | app/src/main/java/com/research/mediaanalyzer/vpn/TrafficVpnService.kt:153-158 | two 20-byte packets with the same header can decode to different ports, taken from bytes past the packet |
| ResearchVpn.ProtoLabel | app/src/main/java/com/research/mediaanalyzer/vpn/TrafficVpnService.kt:193 | the broadcast's "proto" is "TCP" for 6 and "UDP" for everything else |
| ResearchVpn.Emit | app/src/main/java/com/research/mediaanalyzer/vpn/TrafficVpnService.kt:174-183 | the broadcasts change at most the packet's own record and never the key set |
| ResearchVpn.FlowStep | app/src/main/java/com/research/mediaanalyzer/vpn/TrafficVpnService.kt:160-183 | tracking then broadcasting adds only the packet's key and leaves other flows alone |
| ResearchVpn.PacketStep | app/src/main/java/com/research/mediaanalyzer/vpn/TrafficVpnService.kt:134-185 | a packet that does not decode changes nothing and sends nothing |
| ResearchVpn.ConnEventIffLengthMultipleOfTen | app/src/main/java/com/research/mediaanalyzer/vpn/TrafficVpnService.kt:174-177 | one VPN-CONN event iff the packet length is a multiple of 10, carrying the display host, port, label and the flow's running total |
| ResearchVpn.EmitGuard | app/src/main/java/com/research/mediaanalyzer/vpn/TrafficVpnService.kt:179-183 | a MEDIA event iff the flow is a candidate never reported; then and only then its reported size becomes its total |
| ResearchVpn.MediaGuard | app/src/main/java/com/research/mediaanalyzer/vpn/TrafficVpnService.kt:179-183 | over a sound table a reported flow's reported size is at least 15 KiB and the table stays sound |
| ResearchVpn.MediaStep | app/src/main/java/com/research/mediaanalyzer/vpn/TrafficVpnService.kt:179-183 | over a sound table one packet sends at most one MEDIA event; when it does, its flow goes from unreported to reported; a reported flow stays reported |
| ResearchVpn.MediaAtMostOncePerFlow | app/src/main/java/com/research/mediaanalyzer/vpn/TrafficVpnService.kt:179-183 | over any interleaving of packets of any flows, the MEDIA events are one per entry of `MediaKeys`, no flow occurs there twice, and no flow reported before the run occurs at all |
| ResearchVpn.MediaKeysCount | app/src/main/java/com/research/mediaanalyzer/vpn/TrafficVpnService.kt:179-183 | the number of MEDIA events of a run equals the number of flows `MediaKeys` attributes them to |
| ResearchVpn.MediaKeysFresh | app/src/main/java/com/research/mediaanalyzer/vpn/TrafficVpnService.kt:179-183 | the flows a run reports are pairwise distinct and none was reported before the run |
| ResearchVpn.MediaKeysOfOneFlow | app/src/main/java/com/research/mediaanalyzer/vpn/TrafficVpnService.kt:179-183 | when all packets belong to one flow, every flow reported is that flow |
| ResearchVpn.OneFlowMediaAtMostOnce | app/src/main/java/com/research/mediaanalyzer/vpn/TrafficVpnService.kt:179-183 | over packets of one flow at most one MEDIA event, and none once the flow was reported |
| ResearchVpn.SixPacketScenario | app/src/main/java/com/research/mediaanalyzer/vpn/VpnTrafficAnalyzer.kt:29-31 | six outbound 1.2.3.4:443 packets over 4 s give the stated final flow and event list |
| ResearchVpn.ScenarioEventCounts | app/src/main/java/com/research/mediaanalyzer/vpn/TrafficVpnService.kt:174-183 | the scenario sends six VPN-CONN events and one MEDIA event at the fifth packet, for 18000 bytes |
| ResearchVpn.AnalyzePacket | app/src/main/java/com/research/mediaanalyzer/vpn/TrafficVpnService.kt:134-185 | the live analyzer's new table and the broadcasts equal `PacketStep` of the old table |
| ResearchVpn.EmitEvents | app/src/main/java/com/research/mediaanalyzer/vpn/TrafficVpnService.kt:172-183 | the broadcasts and the record update equal `Emit` |
| ResearchVpn.MarkReported | app/src/main/java/com/research/mediaanalyzer/vpn/TrafficVpnService.kt:181 | the record's reported size becomes its total; nothing else changes |
| FikfapVpn.AsciiText | app/src/main/java/com/fikfap/downloader/TrafficVpnService.kt:177 | US-ASCII decoding keeps the length, maps bytes below 128 to themselves and others to U+FFFD |
| FikfapVpn.LongHeaderIffAtLeastC0 | app/src/main/java/com/fikfap/downloader/TrafficVpnService.kt:176 | the two top bits are set exactly for bytes from 0xC0 up |
| FikfapVpn.DecodeQuic | app/src/main/java/com/fikfap/downloader/TrafficVpnService.kt:174-184 | a URL only for a non-empty payload whose first byte has its two top bits set and whose text mentions "m3u8" or "hls", and it is the text of a manifest match |
| FikfapVpn.DecodeQuicFinds | app/src/main/java/com/fikfap/downloader/TrafficVpnService.kt:176-181 | a URL is found iff both gates pass and the pattern matches somewhere |
| FikfapVpn.DecodeQuicLeftmost | app/src/main/java/com/fikfap/downloader/TrafficVpnService.kt:180 | the URL is the leftmost match's text |
| FikfapVpn.QuicNeedsScheme | app/src/main/java/com/fikfap/downloader/TrafficVpnService.kt:180 | a payload whose text lacks "http" never yields a URL |
| FikfapVpn.DirectMatches | app/src/main/java/com/fikfap/downloader/TrafficVpnService.kt:191 | each span is a non-empty manifest-pattern match inside the text |
| FikfapVpn.Base64Matches | app/src/main/java/com/fikfap/downloader/TrafficVpnService.kt:194 | each span is a base64-pattern match holding its prefix |
| FikfapVpn.Unpacked | app/src/main/java/com/fikfap/downloader/TrafficVpnService.kt:195-200 | a capture adds at most one text: its decoding, only when base64 decoding succeeds and the text mentions "m3u8" or "#EXTM3U" |
| FikfapVpn.Captures | app/src/main/java/com/fikfap/downloader/TrafficVpnService.kt:196 | `groupValues[1]` is each match's text after the prefix |
| FikfapVpn.UnpackedAll | app/src/main/java/com/fikfap/downloader/TrafficVpnService.kt:194-201 | at most one playlist per capture, each mentioning "m3u8" or "#EXTM3U" |
| FikfapVpn.HuntManifests | app/src/main/java/com/fikfap/downloader/TrafficVpnService.kt:186-204 | the list built in place is the direct matches in order followed by the unpacked playlists in order |
| FikfapVpn.CollectDirect | app/src/main/java/com/fikfap/downloader/TrafficVpnService.kt:191 | the loop adds each match's text in order |
| FikfapVpn.CollectUnpacked | app/src/main/java/com/fikfap/downloader/TrafficVpnService.kt:194-201 | the loop adds exactly `UnpackedAll` of the captures |
| FikfapVpn.UnpackOne | app/src/main/java/com/fikfap/downloader/TrafficVpnService.kt:195-200 | one iteration adds `Unpacked` of its capture; a decode failure adds nothing |
| FikfapVpn.HuntedUrlsAreManifestUrls | app/src/main/java/com/fikfap/downloader/TrafficVpnService.kt:40 | every direct result starts with a scheme, holds only URL characters and contains ".m3u8", ".mpd" or ".bin" |
| FikfapVpn.HuntedPlaylistsMentionHls | app/src/main/java/com/fikfap/downloader/TrafficVpnService.kt:197-198 | every result after the direct ones mentions "m3u8" or "#EXTM3U" |
| FikfapVpn.HuntMissesNoUrl | app/src/main/java/com/fikfap/downloader/TrafficVpnService.kt:191 | every position where the pattern matches lies inside a reported match |
| FikfapVpn.RemoteHost | app/src/main/java/com/fikfap/downloader/TrafficVpnService.kt:138 | the remote end is the destination when the source starts "10.0.", else the source |
| FikfapVpn.LocalSourceIff | app/src/main/java/com/fikfap/downloader/TrafficVpnService.kt:136-138 | the text test "10.0." holds exactly when the first two octets are 10 and 0 |
| FikfapVpn.PriorityHostIff | app/src/main/java/com/fikfap/downloader/TrafficVpnService.kt:165 | an address is counted exactly when it is one of the five listed ".0" addresses |
| FikfapVpn.VolumeMessageCrossesMultiple | app/src/main/java/com/fikfap/downloader/TrafficVpnService.kt:168 | for packets up to 50 KiB, the message is due iff the running total reaches or passes a multiple of 51200 |
| FikfapVpn.Volume | app/src/main/java/com/fikfap/downloader/TrafficVpnService.kt:164-171 | an unlisted host changes nothing; a listed one gets `getOrDefault + length` and one message exactly when it is due |
| FikfapVpn.QuicEvents | app/src/main/java/com/fikfap/downloader/TrafficVpnService.kt:145-154 | at most one QUIC event, only for UDP with port 443 on either side and a decoded URL, carrying that URL |
| FikfapVpn.QuicNeverFromPort443 | app/src/main/java/com/fikfap/downloader/TrafficVpnService.kt:142-177 | a UDP packet whose source port is 443 never gives a QUIC event, because the long-header test reads that port's high byte |
| FikfapVpn.QuicNeedsHighSourcePort | app/src/main/java/com/fikfap/downloader/TrafficVpnService.kt:142-177 | any QUIC event comes from a packet with source port at least 0xC000 and destination port 443 |
| FikfapVpn.HuntEvents | app/src/main/java/com/fikfap/downloader/TrafficVpnService.kt:158-161 | one event per hunted manifest, in order |
| FikfapVpn.PayloadHasNoVolumeMessage | app/src/main/java/com/fikfap/downloader/TrafficVpnService.kt:141-162 | the payload analysis never sends a progress message |
| FikfapVpn.PacketStep | app/src/main/java/com/fikfap/downloader/TrafficVpnService.kt:131-172 | a packet shorter than 20 bytes changes nothing and sends nothing |
| FikfapVpn.PacketStepKeepsInvariant | app/src/main/java/com/fikfap/downloader/TrafficVpnService.kt:164-171 | the volume map only ever holds listed hosts, each with at least 20 bytes |
| FikfapVpn.AtMostOneVolumeMessage | app/src/main/java/com/fikfap/downloader/TrafficVpnService.kt:164-171 | a progress message is the packet's last event, for a listed host, carrying its new total |
| FikfapVpn.FikfapVpnService.constructor | app/src/main/java/com/fikfap/downloader/TrafficVpnService.kt:23 | the volume map starts empty |
| FikfapVpn.FikfapVpnService.AnalyzePacket | app/src/main/java/com/fikfap/downloader/TrafficVpnService.kt:131-172 | the new volume map and the events equal `PacketStep` of the old map |
| FikfapVpn.FikfapVpnService.CountVolume | app/src/main/java/com/fikfap/downloader/TrafficVpnService.kt:165-170 | the new map and the events equal `Volume` |
| FikfapVpn.PayloadEvents | app/src/main/java/com/fikfap/downloader/TrafficVpnService.kt:141-162 | the QUIC attempt's events followed by one event per hunted manifest |
| FikfapVpn.QuicAttempt | app/src/main/java/com/fikfap/downloader/TrafficVpnService.kt:145-154 | the events equal `QuicEvents` |
| FikfapVpn.ReportManifests | app/src/main/java/com/fikfap/downloader/TrafficVpnService.kt:158-161 | the events equal `HuntEvents` |
| ManifestScan.SchemeLength | app/src/main/java/com/fikfap/downloader/TrafficVpnService.kt:40 | `https?://` at a position: 8 exactly for "https://", 7 exactly for "http://", else 0 |
| ManifestScan.RunEnd | app/src/main/java/com/fikfap/downloader/TrafficVpnService.kt:40 | the end of the longest run of class characters |
| ManifestScan.FindExt | app/src/main/java/com/fikfap/downloader/TrafficVpnService.kt:40 | the first place an extension occurs before the run's end, or none anywhere |
| ManifestScan.MatchEnd | app/src/main/java/com/fikfap/downloader/TrafficVpnService.kt:40-41 | a match at a position is non-empty and inside the text; a base64 match extends past its prefix |
| ManifestScan.UrlMatchShape | app/src/main/java/com/fikfap/downloader/TrafficVpnService.kt:40 | a URL match is the scheme and the whole run of URL characters, present iff an extension occurs after the first run character |
| ManifestScan.UrlMatchText | app/src/main/java/com/fikfap/downloader/StreamAnalyzerService.kt:136 | a match's text starts with the scheme, holds only URL characters and contains an extension |
| ManifestScan.Base64MatchShape | app/src/main/java/com/fikfap/downloader/TrafficVpnService.kt:41 | a base64 match is the prefix and the whole following run of characters other than quotes, which is non-empty |
| ManifestScan.Matcher | app/src/main/java/com/fikfap/downloader/TrafficVpnService.kt:40-41 | the pattern at every start position |
| ManifestScan.FindFrom | app/src/main/java/com/fikfap/downloader/TrafficVpnService.kt:180 | `find`: the leftmost match at or after the start, or no match anywhere after it |
| ManifestScan.FindAll | app/src/main/java/com/fikfap/downloader/TrafficVpnService.kt:191 | `findAll`: matches in increasing, non-overlapping order |
| ManifestScan.FindAllComplete | app/src/main/java/com/fikfap/downloader/TrafficVpnService.kt:191 | every matching position lies inside a reported match |
| ManifestScan.FindAllLeftmost | app/src/main/java/com/fikfap/downloader/TrafficVpnService.kt:191 | each match is the leftmost one after the previous match's end |
| ManifestScan.Values | app/src/main/java/com/fikfap/downloader/TrafficVpnService.kt:191 | the matched texts, one per span |
| ManifestScan.NoSchemeNoMatch | app/src/main/java/com/fikfap/downloader/TrafficVpnService.kt:40 | a text without "http" has no URL match |
| Base64.Decode | app/src/main/java/com/fikfap/downloader/TrafficVpnService.kt:196 | a decoding needs whole quanta and gives 3 bytes per quantum less at most 2 |
| Base64.DecodeQuantum | app/src/main/java/com/fikfap/downloader/TrafficVpnService.kt:196 | a quantum gives 1 to 3 bytes, fewer only with padding in the last quantum |
| Base64.CharValueEncodeChar | app/src/main/java/com/fikfap/downloader/TrafficVpnService.kt:196 | the alphabet is a bijection with the six-bit values, and "=" is not in it |
| Base64.DecodeEncode | app/src/main/java/com/fikfap/downloader/TrafficVpnService.kt:196 | decoding undoes encoding for every byte sequence |
| Base64.EncodeInjective | app/src/main/java/com/fikfap/downloader/TrafficVpnService.kt:196 | distinct byte sequences have distinct encodings |
| Base64.PadBitsIgnored | app/src/main/java/com/fikfap/downloader/TrafficVpnService.kt:196 | the bits after the last byte are ignored, so decoding is not injective |
| Base64.PaddingOnlyAtEnd | app/src/main/java/com/fikfap/downloader/TrafficVpnService.kt:196 | any text whose first quantum holds '=' and is followed by more text is rejected |
| Base64.PaddedQuantumNotFull | app/src/main/java/com/fikfap/downloader/TrafficVpnService.kt:196 | a quantum holding '=' is never decoded as a full, non-final quantum |
| Base64.PlaylistHeaderExample | app/src/main/java/com/fikfap/downloader/TrafficVpnService.kt:196-197 | "I0VYVE0zVQ==" decodes to the bytes of "#EXTM3U" |
| StreamAnalyzer.FirstHlsUrl | app/src/main/java/com/fikfap/downloader/StreamAnalyzerService.kt:136-137 | a result is the text of a match of the HLS pattern |
| StreamAnalyzer.FirstHlsUrlLeftmost | app/src/main/java/com/fikfap/downloader/StreamAnalyzerService.kt:136-137 | a URL is found iff the pattern matches somewhere, and it is the leftmost match |
| StreamAnalyzer.ExtractedUrlShape | app/src/main/java/com/fikfap/downloader/StreamAnalyzerService.kt:136 | an extracted URL starts with a scheme, holds only URL characters and contains ".m3u8" |
| StreamAnalyzer.ExtractStreamUrl | app/src/main/java/com/fikfap/downloader/StreamAnalyzerService.kt:135-142 | the stream sent is the first HLS URL, and nothing is sent iff there is none |
| StreamAnalyzer.ScanCount | app/src/main/java/com/fikfap/downloader/StreamAnalyzerService.kt:47-54 | the extractor runs twice iff both rules fire and never iff neither does |
| StreamAnalyzer.OnConsoleMessage | app/src/main/java/com/fikfap/downloader/StreamAnalyzerService.kt:43-56 | always handled; events only when a rule fires; a FOUND:/FETCH: message is logged first |
| StreamAnalyzer.ConsoleMessageStreams | app/src/main/java/com/fikfap/downloader/StreamAnalyzerService.kt:47-54 | the streams sent are the message's first HLS URL once per rule that fires |
| StreamAnalyzer.WebSocketPrefix | app/src/main/java/com/fikfap/downloader/StreamAnalyzerService.kt:73 | the "wss" test adds nothing to the "ws" test |
| StreamAnalyzer.ShouldInterceptRequest | app/src/main/java/com/fikfap/downloader/StreamAnalyzerService.kt:69-87 | the WebSocket message comes first exactly for a "ws" URL |
| StreamAnalyzer.InterceptedStreams | app/src/main/java/com/fikfap/downloader/StreamAnalyzerService.kt:77-85 | the request's URL is sent as a stream iff it names a master or playlist manifest and is not from an excluded CDN |
| StreamAnalyzer.NullRequestSendsNothing | app/src/main/java/com/fikfap/downloader/StreamAnalyzerService.kt:70 | a null request counts as "" and sends nothing |
| MediaDetection.AnalyzeUrl | app/src/main/java/com/research/mediaanalyzer/logic/MediaDetectionLogic.kt:9-31 | DRM iff a DRM marker is in the URL, whatever the path; adaptive iff not DRM and the adaptive rule holds, then HLS iff the lower-cased path ends ".m3u8" and DASH otherwise; direct iff neither and the path has a direct suffix; DRM information iff DRM-protected; URL and host kept |
| MediaDetection.UnclassifiedIff | app/src/main/java/com/research/mediaanalyzer/logic/MediaDetectionLogic.kt:14-30 | null exactly when no rule fires |
| MediaDetection.DirectFormat | app/src/main/java/com/research/mediaanalyzer/logic/MediaDetectionLogic.kt:26-27 | a direct stream's format is the extension of the suffix its path ends with |
| MediaDetection.DirectSuffixesShape | app/src/main/java/com/research/mediaanalyzer/logic/MediaDetectionLogic.kt:26 | each direct suffix is a dot and a dot-free extension |
| MediaDetection.MediaSegmentIgnoresCase | app/src/main/java/com/research/mediaanalyzer/logic/MediaDetectionLogic.kt:33-36 | a URL and its lower-cased form get the same verdict |
| MediaDetection.UpperCaseTsIsSegment | app/src/main/java/com/research/mediaanalyzer/logic/MediaDetectionLogic.kt:33-36 | a URL ending ".TS" is a segment |
| HlsDownloader.Lines | app/src/main/java/com/research/mediaanalyzer/logic/HlsDownloader.kt:24 | `lines()` gives at least one line, none holding a break character |
| HlsDownloader.LinesJoin | app/src/main/java/com/research/mediaanalyzer/logic/HlsDownloader.kt:24 | on "\n"-separated text, joining the lines with "\n" gives the text back |
| HlsDownloader.SegmentLines | app/src/main/java/com/research/mediaanalyzer/logic/HlsDownloader.kt:25 | the filter keeps exactly the lines ending ".ts" or containing ".ts?" |
| HlsDownloader.SegmentLinesAppend | app/src/main/java/com/research/mediaanalyzer/logic/HlsDownloader.kt:25 | the filter keeps playlist order |
| HlsDownloader.ResolveSegment | app/src/main/java/com/research/mediaanalyzer/logic/HlsDownloader.kt:26-29 | the URL ends with the line; an "http" line is kept; any other is prefixed by the playlist URL up to its last "/" |
| HlsDownloader.ResolveBaseIsPrefix | app/src/main/java/com/research/mediaanalyzer/logic/HlsDownloader.kt:28 | that base followed by "/" is a prefix of the playlist URL with no "/" after it |
| HlsDownloader.SegmentUrls | app/src/main/java/com/research/mediaanalyzer/logic/HlsDownloader.kt:24-29 | one resolved URL per segment line, in order |
| HlsDownloader.Progress | app/src/main/java/com/research/mediaanalyzer/logic/HlsDownloader.kt:42 | the progress calls after k segments are (1, n) … (k, n) |
| HlsDownloader.FirstThrow | app/src/main/java/com/research/mediaanalyzer/logic/HlsDownloader.kt:37-47 | the first segment whose fetch throws, with none before it |
| HlsDownloader.DownloadHls | app/src/main/java/com/research/mediaanalyzer/logic/HlsDownloader.kt:16-51 | no file and null for a failed or empty playlist or no segments; otherwise a file with the bodies of the segments before the first failure, one progress call each, and a result iff no fetch threw |
| HlsDownloader.FetchSegments | app/src/main/java/com/research/mediaanalyzer/logic/HlsDownloader.kt:37-43 | the loop writes the bodies up to the first exception and reports progress after each |
| HlsDownloader.WrittenGrows | app/src/main/java/com/research/mediaanalyzer/logic/HlsDownloader.kt:37-41 | the file only grows: what is written after j segments is a prefix of what is written after more |
| HlsProcessor.HeaderLines | app/src/main/java/com/fikfap/downloader/HLSProcessor.kt:36 | the header value starts with the User-Agent line and ends with the Referer line, each CRLF-terminated |
| HlsProcessor.OutputPath | app/src/main/java/com/fikfap/downloader/HLSProcessor.kt:21-23 | the output path ends with "FikFap_<millis>.mp4" |
| HlsProcessor.CommandLayout | app/src/main/java/com/fikfap/downloader/HLSProcessor.kt:26-63 | 19 arguments, or 21 with a key; placeholder, headers and input first; the key pair at 5-6 iff a key is given; copy and reconnect options next; "-y" and the output path last |
| HlsProcessor.BuildCommand | app/src/main/java/com/fikfap/downloader/HLSProcessor.kt:26-63 | the list built by appends is `Command` |
| HlsProcessor.CompletionFile | app/src/main/java/com/fikfap/downloader/HLSProcessor.kt:69-95 | `onComplete` receives the output file iff FFmpeg finishes, null on cancel, error or invocation exception |
| ResearchSession.Detect | app/src/main/java/com/research/mediaanalyzer/ui/MainActivity.kt:233-246 | ignored while a stream is recorded; otherwise recorded, with the DRM alert iff DRM-protected and the confirmation otherwise |
| ResearchSession.Stop | app/src/main/java/com/research/mediaanalyzer/ui/MainActivity.kt:329-335 | status Idle, recorded stream cleared, analysis stopped |
| ResearchSession.Strategy | app/src/main/java/com/research/mediaanalyzer/ui/MainActivity.kt:274-286 | the segmented downloader iff the stream is adaptive |
| ResearchSession.Acquire | app/src/main/java/com/research/mediaanalyzer/ui/MainActivity.kt:265-286 | status Downloading and one download of that stream with that downloader |
| ResearchSession.Step | app/src/main/java/com/research/mediaanalyzer/ui/MainActivity.kt:233-314 | keeps `Inv`; a download happens only on Download with the confirmation open, for the confirmation's own stream, which is the recorded one and never DRM-protected; Download acts iff a confirmation is open; a recorded stream is the old one, the detected one or none |
| ResearchSession.DrmNeverDownloaded | app/src/main/java/com/research/mediaanalyzer/ui/MainActivity.kt:248-263 | over any run of events from a state satisfying `Inv`, `Inv` holds at the end and every download is of a detected, non-DRM stream with the downloader its type calls for |
| ResearchSession.NoDownloadWithoutConfirmation | app/src/main/java/com/research/mediaanalyzer/ui/MainActivity.kt:256-261 | a run of events without a Download press starts no download |
| ResearchSession.DismissedKeepsGateClosed | app/src/main/java/com/research/mediaanalyzer/ui/MainActivity.kt:234-263 | a dialog closed without a button keeps the stream recorded and the status, so a later detection and a Download press change nothing |
| ResearchSession.Complete | app/src/main/java/com/research/mediaanalyzer/ui/MainActivity.kt:299-314 | Completed iff the file is there, then the stop; the session ends Idle and open |
| ResearchSession.OnlyFirstDetection | app/src/main/java/com/research/mediaanalyzer/ui/MainActivity.kt:233-236 | any detections in a row leave the session as the first one left it |
| ResearchSession.LaterDetectionsIgnored | app/src/main/java/com/research/mediaanalyzer/ui/MainActivity.kt:234 | once a stream is recorded no detection changes the session |
| ResearchSession.StopReopensGate | app/src/main/java/com/research/mediaanalyzer/ui/MainActivity.kt:334 | after a stop the next detection is recorded |
| ResearchSession.ResearchActivity.constructor | app/src/main/java/com/research/mediaanalyzer/ui/MainActivity.kt:40 | no stream, no dialog, Idle |
| ResearchSession.ResearchActivity.OnMediaDetected | app/src/main/java/com/research/mediaanalyzer/ui/MainActivity.kt:233-246 | taken iff nothing was recorded; the new state is `Detect` of the old |
| ResearchSession.ResearchActivity.StopAnalysis | app/src/main/java/com/research/mediaanalyzer/ui/MainActivity.kt:329-335 | the new state and effects are `Stop` |
| ResearchSession.ResearchActivity.StartAcquisition | app/src/main/java/com/research/mediaanalyzer/ui/MainActivity.kt:265-286 | the new state and effects are `Acquire` |
| ResearchSession.ResearchActivity.PressDownload | app/src/main/java/com/research/mediaanalyzer/ui/MainActivity.kt:260 | the new state and effects are `Step` on Download |
| ResearchSession.ResearchActivity.PressCancel | app/src/main/java/com/research/mediaanalyzer/ui/MainActivity.kt:261 | the new state and effects are `Step` on Cancel |
| ResearchSession.ResearchActivity.PressOk | app/src/main/java/com/research/mediaanalyzer/ui/MainActivity.kt:252 | the new state and effects are `Step` on OK |
| ResearchSession.ResearchActivity.DismissDialog | app/src/main/java/com/research/mediaanalyzer/ui/MainActivity.kt:248-263 | the new state and effects are `Step` on a dismissal: the dialog closes and nothing else happens |
| ResearchSession.ResearchActivity.OnDownloadComplete | app/src/main/java/com/research/mediaanalyzer/ui/MainActivity.kt:299-314 | the new state and effects are `Complete` |
| FikfapSession.Process | app/src/main/java/com/fikfap/downloader/MainActivity.kt:168-189 | nothing while a download is in progress or for a rejected URL; otherwise the flag is set, the analyzer stopped and the download started |
| FikfapSession.Complete | app/src/main/java/com/fikfap/downloader/MainActivity.kt:107-122 | the flag is always cleared; the VPN is stopped iff a file arrived; no file means the failed status |
| FikfapSession.StopAll | app/src/main/java/com/fikfap/downloader/MainActivity.kt:199-205 | VPN, analyzer and download stopped, in that order; the flag is kept |
| FikfapSession.AtMostOneDownloadPerCycle | app/src/main/java/com/fikfap/downloader/MainActivity.kt:168-175 | between completions at most one download starts, and none while the flag is set |
| FikfapSession.CompletionReopensGate | app/src/main/java/com/fikfap/downloader/MainActivity.kt:108 | after a completion the next accepted URL starts a download |
| FikfapSession.StopAllKeepsGateClosed | app/src/main/java/com/fikfap/downloader/MainActivity.kt:199-205 | `stopAll` during a download does not let another URL through |
| FikfapSession.FikfapActivity.constructor | app/src/main/java/com/fikfap/downloader/MainActivity.kt:166 | the flag starts cleared and no command is sent |
| FikfapSession.FikfapActivity.ProcessHls | app/src/main/java/com/fikfap/downloader/MainActivity.kt:168-189 | the new state and commands are `Process` |
| FikfapSession.FikfapActivity.HandleDownloadComplete | app/src/main/java/com/fikfap/downloader/MainActivity.kt:107-127 | the new state and commands are `Complete` |
| FikfapSession.FikfapActivity.StopAllServices | app/src/main/java/com/fikfap/downloader/MainActivity.kt:199-205 | the new state and commands are `StopAll` |
| VideoAdapter.Remove | app/src/main/java/com/fikfap/downloader/VideoAdapter.kt:87 | `remove` drops the file, keeps the others and their order, and shrinks a repetition-free set by one |
| VideoAdapter.Toggle | app/src/main/java/com/fikfap/downloader/VideoAdapter.kt:86-88 | the file is selected afterwards iff it was not; no other file changes; the size moves by one |
| VideoAdapter.ToggleTwice | app/src/main/java/com/fikfap/downloader/VideoAdapter.kt:86-88 | toggling twice restores the set, and the order too when the file was not selected |
| VideoAdapter.DistinctSize | app/src/main/java/com/fikfap/downloader/VideoAdapter.kt:90 | a repetition-free selection has as many elements as its set |
| VideoAdapter.Adapter.constructor | app/src/main/java/com/fikfap/downloader/VideoAdapter.kt:14-23 | the given files, nothing selected, not in selection mode |
| VideoAdapter.Adapter.SetSelectionMode | app/src/main/java/com/fikfap/downloader/VideoAdapter.kt:23-28 | false empties the set; true keeps it |
| VideoAdapter.Adapter.ToggleSelection | app/src/main/java/com/fikfap/downloader/VideoAdapter.kt:86-91 | the set becomes `Toggle` of the old one, and the callback receives its new size, which is its number of files |
| VideoAdapter.Adapter.OnCheckboxClick | app/src/main/java/com/fikfap/downloader/VideoAdapter.kt:79 | a toggle |
| VideoAdapter.Adapter.OnItemClick | app/src/main/java/com/fikfap/downloader/VideoAdapter.kt:63-69 | a toggle in selection mode, otherwise PLAY for the file |
| VideoAdapter.Adapter.OnItemLongClick | app/src/main/java/com/fikfap/downloader/VideoAdapter.kt:71-77 | consumed iff not in selection mode; then the mode is entered and exactly that file selected; otherwise nothing changes |
| VideoAdapter.Adapter.OnOptionClick | app/src/main/java/com/fikfap/downloader/VideoAdapter.kt:81-83 | the button's action for the file; nothing else changes |
| VideoAdapter.Adapter.GetItemCount | app/src/main/java/com/fikfap/downloader/VideoAdapter.kt:93 | the number of files |
| VideoAdapter.Adapter.UpdateData | app/src/main/java/com/fikfap/downloader/VideoAdapter.kt:95-98 | the list is replaced and the selection kept |
| VideoAdapter.Adapter.GetSelectedFiles | app/src/main/java/com/fikfap/downloader/VideoAdapter.kt:100 | the selection list itself, so exactly the selected files, each once, in selection order |

## Left out

- Packet I/O, the VPN builder, routes, read loops and threads. A packet is
  the whole read buffer plus the length the read returned.
- Broadcasts, intents, notifications, toasts and log lines. Broadcasts are
  event records returned in order.
- Clocks. `System.currentTimeMillis()` is a parameter.
- FlowTable.NewFlowState: one timestamp per packet stands for the three
  clock reads of the source (start time, last-active time, and the update
  in `trackPacket`), so a flow's first packet always has duration 0 here.
- Concurrency: atomics, `runOnUiThread`, coroutines and the FFmpeg thread.
  Handlers run one at a time.
- The WebView and the injected script. Only the strings they pass to the
  hooks are inputs.
- `Uri.parse`. `analyzeUrl` takes the parsed path and host as inputs.
- Floating-point size formatting (`formatSize`, the "%.2f" texts). A
  progress message carries the byte count instead.
- Lower-casing is modelled for ASCII letters only. Kotlin's full Unicode case
  mapping is not part of this model.
- Java's regular-expression engine. The three patterns are hand-written
  scanners whose leftmost-match and `findAll` behaviour is proved.
- UTF-8 decoding of payload bytes. It is a function parameter of the hunter.
- Android's lenient base64 decoding. The model decodes strictly by RFC 4648
  section 4. Android's default mode skips every character outside the
  alphabet, not only whitespace, before and after the padding, so inputs
  such as "I0VYVE0zVQ==)" and "I0VY-VE0zVQ==", and padding-free ones, are
  accepted by Android and rejected here. An alphabet character or '=' after
  the padding is rejected by Android as it is here.
- 32-bit and 64-bit overflow of lengths and byte counters. Counters are
  unbounded integers.
- `saveManifest` and its file writes, and the "[MEDIA] SAVED" broadcasts it
  sends, which are not among `FikfapVpn`'s events.
- `processDnsPacket` is an empty placeholder in the source. It does nothing
  here either.
- `CDN_MASKS` is only used for VPN routes.
- `LibraryActivity`, `DirectMediaDownloader`, `DownloadService` and the
  research MainActivity's broadcast receiver that builds a stream from a
  MEDIA event are not part of this model.
- RxFFmpeg execution and progress pass-through. The outcome of a run is an
  input to `HlsProcessor.CompletionFile`.
- OkHttp. A fetch is a function from URL to an exception or a response whose
  body may be absent.
- `getExternalFilesDir` returning null. Output paths take the directory as
  given.
- `notifyDataSetChanged`, row binding and thumbnails in `VideoAdapter`.
- StreamAnalyzer.ShouldInterceptRequest: returns the events only. The
  WebView response it returns is always the default one and is not modelled.
- VideoAdapter.Adapter.OnCheckboxClick: keeps the no-selection-outside-
  selection-mode invariant only in selection mode. The checkbox is hidden
  outside it, and the source does not guard the listener.
- ResearchSession.Stop: closes the open dialog. In the app a stop that
  comes from a still-running acquisition leaves a dialog opened meanwhile on
  screen, and dialogs can then be stacked. The model keeps at most one.
- ResearchSession.Detect: the dialog and status are set on the UI thread
  after the stream is recorded. The model applies both at once.
