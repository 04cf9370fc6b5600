/** Ethernet, IPv4, TCP and UDP headers: src/packet_parser.cpp. */
module PacketParser {
  import opened Bytes
  import opened Wrappers
  import opened Types

  const ETH_HEADER_LEN: nat := 14
  const ETHERTYPE_IPV4: u16 := 0x0800

  function ProtocolOf(number: u8): L4Protocol {
    if number == 6 then TCP else if number == 17 then UDP else UNKNOWN
  }

  // ---- Specification, header by header --------------------------------------------------------------

  /** The fields of an IPv4 header and the bytes behind it; None for a header that is too short or malformed. */
  function Ipv4Header(ip: bytes, out: ParsedPacket): Option<(ParsedPacket, bytes)> {
    if |ip| < 20 || ip[0] / 16 != 4 || ip[0] % 16 < 5 || |ip| < ip[0] % 16 * 4 then None
    else
      var len := ip[0] % 16 * 4;
      Some((out.(hasIp := true, ipHeaderLen := len, protocol := ProtocolOf(ip[9]),
                 srcIp := U32BE(ip, 12), dstIp := U32BE(ip, 16)), ip[len..]))
  }

  /** Ports and sequence number are taken before the header length is checked, so they survive a bad length. */
  function TcpSegment(tcp: bytes, out: ParsedPacket): ParsedPacket {
    if |tcp| < 20 then out else
    var ported := out.(srcPort := U16BE(tcp, 0), dstPort := U16BE(tcp, 2), tcpSeq := U32BE(tcp, 4));
    var len := tcp[12] / 16 * 4;
    if len < 20 || |tcp| < len then ported
    else ported.(tcpHeaderLen := len, hasL4 := true, payload := tcp[len..])
  }

  /** The payload ends at the declared length, or where the capture does. */
  function UdpDatagram(udp: bytes, out: ParsedPacket): ParsedPacket {
    if |udp| < 8 then out else
    var declared := if U16BE(udp, 4) >= 8 then U16BE(udp, 4) else 8;
    out.(srcPort := U16BE(udp, 0), dstPort := U16BE(udp, 2), hasL4 := true,
         payload := udp[8..if declared <= |udp| then declared else |udp|])
  }

  function Transport(rest: bytes, out: ParsedPacket): ParsedPacket {
    match out.protocol
    case TCP => TcpSegment(rest, out)
    case UDP => UdpDatagram(rest, out)
    case UNKNOWN => out.(payload := rest)
  }

  function ParseFrame(data: bytes): Option<ParsedPacket> {
    if |data| < ETH_HEADER_LEN then None else
    var out := BLANK.(ethertype := U16BE(data, 12));
    if out.ethertype != ETHERTYPE_IPV4 then Some(out) else
    match Ipv4Header(data[ETH_HEADER_LEN..], out)
    case None => None
    case Some((ip, rest)) => Some(Transport(rest, ip))
  }

  // ---- The parser over one buffer and a running offset ----------------------------------------------

  lemma U16Within(d: bytes, off: nat, i: nat)
    requires off + i + 2 <= |d|
    ensures U16BE(d[off..], i) == U16BE(d, off + i)
  {
  }

  lemma U32Within(d: bytes, off: nat, i: nat)
    requires off + i + 4 <= |d|
    ensures U32BE(d[off..], i) == U32BE(d, off + i)
  {
  }

  method ParseIpv4(data: bytes, offset: nat, out: ParsedPacket) returns (r: Option<(ParsedPacket, nat)>)
    requires offset <= |data|
    ensures match r
            case None => Ipv4Header(data[offset..], out) == None
            case Some((p, end)) => end <= |data| && Ipv4Header(data[offset..], out) == Some((p, data[end..]))
  {
    if offset + 20 > |data| {
      return None;
    }
    var version, ihlWords := data[offset] / 16, data[offset] % 16;
    var headerLen: nat := ihlWords * 4;
    if version != 4 || ihlWords < 5 {
      return None;
    }
    if offset + headerLen > |data| {
      return None;
    }
    U32Within(data, offset, 12);
    U32Within(data, offset, 16);
    assert data[offset..][headerLen..] == data[offset + headerLen..];
    return Some((out.(hasIp := true, ipHeaderLen := headerLen, protocol := ProtocolOf(data[offset + 9]),
                      srcIp := U32BE(data, offset + 12), dstIp := U32BE(data, offset + 16)), offset + headerLen));
  }

  method ParseTcp(data: bytes, offset: nat, out: ParsedPacket) returns (r: ParsedPacket)
    requires offset <= |data|
    ensures r == TcpSegment(data[offset..], out)
  {
    r := out;
    if offset + 20 > |data| {
      return;
    }
    U16Within(data, offset, 0);
    U16Within(data, offset, 2);
    U32Within(data, offset, 4);
    r := r.(srcPort := U16BE(data, offset), dstPort := U16BE(data, offset + 2), tcpSeq := U32BE(data, offset + 4));
    var dataOffsetWords := data[offset + 12] / 16;
    var headerLen: nat := dataOffsetWords * 4;
    if dataOffsetWords < 5 {
      return;
    }
    if offset + headerLen > |data| {
      return;
    }
    assert data[offset..][headerLen..] == data[offset + headerLen..];
    r := r.(tcpHeaderLen := headerLen, hasL4 := true, payload := data[offset + headerLen..]);
  }

  method ParseUdp(data: bytes, offset: nat, out: ParsedPacket) returns (r: ParsedPacket)
    requires offset <= |data|
    ensures r == UdpDatagram(data[offset..], out)
  {
    r := out;
    if offset + 8 > |data| {
      return;
    }
    U16Within(data, offset, 0);
    U16Within(data, offset, 2);
    U16Within(data, offset, 4);
    var udpLen: nat := U16BE(data, offset + 4);
    var payloadOffset := offset + 8;
    var declaredPayloadLen := if udpLen >= 8 then udpLen - 8 else 0;
    var available := |data| - payloadOffset;
    var payloadLen := if declaredPayloadLen <= available then declaredPayloadLen else available;
    assert data[offset..][8..8 + payloadLen] == data[payloadOffset..payloadOffset + payloadLen];
    r := r.(srcPort := U16BE(data, offset), dstPort := U16BE(data, offset + 2), hasL4 := true,
            payload := data[payloadOffset..payloadOffset + payloadLen]);
  }

  method Parse(data: bytes) returns (r: Option<ParsedPacket>)
    ensures r == ParseFrame(data)
  {
    if |data| < ETH_HEADER_LEN {
      return None;
    }
    var out := BLANK.(ethertype := U16BE(data, 12));
    if out.ethertype == ETHERTYPE_IPV4 {
      var ip := ParseIpv4(data, ETH_HEADER_LEN, out);
      if ip == None {
        return None;
      }
      var offset := ip.value.1;
      out := ip.value.0;
      match out.protocol {
        case TCP => out := ParseTcp(data, offset, out);
        case UDP => out := ParseUdp(data, offset, out);
        case UNKNOWN => out := out.(payload := data[offset..]);
      }
    }
    return Some(out);
  }

  // ---- Built frames -------------------------------------------------------------------------------

  /** The Ethernet and IPv4 headers of a frame; the fields no decision reads are kept as raw bytes. */
  datatype Ipv4Fields = Ipv4Fields(
    macs: bytes, service: bytes, checksum: bytes, srcIp: u32, dstIp: u32, options: bytes)

  datatype TcpFrame = TcpFrame(
    ip: Ipv4Fields, srcPort: u16, dstPort: u16, tcpSeq: u32, ack: bytes, flagsToUrgent: bytes, options: bytes,
    payload: bytes)

  /** A UDP datagram in its frame; the link layer may pad it. */
  datatype UdpFrame = UdpFrame(
    ip: Ipv4Fields, srcPort: u16, dstPort: u16, checksum: bytes, payload: bytes, padding: bytes)

  /** Zero to ten option words (section 3.1 of RFC 791). */
  predicate WellFormedIp(h: Ipv4Fields) {
    |h.macs| == 12 && |h.service| == 8 && |h.checksum| == 2 && |h.options| <= 40 && |h.options| % 4 == 0
  }

  /** Zero to ten option words here too (section 3.1 of RFC 9293). */
  predicate WellFormed(f: TcpFrame) {
    WellFormedIp(f.ip) && |f.ack| == 4 && |f.flagsToUrgent| == 7 && |f.options| <= 40 && |f.options| % 4 == 0
  }

  predicate WellFormedUdp(f: UdpFrame) {
    WellFormedIp(f.ip) && |f.checksum| == 2 && |f.payload| + 8 < 0x1_0000
  }

  function BuildIp(h: Ipv4Fields, protocol: u8): bytes
    requires WellFormedIp(h)
  {
    [0x40 + 5 + |h.options| / 4] + h.service + [protocol] + h.checksum + PutU32BE(h.srcIp) + PutU32BE(h.dstIp) + h.options
  }

  function BuildLink(h: Ipv4Fields, protocol: u8, rest: bytes): bytes
    requires WellFormedIp(h)
  {
    h.macs + PutU16BE(0x0800) + (BuildIp(h, protocol) + rest)
  }

  function BuildTcp(f: TcpFrame): bytes
    requires WellFormed(f)
  {
    PutU16BE(f.srcPort) + PutU16BE(f.dstPort) + PutU32BE(f.tcpSeq) + f.ack +
    [(5 + |f.options| / 4) * 16] + f.flagsToUrgent + f.options
  }

  function BuildUdp(f: UdpFrame): bytes
    requires WellFormedUdp(f)
  {
    PutU16BE(f.srcPort) + PutU16BE(f.dstPort) + PutU16BE(8 + |f.payload|) + f.checksum + f.payload + f.padding
  }

  function Build(f: TcpFrame): bytes
    requires WellFormed(f)
  {
    BuildLink(f.ip, 6, BuildTcp(f) + f.payload)
  }

  function BuildUdpFrame(f: UdpFrame): bytes
    requires WellFormedUdp(f)
  {
    BuildLink(f.ip, 17, BuildUdp(f))
  }

  /** What the parser should recover of the first two headers. */
  function ExpectedIp(h: Ipv4Fields, protocol: u8): ParsedPacket {
    BLANK.(ethertype := 0x0800, hasIp := true, ipHeaderLen := 20 + |h.options|, protocol := ProtocolOf(protocol),
           srcIp := h.srcIp, dstIp := h.dstIp)
  }

  function Expected(f: TcpFrame): ParsedPacket {
    ExpectedIp(f.ip, 6).(hasL4 := true, srcPort := f.srcPort, dstPort := f.dstPort, tcpSeq := f.tcpSeq,
                         tcpHeaderLen := 20 + |f.options|, payload := f.payload)
  }

  function ExpectedUdp(f: UdpFrame): ParsedPacket {
    ExpectedIp(f.ip, 17).(hasL4 := true, srcPort := f.srcPort, dstPort := f.dstPort, payload := f.payload)
  }

  lemma U16Placed(before: bytes, x: u16, after: bytes)
    ensures U16BE(before + PutU16BE(x) + after, |before|) == x
  {
    var d := before + PutU16BE(x) + after;
    assert d[|before|..|before| + 2] == PutU16BE(x);
    assert d[|before|] == PutU16BE(x)[0] && d[|before| + 1] == PutU16BE(x)[1];
    assert U16BE(PutU16BE(x), 0) == x;
  }

  lemma U32Placed(before: bytes, x: u32, after: bytes)
    ensures U32BE(before + PutU32BE(x) + after, |before|) == x
  {
    var d, p := before + PutU32BE(x) + after, PutU32BE(x);
    assert forall i :: 0 <= i < 4 ==> d[|before| + i] == p[i];
    assert U32BE(p, 0) == x;
    assert U16BE(d, |before|) == U16BE(p, 0) && U16BE(d, |before| + 2) == U16BE(p, 2);
  }

  lemma IpRecovered(h: Ipv4Fields, protocol: u8, rest: bytes)
    requires WellFormedIp(h)
    ensures Ipv4Header(BuildIp(h, protocol) + rest, BLANK.(ethertype := 0x0800)) ==
            Some((ExpectedIp(h, protocol), rest))
  {
    hide PutU16BE, PutU32BE, U16BE, U32BE;
    var ip := BuildIp(h, protocol) + rest;
    var first: bytes := [0x40 + 5 + |h.options| / 4];
    var lead := first + h.service + [protocol] + h.checksum;
    assert ip[0] == first[0] && ip[9] == protocol;
    assert ip[0] / 16 == 4 && ip[0] % 16 * 4 == 20 + |h.options|;
    assert ip == lead + PutU32BE(h.srcIp) + (PutU32BE(h.dstIp) + h.options + rest);
    U32Placed(lead, h.srcIp, PutU32BE(h.dstIp) + h.options + rest);
    assert ip == lead + PutU32BE(h.srcIp) + PutU32BE(h.dstIp) + (h.options + rest);
    U32Placed(lead + PutU32BE(h.srcIp), h.dstIp, h.options + rest);
    assert ip[20 + |h.options|..] == rest;
  }

  /** The link and network headers of any built frame are read, and the transport reader gets exactly the rest. */
  lemma LinkRecovered(h: Ipv4Fields, protocol: u8, rest: bytes)
    requires WellFormedIp(h)
    ensures ParseFrame(BuildLink(h, protocol, rest)) == Some(Transport(rest, ExpectedIp(h, protocol)))
  {
    hide PutU16BE, U16BE, BuildIp, Ipv4Header, Transport;
    var data := BuildLink(h, protocol, rest);
    U16Placed(h.macs, 0x0800, BuildIp(h, protocol) + rest);
    assert data[14..] == BuildIp(h, protocol) + rest;
    IpRecovered(h, protocol, rest);
  }

  lemma TcpPortsRecovered(srcPort: u16, dstPort: u16, tcpSeq: u32, tail: bytes)
    ensures var tcp := PutU16BE(srcPort) + PutU16BE(dstPort) + PutU32BE(tcpSeq) + tail;
            U16BE(tcp, 0) == srcPort && U16BE(tcp, 2) == dstPort && U32BE(tcp, 4) == tcpSeq
  {
    hide PutU16BE, PutU32BE, U16BE, U32BE;
    var a, b, c := PutU16BE(srcPort), PutU16BE(dstPort), PutU32BE(tcpSeq);
    assert a + b + c + tail == [] + a + (b + c + tail);
    U16Placed([], srcPort, b + c + tail);
    assert a + b + c + tail == a + b + (c + tail);
    U16Placed(a, dstPort, c + tail);
    U32Placed(a + b, tcpSeq, tail);
  }

  lemma TcpRecovered(f: TcpFrame, out: ParsedPacket)
    requires WellFormed(f)
    ensures TcpSegment(BuildTcp(f) + f.payload, out) ==
            out.(srcPort := f.srcPort, dstPort := f.dstPort, tcpSeq := f.tcpSeq,
                 tcpHeaderLen := 20 + |f.options|, hasL4 := true, payload := f.payload)
  {
    hide PutU16BE, PutU32BE, U16BE, U32BE;
    var words := 5 + |f.options| / 4;
    var fixed := PutU16BE(f.srcPort) + PutU16BE(f.dstPort) + PutU32BE(f.tcpSeq);
    var tail := f.ack + [words * 16] + f.flagsToUrgent + f.options + f.payload;
    var tcp := BuildTcp(f) + f.payload;
    assert tcp == fixed + tail;
    TcpPortsRecovered(f.srcPort, f.dstPort, f.tcpSeq, tail);
    assert tail[4] == words * 16;
    assert tcp[12] == words * 16;
    assert tcp[12] / 16 * 4 == 20 + |f.options|;
    assert tail[12 + |f.options|..] == f.payload;
    assert tcp[20 + |f.options|..] == f.payload;
  }

  lemma UdpFieldsRecovered(srcPort: u16, dstPort: u16, length: u16, rest: bytes)
    ensures var udp := PutU16BE(srcPort) + PutU16BE(dstPort) + PutU16BE(length) + rest;
            U16BE(udp, 0) == srcPort && U16BE(udp, 2) == dstPort && U16BE(udp, 4) == length
  {
    hide PutU16BE, U16BE;
    var a, b, c := PutU16BE(srcPort), PutU16BE(dstPort), PutU16BE(length);
    assert a + b + c + rest == [] + a + (b + c + rest);
    U16Placed([], srcPort, b + c + rest);
    assert a + b + c + rest == a + b + (c + rest);
    U16Placed(a, dstPort, c + rest);
    U16Placed(a + b, length, rest);
  }

  lemma UdpRecovered(f: UdpFrame, out: ParsedPacket)
    requires WellFormedUdp(f)
    ensures UdpDatagram(BuildUdp(f), out) ==
            out.(srcPort := f.srcPort, dstPort := f.dstPort, hasL4 := true, payload := f.payload)
  {
    hide PutU16BE, U16BE;
    var rest := f.checksum + f.payload + f.padding;
    var fields := PutU16BE(f.srcPort) + PutU16BE(f.dstPort) + PutU16BE(8 + |f.payload|);
    var udp := BuildUdp(f);
    assert udp == fields + rest;
    UdpFieldsRecovered(f.srcPort, f.dstPort, 8 + |f.payload|, rest);
    assert rest[2..2 + |f.payload|] == f.payload;
    assert udp[8..8 + |f.payload|] == rest[2..2 + |f.payload|];
  }

  /** Parsing a built TCP frame recovers its tuple, its sequence number and its payload. */
  lemma FrameRoundTrip(f: TcpFrame)
    requires WellFormed(f)
    ensures ParseFrame(Build(f)) == Some(Expected(f))
  {
    hide BuildLink, BuildTcp, TcpSegment, ParseFrame;
    LinkRecovered(f.ip, 6, BuildTcp(f) + f.payload);
    TcpRecovered(f, ExpectedIp(f.ip, 6));
  }

  /** Whatever the link layer adds behind a TCP segment is taken for payload. */
  lemma TrailerIsPayload(f: TcpFrame, trailer: bytes)
    requires WellFormed(f)
    ensures ParseFrame(Build(f) + trailer) == Some(Expected(f).(payload := f.payload + trailer))
    ensures ParseFrame(Build(f) + trailer) == Some(Expected(f)) <==> trailer == []
  {
    hide BuildTcp, BuildIp, ParseFrame, PutU16BE;
    var g := f.(payload := f.payload + trailer);
    assert BuildTcp(g) == BuildTcp(f) by { SameTcpHeader(f, g.payload); }
    assert Build(f) + trailer == Build(g);
    FrameRoundTrip(g);
    assert |g.payload| == |f.payload| + |trailer|;
    assert trailer == [] ==> g.payload == f.payload;
  }

  lemma SameTcpHeader(f: TcpFrame, payload: bytes)
    requires WellFormed(f)
    ensures WellFormed(f.(payload := payload)) && BuildTcp(f.(payload := payload)) == BuildTcp(f)
  {
  }

  /** Parsing a built UDP frame recovers its tuple and its payload, without what the link layer padded. */
  lemma UdpRoundTrip(f: UdpFrame)
    requires WellFormedUdp(f)
    ensures ParseFrame(BuildUdpFrame(f)) == Some(ExpectedUdp(f))
  {
    hide BuildLink, BuildUdp, UdpDatagram, ParseFrame;
    LinkRecovered(f.ip, 17, BuildUdp(f));
    UdpRecovered(f, ExpectedIp(f.ip, 17));
  }

  // ---- From the bytes of a frame ------------------------------------------------------------------

  /** The frame holds a whole IPv4 header: ethertype, version 4, five words or more, all of them captured. */
  ghost predicate IsIpv4(data: bytes) {
    && |data| >= 34 && data[12] == 8 && data[13] == 0
    && 0x45 <= data[14] <= 0x4F && |data| >= 14 + (data[14] - 0x40) * 4
  }

  /** What lies behind the IPv4 header. */
  ghost function Behind(data: bytes): bytes
    requires IsIpv4(data)
  {
    data[14 + (data[14] - 0x40) * 4..]
  }

  lemma EthertypeIff(data: bytes)
    requires |data| >= 14
    ensures U16BE(data, 12) == 0x0800 <==> data[12] == 8 && data[13] == 0
  {
  }

  /** A frame is rejected only for a short Ethernet header, or an IPv4 header that is short, cut off or not version 4. */
  lemma RejectedIff(data: bytes)
    ensures ParseFrame(data) == None <==> |data| < 14 || (data[12] == 8 && data[13] == 0 && !IsIpv4(data))
  {
    hide U16BE;
    if |data| >= 14 {
      EthertypeIff(data);
      if |data| >= 34 { assert data[14..][0] == data[14]; }
    }
  }

  /** A frame of any other ethertype is parsed, and nothing but the ethertype is taken from it. */
  lemma OtherEthertype(data: bytes)
    requires |data| >= 14 && !(data[12] == 8 && data[13] == 0)
    ensures ParseFrame(data).Some?
    ensures var p := ParseFrame(data).value;
            && p == ParsedPacket(p.ethertype, false, 0, UNKNOWN, 0, 0, false, 0, 0, 0, 0, [])
            && p.ethertype == BigEndian(data[12..14])
  {
    U16BEIsBigEndian(data, 12);
    EthertypeIff(data);
    hide U16BE;
  }

  /** The network header of an IPv4 frame, field by field. */
  lemma NetworkFields(data: bytes)
    requires IsIpv4(data)
    ensures ParseFrame(data).Some?
    ensures var p := ParseFrame(data).value;
            && p.ethertype == 0x0800 && p.hasIp && p.ipHeaderLen == (data[14] - 0x40) * 4
            && p.protocol == (if data[23] == 6 then TCP else if data[23] == 17 then UDP else UNKNOWN)
            && p.srcIp == BigEndian(data[26..30]) && p.dstIp == BigEndian(data[30..34])
  {
    HeaderRead(data);
    hide Ipv4Header, TcpSegment, UdpDatagram;
    TransportKeeps(Behind(data), Network(data));
  }

  /** The fields the parser has when it comes to the transport header. */
  ghost function Network(data: bytes): (p: ParsedPacket)
    requires IsIpv4(data)
  {
    BLANK.(ethertype := 0x0800, hasIp := true, ipHeaderLen := (data[14] - 0x40) * 4, protocol := ProtocolOf(data[23]),
           srcIp := U32BE(data, 26), dstIp := U32BE(data, 30))
  }

  lemma HeaderRead(data: bytes)
    requires IsIpv4(data)
    ensures ParseFrame(data) == Some(Transport(Behind(data), Network(data)))
    ensures Network(data).srcIp == BigEndian(data[26..30]) && Network(data).dstIp == BigEndian(data[30..34])
  {
    hide Transport, U16BE, U32BE;
    EthertypeIff(data);
    var ip := data[14..];
    assert ip[0] == data[14] && ip[9] == data[23];
    assert ip[0] / 16 == 4 && ip[0] % 16 == data[14] - 0x40;
    U32Within(data, 14, 12);
    U32Within(data, 14, 16);
    U32BEIsBigEndian(data, 26);
    U32BEIsBigEndian(data, 30);
    assert ip[(data[14] - 0x40) * 4..] == Behind(data);
  }

  lemma TransportKeeps(rest: bytes, out: ParsedPacket)
    ensures var p := Transport(rest, out);
            p.ethertype == out.ethertype && p.hasIp == out.hasIp && p.ipHeaderLen == out.ipHeaderLen &&
            p.protocol == out.protocol && p.srcIp == out.srcIp && p.dstIp == out.dstIp
  {
  }

  /** The two ports at the front of a transport header, or zeros when there is none. */
  ghost predicate PortsAre(p: ParsedPacket, read: bool, rest: bytes) {
    if read && |rest| >= 4 then p.srcPort == BigEndian(rest[0..2]) && p.dstPort == BigEndian(rest[2..4])
    else p.srcPort == p.dstPort == 0
  }

  /**
   * A TCP frame: the ports and the sequence number are those of a whole fixed header; the packet has a transport header
   * when its length field is at least five words and within the capture, and then everything behind it is payload.
   */
  lemma TcpFields(data: bytes)
    requires IsIpv4(data) && data[23] == 6
    ensures ParseFrame(data).Some?
    ensures var p, t := ParseFrame(data).value, Behind(data);
            && PortsAre(p, |t| >= 20, t)
            && p.tcpSeq == (if |t| >= 20 then BigEndian(t[4..8]) else 0)
            && (p.hasL4 <==> |t| >= 20 && t[12] >= 0x50 && |t| >= t[12] / 16 * 4)
            && p.tcpHeaderLen == (if p.hasL4 then t[12] / 16 * 4 else 0)
            && p.payload == (if p.hasL4 then t[t[12] / 16 * 4..] else [])
            && p.Tuple() == FiveTuple(p.srcIp, p.dstIp, p.srcPort, p.dstPort, TCP)
  {
    HeaderRead(data);
    hide IsIpv4, Behind, ParseFrame, U16BE, U32BE;
    var t := Behind(data);
    if |t| >= 20 {
      U16BEIsBigEndian(t, 0);
      U16BEIsBigEndian(t, 2);
      U32BEIsBigEndian(t, 4);
    }
  }

  /** A UDP frame: the payload ends where the length field says, or where the capture does. */
  lemma UdpFields(data: bytes)
    requires IsIpv4(data) && data[23] == 17
    ensures ParseFrame(data).Some?
    ensures var p, u := ParseFrame(data).value, Behind(data);
            && PortsAre(p, |u| >= 8, u)
            && p.tcpSeq == p.tcpHeaderLen == 0 && (p.hasL4 <==> |u| >= 8)
            && (if |u| < 8 then p.payload == []
                else var declared: nat := (u[4] as int) * 256 + u[5];
                     p.payload == if declared <= 8 then [] else if declared <= |u| then u[8..declared] else u[8..])
            && p.Tuple() == FiveTuple(p.srcIp, p.dstIp, p.srcPort, p.dstPort, UDP)
  {
    HeaderRead(data);
    hide IsIpv4, Behind, ParseFrame, U32BE;
    var u := Behind(data);
    if |u| >= 8 {
      U16BEIsBigEndian(u, 0);
      U16BEIsBigEndian(u, 2);
    }
  }

  /** A frame of any other protocol: no ports and no transport header, and everything behind the IPv4 header is payload. */
  lemma OtherProtocol(data: bytes)
    requires IsIpv4(data) && data[23] != 6 && data[23] != 17
    ensures ParseFrame(data).Some?
    ensures var p := ParseFrame(data).value;
            && !p.hasL4 && p.tcpSeq == p.tcpHeaderLen == 0 && p.payload == Behind(data)
            && p.Tuple() == FiveTuple(p.srcIp, p.dstIp, 0, 0, UNKNOWN)
  {
    HeaderRead(data);
    hide IsIpv4, Behind, ParseFrame, U32BE;
  }

  /**
   * A TCP header whose length field is too small, or runs past the capture, still gives the flow's ports; the packet
   * carries no transport header as far as rules and reassembly are concerned.
   */
  lemma PortsSurviveBadLength(srcPort: u16, dstPort: u16, tcpSeq: u32, tail: bytes, out: ParsedPacket)
    requires |tail| >= 12 && (tail[4] / 16 < 5 || 8 + |tail| < tail[4] / 16 * 4)
    ensures TcpSegment(PutU16BE(srcPort) + PutU16BE(dstPort) + PutU32BE(tcpSeq) + tail, out) ==
            out.(srcPort := srcPort, dstPort := dstPort, tcpSeq := tcpSeq)
  {
    hide PutU16BE, PutU32BE, U16BE, U32BE;
    TcpPortsRecovered(srcPort, dstPort, tcpSeq, tail);
    var tcp := PutU16BE(srcPort) + PutU16BE(dstPort) + PutU32BE(tcpSeq) + tail;
    assert tcp[12] == tail[4];
  }
}
