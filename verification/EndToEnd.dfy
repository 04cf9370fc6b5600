/** From the bytes of a capture file to the verdict on a flow, in the sequential and in the sharded engine. */
module EndToEnd {
  import opened Bytes
  import opened Wrappers
  import opened Types
  import opened BlockRules
  import opened FlowSpec
  import opened EngineProperties
  import opened FlowProperties
  import opened PcapReader
  import PacketParser
  import opened Capture
  import opened ConcurrentEngine
  import opened StreamDelivery
  import opened StreamVerdict
  import opened HelloVerdict

  /** A captured frame: built by one of the encoders, or anything else. */
  datatype Frame = Tcp(tcp: PacketParser.TcpFrame) | Udp(udp: PacketParser.UdpFrame) | Any(data: bytes) {
    predicate Valid() {
      match this
      case Tcp(f) => PacketParser.WellFormed(f)
      case Udp(f) => PacketParser.WellFormedUdp(f)
      case Any(_) => true
    }

    function Bytes(): bytes
      requires Valid()
    {
      match this
      case Tcp(f) => PacketParser.Build(f)
      case Udp(f) => PacketParser.BuildUdpFrame(f)
      case Any(data) => data
    }

    /** What it means to the engine: the fields it was built from, or whatever the parser makes of it. */
    function Packet(): Option<ParsedPacket>
    {
      match this
      case Tcp(f) => Some(PacketParser.Expected(f))
      case Udp(f) => Some(PacketParser.ExpectedUdp(f))
      case Any(data) => PacketParser.ParseFrame(data)
    }
  }

  ghost predicate AllValid(frames: seq<Frame>) {
    forall f :: f in frames ==> f.Valid()
  }

  /** The packets the engine gets from a list of frames. */
  ghost function FrameItems(frames: seq<Frame>): seq<Item>
    requires AllValid(frames)
  {
    if frames == [] then [] else
    var last := frames[|frames| - 1];
    FrameItems(frames[..|frames| - 1]) +
    if last.Packet().Some? then [Item(|last.Bytes()|, last.Packet().value)] else []
  }

  ghost predicate Captured(packets: seq<RawPacket>, frames: seq<Frame>) {
    && |packets| == |frames| && AllValid(frames)
    && (forall i :: 0 <= i < |packets| ==> packets[i].data == frames[i].Bytes())
  }

  lemma FrameIsParsed(f: Frame)
    requires f.Valid()
    ensures PacketParser.ParseFrame(f.Bytes()) == f.Packet()
  {
    hide PacketParser.Build, PacketParser.BuildUdpFrame, PacketParser.ParseFrame;
    hide PacketParser.Expected, PacketParser.ExpectedUdp;
    match f
    case Tcp(tcp) => PacketParser.FrameRoundTrip(tcp);
    case Udp(udp) => PacketParser.UdpRoundTrip(udp);
    case Any(_) =>
  }

  lemma {:induction false} CapturedItems(packets: seq<RawPacket>, frames: seq<Frame>)
    requires Captured(packets, frames)
    ensures Items(packets) == FrameItems(frames)
  {
    hide PacketParser.ParseFrame, Frame.Bytes, Frame.Packet, Frame.Valid;
    if packets != [] {
      CapturedItems(packets[..|packets| - 1], frames[..|frames| - 1]);
      FrameIsParsed(frames[|frames| - 1]);
    }
  }

  // ---- Which frames count ----------------------------------------------------------------------------

  lemma IpIff(data: bytes)
    ensures PacketParser.IsIpv4(data) ==>
              PacketParser.ParseFrame(data).Some? && PacketParser.ParseFrame(data).value.hasIp
    ensures !PacketParser.IsIpv4(data) && PacketParser.ParseFrame(data).Some? ==>
              !PacketParser.ParseFrame(data).value.hasIp
  {
    hide PacketParser.ParseFrame;
    PacketParser.RejectedIff(data);
    if PacketParser.IsIpv4(data) {
      PacketParser.NetworkFields(data);
    } else if |data| >= 14 && !(data[12] == 8 && data[13] == 0) {
      PacketParser.OtherEthertype(data);
    }
  }

  /**
   * A captured frame is one packet of the flow its headers name exactly when it holds a whole IPv4 header; any other, ARP
   * for one, changes nothing.
   */
  lemma FrameCounts(rules: Rules, e: Engine, raw: RawPacket)
    ensures var after := EngineFrom(rules, e, ItemOf(raw));
            if PacketParser.IsIpv4(raw.data)
            then PacketParser.ParseFrame(raw.data).Some? &&
                 after.report.totalPackets == e.report.totalPackets + 1 &&
                 after.flows.Keys == e.flows.Keys + {PacketParser.ParseFrame(raw.data).value.Tuple()}
            else after == e
  {
    hide PacketParser.ParseFrame, PacketParser.IsIpv4, FlowStep, EngineFrom, FlowOf;
    IpIff(raw.data);
    FromNothing(rules, e);
    if PacketParser.ParseFrame(raw.data).Some? {
      FromOne(rules, e, Item(|raw.data|, PacketParser.ParseFrame(raw.data).value));
    }
  }

  lemma FromNothing(rules: Rules, e: Engine)
    ensures EngineFrom(rules, e, []) == e
  {
  }

  lemma FromOne(rules: Rules, e: Engine, item: Item)
    ensures EngineFrom(rules, e, [item]) == EngineStep(rules, e, item)
  {
    hide EngineStep;
    assert [item][..0] == [];
  }

  ghost function Ipv4Frames(packets: seq<RawPacket>): nat {
    if packets == [] then 0
    else Ipv4Frames(packets[..|packets| - 1]) + if PacketParser.IsIpv4(packets[|packets| - 1].data) then 1 else 0
  }

  lemma FromMore(rules: Rules, before: seq<Item>, more: seq<Item>)
    requires |more| <= 1
    ensures EngineRun(rules, before + more) == EngineFrom(rules, EngineRun(rules, before), more)
  {
    hide EngineStep;
    if more == [] {
      assert before + more == before;
    } else {
      assert (before + more)[..|before|] == before && more[..0] == [];
    }
  }

  /** The packet count of a run over captured frames is the number of those that hold a whole IPv4 header. */
  lemma {:induction false} FramesCounted(rules: Rules, packets: seq<RawPacket>)
    ensures EngineRun(rules, Items(packets)).report.totalPackets == Ipv4Frames(packets)
  {
    if packets != [] {
      hide EngineRun, EngineFrom, ItemOf, PacketParser.IsIpv4;
      var before, last := packets[..|packets| - 1], packets[|packets| - 1];
      FramesCounted(rules, before);
      AtMostOne(last);
      FromMore(rules, Items(before), ItemOf(last));
      FrameCounts(rules, EngineRun(rules, Items(before)), last);
    }
  }

  lemma AtMostOne(raw: RawPacket)
    ensures |ItemOf(raw)| <= 1
  {
  }

  // ---- From a file to a verdict ----------------------------------------------------------------------

  /** The packets of tuple t among those of a list of frames. */
  ghost function Mine(frames: seq<Frame>, t: FiveTuple): seq<Item>
    requires AllValid(frames)
  {
    Only(FrameItems(frames), Self, t)
  }

  /** The first n packets of the tuple that bring data are the segments of the delivery. */
  ghost predicate Delivers(frames: seq<Frame>, t: FiveTuple, n: nat, d: Delivery)
    requires AllValid(frames) && d.WellFormed()
  {
    n <= |Mine(frames, t)| && Carried(d.Sent(), t, Busy(Mine(frames, t)[..n]))
  }

  lemma FramesToVerdict(rules: Rules, frames: seq<Frame>, d: Delivery, t: FiveTuple, n: nat)
    requires AllValid(frames) && d.Proper() && OnlyDomainsMatter(rules, t) && Delivers(frames, t, n, d)
    ensures Outcome(rules, d, FlowOf(EngineRun(rules, FrameItems(frames)), t), n == |Mine(frames, t)|)
  {
    hide EngineRun, Only, FlowOf, Scheduled, Carried, Outcome, FrameItems, Busy, OnlyDomainsMatter;
    HelloInTraffic(rules, d, t, FrameItems(frames), n);
  }

  /** The reader delivers from a whole file the packets that were written to it. */
  lemma FileOfPackets(format: Format, unread: bytes, network: u32, packets: seq<RawPacket>)
    requires |unread| == 12 && forall p :: p in packets ==> Writable(p, format)
    ensures FileRecords(Some(Image(format, unread, network, packets))) == Some(packets)
  {
    hide Image, Records, FormatOf, WholeRecords, Writable;
    var image := Image(format, unread, network, packets);
    ImageSize(format, unread, network, packets);
    assert image[..|image|] == image;
    ImageRoundTrip(format, unread, network, packets, |image|);
  }

  lemma ImageSize(format: Format, unread: bytes, network: u32, packets: seq<RawPacket>)
    requires |unread| == 12
    ensures |Image(format, unread, network, packets)| >= 24
  {
    hide PutField, PutRecords;
  }

  /**
   * From a capture file, in either byte order, with any mixture of frames and header options: if the data packets of one
   * tuple, up to some point, are segments of a ClientHello, the engine run on that file decides that tuple by its host
   * name when the delivery is usable, and never decides it once the delivery is hopeless.
   */
  lemma CaptureToVerdict(
      rules: Rules, format: Format, unread: bytes, network: u32, packets: seq<RawPacket>, frames: seq<Frame>,
      d: Delivery, t: FiveTuple, n: nat)
    requires |unread| == 12 && (forall p :: p in packets ==> Writable(p, format)) && Captured(packets, frames)
    requires d.Proper() && OnlyDomainsMatter(rules, t) && Delivers(frames, t, n, d)
    ensures FileItems(Some(Image(format, unread, network, packets))) == Some(FrameItems(frames))
    ensures Outcome(rules, d, FlowOf(EngineRun(rules, FrameItems(frames)), t), n == |Mine(frames, t)|)
  {
    hide EngineRun, FlowOf, Scheduled, OnlyDomainsMatter, Outcome, Delivers, Mine;
    hide Image, FileRecords, Writable, FrameItems;
    FileOfPackets(format, unread, network, packets);
    CapturedItems(packets, frames);
    FramesToVerdict(rules, frames, d, t, n);
  }

  /** The sharded engine, run on that file, comes to the same on whatever worker the tuple's packets land. */
  lemma ShardedVerdict(
      cfg: Config, actions: seq<Action>, s: System, format: Format, unread: bytes, network: u32,
      packets: seq<RawPacket>, frames: seq<Frame>, d: Delivery, t: FiveTuple, n: nat)
    requires |unread| == 12 && (forall p :: p in packets ==> Writable(p, format)) && Captured(packets, frames)
    requires FileRecords(Some(Image(format, unread, network, packets))) == Some(cfg.packets)
    requires IsRun(cfg, Start(cfg), actions, s) && s.reader.Finished?
    requires d.Proper() && OnlyDomainsMatter(cfg.rules, t) && Delivers(frames, t, n, d)
    ensures s.workers != []
    ensures Outcome(cfg.rules, d, FlowOf(s.workers[cfg.hash(t) % |s.workers|].engine, t), n == |Mine(frames, t)|)
  {
    hide EngineRun, FlowOf, Scheduled, OnlyDomainsMatter, Outcome, Delivers, Mine;
    hide Image, FileRecords, Writable, FrameItems, IsRun, Start, Items;
    FileOfPackets(format, unread, network, packets);
    ConcurrentEqualsSequential(cfg, actions, s);
    CapturedItems(packets, frames);
    FramesToVerdict(cfg.rules, frames, d, t, n);
  }

  /**
   * A bare acknowledgement padded to the minimum Ethernet frame: the padding is taken for the start of the stream, and the
   * flow is not TLS for good, whatever it sends later.
   */
  lemma PaddedAckEndsInspection(rules: Rules, f: PacketParser.TcpFrame, size: nat, later: seq<Item>)
    requires PacketParser.WellFormed(f) && f.payload == []
    ensures var parsed := PacketParser.ParseFrame(PacketParser.Build(f) + [0, 0, 0, 0, 0, 0]);
            && parsed.Some?
            && var ack := Item(size, parsed.value);
               OnlyDomainsMatter(rules, ack.Tuple()) && AllOf(ack.Tuple(), later) ==>
                 var g := FlowRun(rules, ack.Tuple(), [ack] + later);
                 g.track == SniTrack([], NotTls, []) && !g.blocked
  {
    hide PacketParser.ParseFrame, PacketParser.Build, FlowRun, OnlyDomainsMatter;
    var padding: bytes := [0, 0, 0, 0, 0, 0];
    PacketParser.TrailerIsPayload(f, padding);
    assert f.payload + padding == padding;
    var ack := Item(size, PacketParser.ParseFrame(PacketParser.Build(f) + padding).value);
    if OnlyDomainsMatter(rules, ack.Tuple()) && AllOf(ack.Tuple(), later) {
      assert AllOf(ack.Tuple(), [ack] + later);
      FirstPacketNotTls(rules, ack.Tuple(), [ack] + later);
    }
  }
}
