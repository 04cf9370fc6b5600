/** What one packet does to a flow and to the report: the specification of src/dpi_engine.cpp as functions. */
module FlowSpec {
  import opened Bytes
  import opened Wrappers
  import opened Types
  import opened TcpReassembler
  import opened BlockRules
  import Tls = TlsGrammar

  const MAX_REASSEMBLY_BYTES: nat := 65536

  datatype SniStatus = Pending | Found | NoSni | NotTls | Malformed | GaveUp

  /** The bytes gathered for the server name, and what came of them. */
  datatype SniTrack = SniTrack(buffer: bytes, status: SniStatus, sni: bytes)

  datatype BlockReason = IpRule | PortRule(protocol: L4Protocol, port: u16) | DomainRule(rule: bytes)

  datatype Entry = Entry(tuple: FiveTuple, sni: Option<bytes>, reason: BlockReason)

  datatype Flow = Flow(
    tuple: FiveTuple, reasm: Reasm, track: SniTrack, blocked: bool, reason: Option<BlockReason>,
    packetCount: nat, byteCount: nat)

  datatype Report = Report(
    totalPackets: nat, totalFlows: nat, blockedFlows: nat, blockedPackets: nat,
    entries: seq<Entry>, snis: seq<bytes>)

  datatype Engine = Engine(flows: map<FiveTuple, Flow>, report: Report)

  /** A captured packet: its size and its parsed fields. */
  datatype Item = Item(size: nat, parsed: ParsedPacket) {
    function Tuple(): FiveTuple { parsed.Tuple() }
  }

  /** What a packet adds to the report besides being counted. */
  datatype Effect = Effect(blockedPacket: bool, entries: seq<Entry>, snis: seq<bytes>)

  const NO_TRACK: SniTrack := SniTrack([], Pending, [])
  const NO_REPORT: Report := Report(0, 0, 0, 0, [], [])
  const NO_ENGINE: Engine := Engine(map[], NO_REPORT)

  function Fresh(t: FiveTuple): Flow {
    Flow(t, EMPTY, NO_TRACK, false, None, 0, 0)
  }

  /** One attempt at the name after a chunk of stream has been appended. */
  function Attempt(k: SniTrack, chunk: bytes): SniTrack {
    var buffer := k.buffer + chunk;
    if buffer == [] then k else
    match Tls.ParseRecord(buffer)
    case Incomplete =>
      if |buffer| > MAX_REASSEMBLY_BYTES then k.(status := GaveUp, buffer := []) else k.(buffer := buffer)
    case Found(sni) => SniTrack([], Found, sni)
    case NoSni => k.(status := NoSni, buffer := [])
    case NotTls => k.(status := NotTls, buffer := [])
    case Malformed => k.(status := Malformed, buffer := [])
  }

  function TryResolve(f: Flow): Flow {
    var (reasm, chunk) := Pull(f.reasm);
    f.(reasm := reasm, track := Attempt(f.track, chunk))
  }

  predicate TupleIpBlocked(rules: Rules, t: FiveTuple) {
    IpBlocked(rules, t.dstIp) || IpBlocked(rules, t.srcIp)
  }

  predicate TuplePortBlocked(rules: Rules, t: FiveTuple) {
    PortBlocked(rules, t.protocol, t.dstPort) || PortBlocked(rules, t.protocol, t.srcPort)
  }

  function MatchedPort(rules: Rules, t: FiveTuple): u16 {
    if PortBlocked(rules, t.protocol, t.dstPort) then t.dstPort else t.srcPort
  }

  function Block(f: Flow, sni: Option<bytes>, reason: BlockReason): (Flow, Effect) {
    (f.(blocked := true, reason := Some(reason)), Effect(true, [Entry(f.tuple, sni, reason)], []))
  }

  /** Reassembly and name extraction, only for TCP and only while the name is not settled. */
  function Gather(f: Flow, p: ParsedPacket): Flow {
    if p.protocol == TCP && p.hasL4 && f.track.status == Pending
    then TryResolve(f.(reasm := Add(f.reasm, p.tcpSeq, p.payload)))
    else f
  }

  function FlowStep(rules: Rules, flow: Flow, item: Item): (Flow, Effect) {
    var p := item.parsed;
    var f := flow.(packetCount := flow.packetCount + 1, byteCount := flow.byteCount + item.size);
    if f.blocked then (f, Effect(true, [], []))
    else if TupleIpBlocked(rules, p.Tuple()) then Block(f, None, IpRule)
    else if p.hasL4 && TuplePortBlocked(rules, p.Tuple()) then
      Block(f, None, PortRule(p.protocol, MatchedPort(rules, p.Tuple())))
    else
      var g := Gather(f, p);
      if g.track.status == Found then
        var rule := FirstMatch(g.track.sni, rules.domains);
        if rule != [] then Block(g, Some(g.track.sni), DomainRule(rule)) else (g, Effect(false, [], [g.track.sni]))
      else (g, Effect(false, [], []))
  }

  function Apply(r: Report, e: Effect): Report {
    r.(blockedFlows := r.blockedFlows + |e.entries|,
       blockedPackets := if e.blockedPacket then r.blockedPackets + 1 else r.blockedPackets,
       entries := r.entries + e.entries,
       snis := r.snis + e.snis)
  }

  function Count(r: Report, isNew: bool): Report {
    r.(totalPackets := r.totalPackets + 1, totalFlows := if isNew then r.totalFlows + 1 else r.totalFlows)
  }

  function FlowOf(e: Engine, t: FiveTuple): Flow {
    if t in e.flows then e.flows[t] else Fresh(t)
  }

  function EngineStep(rules: Rules, e: Engine, item: Item): Engine {
    if !item.parsed.hasIp then e else
    var t := item.Tuple();
    var (flow, effect) := FlowStep(rules, FlowOf(e, t), item);
    Engine(e.flows[t := flow], Apply(Count(e.report, t !in e.flows), effect))
  }

  /** The sequential engine, from state e, on a list of packets. */
  function EngineFrom(rules: Rules, e: Engine, items: seq<Item>): Engine {
    if items == [] then e
    else EngineStep(rules, EngineFrom(rules, e, items[..|items| - 1]), items[|items| - 1])
  }

  function EngineRun(rules: Rules, items: seq<Item>): Engine {
    EngineFrom(rules, NO_ENGINE, items)
  }

  /** One flow on a list of its packets. */
  function FlowRun(rules: Rules, t: FiveTuple, items: seq<Item>): Flow {
    if items == [] then Fresh(t)
    else FlowStep(rules, FlowRun(rules, t, items[..|items| - 1]), items[|items| - 1]).0
  }
}
