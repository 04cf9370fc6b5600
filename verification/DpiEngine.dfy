/** The engine of src/dpi_engine.cpp: flows and report updated in place. */
module DpiEngine {
  import opened Bytes
  import opened Wrappers
  import opened Types
  import opened TcpReassembler
  import opened BlockRules
  import opened FlowSpec
  import TlsParser
  import Capture
  import PacketParser
  import PcapReader

  class FlowState {
    const tuple: FiveTuple
    const reassembler: TcpStreamReassembler
    var sniBuffer: bytes
    var sniStatus: SniStatus
    var sni: bytes
    var blocked: bool
    var blockReason: Option<BlockReason>
    var packetCount: nat
    var byteCount: nat

    ghost function View(): Flow
      reads this, reassembler
    {
      Flow(tuple, reassembler.View(), SniTrack(sniBuffer, sniStatus, sni), blocked, blockReason, packetCount, byteCount)
    }

    constructor (t: FiveTuple)
      ensures tuple == t && View() == Fresh(t) && fresh(reassembler)
    {
      tuple := t;
      reassembler := new TcpStreamReassembler();
      sniBuffer, sniStatus, sni := [], Pending, [];
      blocked, blockReason := false, None;
      packetCount, byteCount := 0, 0;
    }
  }

  lemma FoldNone(rules: Rules, e: Engine)
    ensures EngineFrom(rules, e, []) == e && EngineFrom(rules, e, Capture.Items([])) == e
  {
  }

  lemma FoldOne(rules: Rules, e: Engine, item: Item)
    ensures EngineFrom(rules, e, [item]) == EngineStep(rules, e, item)
  {
    hide EngineStep;
    assert [item][..0] == [];
  }

  /** Running on one more packet. */
  lemma FoldPacket(rules: Rules, e: Engine, done: seq<PcapReader.RawPacket>, raw: PcapReader.RawPacket)
    ensures EngineFrom(rules, e, Capture.Items(done + [raw])) ==
            EngineFrom(rules, EngineFrom(rules, e, Capture.Items(done)), Capture.ItemOf(raw))
  {
    hide EngineStep, Capture.Items;
    Capture.ItemsLast(done, raw);
    var before, more := Capture.Items(done), Capture.ItemOf(raw);
    if more == [] {
      assert before + more == before;
    } else {
      assert (before + more)[..|before|] == before && more[..0] == [];
    }
  }

  class DpiEngine {
    const rules: Rules
    var flows: map<FiveTuple, FlowState>
    var report: Report
    ghost var Repr: set<object>

    /** Every flow sits under its own tuple and owns its reassembler. */
    ghost predicate Valid()
      reads this, Repr
    {
      && this in Repr
      && (forall t :: t in flows ==> flows[t] in Repr && flows[t].reassembler in Repr && flows[t].tuple == t)
      && (forall t, u :: t in flows && u in flows && t != u ==> flows[t].reassembler != flows[u].reassembler)
    }

    ghost function View(): Engine
      requires Valid()
      reads this, Repr
    {
      Engine(map t | t in flows :: flows[t].View(), report)
    }

    constructor (rules: Rules)
      ensures this.rules == rules && Valid() && View() == NO_ENGINE && fresh(Repr)
    {
      this.rules := rules;
      flows := map[];
      report := NO_REPORT;
      Repr := {this};
    }

    /** Runs the engine on a whole file; the contents are None when the file cannot be read. */
    method ProcessFile(contents: Option<bytes>) returns (ok: bool)
      requires Valid()
      modifies Repr
      ensures Valid() && fresh(Repr - old(Repr))
      ensures ok == (contents.Some? && PcapReader.HasMagic(contents.value)) == Capture.FileItems(contents).Some?
      ensures View() == if ok then EngineFrom(rules, old(View()), Capture.FileItems(contents).value) else old(View())
    {
      hide EngineStep, Valid, View, EngineFrom, PcapReader.Records, PcapReader.FormatOf, PcapReader.PcapReader.Remaining;
      if contents.Some? { PcapReader.FormatIff(contents.value); }
      var reader := new PcapReader.PcapReader();
      ok := reader.Open(contents);
      if ok {
        ProcessRecords(reader);
      }
    }

    /** The loop of processFile: read until no packet comes, and process each. */
    method ProcessRecords(reader: PcapReader.PcapReader)
      requires Valid() && reader !in Repr
      modifies Repr, reader
      ensures Valid() && fresh(Repr - old(Repr))
      ensures View() == EngineFrom(rules, old(View()), Capture.Items(old(reader.Remaining())))
    {
      hide EngineStep, Valid, View, EngineFrom, Capture.ItemOf, Capture.Items, PcapReader.PcapReader.Remaining;
      ghost var start, all, done := View(), reader.Remaining(), [];
      FoldNone(rules, start);
      var raw := reader.ReadNextPacket();
      while raw.Some?
        invariant Valid() && fresh(Repr - old(Repr)) && reader !in Repr
        invariant View() == EngineFrom(rules, start, Capture.Items(done))
        invariant all == done + if raw.Some? then [raw.value] + reader.Remaining() else []
        invariant raw.Some? ==> reader.pos <= |reader.file|
        decreases raw.Some?, |reader.file| - reader.pos
      {
        ProcessPacket(raw.value);
        FoldPacket(rules, start, done, raw.value);
        done := done + [raw.value];
        raw := reader.ReadNextPacket();
      }
      assert done == all;
    }

    method ProcessPacket(raw: PcapReader.RawPacket)
      requires Valid()
      modifies Repr
      ensures Valid() && fresh(Repr - old(Repr))
      ensures View() == EngineFrom(rules, old(View()), Capture.ItemOf(raw))
    {
      hide EngineStep, EngineFrom, Valid;
      FoldNone(rules, View());
      var parsed := PacketParser.Parse(raw.data);
      if parsed == None {
        return;
      }
      FoldOne(rules, View(), Item(|raw.data|, parsed.value));
      ProcessParsedPacket(Item(|raw.data|, parsed.value));
    }

    method ProcessParsedPacket(item: Item)
      requires Valid()
      modifies Repr
      ensures Valid() && fresh(Repr - old(Repr))
      ensures View() == EngineStep(rules, old(View()), item)
    {
      var parsed := item.parsed;
      if !parsed.hasIp {
        return;
      }
      hide FlowStep, Apply;
      var tuple := parsed.Tuple();
      var flow := Lookup(tuple);
      Inspect(flow, item);
      OthersKeep(tuple, flow);
    }

    /** Entering and changing one flow leaves the view of the others alone. */
    twostate lemma OthersKeep(tuple: FiveTuple, new flow: FlowState)
      requires old(Valid()) && Valid() && flows == old(flows)[tuple := flow]
      requires forall t :: t in old(flows) && t != tuple ==>
                 unchanged(old(flows)[t]) && unchanged(old(flows)[t].reassembler)
      ensures View().flows == old(View()).flows[tuple := flow.View()]
    {
      hide FlowState.View;
      forall t | t in flows && t != tuple
        ensures flows[t].View() == old(flows[t].View())
      {
        OneKeeps(flows[t]);
      }
    }

    twostate lemma OneKeeps(flow: FlowState)
      requires unchanged(flow) && unchanged(flow.reassembler)
      ensures flow.View() == old(flow.View())
    {
    }

    /** The flow of a tuple, entered into the table and counted when it is new; the packet is counted first. */
    method Lookup(tuple: FiveTuple) returns (flow: FlowState)
      requires Valid()
      modifies `flows, `report, `Repr
      ensures Valid() && fresh(Repr - old(Repr)) && old(Repr) <= Repr
      ensures flows == old(flows)[tuple := flow] && flow.View() == FlowOf(old(View()), tuple)
      ensures if tuple in old(flows) then flow == old(flows)[tuple] else fresh(flow) && fresh(flow.reassembler)
      ensures report == Count(old(report), tuple !in old(flows))
    {
      report := report.(totalPackets := report.totalPackets + 1);
      if tuple in flows {
        flow := flows[tuple];
      } else {
        flow := new FlowState(tuple);
        flows := flows[tuple := flow];
        report := report.(totalFlows := report.totalFlows + 1);
        Repr := Repr + {flow, flow.reassembler};
      }
    }

    /** Everything after the flow has been looked up. */
    method Inspect(flow: FlowState, item: Item)
      modifies flow, flow.reassembler, `report
      ensures flow.View() == FlowStep(rules, old(flow.View()), item).0
      ensures report == Apply(old(report), FlowStep(rules, old(flow.View()), item).1)
    {
      hide IpBlocked, PortBlocked, FirstMatch, Add, Pull, Attempt;
      var p := item.parsed;
      flow.packetCount := flow.packetCount + 1;
      flow.byteCount := flow.byteCount + item.size;

      if flow.blocked {
        report := report.(blockedPackets := report.blockedPackets + 1);
        return;
      }

      if IpBlocked(rules, p.dstIp) || IpBlocked(rules, p.srcIp) {
        Condemn(flow, None, IpRule);
        return;
      }

      if p.hasL4 && (PortBlocked(rules, p.protocol, p.dstPort) || PortBlocked(rules, p.protocol, p.srcPort)) {
        var port := if PortBlocked(rules, p.protocol, p.dstPort) then p.dstPort else p.srcPort;
        Condemn(flow, None, PortRule(p.protocol, port));
        return;
      }

      if p.protocol == TCP && p.hasL4 && flow.sniStatus == Pending {
        flow.reassembler.AddSegment(p.tcpSeq, p.payload);
        TryResolveSni(flow);
      }

      if flow.sniStatus == Found {
        var rule := FirstMatch(flow.sni, rules.domains);
        if rule != [] {
          Condemn(flow, Some(flow.sni), DomainRule(rule));
        } else {
          report := report.(snis := report.snis + [flow.sni]);
        }
      }
    }

    /** The four updates every blocking branch makes. */
    method Condemn(flow: FlowState, sni: Option<bytes>, reason: BlockReason)
      modifies flow`blocked, flow`blockReason, `report
      ensures (flow.View(), Effect(true, [Entry(flow.tuple, sni, reason)], [])) == Block(old(flow.View()), sni, reason)
      ensures report == old(report).(blockedFlows := old(report).blockedFlows + 1,
                                     blockedPackets := old(report).blockedPackets + 1,
                                     entries := old(report).entries + [Entry(flow.tuple, sni, reason)])
    {
      flow.blocked := true;
      flow.blockReason := Some(reason);
      report := report.(blockedFlows := report.blockedFlows + 1,
                        blockedPackets := report.blockedPackets + 1,
                        entries := report.entries + [Entry(flow.tuple, sni, reason)]);
    }

    method TryResolveSni(flow: FlowState)
      modifies flow, flow.reassembler
      ensures flow.View() == TryResolve(old(flow.View()))
    {
      var chunk := flow.reassembler.PullContiguous();
      if |chunk| > 0 {
        flow.sniBuffer := flow.sniBuffer + chunk;
      }
      assert flow.sniBuffer == old(flow.sniBuffer) + chunk;
      if |flow.sniBuffer| == 0 {
        return;
      }
      var status := TlsParser.TryExtractSni(flow.sniBuffer);
      match status {
        case Incomplete =>
          if |flow.sniBuffer| > MAX_REASSEMBLY_BYTES {
            flow.sniStatus := GaveUp;
            flow.sniBuffer := [];
          }
          return;
        case Found(sni) =>
          flow.sni := sni;
          flow.sniStatus := Found;
        case NoSni =>
          flow.sniStatus := NoSni;
        case NotTls =>
          flow.sniStatus := NotTls;
        case Malformed =>
          flow.sniStatus := Malformed;
      }
      flow.sniBuffer := [];
    }
  }
}
