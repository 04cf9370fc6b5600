/**
 * A ClientHello sent in segments: the flow settles on exactly the host name that was encoded and is blocked exactly when a
 * domain rule matches it, if and only if the segments arrive in an order that the reassembler and the buffer can take.
 */
module HelloVerdict {
  import opened Bytes
  import opened Wrappers
  import opened Types
  import opened TcpReassembler
  import opened ReassemblyStalls
  import Runs = ReassemblyRuns
  import opened BlockRules
  import opened FlowSpec
  import opened FlowProperties
  import opened EngineProperties
  import opened StreamDelivery
  import opened StreamVerdict
  import Tls = TlsGrammar
  import opened TlsEncoding

  // ---- A ClientHello sent in segments --------------------------------------------------------------

  /** A record, whatever follows it on the stream, its initial sequence number, and its segments as they arrive. */
  datatype Delivery = Delivery(isn: u32, recordVersion: bytes, hello: ClientHello, more: bytes, chunks: seq<Chunk>) {
    ghost predicate WellFormed() {
      |recordVersion| == 2 && TlsEncoding.Fits(hello)
    }

    ghost function Record(): bytes
      requires WellFormed()
    {
      EncodeRecord(recordVersion, hello)
    }

    /** The stream as it is sent; the segment that starts the record arrives first. */
    ghost function Sent(): Sending
      requires WellFormed()
    {
      Sending(isn, Record() + more, 0, chunks)
    }

    /** Any order behind the first segment, any overlaps and retransmissions, none cut shorter while it is waiting. */
    ghost predicate Proper() {
      WellFormed() && Scheduled(Sent())
    }
  }

  /** Every byte of the record has arrived. */
  ghost predicate Complete(d: Delivery)
    requires d.WellFormed()
  {
    AllArrived(d.chunks, 0, |d.Record()|)
  }

  /** No segment past the wrap arrived before all of the record that lies before the wrap. */
  ghost predicate Orderly(d: Delivery)
    requires d.WellFormed()
  {
    NothingEarly(d.Sent(), |d.Record()|)
  }

  /** Whenever more than the buffer holds had arrived from the start without a gap, so had the whole record. */
  ghost predicate Fitting(d: Delivery)
    requires d.WellFormed()
  {
    Roomy(d.Sent(), |d.Record()|, 65536)
  }

  /** All of the record has arrived, in an order that the reassembler and the buffer can take. */
  ghost predicate Usable(d: Delivery)
    requires d.WellFormed()
  {
    Complete(d) && Orderly(d) && Fitting(d)
  }

  /** Nothing that arrives later can help. */
  ghost predicate Hopeless(d: Delivery)
    requires d.WellFormed()
  {
    !Orderly(d) || !Fitting(d)
  }

  /** What the message should settle the flow's name as. */
  ghost function Verdict(hello: ClientHello): SniTrack {
    match ServerNameOf(hello)
    case Found(host) => SniTrack([], Found, host)
    case _ => SniTrack([], NoSni, [])
  }

  lemma {:induction false} NamedOrNot(exts: seq<Extension>)
    ensures FirstServerName(exts).Found? || FirstServerName(exts).NoSni?
  {
    if exts != [] {
      if exts[0].ServerName? { HostOrNot(exts[0].names); } else { NamedOrNot(exts[1..]); }
    }
  }

  lemma {:induction false} HostOrNot(names: seq<Name>)
    ensures FirstHostName(names).Found? || FirstHostName(names).NoSni?
  {
    if names != [] { HostOrNot(names[1..]); }
  }

  lemma VerdictIsName(hello: ClientHello)
    ensures Verdict(hello).status == Found || Verdict(hello).status == NoSni
  {
  }

  /** One parse of the first n bytes of the stream. */
  lemma ParseOfPrefix(d: Delivery, n: nat)
    requires d.WellFormed() && n <= |d.Sent().stream|
    ensures OneShot(d.Sent().stream[..n]) ==
            if n < |d.Record()| then SniTrack(d.Sent().stream[..n], Pending, []) else Verdict(d.hello)
    ensures Overflows(d.Sent().stream[..n]) <==> 65536 < n < |d.Record()|
  {
    hide Tls.ParseRecord, EncodeRecord;
    var data := d.Sent().stream[..n];
    if n < |d.Record()| {
      assert data == d.Record()[..n];
      ProperPrefixIsIncomplete(d.recordVersion, d.hello, n);
    } else {
      assert data == d.Record() + data[|d.Record()|..];
      RecordRoundTrip(d.recordVersion, d.hello, data[|d.Record()|..]);
      if d.hello.extensions.Some? { NamedOrNot(d.hello.extensions.value); }
    }
  }

  lemma RunOutput(s: Sending)
    requires Scheduled(s) && s.start == 0
    ensures RunOf(s).Some? && RunOf(s).value.cursor <= |s.stream|
    ensures RunOf(s).value.cursor == |RunOf(s).value.out| && RunOf(s).value.out == s.stream[..RunOf(s).value.cursor]
  {
    hide Runs.Exec, Scheduled, Runs.At, LastFits, Runs.Step;
    RunBegins(s);
  }

  lemma OverrunInRecord(d: Delivery, s: Sending)
    requires d.WellFormed() && Scheduled(s) && s.start == 0 && s.stream == d.Sent().stream
    ensures Overran(s) <==> Overflowed(s, |d.Record()|, 65536)
    decreases |s.chunks|
  {
    hide Runs.Exec, Scheduled, Overflows, EncodeRecord;
    if s.chunks != [] {
      BeforeIsScheduled(s);
      OverrunInRecord(d, s.Before());
      RunOutput(s);
      ParseOfPrefix(d, RunOf(s).value.cursor);
    }
  }

  lemma RecordIsNotEmpty(d: Delivery)
    requires d.WellFormed()
    ensures |d.Record()| > 0
  {
    assert d.Record()[0] == 0x16;
  }

  // ---- The verdict ---------------------------------------------------------------------------------

  /** The host name was named, and a domain rule matches it. */
  ghost predicate Forbidden(rules: Rules, hello: ClientHello) {
    ServerNameOf(hello).Found? && DomainBlocked(rules, ServerNameOf(hello).sni)
  }

  /** Settled on exactly the first host name of the message, and blocked exactly when a domain rule matches it. */
  ghost predicate Decided(rules: Rules, hello: ClientHello, f: Flow) {
    f.track == Verdict(hello) && (f.blocked <==> Forbidden(rules, hello))
  }

  /** Still waiting, or given up, and in either case not blocked. */
  ghost predicate Undecided(f: Flow) {
    (f.track.status == Pending || f.track.status == GaveUp) && !f.blocked
  }

  lemma VerdictDecides(rules: Rules, hello: ClientHello, f: Flow)
    requires f.track == Verdict(hello) && (f.blocked <==> DomainRuleHit(rules, f))
    ensures Decided(rules, hello, f)
  {
    hide ServerNameOf, DomainBlocked;
  }

  /**
   * Any ClientHello, cut in any way, arriving in any order behind its first segment, with any overlaps and retransmissions,
   * among any packets without data: the flow is decided by the message's host name if and only if all of the record has
   * arrived, no segment past the wrap of the sequence numbers arrived before all of the record that lies before the wrap,
   * and the buffer never held too much of the record without all of it. Otherwise it is not blocked and still pending, or
   * given up for a record longer than 65537 bytes.
   */
  lemma HelloIsDecidedIff(rules: Rules, d: Delivery, t: FiveTuple, items: seq<Item>)
    requires d.Proper() && OnlyDomainsMatter(rules, t)
    requires AllOf(t, items) && Carried(d.Sent(), t, Busy(items))
    ensures var f := FlowRun(rules, t, items);
            && (f.track == Verdict(d.hello) <==> Usable(d))
            && (if Usable(d) then Decided(rules, d.hello, f) else Undecided(f))
            && (Orderly(d) && !Fitting(d) ==> f.track.status == GaveUp)
            && (|d.Record()| <= 65537 && !Usable(d) ==> f.track.status == Pending)
            && (!Orderly(d) && f.track.status == Pending ==> Stuck(f.reasm))
  {
    hide FlowRun, EncodeRecord, NothingEarly, AllArrived, Roomy, Carried, DomainRuleHit, Stuck, Scheduled, Verdict;
    hide Runs.Exec, NoTupleRule, Overflowed, Overran, OneShot, Forbidden;
    var s, n := d.Sent(), |d.Record()|;
    RecordIsNotEmpty(d);
    BusyDecides(rules, t, items);
    FlowMirrors(rules, s, t, Busy(items));
    OverrunInRecord(d, s);
    RunOutput(s);
    ParseOfPrefix(d, RunOf(s).value.cursor);
    DeliveredIff(s, n);
    if !Orderly(d) { DisorderIsStuck(s, n); } else { OverflowIff(s, n, 65536); }
    if n <= 65537 {
      UsualFits(s, n, 65536);
      UsualIsRoomy(s, n, 65536);
    }
    var f := FlowRun(rules, t, items);
    BlockedByNameOnly(rules, t, items);
    NotFoundIsOpen(rules, f);
    VerdictIsName(d.hello);
    if f.track == Verdict(d.hello) { VerdictDecides(rules, d.hello, f); }
  }

  lemma NotFoundIsOpen(rules: Rules, f: Flow)
    requires f.blocked <==> DomainRuleHit(rules, f)
    ensures f.track.status == Pending || f.track.status == GaveUp ==> !f.blocked
  {
  }

  lemma PartOf(t: FiveTuple, items: seq<Item>, n: nat)
    requires AllOf(t, items) && n <= |items|
    ensures AllOf(t, items[..n]) && items[..n] + items[n..] == items
    ensures n == |items| ==> items[..n] == items
  {
  }

  /**
   * What the packets up to some point decide is final: a decided flow stays so, and once a segment past the wrap has come
   * too early, or the buffer has overflowed, the flow is never decided and never blocked, whatever packets follow.
   */
  lemma HelloIsFinal(rules: Rules, d: Delivery, t: FiveTuple, items: seq<Item>, n: nat)
    requires d.Proper() && OnlyDomainsMatter(rules, t)
    requires AllOf(t, items) && n <= |items| && Carried(d.Sent(), t, Busy(items[..n]))
    ensures Outcome(rules, d, FlowRun(rules, t, items), n == |items|)
  {
    hide FlowRun, EncodeRecord, Orderly, Complete, Fitting, Carried, DomainRuleHit, Stuck, Scheduled, Forbidden, Busy;
    hide NoTupleRule, Verdict;
    PartOf(t, items, n);
    HelloIsDecidedIff(rules, d, t, items[..n]);
    var f, g := FlowRun(rules, t, items[..n]), FlowRun(rules, t, items);
    BlockedByNameOnly(rules, t, items);
    NotFoundIsOpen(rules, g);
    VerdictIsName(d.hello);
    if f.track.status != Pending {
      TrackStays(rules, t, items[..n], items[n..]);
      if Usable(d) { VerdictDecides(rules, d.hello, g); }
    } else if !Orderly(d) {
      StuckStays(rules, t, items[..n], items[n..]);
    }
  }

  /** What must have become of the flow after some packets; whole says that no others followed. */
  ghost predicate Outcome(rules: Rules, d: Delivery, f: Flow, whole: bool)
    requires d.WellFormed()
  {
    && (Usable(d) ==> Decided(rules, d.hello, f))
    && (Hopeless(d) ==> Undecided(f))
    && (whole && !Usable(d) ==> Undecided(f))
    && (|d.Record()| <= 65537 && (Hopeless(d) || (whole && !Usable(d))) ==> f.track.status == Pending)
  }

  /** Without an empty rule, a decided flow is blocked exactly when its host name is one of the rules or below one. */
  lemma DecidedIffSubdomain(rules: Rules, hello: ClientHello, f: Flow)
    requires Decided(rules, hello, f) && [] !in rules.domains
    ensures f.blocked <==>
            ServerNameOf(hello).Found? && exists r :: r in rules.domains && IsSubdomain(ServerNameOf(hello).sni, r)
  {
    hide ServerNameOf, DomainBlocked, IsSubdomain, Verdict;
    if ServerNameOf(hello).Found? { BlockedIffSubdomain(ServerNameOf(hello).sni, rules); }
  }

  /** The same in the middle of any other traffic; the first n packets of the tuple make up the delivery. */
  lemma HelloInTraffic(rules: Rules, d: Delivery, t: FiveTuple, traffic: seq<Item>, n: nat)
    requires d.Proper() && OnlyDomainsMatter(rules, t)
    requires n <= |Only(traffic, Self, t)| && Carried(d.Sent(), t, Busy(Only(traffic, Self, t)[..n]))
    ensures Outcome(rules, d, FlowOf(EngineRun(rules, traffic), t), n == |Only(traffic, Self, t)|)
  {
    hide EngineRun, FlowRun, Only, FlowOf, Scheduled, Carried, Outcome, OnlyDomainsMatter, Busy, EncodeRecord;
    FlowIsolation(rules, traffic, t);
    OnlyIsAllOf(traffic, t);
    HelloIsFinal(rules, d, t, Only(traffic, Self, t), n);
  }

  // ---- One segment ---------------------------------------------------------------------------------

  /** The whole record in one segment. */
  ghost predicate InOneSegment(d: Delivery) {
    d.WellFormed() && |d.Sent().stream| < 0x8000_0000 && d.chunks == [Chunk(0, |d.Record()|)]
  }

  /** A packet of the tuple that carries the record. */
  ghost function DataItem(d: Delivery, t: FiveTuple): Item
    requires d.WellFormed()
  {
    Item(|d.Record()|, BLANK.(hasIp := true, srcIp := t.srcIp, dstIp := t.dstIp, srcPort := t.srcPort,
                              dstPort := t.dstPort, protocol := t.protocol, hasL4 := true, tcpSeq := d.isn,
                              payload := d.Record()))
  }

  /** Sending the record in one segment, at any sequence number, is a usable delivery. */
  lemma OneSegmentIsEnough(d: Delivery)
    requires InOneSegment(d)
    ensures d.Proper() && Usable(d)
  {
    hide EncodeRecord;
    RecordIsNotEmpty(d);
    forall x | 0 <= x < |d.Record()|
      ensures Arrived(d.chunks, x)
    {
      assert d.chunks[0] in d.chunks && Contains(d.chunks[0], x);
    }
    InOrderIsOrderly(d.Sent(), |d.Record()|);
    OneSegmentIsFitting(d);
  }

  lemma OneSegmentIsFitting(d: Delivery)
    requires d.WellFormed() && Complete(d) && |d.chunks| == 1
    ensures Fitting(d)
  {
    hide EncodeRecord;
    NothingArrived(0);
    assert d.chunks[..1] == d.chunks && d.chunks[..0] == [];
  }

  lemma OneSegmentIsCarried(d: Delivery, t: FiveTuple)
    requires InOneSegment(d)
    ensures Carried(d.Sent(), t, [DataItem(d, t)]) && !Idle(DataItem(d, t)) && DataItem(d, t).Tuple() == t
  {
    hide EncodeRecord, Wrap;
    RecordIsNotEmpty(d);
    WrapSmall(d.isn);
    assert d.Sent().stream[0..|d.Record()|] == d.Record();
  }

  /**
   * A handshake of frames that end with their TCP header, at any sequence numbers, and then the whole record in one
   * segment: the flow is decided, whatever follows.
   */
  lemma HandshakeThenHello(rules: Rules, d: Delivery, t: FiveTuple, handshake: seq<Item>, later: seq<Item>)
    requires InOneSegment(d) && OnlyDomainsMatter(rules, t)
    requires AllOf(t, handshake) && AllOf(t, later) && forall i :: 0 <= i < |handshake| ==> Idle(handshake[i])
    ensures Decided(rules, d.hello, FlowRun(rules, t, handshake + [DataItem(d, t)] + later))
  {
    hide EncodeRecord, FlowRun, OnlyDomainsMatter, Decided, Usable, Hopeless, Undecided, Scheduled, Idle, Carried, DataItem;
    hide AllOf, Busy;
    var first := handshake + [DataItem(d, t)];
    OneSegmentIsEnough(d);
    OneSegmentIsCarried(d, t);
    AllIdle(handshake);
    BusyLast(handshake, DataItem(d, t));
    AllOfJoined(t, handshake, DataItem(d, t), later);
    assert (first + later)[..|first|] == first && [] + [DataItem(d, t)] == [DataItem(d, t)];
    HelloIsFinal(rules, d, t, first + later, |first|);
  }

  lemma AllOfJoined(t: FiveTuple, before: seq<Item>, item: Item, later: seq<Item>)
    requires AllOf(t, before) && item.Tuple() == t && AllOf(t, later)
    ensures AllOf(t, before + [item] + later)
  {
  }

  lemma BusyLast(before: seq<Item>, item: Item)
    ensures Busy(before + [item]) == if Idle(item) then Busy(before) else Busy(before) + [item]
  {
    assert (before + [item])[..|before|] == before;
  }

  lemma {:induction false} AllIdle(items: seq<Item>)
    requires forall i :: 0 <= i < |items| ==> Idle(items[i])
    ensures Busy(items) == []
  {
    if items != [] { AllIdle(items[..|items| - 1]); }
  }

  // ---- A name listed twice ---------------------------------------------------------------------------

  /** The record and one more packet of an allowed flow: the report lists the name twice. */
  lemma ListedTwice(rules: Rules, d: Delivery, t: FiveTuple, more: Item)
    requires InOneSegment(d) && OnlyDomainsMatter(rules, t)
    requires ServerNameOf(d.hello).Found? && !Forbidden(rules, d.hello)
    requires more.Tuple() == t && more.parsed.hasIp
    ensures var host := ServerNameOf(d.hello).sni;
            multiset(EngineRun(rules, [DataItem(d, t), more]).report.snis) == multiset{host, host}
  {
    hide EncodeRecord, FlowRun, NoTupleRule, Forbidden, ServerNameOf, EngineRun;
    var first, both := [DataItem(d, t)], [DataItem(d, t), more];
    OneSegmentIsCarried(d, t);
    HandshakeThenHello(rules, d, t, [], []);
    assert [] + first + [] == first;
    HandshakeThenHello(rules, d, t, [], [more]);
    assert [] + first + [more] == both;
    OneFlowReport(rules, t, both);
    assert both[..1] == first && first[..0] == [];
    NothingIsAllowed(rules, t);
    ListedPerPacket(rules, t, first, more);
  }

  lemma ListedPerPacket(rules: Rules, t: FiveTuple, first: seq<Item>, more: Item)
    requires |first| == 1 && Allowed(FlowRun(rules, t, first)) && Allowed(FlowRun(rules, t, first + [more]))
    requires FlowRun(rules, t, first).track == FlowRun(rules, t, first + [more]).track
    ensures AllowedNames(rules, t, first + [more]) == var host := FlowRun(rules, t, first).track.sni; multiset{host, host}
  {
    hide FlowRun;
    assert first[..0] == [] && AllowedNames(rules, t, []) == multiset{};
    assert AllowedNames(rules, t, first) == NewNames(FlowRun(rules, t, first));
    assert (first + [more])[..1] == first;
  }

  /** A small message: the host name is the single letter a. */
  function SmallHello(): ClientHello {
    ClientHello([3, 3], seq(32, _ => 0), [], [], [], Some([ServerName([Name(0, [97])])]))
  }

  lemma SmallHelloFits()
    ensures TlsEncoding.Fits(SmallHello()) && ServerNameOf(SmallHello()) == Tls.Found([97])
    ensures |EncodeRecord([3, 1], SmallHello())| < 100
  {
    var names := [Name(0, [97])];
    assert names[1..] == [];
    assert NamesFit(names);
    assert |EncodeNames(names)| == 4;
    var exts := [ServerName(names)];
    assert exts[1..] == [];
    assert ExtensionsFit(exts);
    assert |EncodeExtensions(exts)| == |EncodeExtension(exts[0])| == 10;
  }

  /** Two packets of one flow, the record and an empty acknowledgement, no rules: the name appears twice in the report. */
  lemma ListedTwiceExample()
    ensures var t := FiveTuple(1, 2, 40000, 443, TCP);
            var d := Delivery(0, [3, 1], SmallHello(), [], [Chunk(0, |EncodeRecord([3, 1], SmallHello())|)]);
            var ack := Item(54, BLANK.(hasIp := true, srcIp := 1, dstIp := 2, srcPort := 40000, dstPort := 443,
                                       protocol := TCP, hasL4 := true));
            && d.WellFormed()
            && multiset(EngineRun(Rules({}, {}, []), [DataItem(d, t), ack]).report.snis) == multiset{[97], [97]}
  {
    hide EngineRun, EncodeRecord, ServerNameOf, DataItem, Wrap;
    SmallHelloFits();
    var t := FiveTuple(1, 2, 40000, 443, TCP);
    var d := Delivery(0, [3, 1], SmallHello(), [], [Chunk(0, |EncodeRecord([3, 1], SmallHello())|)]);
    var ack := Item(54, BLANK.(hasIp := true, srcIp := 1, dstIp := 2, srcPort := 40000, dstPort := 443,
                               protocol := TCP, hasL4 := true));
    assert d.Sent().stream == d.Record();
    ListedTwice(Rules({}, {}, []), d, t, ack);
  }
}
