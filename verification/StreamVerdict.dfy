/**
 * What the engine makes of any stream: the track of a flow is one parse of what has been delivered, in terms of what
 * arrived.
 */
module StreamVerdict {
  import opened Bytes
  import opened Types
  import opened TcpReassembler
  import opened ReassemblyRuns
  import opened BlockRules
  import opened FlowSpec
  import Flows = FlowProperties
  import opened StreamDelivery
  import Tls = TlsGrammar

  /** A packet of flow t that carries segment c of the stream. */
  ghost predicate Carries(s: Sending, t: FiveTuple, item: Item, c: Chunk) {
    && item.Tuple() == t && item.parsed.hasL4
    && c.off + c.len <= |s.stream|
    && item.parsed.tcpSeq == Wrap(s.isn + c.off)
    && item.parsed.payload == s.stream[c.off..c.off + c.len]
  }

  ghost predicate Carried(s: Sending, t: FiveTuple, items: seq<Item>) {
    |items| == |s.chunks| && forall i :: 0 <= i < |items| ==> Carries(s, t, items[i], s.chunks[i])
  }

  /** No address or port rule concerns the tuple. */
  ghost predicate OnlyDomainsMatter(rules: Rules, t: FiveTuple) {
    t.protocol == TCP && Flows.NoTupleRule(rules, t)
  }

  /** Some pull left more in the buffer than it may hold, and still no verdict. */
  ghost predicate Overran(s: Sending)
    decreases |s.chunks|
  {
    s.chunks != [] && (Overran(s.Before()) || (RunOf(s).Some? && Flows.Overflows(RunOf(s).value.out)))
  }

  /** The flow mirrors the run: its track is one parse of what was delivered, unless the buffer overflowed before. */
  ghost predicate Mirrors(r: Run, over: bool, f: Flow) {
    if over then f.track == SniTrack([], GaveUp, [])
    else f.track == Flows.OneShot(r.out) && (f.track.status == Pending ==> f.reasm == r.r)
  }

  /** A packet of a pending flow feeds the reassembler, pulls, and tries the parse. */
  lemma PendingStep(rules: Rules, f: Flow, item: Item)
    requires !f.blocked && f.track.status == Pending && OnlyDomainsMatter(rules, item.Tuple()) && item.parsed.hasL4
    ensures var g := FlowStep(rules, f, item).0;
            var (r, chunk) := Pull(Add(f.reasm, item.parsed.tcpSeq, item.parsed.payload));
            g.reasm == r && g.track == Attempt(f.track, chunk)
  {
    hide Add, Pull, Attempt, TupleIpBlocked, TuplePortBlocked, Flows.AddressListed, Flows.PortListed, FirstMatch;
    Flows.ListedIff(rules, item.Tuple());
  }

  /** The run's two operations are what the engine does with the packet. */
  lemma OneArrival(s: Sending, r: Run, item: Item)
    requires LastFits(s, r) && Carries(s, item.Tuple(), item, s.chunks[|s.chunks| - 1])
    ensures var r1 := LastFed(s, r);
            var r2 := Step(s.isn, s.stream, r1, Fetch);
            && r1.r == Add(r.r, item.parsed.tcpSeq, item.parsed.payload) && r1.out == r.out
            && r2.r == Pull(r1.r).0 && r2.out == r.out + Pull(r1.r).1
  {
    hide Add, Pull, Wrap;
  }

  lemma MirrorStep(rules: Rules, s: Sending, t: FiveTuple, r: Run, over: bool, f: Flow, item: Item)
    requires LastFits(s, r) && OnlyDomainsMatter(rules, t) && Carries(s, t, item, s.chunks[|s.chunks| - 1])
    requires Mirrors(r, over, f) && (f.track.status == Pending ==> !f.blocked) && Flows.FlowGood(rules, f) && f.tuple == t
    ensures var r2 := Step(s.isn, s.stream, LastFed(s, r), Fetch);
            Mirrors(r2, over || Flows.Overflows(r2.out), FlowStep(rules, f, item).0)
  {
    hide Add, Pull, FlowStep, Attempt, OnlyDomainsMatter, Step, Flows.Overflows, Flows.FlowGood, Flows.OneShot;
    hide Carries;
    CarriesTuple(s, t, item, s.chunks[|s.chunks| - 1]);
    Flows.StepAbsorbs(rules, f, item);
    OneArrival(s, r, item);
    Flows.OneMoreChunk(r.out, Pull(LastFed(s, r).r).1);
    if f.track.status == Pending { PendingStep(rules, f, item); }
  }

  lemma CarriesTuple(s: Sending, t: FiveTuple, item: Item, c: Chunk)
    requires Carries(s, t, item, c)
    ensures item.Tuple() == t && item.parsed.hasL4
  {
  }

  lemma PendingIsOpen(rules: Rules, t: FiveTuple, items: seq<Item>)
    requires Flows.AllOf(t, items) && OnlyDomainsMatter(rules, t)
    ensures var f := FlowRun(rules, t, items);
            Flows.FlowGood(rules, f) && f.tuple == t && (f.track.status == Pending ==> !f.blocked)
  {
    hide FlowRun, Flows.FlowGood;
    Flows.RunIsGood(rules, t, items);
    Flows.BlockedIff(rules, t, items);
  }

  lemma BeforeIsCarried(s: Sending, t: FiveTuple, items: seq<Item>)
    requires Carried(s, t, items) && items != []
    ensures Carried(s.Before(), t, items[..|items| - 1]) && Flows.AllOf(t, items[..|items| - 1])
    ensures Carries(s, t, items[|items| - 1], s.chunks[|items| - 1])
  {
    hide Wrap;
    forall i | 0 <= i < |items| - 1
      ensures Carries(s.Before(), t, items[i], s.chunks[i])
    {
      assert Carries(s, t, items[i], s.chunks[i]);
    }
  }

  lemma {:induction false} FlowMirrors(rules: Rules, s: Sending, t: FiveTuple, items: seq<Item>)
    requires Scheduled(s) && Carried(s, t, items) && OnlyDomainsMatter(rules, t)
    ensures RunOf(s).Some? && Mirrors(RunOf(s).value, Overran(s), FlowRun(rules, t, items))
    decreases |items|
  {
    hide Good, Step, Exec, FlowStep, OnlyDomainsMatter, Flows.FlowGood, Carries, Mirrors, Scheduled, LastFits, Begun;
    hide Flows.Overflows;
    RunBegins(s);
    if items == [] {
      NothingMirrors(rules, t);
    } else {
      var n := |items| - 1;
      var b := s.Before();
      BeforeIsScheduled(s);
      BeforeIsCarried(s, t, items);
      FlowMirrors(rules, b, t, items[..n]);
      PendingIsOpen(rules, t, items[..n]);
      MirrorStep(rules, s, t, RunOf(b).value, Overran(b), FlowRun(rules, t, items[..n]), items[n]);
    }
  }

  lemma NothingMirrors(rules: Rules, t: FiveTuple)
    ensures Mirrors(FIRST, false, FlowRun(rules, t, []))
  {
  }

  lemma BlockedByNameOnly(rules: Rules, t: FiveTuple, items: seq<Item>)
    requires Flows.AllOf(t, items) && OnlyDomainsMatter(rules, t)
    ensures FlowRun(rules, t, items).blocked <==> Flows.DomainRuleHit(rules, FlowRun(rules, t, items))
  {
    hide FlowRun, Flows.DomainRuleHit;
    Flows.BlockedIff(rules, t, items);
  }

  // ---- In terms of what arrived ----------------------------------------------------------------------

  /** The bytes from the start of the first arrival to the first one missing. */
  ghost function Contiguous(s: Sending): bytes {
    if s.start <= FirstGap(s) <= |s.stream| then s.stream[s.start..FirstGap(s)] else []
  }

  /** After some arrival these were more than the buffer may hold, and still gave no verdict. */
  ghost predicate GapOverflows(s: Sending)
    decreases |s.chunks|
  {
    s.chunks != [] && (GapOverflows(s.Before()) || Flows.Overflows(Contiguous(s)))
  }

  lemma {:induction false} OverranIff(s: Sending)
    requires Scheduled(s) && NothingEarly(s, WrapOffset(s))
    ensures Overran(s) <==> GapOverflows(s)
    decreases |s.chunks|
  {
    hide Scheduled, Exec, NothingEarly, Flows.Overflows, Past;
    if s.chunks != [] {
      BeforeIsScheduled(s);
      NothingEarlyLast(s, WrapOffset(s));
      OverranIff(s.Before());
      DeliversToGap(s);
    }
  }

  /**
   * Any stream, cut and sent in any way, wherever its first data packet starts, among any packets without data, as long as
   * nothing past the wrap arrives early: the flow's track is one parse of the bytes from that start to the first one
   * missing, unless they overflowed the buffer without a verdict; and only its name can block it.
   */
  lemma TrackIsOneShot(rules: Rules, s: Sending, t: FiveTuple, items: seq<Item>)
    requires Scheduled(s) && s.chunks != [] && NothingEarly(s, WrapOffset(s)) && OnlyDomainsMatter(rules, t)
    requires Flows.AllOf(t, items) && Carried(s, t, Flows.Busy(items))
    ensures var f := FlowRun(rules, t, items);
            && f.track == (if GapOverflows(s) then SniTrack([], GaveUp, []) else Flows.OneShot(Contiguous(s)))
            && (f.blocked <==> Flows.DomainRuleHit(rules, f))
  {
    hide FlowRun, Carried, Scheduled, NothingEarly, Flows.NoTupleRule, Flows.DomainRuleHit, Exec, Flows.OneShot;
    hide Overran, GapOverflows, FirstGap;
    Flows.BusyDecides(rules, t, items);
    FlowMirrors(rules, s, t, Flows.Busy(items));
    DeliversToGap(s);
    OverranIff(s);
    BlockedByNameOnly(rules, t, items);
  }

  // ---- A first packet that is not TLS ----------------------------------------------------------------

  lemma OneSegment(seq32: u32, data: bytes) returns (s: Sending)
    requires 0 < |data| < 0x8000_0000
    ensures s == Sending(seq32, data, 0, [Chunk(0, |data|)])
    ensures Scheduled(s) && NothingEarly(s, WrapOffset(s)) && AllArrived(s.chunks, 0, |data|)
  {
    s := Sending(seq32, data, 0, [Chunk(0, |data|)]);
    forall x | 0 <= x < |data|
      ensures Arrived(s.chunks, x)
    {
      assert s.chunks[0] in s.chunks && Contains(s.chunks[0], x);
    }
    NeverPast(s);
  }

  lemma OneSegmentIsContiguous(s: Sending)
    requires |s.stream| > 0 && s.start == 0 && s.chunks == [Chunk(0, |s.stream|)] && AllArrived(s.chunks, 0, |s.stream|)
    ensures Contiguous(s) == s.stream
  {
    assert !Arrived(s.chunks, |s.stream|);
    GapIs(s, 0, |s.stream|);
  }

  /** A flow whose first packet brings bytes that parse to a verdict has that verdict for good, whatever follows. */
  lemma FirstPacketDecides(rules: Rules, t: FiveTuple, items: seq<Item>)
    requires OnlyDomainsMatter(rules, t) && Flows.AllOf(t, items) && items != [] && items[0].parsed.hasL4
    requires 0 < |items[0].parsed.payload| < 0x8000_0000 && Tls.ParseRecord(items[0].parsed.payload) != Tls.Incomplete
    ensures var f := FlowRun(rules, t, items);
            && (match Tls.ParseRecord(items[0].parsed.payload)
                case Found(host) => f.track == SniTrack([], Found, host)
                case NoSni => f.track == SniTrack([], NoSni, [])
                case NotTls => f.track == SniTrack([], NotTls, [])
                case Malformed => f.track == SniTrack([], Malformed, []))
            && (f.track.status != Found ==> !f.blocked)
  {
    hide FlowRun, Flows.NoTupleRule, Wrap, Scheduled, NothingEarly, Tls.ParseRecord, Flows.Busy, FirstGap;
    var first := items[0];
    var data := first.parsed.payload;
    var s := OneSegment(first.parsed.tcpSeq, data);
    WrapSmall(first.parsed.tcpSeq);
    OneItem(s, t, first);
    OneSegmentIsContiguous(s);
    TrackIsOneShot(rules, s, t, [first]);
    NoOverflow(s, data);
    assert items == [first] + items[1..];
    Flows.TrackStays(rules, t, [first], items[1..]);
    BlockedByNameOnly(rules, t, items);
  }

  /** A flow whose first packet brings five bytes or more that do not begin a handshake record is not TLS for good. */
  lemma FirstPacketNotTls(rules: Rules, t: FiveTuple, items: seq<Item>)
    requires OnlyDomainsMatter(rules, t) && Flows.AllOf(t, items) && items != [] && items[0].parsed.hasL4
    requires 5 <= |items[0].parsed.payload| < 0x8000_0000 && items[0].parsed.payload[0] != 0x16
    ensures FlowRun(rules, t, items).track == SniTrack([], NotTls, []) && !FlowRun(rules, t, items).blocked
  {
    hide FlowRun, Flows.NoTupleRule, Tls.ParseRecord;
    Tls.NotTlsIff(items[0].parsed.payload);
    FirstPacketDecides(rules, t, items);
  }

  lemma OneItem(s: Sending, t: FiveTuple, item: Item)
    requires item.Tuple() == t && item.parsed.hasL4 && item.parsed.payload != []
    requires s == Sending(item.parsed.tcpSeq, item.parsed.payload, 0, [Chunk(0, |item.parsed.payload|)])
    ensures Flows.Busy([item]) == [item] && Carried(s, t, [item])
  {
    WrapSmall(item.parsed.tcpSeq);
    hide Wrap;
    assert [item][..0] == [];
  }

  lemma NoOverflow(s: Sending, data: bytes)
    requires |s.chunks| == 1 && Contiguous(s) == data && Tls.ParseRecord(data) != Tls.Incomplete
    ensures !GapOverflows(s)
  {
    hide Tls.ParseRecord;
    assert s.Before().chunks == [];
  }
}
