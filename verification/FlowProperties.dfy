/** What every run of one flow keeps: verdicts, absorbing states, the buffer bound and incremental name extraction. */
module FlowProperties {
  import opened Bytes
  import opened Wrappers
  import opened Types
  import opened TcpReassembler
  import opened ReassemblyStalls
  import opened BlockRules
  import opened FlowSpec
  import Tls = TlsGrammar

  // ---- Incremental extraction ----------------------------------------------------------------------

  /** The engine tries again on every chunk until the name is settled. */
  function AttemptAll(chunks: seq<bytes>): SniTrack {
    if chunks == [] then NO_TRACK else
    var k := AttemptAll(chunks[..|chunks| - 1]);
    if k.status == Pending then Attempt(k, chunks[|chunks| - 1]) else k
  }

  function Concat(chunks: seq<bytes>): bytes {
    if chunks == [] then [] else Concat(chunks[..|chunks| - 1]) + chunks[|chunks| - 1]
  }

  /** The outcome of one parse of all the bytes. */
  function OneShot(data: bytes): SniTrack {
    match Tls.ParseRecord(data)
    case Incomplete => SniTrack(data, Pending, [])
    case Found(sni) => SniTrack([], Found, sni)
    case NoSni => SniTrack([], NoSni, [])
    case NotTls => SniTrack([], NotTls, [])
    case Malformed => SniTrack([], Malformed, [])
  }

  /** More bytes than the buffer may hold, and still no verdict. */
  predicate Overflows(data: bytes) {
    Tls.ParseRecord(data) == Tls.Incomplete && |data| > 65536
  }

  ghost predicate SomePrefixOverflows(chunks: seq<bytes>) {
    exists i :: 0 <= i <= |chunks| && Overflows(Concat(chunks[..i]))
  }

  /** Retrying on a growing buffer ends as one parse of everything would, except that it gives up on an overflow. */
  lemma {:induction false} IncrementalEqualsOneShot(chunks: seq<bytes>)
    ensures AttemptAll(chunks).status == GaveUp <==> SomePrefixOverflows(chunks)
    ensures AttemptAll(chunks).status != GaveUp ==> AttemptAll(chunks) == OneShot(Concat(chunks))
  {
    hide Attempt, SomePrefixOverflows, Overflows, Tls.ParseRecord;
    if chunks == [] {
      NothingOverflows();
    } else {
      var before, chunk := chunks[..|chunks| - 1], chunks[|chunks| - 1];
      assert chunks == before + [chunk];
      IncrementalEqualsOneShot(before);
      OverflowsLast(before, chunk);
      OneMoreChunk(Concat(before), chunk);
    }
  }

  lemma NothingOverflows()
    ensures !SomePrefixOverflows([]) && OneShot([]) == NO_TRACK
  {
    assert !Overflows(Concat([]));
  }

  /** One more attempt, in terms of one parse of everything before and of everything now. */
  lemma OneMoreChunk(data: bytes, chunk: bytes)
    ensures OneShot(data).status == Pending ==>
              Attempt(OneShot(data), chunk) ==
              if Overflows(data + chunk) then SniTrack([], GaveUp, []) else OneShot(data + chunk)
    ensures OneShot(data).status != Pending ==> OneShot(data + chunk) == OneShot(data) && !Overflows(data + chunk)
    ensures OneShot(data).status != GaveUp
  {
    hide Tls.ParseRecord;
    if Tls.ParseRecord(data) == Tls.Incomplete {
      AttemptIsOneShot(data, chunk);
    } else {
      Tls.VerdictIsStable(data, chunk);
    }
  }

  lemma ConcatLast(before: seq<bytes>, chunk: bytes)
    ensures Concat(before + [chunk]) == Concat(before) + chunk
  {
    assert (before + [chunk])[..|before|] == before;
  }

  lemma OverflowsLast(before: seq<bytes>, chunk: bytes)
    ensures SomePrefixOverflows(before + [chunk]) <==> SomePrefixOverflows(before) || Overflows(Concat(before) + chunk)
  {
    ConcatLast(before, chunk);
    hide Overflows, Concat;
    var chunks := before + [chunk];
    var n := |before|;
    assert chunks[..n + 1] == chunks;
    if SomePrefixOverflows(chunks) {
      var i :| 0 <= i <= |chunks| && Overflows(Concat(chunks[..i]));
      if i <= n { assert chunks[..i] == before[..i]; } else { assert chunks[..i] == chunks; }
    }
    if SomePrefixOverflows(before) {
      var i :| 0 <= i <= n && Overflows(Concat(before[..i]));
      assert chunks[..i] == before[..i];
      assert Overflows(Concat(chunks[..i]));
    }
    if Overflows(Concat(before) + chunk) {
      assert Overflows(Concat(chunks[..n + 1]));
    }
  }

  lemma AttemptIsOneShot(data: bytes, chunk: bytes)
    requires Tls.ParseRecord(data) == Tls.Incomplete
    ensures Attempt(SniTrack(data, Pending, []), chunk) ==
            if Overflows(data + chunk) then SniTrack([], GaveUp, []) else OneShot(data + chunk)
  {
    assert data + chunk == [] ==> Tls.ParseRecord(data + chunk) == Tls.Incomplete;
  }

  /** The engine gives up only when the record declares at least 65533 bytes, beyond section 5.1 of RFC 8446. */
  lemma GaveUpNeedsOversizedRecord(k: SniTrack, chunk: bytes)
    requires k.status == Pending && Attempt(k, chunk).status == GaveUp
    ensures var data := k.buffer + chunk;
            |data| > 5 && data[0] == 0x16 && Tls.Declared(data) >= 65533
  {
    Tls.IncompleteIff(k.buffer + chunk);
  }

  // ---- Rules that concern a tuple ------------------------------------------------------------------

  /** One of the two addresses is in the list. */
  predicate AddressListed(rules: Rules, t: FiveTuple) {
    t.srcIp in rules.ips || t.dstIp in rules.ips
  }

  /** How a port rule is kept: the protocol's number in the upper half, the port in the lower. */
  function Key(protocol: L4Protocol, port: u16): int {
    match protocol
    case UNKNOWN => port
    case TCP => 6 * 65536 + port
    case UDP => 17 * 65536 + port
  }

  /** One of the two ports is in the list. */
  predicate PortListed(rules: Rules, t: FiveTuple) {
    Key(t.protocol, t.srcPort) in rules.ports || Key(t.protocol, t.dstPort) in rules.ports
  }

  /** The checks of the engine ask for exactly these. */
  lemma ListedIff(rules: Rules, t: FiveTuple)
    ensures TupleIpBlocked(rules, t) <==> AddressListed(rules, t)
    ensures TuplePortBlocked(rules, t) <==> PortListed(rules, t)
    ensures PortBlocked(rules, t.protocol, t.dstPort) <==> Key(t.protocol, t.dstPort) in rules.ports
    ensures PortBlocked(rules, t.protocol, t.srcPort) <==> Key(t.protocol, t.srcPort) in rules.ports
  {
  }

  // ---- The invariant of a flow ---------------------------------------------------------------------

  ghost predicate TrackGood(k: SniTrack) {
    if k.status == Pending
    then |k.buffer| <= 65536 && k.sni == [] && Tls.ParseRecord(k.buffer) == Tls.Incomplete
    else k.buffer == []
  }

  /** The reported port is blocked, and is the destination's whenever that one is. */
  ghost predicate PortReported(rules: Rules, t: FiveTuple, port: u16) {
    Key(t.protocol, port) in rules.ports &&
    (port == t.dstPort || (port == t.srcPort && Key(t.protocol, t.dstPort) !in rules.ports))
  }

  /** Why a flow is blocked holds of the flow, and no reason that comes before it does. */
  ghost predicate ReasonHolds(rules: Rules, f: Flow) {
    match f.reason
    case None => !f.blocked
    case Some(IpRule) => f.blocked && AddressListed(rules, f.tuple)
    case Some(PortRule(protocol, port)) =>
      f.blocked && protocol == f.tuple.protocol && PortReported(rules, f.tuple, port) && !AddressListed(rules, f.tuple)
    case Some(DomainRule(rule)) =>
      f.blocked && f.track.status == Found && rule != [] && rule == FirstMatch(f.track.sni, rules.domains) &&
      !AddressListed(rules, f.tuple) && !PortListed(rules, f.tuple)
  }

  /** Gathering of the name has begun. */
  predicate Inspected(f: Flow) {
    f.track.status != Pending || f.reasm.initialized
  }

  ghost predicate FlowGood(rules: Rules, f: Flow) {
    && TrackGood(f.track)
    && ReasonHolds(rules, f)
    && (!f.blocked && f.packetCount > 0 ==> !AddressListed(rules, f.tuple))
    && (!f.blocked && Inspected(f) ==> !PortListed(rules, f.tuple))
    && (!f.blocked && f.track.status == Found ==> FirstMatch(f.track.sni, rules.domains) == [])
  }

  lemma AttemptIsGood(k: SniTrack, chunk: bytes)
    requires k.status == Pending && TrackGood(k)
    ensures TrackGood(Attempt(k, chunk))
  {
    hide Tls.ParseRecord;
    assert k.buffer + chunk == [] ==> k.buffer == [];
  }

  lemma FreshIsGood(rules: Rules, t: FiveTuple)
    ensures FlowGood(rules, Fresh(t))
  {
  }

  lemma StepIsGood(rules: Rules, f: Flow, item: Item)
    requires FlowGood(rules, f) && item.Tuple() == f.tuple
    ensures FlowGood(rules, FlowStep(rules, f, item).0)
    ensures FlowStep(rules, f, item).0.tuple == f.tuple
  {
    hide TupleIpBlocked, TuplePortBlocked, AddressListed, PortListed, PortReported, MatchedPort, FirstMatch;
    hide Pull, Add, Attempt, TrackGood;
    ListedIff(rules, f.tuple);
    PortMatched(rules, f.tuple);
    if f.track.status == Pending {
      AttemptIsGood(f.track, Pull(Add(f.reasm, item.parsed.tcpSeq, item.parsed.payload)).1);
    }
  }

  lemma PortMatched(rules: Rules, t: FiveTuple)
    ensures PortListed(rules, t) ==> PortReported(rules, t, MatchedPort(rules, t))
  {
    ListedIff(rules, t);
  }

  // ---- Absorbing states and effects ----------------------------------------------------------------

  /** Blocked is for good, with its reason; a settled name is for good; an allowed name is never blocked later. */
  lemma StepAbsorbs(rules: Rules, f: Flow, item: Item)
    requires FlowGood(rules, f) && item.Tuple() == f.tuple
    ensures var g := FlowStep(rules, f, item).0;
            && (f.blocked ==> g.blocked && g.reason == f.reason && g.track == f.track && g.reasm == f.reasm)
            && (f.track.status != Pending ==> g.track == f.track)
            && (f.track.status == Found && !f.blocked && f.packetCount > 0 ==> !g.blocked)
            && g.packetCount == f.packetCount + 1
  {
    hide TupleIpBlocked, TuplePortBlocked, AddressListed, PortListed, FirstMatch, Pull, Add, Attempt, TrackGood;
    ListedIff(rules, f.tuple);
  }

  /** What a step reports: a blocked packet when the flow is now blocked, an entry when it just became so, else a name. */
  lemma StepReports(rules: Rules, f: Flow, item: Item)
    requires FlowGood(rules, f) && item.Tuple() == f.tuple
    ensures var (g, e) := FlowStep(rules, f, item);
            && (e.blockedPacket <==> g.blocked)
            && e.entries == (if g.blocked && !f.blocked
                             then [Entry(f.tuple, if g.reason.value.DomainRule? then Some(g.track.sni) else None,
                                         g.reason.value)]
                             else [])
            && e.snis == (if !g.blocked && g.track.status == Found then [g.track.sni] else [])
  {
    hide TupleIpBlocked, TuplePortBlocked, AddressListed, PortListed, FirstMatch, Pull, Add, Attempt, TrackGood;
    ListedIff(rules, f.tuple);
  }

  // ---- Whole runs of one flow ----------------------------------------------------------------------

  ghost predicate AllOf(t: FiveTuple, items: seq<Item>) {
    forall i :: 0 <= i < |items| ==> items[i].Tuple() == t
  }

  lemma {:induction false} RunIsGood(rules: Rules, t: FiveTuple, items: seq<Item>)
    requires AllOf(t, items)
    ensures FlowGood(rules, FlowRun(rules, t, items)) && FlowRun(rules, t, items).tuple == t
    ensures FlowRun(rules, t, items).packetCount == |items|
  {
    if items != [] {
      hide FlowGood, FlowStep;
      RunIsGood(rules, t, items[..|items| - 1]);
      StepIsGood(rules, FlowRun(rules, t, items[..|items| - 1]), items[|items| - 1]);
      StepAbsorbs(rules, FlowRun(rules, t, items[..|items| - 1]), items[|items| - 1]);
    } else {
      FreshIsGood(rules, t);
    }
  }

  function TotalSize(items: seq<Item>): nat {
    if items == [] then 0 else TotalSize(items[..|items| - 1]) + items[|items| - 1].size
  }

  /** A flow's byte count is the size of its packets, blocked or not. */
  lemma {:induction false} BytesAreCounted(rules: Rules, t: FiveTuple, items: seq<Item>)
    ensures FlowRun(rules, t, items).byteCount == TotalSize(items)
  {
    if items != [] {
      hide TupleIpBlocked, TuplePortBlocked, AddressListed, PortListed, FirstMatch, TryResolve, Add;
      BytesAreCounted(rules, t, items[..|items| - 1]);
    }
  }

  ghost predicate PortRuleHit(rules: Rules, t: FiveTuple, items: seq<Item>) {
    PortListed(rules, t) && exists i :: 0 <= i < |items| && items[i].parsed.hasL4
  }

  ghost predicate DomainRuleHit(rules: Rules, f: Flow) {
    f.track.status == Found && DomainBlocked(rules, f.track.sni)
  }

  /**
   * A flow ends blocked exactly when one of its addresses is blocked, or one of its ports is and a packet carried a
   * readable transport header, or its name resolved to one that a rule matches.
   */
  lemma {:induction false} BlockedIff(rules: Rules, t: FiveTuple, items: seq<Item>)
    requires AllOf(t, items)
    ensures FlowRun(rules, t, items).blocked <==>
            || (items != [] && (t.srcIp in rules.ips || t.dstIp in rules.ips))
            || PortRuleHit(rules, t, items)
            || DomainRuleHit(rules, FlowRun(rules, t, items))
  {
    if items != [] {
      var before, item := items[..|items| - 1], items[|items| - 1];
      BlockedIff(rules, t, before);
      RunIsGood(rules, t, before);
      RunIsGood(rules, t, items);
      var f := FlowRun(rules, t, before);
      StepAbsorbs(rules, f, item);
      BlockedStepIff(rules, f, item);
      PortHitLast(rules, t, before, item);
      assert items == before + [item];
      hide FlowStep, TupleIpBlocked, TuplePortBlocked, AddressListed, PortListed, FirstMatch, TrackGood;
    }
  }

  /** The same for rules that were added by any calls, in terms of what the calls asked for. */
  lemma BlockedIffAsked(calls: seq<RuleCall>, t: FiveTuple, items: seq<Item>)
    requires AllOf(t, items)
    ensures var f := FlowRun(RulesOf(calls), t, items);
            f.blocked <==>
            || (items != [] && (BlockIp(t.srcIp) in calls || BlockIp(t.dstIp) in calls))
            || ((t.protocol == TCP || t.protocol == UDP) &&
                (BlockPort(t.protocol, t.srcPort) in calls || BlockPort(t.protocol, t.dstPort) in calls) &&
                exists i :: 0 <= i < |items| && items[i].parsed.hasL4)
            || (f.track.status == Found && Asked(calls, f.track.sni))
  {
    hide FlowRun, RulesOf, Asked, DomainBlocked, PortBlocked, Key, AllOf;
    var rules := RulesOf(calls);
    BlockedIff(rules, t, items);
    ListedIff(rules, t);
    IpBlockedIffAsked(calls, t.srcIp);
    IpBlockedIffAsked(calls, t.dstIp);
    PortBlockedIffAsked(calls, t.protocol, t.srcPort);
    PortBlockedIffAsked(calls, t.protocol, t.dstPort);
    DomainBlockedIffAsked(calls, FlowRun(rules, t, items).track.sni);
  }

  lemma PortHitLast(rules: Rules, t: FiveTuple, before: seq<Item>, item: Item)
    ensures PortRuleHit(rules, t, before + [item]) <==>
            PortRuleHit(rules, t, before) || (PortListed(rules, t) && item.parsed.hasL4)
  {
    hide TuplePortBlocked;
    var items := before + [item];
    assert items[|before|] == item;
    if PortRuleHit(rules, t, before) {
      var i :| 0 <= i < |before| && before[i].parsed.hasL4;
      assert items[i] == before[i];
    }
  }

  lemma BlockedStepIff(rules: Rules, f: Flow, item: Item)
    requires item.Tuple() == f.tuple
    ensures var g := FlowStep(rules, f, item).0;
            g.blocked <==> f.blocked || AddressListed(rules, f.tuple) ||
                           (PortListed(rules, f.tuple) && item.parsed.hasL4) || DomainRuleHit(rules, g)
  {
    hide TupleIpBlocked, TuplePortBlocked, AddressListed, PortListed, FirstMatch, Pull, Add, Attempt;
    ListedIff(rules, f.tuple);
  }

  // ---- The name a run settles on -------------------------------------------------------------------

  /** The packet reaches the reassembler. */
  predicate Gathers(rules: Rules, f: Flow, item: Item) {
    && !f.blocked && f.track.status == Pending && item.parsed.protocol == TCP && item.parsed.hasL4
    && !AddressListed(rules, item.Tuple()) && !PortListed(rules, item.Tuple())
  }

  /** The chunks of stream pulled for a flow, one for each packet that reached its reassembler. */
  function Pulled(rules: Rules, t: FiveTuple, items: seq<Item>): seq<bytes> {
    if items == [] then [] else
    var before, item := items[..|items| - 1], items[|items| - 1];
    var f := FlowRun(rules, t, before);
    if Gathers(rules, f, item)
    then Pulled(rules, t, before) + [Pull(Add(f.reasm, item.parsed.tcpSeq, item.parsed.payload)).1]
    else Pulled(rules, t, before)
  }

  lemma StepAttempts(rules: Rules, f: Flow, item: Item)
    ensures FlowStep(rules, f, item).0.track ==
            if Gathers(rules, f, item)
            then Attempt(f.track, Pull(Add(f.reasm, item.parsed.tcpSeq, item.parsed.payload)).1)
            else f.track
  {
    hide TupleIpBlocked, TuplePortBlocked, AddressListed, PortListed, FirstMatch, Pull, Add, Attempt;
    ListedIff(rules, item.Tuple());
  }

  lemma {:induction false} TrackIsAttempts(rules: Rules, t: FiveTuple, items: seq<Item>)
    ensures FlowRun(rules, t, items).track == AttemptAll(Pulled(rules, t, items))
  {
    if items != [] {
      hide FlowStep, Pull, Add, Attempt, TupleIpBlocked, TuplePortBlocked, AddressListed, PortListed;
      var before, item := items[..|items| - 1], items[|items| - 1];
      var f := FlowRun(rules, t, before);
      TrackIsAttempts(rules, t, before);
      StepAttempts(rules, f, item);
      if Gathers(rules, f, item) {
        AttemptAllLast(Pulled(rules, t, before), Pull(Add(f.reasm, item.parsed.tcpSeq, item.parsed.payload)).1);
      }
    }
  }

  lemma AttemptAllLast(before: seq<bytes>, chunk: bytes)
    ensures AttemptAll(before + [chunk]) ==
            if AttemptAll(before).status == Pending then Attempt(AttemptAll(before), chunk) else AttemptAll(before)
  {
    hide Attempt;
    assert (before + [chunk])[..|before|] == before;
  }

  /**
   * Over any packets at all, a flow's name is settled as one parse of everything pulled for it would settle it, unless
   * some prefix of that overflowed the buffer without a verdict.
   */
  lemma FlowEqualsOneShot(rules: Rules, t: FiveTuple, items: seq<Item>)
    ensures var k, chunks := FlowRun(rules, t, items).track, Pulled(rules, t, items);
            && (k.status == GaveUp <==> SomePrefixOverflows(chunks))
            && (k.status != GaveUp ==> k == OneShot(Concat(chunks)))
  {
    hide FlowRun, Pulled, AttemptAll, OneShot, Concat;
    TrackIsAttempts(rules, t, items);
    IncrementalEqualsOneShot(Pulled(rules, t, items));
  }

  /** Only TCP packets with a readable transport header are ever looked into for a name. */
  lemma {:induction false} OnlyTcpIsNamed(rules: Rules, t: FiveTuple, items: seq<Item>)
    requires AllOf(t, items)
    requires t.protocol != TCP || forall i :: 0 <= i < |items| ==> !items[i].parsed.hasL4
    ensures FlowRun(rules, t, items).track == SniTrack([], Pending, [])
    ensures FlowRun(rules, t, items).reasm == EMPTY
  {
    if items != [] {
      hide TupleIpBlocked, TuplePortBlocked, FirstMatch, TryResolve, Add;
      OnlyTcpIsNamed(rules, t, items[..|items| - 1]);
    }
  }

  // ---- Packets without data ------------------------------------------------------------------------

  /** A packet that brings no stream data: no readable transport header, or an empty payload. */
  predicate Idle(item: Item) {
    !item.parsed.hasL4 || item.parsed.payload == []
  }

  /** The packets that bring data. */
  function Busy(items: seq<Item>): seq<Item> {
    if items == [] then []
    else if Idle(items[|items| - 1]) then Busy(items[..|items| - 1])
    else Busy(items[..|items| - 1]) + [items[|items| - 1]]
  }

  /** A pull would change nothing. */
  ghost predicate Settled(r: Reasm) {
    Pull(r) == (r, [])
  }

  /** The same flow but for its packet and byte counts. */
  ghost predicate SameCourse(f: Flow, g: Flow) {
    f.tuple == g.tuple && f.track == g.track && f.reasm == g.reasm && f.blocked == g.blocked && f.reason == g.reason
  }

  ghost predicate NoTupleRule(rules: Rules, t: FiveTuple) {
    !AddressListed(rules, t) && !PortListed(rules, t)
  }

  lemma EmptyIsSettled()
    ensures Settled(EMPTY)
  {
    DrainStep(EMPTY.nextSeq, EMPTY.pending);
  }

  lemma StepSettles(rules: Rules, f: Flow, item: Item)
    requires Settled(f.reasm)
    ensures Settled(FlowStep(rules, f, item).0.reasm)
  {
    hide TupleIpBlocked, TuplePortBlocked, AddressListed, PortListed, FirstMatch, Pull, Add, Attempt;
    PullTwice(Add(f.reasm, item.parsed.tcpSeq, item.parsed.payload));
  }

  lemma AttemptNothing(k: SniTrack)
    requires TrackGood(k) && k.status == Pending
    ensures Attempt(k, []) == k
  {
    hide Tls.ParseRecord;
    assert k.buffer + [] == k.buffer;
  }

  /** A packet without data, at any sequence number, changes nothing but the counts. */
  lemma IdleStep(rules: Rules, f: Flow, item: Item)
    requires FlowGood(rules, f) && Settled(f.reasm) && item.Tuple() == f.tuple
    requires Idle(item) && NoTupleRule(rules, f.tuple)
    ensures SameCourse(FlowStep(rules, f, item).0, f)
  {
    hide TupleIpBlocked, TuplePortBlocked, AddressListed, PortListed, FirstMatch, Pull, Attempt, TrackGood;
    ListedIff(rules, f.tuple);
    if f.track.status == Pending { AttemptNothing(f.track); }
  }

  lemma SameStep(rules: Rules, f: Flow, g: Flow, item: Item)
    requires SameCourse(f, g)
    ensures SameCourse(FlowStep(rules, f, item).0, FlowStep(rules, g, item).0)
  {
    hide TupleIpBlocked, TuplePortBlocked, AddressListed, PortListed, FirstMatch, Pull, Add, Attempt;
  }

  /** Without an address or port rule on the tuple, only the packets with data decide what becomes of a flow. */
  lemma {:induction false} BusyDecides(rules: Rules, t: FiveTuple, items: seq<Item>)
    requires AllOf(t, items) && NoTupleRule(rules, t)
    ensures AllOf(t, Busy(items))
    ensures SameCourse(FlowRun(rules, t, items), FlowRun(rules, t, Busy(items)))
    ensures Settled(FlowRun(rules, t, items).reasm)
  {
    hide FlowStep, Settled, FlowGood, NoTupleRule;
    if items == [] {
      EmptyIsSettled();
    } else {
      var before, item := items[..|items| - 1], items[|items| - 1];
      BusyDecides(rules, t, before);
      RunIsGood(rules, t, before);
      var f := FlowRun(rules, t, before);
      StepSettles(rules, f, item);
      if Idle(item) {
        IdleStep(rules, f, item);
      } else {
        SameStep(rules, f, FlowRun(rules, t, Busy(before)), item);
        assert (Busy(before) + [item])[..|Busy(before)|] == Busy(before);
      }
    }
  }

  // ---- Later packets -------------------------------------------------------------------------------

  /** A settled name stays, whatever packets follow. */
  lemma {:induction false} TrackStays(rules: Rules, t: FiveTuple, items: seq<Item>, later: seq<Item>)
    requires AllOf(t, items + later) && FlowRun(rules, t, items).track.status != Pending
    ensures FlowRun(rules, t, items + later).track == FlowRun(rules, t, items).track
  {
    hide FlowStep, FlowGood;
    if later == [] {
      assert items + later == items;
    } else {
      var before, item := items + later[..|later| - 1], later[|later| - 1];
      assert items + later == before + [item];
      assert AllOf(t, before) by { assert forall i :: 0 <= i < |before| ==> before[i] == (items + later)[i]; }
      TrackStays(rules, t, items, later[..|later| - 1]);
      RunIsGood(rules, t, before);
      assert (items + later)[|before|] == item;
      StepAbsorbs(rules, FlowRun(rules, t, before), item);
    }
  }

  /** A pending flow whose reassembler is stuck stays pending with every packet. */
  lemma StuckStep(rules: Rules, f: Flow, item: Item)
    requires FlowGood(rules, f) && item.Tuple() == f.tuple && NoTupleRule(rules, f.tuple)
    requires !f.blocked && f.track.status == Pending && Stuck(f.reasm)
    ensures var g := FlowStep(rules, f, item).0;
            !g.blocked && g.track == f.track && Stuck(g.reasm)
  {
    ListedIff(rules, f.tuple);
    StuckForGood(f.reasm, item.parsed.tcpSeq, item.parsed.payload);
    hide TupleIpBlocked, TuplePortBlocked, AddressListed, PortListed, FirstMatch, Pull, Add, Attempt, TrackGood, Stuck;
    AttemptNothing(f.track);
  }

  /** So no packet ever resolves or blocks it. */
  lemma {:induction false} StuckStays(rules: Rules, t: FiveTuple, items: seq<Item>, later: seq<Item>)
    requires AllOf(t, items + later) && NoTupleRule(rules, t)
    requires var f := FlowRun(rules, t, items); !f.blocked && f.track.status == Pending && Stuck(f.reasm)
    ensures var g := FlowRun(rules, t, items + later);
            !g.blocked && g.track.status == Pending && Stuck(g.reasm)
  {
    hide FlowStep, FlowGood, Stuck, NoTupleRule;
    if later == [] {
      assert items + later == items;
    } else {
      var before, item := items + later[..|later| - 1], later[|later| - 1];
      assert items + later == before + [item];
      assert AllOf(t, before) by { assert forall i :: 0 <= i < |before| ==> before[i] == (items + later)[i]; }
      StuckStays(rules, t, items, later[..|later| - 1]);
      RunIsGood(rules, t, before);
      assert (items + later)[|before|] == item;
      StuckStep(rules, FlowRun(rules, t, before), item);
    }
  }
}
