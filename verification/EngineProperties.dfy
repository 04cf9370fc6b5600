/**
 * Runs of the sequential engine: flows do not influence each other, the report is the sum of what the flows contribute,
 * and the counters agree with the flow table in every reachable state.
 */
module EngineProperties {
  import opened Bytes
  import opened Wrappers
  import opened Types
  import opened BlockRules
  import opened FlowSpec
  import opened FlowProperties

  // ---- Selecting packets ---------------------------------------------------------------------------

  /** The IPv4 packets whose tuple falls in class k of classifier c, in order. */
  ghost function Only<K(!new)>(items: seq<Item>, c: FiveTuple -> K, k: K): seq<Item> {
    if items == [] then [] else
    var kept, last := Only(items[..|items| - 1], c, k), items[|items| - 1];
    if last.parsed.hasIp && c(last.Tuple()) == k then kept + [last] else kept
  }

  /** Each tuple is its own class. */
  function Self(t: FiveTuple): FiveTuple { t }

  lemma OnlyLast<K(!new)>(before: seq<Item>, item: Item, c: FiveTuple -> K, k: K)
    ensures Only(before + [item], c, k) ==
            if item.parsed.hasIp && c(item.Tuple()) == k then Only(before, c, k) + [item] else Only(before, c, k)
  {
    assert (before + [item])[..|before|] == before;
  }

  /** Classifying does not reorder or drop the packets of any one tuple. */
  lemma {:induction false} OnlyWithin<K(!new)>(items: seq<Item>, c: FiveTuple -> K, t: FiveTuple)
    ensures Only(Only(items, c, c(t)), Self, t) == Only(items, Self, t)
  {
    if items != [] {
      var before, last := items[..|items| - 1], items[|items| - 1];
      assert items == before + [last];
      OnlyWithin(before, c, t);
      OnlyLast(before, last, c, c(t));
      OnlyLast(before, last, Self, t);
      OnlyLast(Only(before, c, c(t)), last, Self, t);
    }
  }

  lemma {:induction false} OnlyIsAllOf(items: seq<Item>, t: FiveTuple)
    ensures AllOf(t, Only(items, Self, t))
    ensures forall i :: 0 <= i < |Only(items, Self, t)| ==> Only(items, Self, t)[i].parsed.hasIp
  {
    if items != [] { OnlyIsAllOf(items[..|items| - 1], t); }
  }

  // ---- Flow isolation ------------------------------------------------------------------------------

  lemma RunLast(rules: Rules, before: seq<Item>, item: Item)
    ensures EngineRun(rules, before + [item]) == EngineStep(rules, EngineRun(rules, before), item)
  {
    assert (before + [item])[..|before|] == before;
  }

  lemma FlowRunLast(rules: Rules, t: FiveTuple, before: seq<Item>, item: Item)
    ensures FlowRun(rules, t, before + [item]) == FlowStep(rules, FlowRun(rules, t, before), item).0
  {
    assert (before + [item])[..|before|] == before;
  }

  /** The state of a flow is the state its own packets alone lead to. */
  lemma {:induction false} FlowIsolation(rules: Rules, items: seq<Item>, t: FiveTuple)
    ensures t in EngineRun(rules, items).flows <==> Only(items, Self, t) != []
    ensures FlowOf(EngineRun(rules, items), t) == FlowRun(rules, t, Only(items, Self, t))
  {
    if items != [] {
      var before, last := items[..|items| - 1], items[|items| - 1];
      assert items == before + [last];
      FlowIsolation(rules, before, t);
      OnlyLast(before, last, Self, t);
      RunLast(rules, before, last);
      FlowRunLast(rules, t, Only(before, Self, t), last);
      hide FlowStep, EngineRun, FlowRun, Only, Apply, Count;
    }
  }

  /** Running a class of tuples on its own leaves each of its flows as the full run does. */
  lemma SameFlowInClass<K(!new)>(rules: Rules, items: seq<Item>, c: FiveTuple -> K, t: FiveTuple)
    ensures FlowOf(EngineRun(rules, Only(items, c, c(t))), t) == FlowOf(EngineRun(rules, items), t)
    ensures t in EngineRun(rules, Only(items, c, c(t))).flows <==> t in EngineRun(rules, items).flows
  {
    hide EngineRun, FlowRun, Only, FlowOf;
    FlowIsolation(rules, items, t);
    FlowIsolation(rules, Only(items, c, c(t)), t);
    OnlyWithin(items, c, t);
  }

  // ---- Sums of contributions -----------------------------------------------------------------------

  /** A report without the order of its lists. */
  datatype Tally = Tally(
    packets: nat, flows: nat, blockedFlows: nat, blockedPackets: nat, entries: multiset<Entry>, snis: multiset<bytes>)
  {
    function Plus(o: Tally): Tally {
      Tally(packets + o.packets, flows + o.flows, blockedFlows + o.blockedFlows, blockedPackets + o.blockedPackets,
            entries + o.entries, snis + o.snis)
    }
  }

  const ZERO: Tally := Tally(0, 0, 0, 0, multiset{}, multiset{})

  function TallyOf(r: Report): Tally {
    Tally(r.totalPackets, r.totalFlows, r.blockedFlows, r.blockedPackets, multiset(r.entries), multiset(r.snis))
  }

  lemma PlusLaws(a: Tally, b: Tally, c: Tally)
    ensures a.Plus(b) == b.Plus(a)
    ensures a.Plus(b).Plus(c) == a.Plus(b.Plus(c))
    ensures a.Plus(ZERO) == a
  {
  }

  ghost function Pick<K(!new)>(keys: set<K>): (k: K)
    requires keys != {}
    ensures k in keys
  {
    var k :| k in keys; k
  }

  ghost function SumOver<K(!new)>(keys: set<K>, f: K -> Tally): Tally {
    if keys == {} then ZERO else f(Pick(keys)).Plus(SumOver(keys - {Pick(keys)}, f))
  }

  lemma {:induction false} SumPick<K(!new)>(keys: set<K>, f: K -> Tally, x: K)
    requires x in keys
    ensures SumOver(keys, f) == f(x).Plus(SumOver(keys - {x}, f))
    decreases |keys|
  {
    hide Tally.Plus;
    var k := Pick(keys);
    if k != x {
      SumPick(keys - {k}, f, x);
      SumPick(keys - {x}, f, k);
      assert keys - {k} - {x} == keys - {x} - {k};
      var rest := SumOver(keys - {x} - {k}, f);
      PlusLaws(f(k), f(x), rest);
      PlusLaws(f(x), f(k), rest);
    }
  }

  lemma {:induction false} SumSame<K(!new)>(keys: set<K>, f: K -> Tally, g: K -> Tally)
    requires forall k :: k in keys ==> f(k) == g(k)
    ensures SumOver(keys, f) == SumOver(keys, g)
    decreases |keys|
  {
    hide Tally.Plus;
    if keys == {} {
      assert SumOver(keys, f) == ZERO && SumOver(keys, g) == ZERO;
    } else {
      var k := Pick(keys);
      SumSame(keys - {k}, f, g);
    }
  }

  lemma SumChange<K(!new)>(keys: set<K>, f: K -> Tally, g: K -> Tally, x: K, d: Tally)
    requires x in keys && g(x) == f(x).Plus(d)
    requires forall k :: k in keys && k != x ==> g(k) == f(k)
    ensures SumOver(keys, g) == SumOver(keys, f).Plus(d)
  {
    hide Tally.Plus, SumOver;
    SumPick(keys, f, x);
    SumPick(keys, g, x);
    SumSame(keys - {x}, f, g);
    var rest := SumOver(keys - {x}, f);
    PlusLaws(f(x), d, rest);
    PlusLaws(f(x), rest, d);
    PlusLaws(d, rest, ZERO);
  }

  lemma {:induction false} SumZero<K(!new)>(keys: set<K>, f: K -> Tally)
    requires forall k :: k in keys ==> f(k) == ZERO
    ensures SumOver(keys, f) == ZERO
    decreases |keys|
  {
    hide Tally.Plus;
    if keys == {} {
      assert SumOver(keys, f) == ZERO;
    } else {
      SumZero(keys - {Pick(keys)}, f);
      PlusLaws(ZERO, ZERO, ZERO);
    }
  }

  // ---- The report is the sum over any classification -----------------------------------------------

  /** What one packet adds, given the flow it meets. */
  function Contribution(rules: Rules, flow: Flow, isNew: bool, item: Item): Tally {
    TallyOf(Apply(Count(NO_REPORT, isNew), FlowStep(rules, flow, item).1))
  }

  lemma StepContributes(rules: Rules, e: Engine, item: Item)
    requires item.parsed.hasIp
    ensures TallyOf(EngineStep(rules, e, item).report) ==
            TallyOf(e.report).Plus(Contribution(rules, FlowOf(e, item.Tuple()), item.Tuple() !in e.flows, item))
  {
    hide FlowStep, FlowOf;
  }

  /** The reports of running each class on its own. */
  ghost function ClassTally<K(!new)>(rules: Rules, items: seq<Item>, c: FiveTuple -> K): K -> Tally {
    k => TallyOf(EngineRun(rules, Only(items, c, k)).report)
  }

  ghost predicate ClassesIn<K(!new)>(items: seq<Item>, c: FiveTuple -> K, keys: set<K>) {
    forall i :: 0 <= i < |items| && items[i].parsed.hasIp ==> c(items[i].Tuple()) in keys
  }

  /**
   * However the tuples are classified, running the classes separately and adding their reports gives the report of
   * running everything together.
   */
  lemma {:induction false} ReportIsSumOfClasses<K(!new)>(rules: Rules, items: seq<Item>, c: FiveTuple -> K, keys: set<K>)
    requires ClassesIn(items, c, keys)
    ensures TallyOf(EngineRun(rules, items).report) == SumOver(keys, ClassTally(rules, items, c))
  {
    if items == [] {
      SumZero(keys, ClassTally(rules, items, c));
    } else {
      var before, last := items[..|items| - 1], items[|items| - 1];
      assert items == before + [last];
      ReportIsSumOfClasses(rules, before, c, keys);
      RunLast(rules, before, last);
      ClassesAfter(rules, before, last, c);
      hide EngineRun, EngineStep, Only, ClassTally, TallyOf;
      if last.parsed.hasIp {
        var t := last.Tuple();
        assert c(t) in keys;
        var d := Contribution(rules, FlowOf(EngineRun(rules, before), t), t !in EngineRun(rules, before).flows, last);
        StepContributes(rules, EngineRun(rules, before), last);
        SumChange(keys, ClassTally(rules, before, c), ClassTally(rules, items, c), c(t), d);
      } else {
        SkippedStep(rules, EngineRun(rules, before), last);
        SumSame(keys, ClassTally(rules, items, c), ClassTally(rules, before, c));
      }
    }
  }

  lemma SkippedStep(rules: Rules, e: Engine, item: Item)
    requires !item.parsed.hasIp
    ensures EngineStep(rules, e, item) == e
  {
  }

  /** One more packet changes the tally of its own class only, by its contribution. */
  lemma ClassesAfter<K(!new)>(rules: Rules, before: seq<Item>, item: Item, c: FiveTuple -> K)
    ensures forall k :: !(item.parsed.hasIp && c(item.Tuple()) == k) ==>
              ClassTally(rules, before + [item], c)(k) == ClassTally(rules, before, c)(k)
    ensures item.parsed.hasIp ==>
              var t, e := item.Tuple(), EngineRun(rules, before);
              ClassTally(rules, before + [item], c)(c(t)) ==
              ClassTally(rules, before, c)(c(t)).Plus(Contribution(rules, FlowOf(e, t), t !in e.flows, item))
  {
    hide EngineRun, EngineStep, Only, TallyOf, FlowOf, Contribution;
    forall k
      ensures Only(before + [item], c, k) ==
              if item.parsed.hasIp && c(item.Tuple()) == k then Only(before, c, k) + [item] else Only(before, c, k)
    {
      OnlyLast(before, item, c, k);
    }
    if item.parsed.hasIp {
      var t := item.Tuple();
      RunLast(rules, Only(before, c, c(t)), item);
      SameFlowInClass(rules, before, c, t);
      StepContributes(rules, EngineRun(rules, Only(before, c, c(t))), item);
    }
  }

  // ---- Accounting ----------------------------------------------------------------------------------

  ghost function BlockedTuples(e: Engine): set<FiveTuple> {
    set t | t in e.flows && e.flows[t].blocked
  }

  ghost predicate AllowedAs(e: Engine, t: FiveTuple, sni: bytes) {
    t in e.flows && !e.flows[t].blocked && e.flows[t].track.status == Found && e.flows[t].track.sni == sni
  }

  ghost predicate FlowsGood(rules: Rules, e: Engine) {
    forall t :: t in e.flows ==> e.flows[t].tuple == t && e.flows[t].packetCount > 0 && FlowGood(rules, e.flows[t])
  }

  /** Each entry names a blocked flow, with the reason the flow holds. */
  ghost predicate EntriesGood(e: Engine) {
    && (forall en :: en in e.report.entries ==> en.tuple in BlockedTuples(e) && e.flows[en.tuple].reason == Some(en.reason))
    && (forall t :: t in BlockedTuples(e) ==> exists en :: en in e.report.entries && en.tuple == t)
  }

  /** The counters, the entries and the names agree with the flow table. */
  ghost predicate Accounted(rules: Rules, e: Engine) {
    && FlowsGood(rules, e)
    && e.report.totalFlows == |e.flows|
    && e.report.blockedFlows == |e.report.entries| == |BlockedTuples(e)|
    && EntriesGood(e)
    && (forall sni :: sni in e.report.snis <==> exists t :: AllowedAs(e, t, sni))
  }

  lemma FlowOfGood(rules: Rules, e: Engine, t: FiveTuple)
    requires FlowsGood(rules, e)
    ensures FlowGood(rules, FlowOf(e, t)) && FlowOf(e, t).tuple == t
  {
    FreshIsGood(rules, t);
  }

  function NewEntry(f: Flow): Entry
    requires f.reason.Some?
  {
    Entry(f.tuple, if f.reason.value.DomainRule? then Some(f.track.sni) else None, f.reason.value)
  }

  /** One step in terms of the flow f before and the flow g after. */
  ghost predicate StepFacts(rules: Rules, e: Engine, e': Engine, t: FiveTuple, f: Flow, g: Flow) {
    && (if t in e.flows then f == e.flows[t] else !f.blocked && f.track.status != Found)
    && e'.flows == e.flows[t := g]
    && g.tuple == t && g.packetCount > 0 && FlowGood(rules, g)
    && (f.blocked ==> g.blocked && g.reason == f.reason)
    && (t in e.flows && f.track.status == Found && !f.blocked ==> !g.blocked && g.track == f.track)
    && (g.blocked ==> g.reason.Some?)
    && e'.report.totalFlows == (if t in e.flows then e.report.totalFlows else e.report.totalFlows + 1)
    && e'.report.blockedFlows == (if g.blocked && !f.blocked then e.report.blockedFlows + 1 else e.report.blockedFlows)
    && e'.report.entries == e.report.entries + (if g.blocked && !f.blocked then [NewEntry(g)] else [])
    && e'.report.snis == e.report.snis + (if !g.blocked && g.track.status == Found then [g.track.sni] else [])
  }

  lemma StepHasFacts(rules: Rules, e: Engine, item: Item)
    requires FlowsGood(rules, e) && item.parsed.hasIp
    ensures var f := FlowOf(e, item.Tuple());
            StepFacts(rules, e, EngineStep(rules, e, item), item.Tuple(), f, FlowStep(rules, f, item).0)
  {
    var t := item.Tuple();
    var f := FlowOf(e, t);
    assert t !in e.flows ==> f == Fresh(t);
    hide FlowStep, FlowGood;
    FlowOfGood(rules, e, t);
    StepIsGood(rules, f, item);
    StepAbsorbs(rules, f, item);
    StepReports(rules, f, item);
    if FlowStep(rules, f, item).0.blocked { BlockedHasReason(rules, FlowStep(rules, f, item).0); }
  }

  lemma BlockedHasReason(rules: Rules, f: Flow)
    requires FlowGood(rules, f) && f.blocked
    ensures f.reason.Some?
  {
  }

  lemma OneFlowChanged(rules: Rules, e: Engine, e': Engine, t: FiveTuple, g: Flow)
    requires FlowsGood(rules, e) && e'.flows == e.flows[t := g]
    requires g.tuple == t && g.packetCount > 0 && FlowGood(rules, g)
    ensures FlowsGood(rules, e') && |e'.flows| == if t in e.flows then |e.flows| else |e.flows| + 1
  {
    hide FlowGood;
    OneKeyMore(e.flows, t, g);
  }

  lemma OneKeyMore(flows: map<FiveTuple, Flow>, t: FiveTuple, g: Flow)
    ensures |flows[t := g]| == if t in flows then |flows| else |flows| + 1
  {
    assert flows[t := g].Keys == flows.Keys + {t};
  }

  lemma FactsBlocked(rules: Rules, e: Engine, e': Engine, t: FiveTuple, f: Flow, g: Flow)
    requires StepFacts(rules, e, e', t, f, g)
    ensures BlockedTuples(e') == if g.blocked then BlockedTuples(e) + {t} else BlockedTuples(e)
    ensures t in BlockedTuples(e) <==> f.blocked
    ensures f.blocked ==> g.blocked
  {
    hide FlowGood;
  }

  lemma FactsCount(rules: Rules, e: Engine, e': Engine, t: FiveTuple, f: Flow, g: Flow)
    requires Accounted(rules, e) && StepFacts(rules, e, e', t, f, g)
    ensures FlowsGood(rules, e')
    ensures e'.report.totalFlows == |e'.flows|
    ensures e'.report.blockedFlows == |e'.report.entries| == |BlockedTuples(e')|
  {
    hide FlowGood, FlowsGood, EntriesGood, BlockedTuples, AllowedAs;
    OneFlowChanged(rules, e, e', t, g);
    FactsBlocked(rules, e, e', t, f, g);
    assert |BlockedTuples(e')| == if g.blocked && !f.blocked then |BlockedTuples(e)| + 1 else |BlockedTuples(e)| by {
      if f.blocked { assert BlockedTuples(e) + {t} == BlockedTuples(e); }
    }
  }

  lemma FactsEntries(rules: Rules, e: Engine, e': Engine, t: FiveTuple, f: Flow, g: Flow)
    requires Accounted(rules, e) && StepFacts(rules, e, e', t, f, g)
    ensures EntriesGood(e')
  {
    hide FlowGood, FlowsGood;
    forall u | u in BlockedTuples(e')
      ensures exists en :: en in e'.report.entries && en.tuple == u
    {
      if u in BlockedTuples(e) {
        var en :| en in e.report.entries && en.tuple == u;
        assert en in e'.report.entries;
      } else {
        assert NewEntry(g) in e'.report.entries;
      }
    }
  }

  lemma FactsSnis(rules: Rules, e: Engine, e': Engine, t: FiveTuple, f: Flow, g: Flow)
    requires Accounted(rules, e) && StepFacts(rules, e, e', t, f, g)
    ensures forall sni :: sni in e'.report.snis <==> exists u :: AllowedAs(e', u, sni)
  {
    hide FlowGood, FlowsGood, EntriesGood;
    forall sni
      ensures sni in e'.report.snis <==> exists u :: AllowedAs(e', u, sni)
    {
      if sni in e.report.snis {
        var u :| AllowedAs(e, u, sni);
        assert AllowedAs(e', u, sni);
      }
      if sni in e'.report.snis && sni !in e.report.snis {
        assert AllowedAs(e', t, sni);
      }
      if exists u :: AllowedAs(e', u, sni) {
        var u :| AllowedAs(e', u, sni);
        if u != t { assert AllowedAs(e, u, sni); }
      }
    }
  }

  /** Counters, entries and observed names agree with the flow table in every reachable state. */
  lemma {:induction false} RunIsAccounted(rules: Rules, items: seq<Item>)
    ensures Accounted(rules, EngineRun(rules, items))
  {
    if items == [] {
      assert BlockedTuples(NO_ENGINE) == {};
    } else {
      hide EngineStep;
      var e, last := EngineRun(rules, items[..|items| - 1]), items[|items| - 1];
      RunIsAccounted(rules, items[..|items| - 1]);
      if last.parsed.hasIp {
        var t, f := last.Tuple(), FlowOf(e, last.Tuple());
        var g, e' := FlowStep(rules, f, last).0, EngineStep(rules, e, last);
        StepHasFacts(rules, e, last);
        hide StepFacts, FlowStep, FlowsGood, EntriesGood;
        FactsCount(rules, e, e', t, f, g);
        FactsEntries(rules, e, e', t, f, g);
        FactsSnis(rules, e, e', t, f, g);
      } else {
        SkippedStep(rules, e, last);
      }
    }
  }

  // ---- The report only grows -------------------------------------------------------------------------

  /** Nothing reported is ever taken back or reordered: entries and names are appended, and no counter falls. */
  ghost predicate Continues(r: Report, later: Report) {
    && r.entries <= later.entries && r.snis <= later.snis
    && r.totalPackets <= later.totalPackets && r.totalFlows <= later.totalFlows
    && r.blockedFlows <= later.blockedFlows && r.blockedPackets <= later.blockedPackets
  }

  lemma StepContinues(rules: Rules, e: Engine, item: Item)
    ensures Continues(e.report, EngineStep(rules, e, item).report)
  {
    hide FlowStep, FlowOf;
  }

  lemma {:induction false} ReportContinues(rules: Rules, items: seq<Item>, more: seq<Item>)
    ensures Continues(EngineRun(rules, items).report, EngineRun(rules, items + more).report)
  {
    hide EngineRun, EngineStep;
    if more == [] {
      assert items + more == items;
    } else {
      var before, last := items + more[..|more| - 1], more[|more| - 1];
      assert items + more == before + [last];
      ReportContinues(rules, items, more[..|more| - 1]);
      RunLast(rules, before, last);
      StepContinues(rules, EngineRun(rules, before), last);
    }
  }

  // ---- The contribution of one flow ----------------------------------------------------------------

  /** Packets from the blocking one on. */
  ghost function BlockedPackets(rules: Rules, t: FiveTuple, items: seq<Item>): nat {
    if items == [] then 0
    else BlockedPackets(rules, t, items[..|items| - 1]) + (if FlowRun(rules, t, items).blocked then 1 else 0)
  }

  /** The name once for every packet from the resolving one on, unless the flow is blocked. */
  ghost function AllowedNames(rules: Rules, t: FiveTuple, items: seq<Item>): multiset<bytes> {
    if items == [] then multiset{}
    else AllowedNames(rules, t, items[..|items| - 1]) + NewNames(FlowRun(rules, t, items))
  }

  ghost function FlowTally(rules: Rules, t: FiveTuple, items: seq<Item>): Tally {
    var f := FlowRun(rules, t, items);
    Tally(f.packetCount,
          if items == [] then 0 else 1,
          if f.blocked then 1 else 0,
          BlockedPackets(rules, t, items),
          NewEntries(f),
          AllowedNames(rules, t, items))
  }

  ghost function NewEntries(f: Flow): multiset<Entry> {
    if f.blocked && f.reason.Some? then multiset{NewEntry(f)} else multiset{}
  }

  ghost function NewNames(f: Flow): multiset<bytes> {
    if !f.blocked && f.track.status == Found then multiset{f.track.sni} else multiset{}
  }

  lemma EffectTally(isNew: bool, e: Effect)
    ensures TallyOf(Apply(Count(NO_REPORT, isNew), e)) ==
            Tally(1, if isNew then 1 else 0, |e.entries|, if e.blockedPacket then 1 else 0,
                  multiset(e.entries), multiset(e.snis))
  {
    assert [] + e.entries == e.entries && [] + e.snis == e.snis;
  }

  lemma ContributionIs(rules: Rules, f: Flow, isNew: bool, item: Item)
    requires FlowGood(rules, f) && item.Tuple() == f.tuple
    ensures var g := FlowStep(rules, f, item).0;
            Contribution(rules, f, isNew, item) ==
            Tally(1, if isNew then 1 else 0, if g.blocked && !f.blocked then 1 else 0, if g.blocked then 1 else 0,
                  if f.blocked then multiset{} else NewEntries(g), NewNames(g))
  {
    hide FlowStep, FlowGood, Apply, Count, TallyOf;
    StepReports(rules, f, item);
    StepIsGood(rules, f, item);
    var (g, e) := FlowStep(rules, f, item);
    if g.blocked { BlockedHasReason(rules, g); }
    EffectTally(isNew, e);
  }

  lemma TallyPartsLast(rules: Rules, t: FiveTuple, before: seq<Item>, last: Item)
    ensures var g := FlowRun(rules, t, before + [last]);
            && BlockedPackets(rules, t, before + [last]) == BlockedPackets(rules, t, before) + (if g.blocked then 1 else 0)
            && AllowedNames(rules, t, before + [last]) == AllowedNames(rules, t, before) + NewNames(g)
  {
    hide FlowRun, NewNames;
    assert (before + [last])[..|before|] == before;
  }

  lemma TallyStep(rules: Rules, t: FiveTuple, before: seq<Item>, last: Item)
    requires AllOf(t, before + [last])
    ensures FlowTally(rules, t, before + [last]) ==
            FlowTally(rules, t, before).Plus(Contribution(rules, FlowRun(rules, t, before), before == [], last))
  {
    hide FlowStep, FlowGood, FlowRun, Contribution, NewEntries, NewNames, BlockedPackets, AllowedNames;
    var items := before + [last];
    assert last == items[|before|] && last.Tuple() == t;
    assert AllOf(t, before) by { assert forall i :: 0 <= i < |before| ==> before[i] == items[i]; }
    var f, g := FlowRun(rules, t, before), FlowRun(rules, t, items);
    RunIsGood(rules, t, before);
    FlowRunLast(rules, t, before, last);
    StepIsGood(rules, f, last);
    StepAbsorbs(rules, f, last);
    ContributionIs(rules, f, before == [], last);
    BlockedStays(f, g);
    TallyPartsLast(rules, t, before, last);
  }

  lemma BlockedStays(f: Flow, g: Flow)
    requires g.tuple == f.tuple
    requires f.blocked ==> g.blocked && g.reason == f.reason && g.track == f.track
    ensures NewEntries(g) == NewEntries(f) + (if f.blocked then multiset{} else NewEntries(g))
  {
  }

  /** The engine on one flow's packets alone reports exactly that flow's contribution. */
  lemma {:induction false} OneFlowReport(rules: Rules, t: FiveTuple, items: seq<Item>)
    requires AllOf(t, items) && forall i :: 0 <= i < |items| ==> items[i].parsed.hasIp
    ensures TallyOf(EngineRun(rules, items).report) == FlowTally(rules, t, items)
    ensures FlowOf(EngineRun(rules, items), t) == FlowRun(rules, t, items)
    ensures t in EngineRun(rules, items).flows <==> items != []
  {
    if items != [] {
      hide FlowStep, FlowTally, Contribution;
      var before, last := items[..|items| - 1], items[|items| - 1];
      assert items == before + [last];
      OneFlowReport(rules, t, before);
      TallyStep(rules, t, before, last);
      StepContributes(rules, EngineRun(rules, before), last);
    }
  }

  /** The report is the sum of what each flow of the table contributes. */
  lemma ReportIsSumOfFlows(rules: Rules, items: seq<Item>)
    ensures TallyOf(EngineRun(rules, items).report) ==
            SumOver(EngineRun(rules, items).flows.Keys, t => FlowTally(rules, t, Only(items, Self, t)))
  {
    hide EngineRun, Only, FlowTally, TallyOf, SumOver, FlowRun;
    var keys := EngineRun(rules, items).flows.Keys;
    forall i | 0 <= i < |items| && items[i].parsed.hasIp
      ensures Self(items[i].Tuple()) in keys
    {
      FlowIsolation(rules, items, items[i].Tuple());
      OnlyHas(items, i);
    }
    ReportIsSumOfClasses(rules, items, Self, keys);
    var f := (t: FiveTuple) => FlowTally(rules, t, Only(items, Self, t));
    forall t | t in keys
      ensures ClassTally(rules, items, Self)(t) == f(t)
    {
      OnlyIsAllOf(items, t);
      OneFlowReport(rules, t, Only(items, Self, t));
    }
    SumSame(keys, ClassTally(rules, items, Self), f);
  }

  lemma {:induction false} OnlyHas(items: seq<Item>, i: nat)
    requires i < |items| && items[i].parsed.hasIp
    ensures Only(items, Self, items[i].Tuple()) != []
  {
    if i < |items| - 1 { OnlyHas(items[..|items| - 1], i); }
  }

  // ---- How often a name is reported ----------------------------------------------------------------

  /** The name is known and no rule matched it. */
  predicate Allowed(f: Flow) {
    !f.blocked && f.track.status == Found
  }

  /** The flow was allowed before its last packet. */
  predicate AllowedBefore(rules: Rules, t: FiveTuple, items: seq<Item>) {
    items != [] && Allowed(FlowRun(rules, t, items[..|items| - 1]))
  }

  lemma AllowedStays(rules: Rules, t: FiveTuple, items: seq<Item>)
    requires AllOf(t, items) && AllowedBefore(rules, t, items)
    ensures Allowed(FlowRun(rules, t, items))
    ensures FlowRun(rules, t, items).track == FlowRun(rules, t, items[..|items| - 1]).track
  {
    hide FlowStep, FlowGood;
    var before := items[..|items| - 1];
    RunIsGood(rules, t, before);
    StepAbsorbs(rules, FlowRun(rules, t, before), items[|items| - 1]);
    if before == [] { NothingIsAllowed(rules, t); }
  }

  lemma NothingIsAllowed(rules: Rules, t: FiveTuple)
    ensures !Allowed(FlowRun(rules, t, []))
  {
  }

  /** A flow has been reported exactly when it is allowed. */
  lemma {:induction false} ReportedIffAllowed(rules: Rules, t: FiveTuple, items: seq<Item>)
    requires AllOf(t, items)
    ensures AllowedNames(rules, t, items) != multiset{} <==> Allowed(FlowRun(rules, t, items))
  {
    hide FlowRun;
    if items == [] {
      NothingIsAllowed(rules, t);
    } else {
      ReportedIffAllowed(rules, t, items[..|items| - 1]);
      if AllowedBefore(rules, t, items) { AllowedStays(rules, t, items); }
    }
  }

  /** An allowed flow's name is listed exactly once if and only if its last packet was the first that found it allowed. */
  lemma NameListedOnceIff(rules: Rules, t: FiveTuple, items: seq<Item>)
    requires AllOf(t, items) && Allowed(FlowRun(rules, t, items))
    ensures |AllowedNames(rules, t, items)| == 1 <==> !AllowedBefore(rules, t, items)
    ensures NewNames(FlowRun(rules, t, items)) <= AllowedNames(rules, t, items)
  {
    NothingIsAllowed(rules, t);
    hide FlowRun;
    var before := items[..|items| - 1];
    ReportedIffAllowed(rules, t, before);
    assert AllowedNames(rules, t, items) == AllowedNames(rules, t, before) + NewNames(FlowRun(rules, t, items));
    if |AllowedNames(rules, t, before)| == 0 {
      assert AllowedNames(rules, t, before) == multiset{};
    }
  }

  lemma SameSize(a: multiset<bytes>, b: multiset<bytes>)
    requires b <= a
    ensures |b| <= |a| && (a == b <==> |a| == |b|)
  {
    assert a == b + (a - b);
    if |a - b| == 0 { assert a - b == multiset{}; }
  }

  lemma SumsAgreeIff(a1: multiset<bytes>, a2: multiset<bytes>, b1: multiset<bytes>, b2: multiset<bytes>)
    requires b1 <= a1 && b2 <= a2
    ensures b1 + b2 <= a1 + a2 && (a1 + a2 == b1 + b2 <==> a1 == b1 && a2 == b2)
  {
    SameSize(a1, b1);
    SameSize(a2, b2);
    SameSize(a1 + a2, b1 + b2);
    assert |a1 + a2| == |a1| + |a2| && |b1 + b2| == |b1| + |b2|;
  }

  /** Sums of larger name lists agree exactly when every summand does. */
  lemma {:induction false} SumNamesIff<K(!new)>(keys: set<K>, f: K -> Tally, g: K -> Tally)
    requires forall k :: k in keys ==> g(k).snis <= f(k).snis
    ensures SumOver(keys, g).snis <= SumOver(keys, f).snis
    ensures SumOver(keys, f).snis == SumOver(keys, g).snis <==> forall k :: k in keys ==> f(k).snis == g(k).snis
    decreases |keys|
  {
    if keys != {} {
      var k := Pick(keys);
      var rest := keys - {k};
      SumNamesIff(rest, f, g);
      SumsAgreeIff(f(k).snis, SumOver(rest, f).snis, g(k).snis, SumOver(rest, g).snis);
    }
  }

  /** Each name of an allowed flow once. */
  ghost function NamesOnce(rules: Rules, items: seq<Item>): multiset<bytes> {
    SumOver(EngineRun(rules, items).flows.Keys, OnceTally(rules, items)).snis
  }

  ghost function OnceTally(rules: Rules, items: seq<Item>): FiveTuple -> Tally {
    t => ZERO.(snis := NewNames(FlowRun(rules, t, Only(items, Self, t))))
  }

  ghost function FlowTallies(rules: Rules, items: seq<Item>): FiveTuple -> Tally {
    t => FlowTally(rules, t, Only(items, Self, t))
  }

  /**
   * The report lists each allowed flow's name once, as its comment describes, if and only if no flow was allowed before
   * its last packet.
   */
  lemma NamesListedOnceIff(rules: Rules, items: seq<Item>)
    ensures multiset(EngineRun(rules, items).report.snis) == NamesOnce(rules, items) <==>
            forall t :: t in EngineRun(rules, items).flows ==> !AllowedBefore(rules, t, Only(items, Self, t))
  {
    var keys := EngineRun(rules, items).flows.Keys;
    ReportIsFlowTallies(rules, items);
    forall t | t in keys
      ensures OnceTally(rules, items)(t).snis <= FlowTallies(rules, items)(t).snis
      ensures FlowTallies(rules, items)(t).snis == OnceTally(rules, items)(t).snis <==>
              !AllowedBefore(rules, t, Only(items, Self, t))
    {
      OneFlowOnceIff(rules, t, items);
    }
    hide EngineRun, Only, FlowTallies, OnceTally, SumOver, AllowedBefore;
    SumNamesIff(keys, FlowTallies(rules, items), OnceTally(rules, items));
  }

  lemma ReportIsFlowTallies(rules: Rules, items: seq<Item>)
    ensures multiset(EngineRun(rules, items).report.snis) ==
            SumOver(EngineRun(rules, items).flows.Keys, FlowTallies(rules, items)).snis
  {
    hide EngineRun, Only, FlowTally, SumOver;
    ReportIsSumOfFlows(rules, items);
    var f := (t: FiveTuple) => FlowTally(rules, t, Only(items, Self, t));
    SumSame(EngineRun(rules, items).flows.Keys, f, FlowTallies(rules, items));
  }

  lemma OneFlowOnceIff(rules: Rules, t: FiveTuple, items: seq<Item>)
    ensures OnceTally(rules, items)(t).snis <= FlowTallies(rules, items)(t).snis
    ensures FlowTallies(rules, items)(t).snis == OnceTally(rules, items)(t).snis <==>
            !AllowedBefore(rules, t, Only(items, Self, t))
  {
    hide FlowRun, Only, AllowedNames, AllowedBefore;
    var mine := Only(items, Self, t);
    OnlyIsAllOf(items, t);
    ReportedIffAllowed(rules, t, mine);
    if Allowed(FlowRun(rules, t, mine)) {
      NameListedOnceIff(rules, t, mine);
      SameSize(AllowedNames(rules, t, mine), NewNames(FlowRun(rules, t, mine)));
    } else if AllowedBefore(rules, t, mine) {
      AllowedStays(rules, t, mine);
    }
  }
}
