/**
 * The sharded engine of src/concurrent_dpi_engine.cpp as a transition system: one reader, one bounded queue and one
 * worker per shard, each queue stepping through the full locking protocol of module BoundedQueue.
 */
module ConcurrentEngine {
  import opened Bytes
  import opened Wrappers
  import opened Types
  import opened BlockRules
  import opened FlowSpec
  import opened EngineProperties
  import opened PcapReader
  import opened Capture
  import Q = BoundedQueue

  // ---- Merging reports -----------------------------------------------------------------------------

  /** src's counters are added to dst's and its lists appended. */
  function Merge(dst: Report, src: Report): Report {
    Report(dst.totalPackets + src.totalPackets, dst.totalFlows + src.totalFlows, dst.blockedFlows + src.blockedFlows,
           dst.blockedPackets + src.blockedPackets, dst.entries + src.entries, dst.snis + src.snis)
  }

  function MergeAll(reports: seq<Report>): Report {
    if reports == [] then NO_REPORT else Merge(MergeAll(reports[..|reports| - 1]), reports[|reports| - 1])
  }

  method MergeReports(engines: seq<Engine>) returns (merged: Report)
    ensures merged == MergeAll(Reports(engines))
  {
    merged := NO_REPORT;
    for i := 0 to |engines|
      invariant merged == MergeAll(Reports(engines)[..i])
    {
      var src := engines[i].report;
      merged := merged.(totalPackets := merged.totalPackets + src.totalPackets);
      merged := merged.(totalFlows := merged.totalFlows + src.totalFlows);
      merged := merged.(blockedFlows := merged.blockedFlows + src.blockedFlows);
      merged := merged.(blockedPackets := merged.blockedPackets + src.blockedPackets);
      merged := merged.(entries := merged.entries + src.entries);
      merged := merged.(snis := merged.snis + src.snis);
      assert Reports(engines)[..i + 1][..i] == Reports(engines)[..i];
    }
    assert Reports(engines)[..|engines|] == Reports(engines);
  }

  function Reports(engines: seq<Engine>): (r: seq<Report>)
    ensures |r| == |engines|
  {
    seq(|engines|, i requires 0 <= i < |engines| => engines[i].report)
  }

  /** The lists one after the other. */
  function Joined<T>(lists: seq<seq<T>>): seq<T> {
    if lists == [] then [] else lists[0] + Joined(lists[1..])
  }

  lemma {:induction false} JoinedLast<T>(before: seq<seq<T>>, last: seq<T>)
    ensures Joined(before + [last]) == Joined(before) + last
  {
    if before == [] {
      assert [] + [last] == [last] && Joined([last][1..]) == [];
    } else {
      JoinedLast(before[1..], last);
      assert (before + [last])[1..] == before[1..] + [last];
    }
  }

  function EntryLists(reports: seq<Report>): seq<seq<Entry>> {
    seq(|reports|, i requires 0 <= i < |reports| => reports[i].entries)
  }

  function NameLists(reports: seq<Report>): seq<seq<bytes>> {
    seq(|reports|, i requires 0 <= i < |reports| => reports[i].snis)
  }

  /** The merged lists are those of the shards, one after the other in the order of the shards. */
  lemma {:induction false} MergeKeepsOrder(reports: seq<Report>)
    ensures MergeAll(reports).entries == Joined(EntryLists(reports))
    ensures MergeAll(reports).snis == Joined(NameLists(reports))
  {
    if reports != [] {
      var before, last := reports[..|reports| - 1], reports[|reports| - 1];
      MergeKeepsOrder(before);
      assert EntryLists(reports) == EntryLists(before) + [last.entries];
      assert NameLists(reports) == NameLists(before) + [last.snis];
      JoinedLast(EntryLists(before), last.entries);
      JoinedLast(NameLists(before), last.snis);
    }
  }

  // ---- The system ----------------------------------------------------------------------------------

  const READER: Q.Tid := 0
  const WORKER: Q.Tid := 1

  /** Zero workers or zero capacity are raised to one; the hash is any function of the tuple. */
  datatype Config = Config(
    rules: Rules, numWorkers: nat, queueCapacity: nat, hash: FiveTuple -> nat, packets: seq<RawPacket>)
  {
    function N(): (n: nat)
      ensures n > 0
    {
      if numWorkers > 0 then numWorkers else 1
    }

    function C(): (c: nat)
      ensures c > 0
    {
      if queueCapacity > 0 then queueCapacity else 1
    }

    function Shard(): (f: FiveTuple -> nat)
      ensures forall t :: f(t) < N()
    {
      var n := N();
      (t: FiveTuple) => hash(t) % n
    }
  }

  datatype Reader =
    | Reading
    | Pushing(k: nat)
    | Closing(k: nat)
    | CloseCalled(k: nat)
    | Joining(k: nat)
    | Finished

  datatype Worker = Worker(engine: Engine, exited: bool)

  /** Packets read, what the reader is doing, a queue and a worker per shard, and the merged report at the end. */
  datatype System = System(
    pos: nat, reader: Reader, queues: seq<Q.Monitor<Item>>, workers: seq<Worker>, merged: Report)

  datatype Action =
    | ReadNext
    | ReadEnd
    | PushReturned
    | CallClose
    | CloseReturned
    | AllClosed
    | Join
    | MergeReport
    | WorkerNext(i: nat)
    | WorkerExit(i: nat)
    | QueueMove(i: nat, mv: Q.Move<Item>)

  /** Where a packet goes: nowhere unless it parses as IPv4. */
  function Place(cfg: Config, raw: RawPacket): Option<(nat, Item)> {
    var items := ItemOf(raw);
    if items == [] || !items[0].parsed.hasIp then None
    else Some((cfg.Shard()(items[0].Tuple()), items[0]))
  }

  predicate Shaped(cfg: Config, s: System) {
    && |s.queues| == |s.workers| == cfg.N()
    && (forall i :: 0 <= i < cfg.N() ==> s.queues[i].pcs.Keys == {READER, WORKER})
  }

  function At(s: System, i: nat, t: Q.Tid): Q.Pc<Item>
    requires i < |s.queues| && t in s.queues[i].pcs
  {
    s.queues[i].pcs[t]
  }

  predicate Enabled(cfg: Config, s: System, a: Action) {
    Shaped(cfg, s) &&
    match a
    case ReadNext =>
      s.reader.Reading? && s.pos < |cfg.packets| &&
      var place := Place(cfg, cfg.packets[s.pos]);
      place.Some? ==> At(s, place.value.0, READER).Out?
    case ReadEnd => s.reader.Reading? && s.pos == |cfg.packets|
    case PushReturned =>
      s.reader.Pushing? && s.reader.k < cfg.N() && At(s, s.reader.k, READER).Out? &&
      At(s, s.reader.k, READER).ret.Pushed?
    case CallClose => s.reader.Closing? && s.reader.k < cfg.N() && At(s, s.reader.k, READER).Out?
    case CloseReturned => s.reader.CloseCalled? && s.reader.k < cfg.N() && At(s, s.reader.k, READER).Out?
    case AllClosed => s.reader.Closing? && s.reader.k == cfg.N()
    case Join => s.reader.Joining? && s.reader.k < cfg.N() && s.workers[s.reader.k].exited
    case MergeReport => s.reader.Joining? && s.reader.k == cfg.N()
    case WorkerNext(i) =>
      i < cfg.N() && !s.workers[i].exited && At(s, i, WORKER).Out? && At(s, i, WORKER).ret != Q.Popped(None)
    case WorkerExit(i) => i < cfg.N() && !s.workers[i].exited && At(s, i, WORKER) == Q.Out(Q.Popped(None))
    case QueueMove(i, mv) => i < cfg.N() && !mv.Call? && Q.Enabled(s.queues[i], mv)
  }

  function Call(m: Q.Monitor<Item>, t: Q.Tid, entry: Q.Pc<Item>): Q.Monitor<Item>
    requires t in m.pcs && m.pcs[t].Out? && Q.IsEntry(entry)
  {
    Q.Do(m, Q.Call(t, entry))
  }

  /** A worker runs its engine on the packet it holds, if any. */
  function Consume(rules: Rules, e: Engine, ret: Q.Ret<Item>): Engine {
    if ret.Popped? && ret.item.Some? then EngineStep(rules, e, ret.item.value) else e
  }

  function Engines(workers: seq<Worker>): (r: seq<Engine>)
    ensures |r| == |workers|
  {
    seq(|workers|, i requires 0 <= i < |workers| => workers[i].engine)
  }

  function Do(cfg: Config, s: System, a: Action): System
    requires Enabled(cfg, s, a)
  {
    match a
    case ReadNext =>
      (match Place(cfg, cfg.packets[s.pos])
       case None => s.(pos := s.pos + 1)
       case Some((k, item)) =>
         s.(pos := s.pos + 1, reader := Pushing(k),
            queues := s.queues[k := Call(s.queues[k], READER, Q.WantPush(item))]))
    case ReadEnd => s.(reader := Closing(0))
    case PushReturned => s.(reader := if At(s, s.reader.k, READER).ret.ok then Reading else Closing(0))
    case CallClose =>
      var k := s.reader.k;
      s.(reader := CloseCalled(k), queues := s.queues[k := Call(s.queues[k], READER, Q.WantClose)])
    case CloseReturned => s.(reader := Closing(s.reader.k + 1))
    case AllClosed => s.(reader := Joining(0))
    case Join => s.(reader := Joining(s.reader.k + 1))
    case MergeReport => s.(reader := Finished, merged := MergeAll(Reports(Engines(s.workers))))
    case WorkerNext(i) =>
      var w := s.workers[i];
      s.(workers := s.workers[i := w.(engine := Consume(cfg.rules, w.engine, At(s, i, WORKER).ret))],
         queues := s.queues[i := Call(s.queues[i], WORKER, Q.WantPop)])
    case WorkerExit(i) => s.(workers := s.workers[i := s.workers[i].(exited := true)])
    case QueueMove(i, mv) => s.(queues := s.queues[i := Q.Do(s.queues[i], mv)])
  }

  function Start(cfg: Config): System {
    System(0, Reading, seq(cfg.N(), _ => Q.Start(cfg.C(), {READER, WORKER})),
           seq(cfg.N(), _ => Worker(NO_ENGINE, false)), NO_REPORT)
  }

  ghost predicate IsRun(cfg: Config, s: System, actions: seq<Action>, s': System)
    decreases |actions|
  {
    if actions == [] then s' == s
    else Enabled(cfg, s, actions[0]) && IsRun(cfg, Do(cfg, s, actions[0]), actions[1..], s')
  }

  // ---- The invariant -------------------------------------------------------------------------------

  /** The packet the reader still has to enqueue. */
  function InFlight(pc: Q.Pc<Item>): seq<Item> {
    if pc.WantPush? || pc.SleepPush? then [pc.item] else []
  }

  /** The packet the worker has taken and not yet run. */
  function Hand(pc: Q.Pc<Item>): seq<Item> {
    if pc.NotifyFull? then [pc.item]
    else if pc.Out? && pc.ret.Popped? && pc.ret.item.Some? then [pc.ret.item.value]
    else []
  }

  /** The reader's place in queue i agrees with what it is doing. */
  ghost predicate ReaderAt(rd: Reader, i: nat, pc: Q.Pc<Item>, closed: bool, exited: bool) {
    match rd
    case Reading => pc.Out? && !closed
    case Pushing(k) =>
      !closed && if i == k then pc.WantPush? || pc.SleepPush? || pc.NotifyEmpty? || pc == Q.Out(Q.Pushed(true)) else pc.Out?
    case Closing(k) => pc.Out? && (closed <==> i < k)
    case CloseCalled(k) =>
      if i == k then (pc.WantClose? && !closed) || (closed && (pc.CloseNotifyEmpty? || pc.CloseNotifyFull? || pc.Out?))
      else pc.Out? && (closed <==> i < k)
    case Joining(k) => pc.Out? && closed && (i < k ==> exited)
    case Finished => pc.Out? && closed && exited
  }

  /** The worker has run its engine on everything popped but the packet it holds. */
  ghost predicate WorkerAt(rules: Rules, pc: Q.Pc<Item>, popped: seq<Item>, w: Worker) {
    && (pc.WantPop? || pc.SleepPop? || pc.NotifyFull? || (pc.Out? && (pc.ret == Q.Nothing || pc.ret.Popped?)))
    && (w.exited ==> pc == Q.Out(Q.Popped(None)))
    && |Hand(pc)| <= |popped|
    && var n := |popped| - |Hand(pc)|;
       popped[n..] == Hand(pc) && w.engine == EngineRun(rules, popped[..n])
  }

  /** The packets of shard i among those read so far. */
  ghost function Sent(cfg: Config, pos: nat, i: nat): seq<Item>
    requires pos <= |cfg.packets|
  {
    Only(Items(cfg.packets[..pos]), cfg.Shard(), i)
  }

  ghost predicate QueueGood(cfg: Config, pos: nat, rd: Reader, i: nat, m: Q.Monitor<Item>, w: Worker)
    requires pos <= |cfg.packets|
  {
    && Q.Inv(m)
    && m.buffer.capacity == cfg.C()
    && m.pcs.Keys == {READER, WORKER}
    && ReaderAt(rd, i, m.pcs[READER], m.buffer.closed, w.exited)
    && m.pushed + InFlight(m.pcs[READER]) == Sent(cfg, pos, i)
    && WorkerAt(cfg.rules, m.pcs[WORKER], m.popped, w)
  }

  ghost predicate ReaderGood(cfg: Config, s: System) {
    && s.pos <= |cfg.packets|
    && (if s.reader.Reading? || s.reader.Pushing? then true else s.pos == |cfg.packets|)
    && (s.reader.Pushing? || s.reader.CloseCalled? ==> s.reader.k < cfg.N())
    && (s.reader.Closing? || s.reader.Joining? ==> s.reader.k <= cfg.N())
    && (s.reader.Finished? ==> s.merged == MergeAll(Reports(Engines(s.workers))))
  }

  ghost predicate Good(cfg: Config, s: System) {
    && |s.queues| == |s.workers| == cfg.N()
    && ReaderGood(cfg, s)
    && (forall i :: 0 <= i < cfg.N() ==> QueueGood(cfg, s.pos, s.reader, i, s.queues[i], s.workers[i]))
  }

  lemma StartIsGood(cfg: Config)
    ensures Good(cfg, Start(cfg))
  {
    Q.StartIsGood<Item>(cfg.C(), {READER, WORKER});
    hide Q.Inv;
    assert cfg.packets[..0] == [];
  }

  lemma GoodIsShaped(cfg: Config, s: System)
    requires Good(cfg, s)
    ensures Shaped(cfg, s)
  {
    hide Q.Inv, ReaderAt, WorkerAt, Sent;
    forall i | 0 <= i < cfg.N()
      ensures s.queues[i].pcs.Keys == {READER, WORKER}
    {
      assert QueueGood(cfg, s.pos, s.reader, i, s.queues[i], s.workers[i]);
    }
  }

  // ---- Moves inside one queue ----------------------------------------------------------------------

  /** A thread that does not move stays where it is or is woken. */
  lemma OthersWake(m: Q.Monitor<Item>, mv: Q.Move<Item>, t: Q.Tid)
    requires Q.Enabled(m, mv) && t in m.pcs && t != mv.t
    ensures Q.Do(m, mv).pcs.Keys == m.pcs.Keys
    ensures Q.Do(m, mv).pcs[t] == m.pcs[t] || Q.Do(m, mv).pcs[t] == Q.Awake(m.pcs[t])
    ensures Q.Do(m, mv).buffer.capacity == m.buffer.capacity
  {
  }

  lemma ReaderMoves(cfg: Config, pos: nat, rd: Reader, i: nat, m: Q.Monitor<Item>, w: Worker, mv: Q.Move<Item>)
    requires pos <= |cfg.packets| && QueueGood(cfg, pos, rd, i, m, w)
    requires Q.Enabled(m, mv) && !mv.Call? && mv.t == READER
    ensures QueueGood(cfg, pos, rd, i, Q.Do(m, mv), w)
  {
    hide Sent, EngineRun;
    Q.StepIsGood(m, mv);
    hide Q.Inv;
    OthersWake(m, mv, WORKER);
    var m' := Q.Do(m, mv);
    assert m'.popped == m.popped;
    assert m'.pushed + InFlight(m'.pcs[READER]) == m.pushed + InFlight(m.pcs[READER]);
  }

  lemma WorkerMoves(cfg: Config, pos: nat, rd: Reader, i: nat, m: Q.Monitor<Item>, w: Worker, mv: Q.Move<Item>)
    requires pos <= |cfg.packets| && QueueGood(cfg, pos, rd, i, m, w)
    requires Q.Enabled(m, mv) && !mv.Call? && mv.t == WORKER
    ensures QueueGood(cfg, pos, rd, i, Q.Do(m, mv), w)
  {
    hide Sent, EngineRun;
    Q.StepIsGood(m, mv);
    hide Q.Inv;
    OthersWake(m, mv, READER);
    var m' := Q.Do(m, mv);
    assert m'.pushed == m.pushed && m'.buffer.closed == m.buffer.closed;
    if mv.EvalPop? && m.buffer.queue != [] {
      assert m'.popped == m.popped + [m.buffer.queue[0]];
      assert m.popped[..|m.popped|] == m.popped == m'.popped[..|m.popped|];
    }
  }

  lemma MoveIsGood(cfg: Config, pos: nat, rd: Reader, i: nat, m: Q.Monitor<Item>, w: Worker, mv: Q.Move<Item>)
    requires pos <= |cfg.packets| && QueueGood(cfg, pos, rd, i, m, w)
    requires Q.Enabled(m, mv) && !mv.Call?
    ensures QueueGood(cfg, pos, rd, i, Q.Do(m, mv), w)
  {
    if mv.t == READER {
      ReaderMoves(cfg, pos, rd, i, m, w, mv);
    } else {
      WorkerMoves(cfg, pos, rd, i, m, w, mv);
    }
  }

  // ---- Steps of the reader -------------------------------------------------------------------------

  lemma SentLast(cfg: Config, pos: nat, i: nat)
    requires pos < |cfg.packets|
    ensures var place := Place(cfg, cfg.packets[pos]);
            Sent(cfg, pos + 1, i) ==
            if place.Some? && place.value.0 == i then Sent(cfg, pos, i) + [place.value.1] else Sent(cfg, pos, i)
  {
    var raw := cfg.packets[pos];
    assert cfg.packets[..pos + 1] == cfg.packets[..pos] + [raw];
    ItemsLast(cfg.packets[..pos], raw);
    var before := Items(cfg.packets[..pos]);
    hide Items, Only;
    if ItemOf(raw) == [] {
      assert before + ItemOf(raw) == before;
    } else {
      OnlyLast(before, ItemOf(raw)[0], cfg.Shard(), i);
    }
  }

  lemma PlaceInRange(cfg: Config, raw: RawPacket)
    ensures Place(cfg, raw).Some? ==> Place(cfg, raw).value.0 < cfg.N()
  {
  }

  /** A call from outside the queue changes nothing but the caller's place. */
  lemma CallIsGood(m: Q.Monitor<Item>, t: Q.Tid, entry: Q.Pc<Item>)
    requires Q.Inv(m) && t in m.pcs && m.pcs[t].Out? && Q.IsEntry(entry)
    ensures var m' := Call(m, t, entry);
            Q.Inv(m') && m' == m.(pcs := m.pcs[t := entry])
  {
    Q.StepIsGood(m, Q.Call(t, entry));
    hide Q.Inv;
  }

  lemma ReadIsGood(cfg: Config, s: System)
    requires Good(cfg, s) && Enabled(cfg, s, ReadNext)
    ensures Good(cfg, Do(cfg, s, ReadNext))
  {
    hide Q.Inv, Sent, WorkerAt, Place;
    var s' := Do(cfg, s, ReadNext);
    var place := Place(cfg, cfg.packets[s.pos]);
    PlaceInRange(cfg, cfg.packets[s.pos]);
    forall i | 0 <= i < cfg.N()
      ensures QueueGood(cfg, s'.pos, s'.reader, i, s'.queues[i], s'.workers[i])
    {
      SentLast(cfg, s.pos, i);
      assert QueueGood(cfg, s.pos, s.reader, i, s.queues[i], s.workers[i]);
      if place.Some? && place.value.0 == i {
        CallIsGood(s.queues[i], READER, Q.WantPush(place.value.1));
      }
    }
  }

  lemma CloseCallIsGood(cfg: Config, s: System)
    requires Good(cfg, s) && Enabled(cfg, s, CallClose)
    ensures Good(cfg, Do(cfg, s, CallClose))
  {
    hide Q.Inv, Sent, WorkerAt;
    var s' := Do(cfg, s, CallClose);
    forall i | 0 <= i < cfg.N()
      ensures QueueGood(cfg, s'.pos, s'.reader, i, s'.queues[i], s'.workers[i])
    {
      assert QueueGood(cfg, s.pos, s.reader, i, s.queues[i], s.workers[i]);
      if i == s.reader.k { CallIsGood(s.queues[i], READER, Q.WantClose); }
    }
  }

  predicate OnlyReader(a: Action) {
    a.ReadEnd? || a.PushReturned? || a.CloseReturned? || a.AllClosed? || a.Join? || a.MergeReport?
  }

  lemma ReaderIsGood(cfg: Config, s: System, a: Action)
    requires Good(cfg, s) && Enabled(cfg, s, a) && OnlyReader(a)
    ensures Good(cfg, Do(cfg, s, a))
  {
    hide Q.Inv, Sent, WorkerAt, MergeAll, Reports, Engines;
    var s' := Do(cfg, s, a);
    if a.PushReturned? {
      assert QueueGood(cfg, s.pos, s.reader, s.reader.k, s.queues[s.reader.k], s.workers[s.reader.k]);
    }
    forall i | 0 <= i < cfg.N()
      ensures QueueGood(cfg, s'.pos, s'.reader, i, s'.queues[i], s'.workers[i])
    {
      assert QueueGood(cfg, s.pos, s.reader, i, s.queues[i], s.workers[i]);
    }
  }

  // ---- Steps of the workers ------------------------------------------------------------------------

  lemma NextIsGood(cfg: Config, pos: nat, rd: Reader, i: nat, m: Q.Monitor<Item>, w: Worker)
    requires pos <= |cfg.packets| && QueueGood(cfg, pos, rd, i, m, w)
    requires !w.exited && m.pcs[WORKER].Out? && m.pcs[WORKER].ret != Q.Popped(None)
    ensures QueueGood(cfg, pos, rd, i, Call(m, WORKER, Q.WantPop),
                      w.(engine := Consume(cfg.rules, w.engine, m.pcs[WORKER].ret)))
  {
    hide Q.Inv, Sent, EngineRun, EngineStep;
    CallIsGood(m, WORKER, Q.WantPop);
    var n := |m.popped| - |Hand(m.pcs[WORKER])|;
    assert m.popped[..|m.popped|] == m.popped == m.popped[..n] + m.popped[n..];
    assert m.popped[|m.popped|..] == [];
    if Hand(m.pcs[WORKER]) != [] {
      RunLast(cfg.rules, m.popped[..n], Hand(m.pcs[WORKER])[0]);
      assert m.popped == m.popped[..n] + [Hand(m.pcs[WORKER])[0]];
    }
  }

  lemma ExitIsGood(cfg: Config, pos: nat, rd: Reader, i: nat, m: Q.Monitor<Item>, w: Worker)
    requires pos <= |cfg.packets| && QueueGood(cfg, pos, rd, i, m, w)
    requires !w.exited && m.pcs[WORKER] == Q.Out(Q.Popped(None))
    ensures QueueGood(cfg, pos, rd, i, m, w.(exited := true))
  {
    hide Q.Inv, Sent, EngineRun;
  }

  predicate InShard(a: Action) {
    a.WorkerNext? || a.WorkerExit? || a.QueueMove?
  }

  lemma ShardIsGood(cfg: Config, s: System, a: Action)
    requires Good(cfg, s) && Enabled(cfg, s, a) && InShard(a)
    ensures Good(cfg, Do(cfg, s, a))
  {
    hide QueueGood, Call, Q.Do, Q.Enabled, Consume, MergeAll;
    var s' := Do(cfg, s, a);
    var m, w := s.queues[a.i], s.workers[a.i];
    assert QueueGood(cfg, s.pos, s.reader, a.i, m, w);
    if s.reader.Finished? { FinishedHasExited(cfg, s, a.i); }
    if a.QueueMove? {
      MoveIsGood(cfg, s.pos, s.reader, a.i, m, w, a.mv);
    } else if a.WorkerNext? {
      NextIsGood(cfg, s.pos, s.reader, a.i, m, w);
    } else {
      ExitIsGood(cfg, s.pos, s.reader, a.i, m, w);
    }
  }

  lemma FinishedHasExited(cfg: Config, s: System, i: nat)
    requires Good(cfg, s) && s.reader.Finished? && i < cfg.N()
    ensures s.workers[i].exited
  {
    hide Q.Inv, Sent, WorkerAt;
    assert QueueGood(cfg, s.pos, s.reader, i, s.queues[i], s.workers[i]);
  }

  /** The system with queue and worker of shard i taken from another state. */
  function WithShard(s: System, i: nat, from: System): System
    requires i < |s.queues| == |s.workers| && i < |from.queues| == |from.workers|
  {
    s.(queues := s.queues[i := from.queues[i]], workers := s.workers[i := from.workers[i]])
  }

  /** A step inside a shard reads and changes that shard alone. */
  lemma ShardIsLocal(cfg: Config, s: System, other: System, a: Action)
    requires Enabled(cfg, s, a) && InShard(a) && Shaped(cfg, other)
    requires other.queues[a.i] == s.queues[a.i] && other.workers[a.i] == s.workers[a.i]
    ensures Enabled(cfg, other, a) && |Do(cfg, s, a).queues| == |Do(cfg, s, a).workers| == cfg.N()
    ensures Do(cfg, other, a) == WithShard(other, a.i, Do(cfg, s, a))
  {
    hide Q.Enabled, Q.Do, Call, Consume;
  }

  lemma StaysShaped(cfg: Config, s: System, a: Action)
    requires Enabled(cfg, s, a) && InShard(a)
    ensures Shaped(cfg, Do(cfg, s, a))
  {
    hide Q.Enabled, Consume;
    var m := s.queues[a.i];
    if a.QueueMove? { OthersWake(m, a.mv, if a.mv.t == READER then WORKER else READER); }
  }

  /** Steps inside two different shards do not disable each other, and their order does not matter. */
  lemma ShardsAreIndependent(cfg: Config, s: System, a: Action, b: Action)
    requires Enabled(cfg, s, a) && Enabled(cfg, s, b) && InShard(a) && InShard(b) && a.i != b.i
    ensures Enabled(cfg, Do(cfg, s, a), b) && Enabled(cfg, Do(cfg, s, b), a)
    ensures Do(cfg, Do(cfg, s, a), b) == Do(cfg, Do(cfg, s, b), a)
  {
    hide Enabled, Do, Shaped;
    EnabledIsShaped(cfg, s, a);
    EnabledIsShaped(cfg, s, b);
    StaysShaped(cfg, s, a);
    StaysShaped(cfg, s, b);
    ShardIsLocal(cfg, s, s, a);
    ShardIsLocal(cfg, s, s, b);
    ShardIsLocal(cfg, s, Do(cfg, s, b), a);
    ShardIsLocal(cfg, s, Do(cfg, s, a), b);
    SwapShards(s, Do(cfg, s, a), Do(cfg, s, b), a.i, b.i);
  }

  lemma EnabledIsShaped(cfg: Config, s: System, a: Action)
    requires Enabled(cfg, s, a) && InShard(a)
    ensures Shaped(cfg, s) && a.i < cfg.N() == |s.queues| == |s.workers|
  {
  }

  lemma SwapShards(s: System, x: System, y: System, i: nat, j: nat)
    requires i < |s.queues| == |s.workers| && j < |s.queues| && i != j
    requires i < |x.queues| == |x.workers| && j < |y.queues| == |y.workers|
    ensures WithShard(WithShard(s, i, x), j, y) == WithShard(WithShard(s, j, y), i, x)
  {
  }

  // ---- Whole runs ----------------------------------------------------------------------------------

  /** Every step of the system keeps the invariant. */
  lemma StepIsGood(cfg: Config, s: System, a: Action)
    requires Good(cfg, s) && Enabled(cfg, s, a)
    ensures Good(cfg, Do(cfg, s, a))
  {
    hide Good, Enabled;
    if InShard(a) {
      ShardIsGood(cfg, s, a);
    } else if OnlyReader(a) {
      ReaderIsGood(cfg, s, a);
    } else if a.ReadNext? {
      ReadIsGood(cfg, s);
    } else {
      CloseCallIsGood(cfg, s);
    }
  }

  lemma {:induction false} RunIsGood(cfg: Config, s: System, actions: seq<Action>, s': System)
    requires Good(cfg, s) && IsRun(cfg, s, actions, s')
    ensures Good(cfg, s')
    decreases |actions|
  {
    hide Good, Enabled, Do;
    if actions != [] {
      StepIsGood(cfg, s, actions[0]);
      RunIsGood(cfg, Do(cfg, s, actions[0]), actions[1..], s');
    }
  }

  lemma MergeTally(a: Report, b: Report)
    ensures TallyOf(Merge(a, b)) == TallyOf(a).Plus(TallyOf(b))
  {
  }

  ghost function Below(n: nat): (s: set<nat>)
    ensures forall i: nat :: i in s <==> i < n
  {
    if n == 0 then {} else Below(n - 1) + {n - 1}
  }

  lemma {:induction false} MergeIsSum(reports: seq<Report>, f: nat -> Tally)
    requires forall i :: 0 <= i < |reports| ==> TallyOf(reports[i]) == f(i)
    ensures TallyOf(MergeAll(reports)) == SumOver(Below(|reports|), f)
  {
    hide Merge, TallyOf, SumOver, Tally.Plus;
    if reports == [] {
      NothingMerged(f);
    } else {
      var n: nat := |reports| - 1;
      MergeIsSum(reports[..n], f);
      MergeTally(MergeAll(reports[..n]), reports[n]);
      assert Below(n + 1) - {n} == Below(n);
      SumPick(Below(n + 1), f, n);
      PlusLaws(f(n), SumOver(Below(n), f), ZERO);
    }
  }

  lemma NothingMerged(f: nat -> Tally)
    ensures TallyOf(MergeAll([])) == SumOver(Below(0), f)
  {
  }

  /** Once the reader has finished, each worker has run exactly the packets of its shard. */
  lemma FinishedShard(cfg: Config, s: System, i: nat)
    requires Good(cfg, s) && s.reader.Finished? && i < cfg.N()
    ensures s.workers[i].engine == EngineRun(cfg.rules, Only(Items(cfg.packets), cfg.Shard(), i))
  {
    hide Items, EngineRun, Only, Q.NoLostWakeup, Q.NoLostBroadcast;
    var m, w := s.queues[i], s.workers[i];
    assert QueueGood(cfg, s.pos, s.reader, i, m, w);
    assert cfg.packets[..|cfg.packets|] == cfg.packets;
    assert m.pcs[WORKER].Out? && m.pcs[WORKER].ret == Q.Popped(None);
    assert m.popped[..|m.popped|] == m.popped == m.pushed;
    assert m.pushed + [] == m.pushed;
  }

  /**
   * Whatever the interleaving, the number of workers, the capacity and the hash: when the sharded engine finishes, its
   * merged report and the report of the sequential engine on the same packets have the same counters, the same block
   * entries and the same observed names, and every flow has ended in the same state.
   */
  lemma ConcurrentEqualsSequential(cfg: Config, actions: seq<Action>, s: System)
    requires IsRun(cfg, Start(cfg), actions, s) && s.reader.Finished?
    ensures TallyOf(s.merged) == TallyOf(EngineRun(cfg.rules, Items(cfg.packets)).report)
    ensures |s.workers| == if cfg.numWorkers == 0 then 1 else cfg.numWorkers
    ensures forall t :: FlowOf(s.workers[cfg.hash(t) % |s.workers|].engine, t) ==
                        FlowOf(EngineRun(cfg.rules, Items(cfg.packets)), t)
  {
    hide IsRun, Start, QueueGood, EngineRun, Items, TallyOf, MergeAll, FlowOf;
    StartIsGood(cfg);
    RunIsGood(cfg, Start(cfg), actions, s);
    FinishedMerge(cfg, s);
    forall t
      ensures cfg.Shard()(t) == cfg.hash(t) % |s.workers|
      ensures FlowOf(s.workers[cfg.Shard()(t)].engine, t) == FlowOf(EngineRun(cfg.rules, Items(cfg.packets)), t)
    {
      FinishedShard(cfg, s, cfg.Shard()(t));
      SameFlowInClass(cfg.rules, Items(cfg.packets), cfg.Shard(), t);
    }
  }

  /** Each flow of the sequential engine is in the table of one worker, the one its hash names, and in no other. */
  lemma FlowsArePartitioned(cfg: Config, actions: seq<Action>, s: System, i: nat, t: FiveTuple)
    requires IsRun(cfg, Start(cfg), actions, s) && s.reader.Finished? && i < |s.workers|
    ensures t in s.workers[i].engine.flows <==>
            t in EngineRun(cfg.rules, Items(cfg.packets)).flows && cfg.hash(t) % |s.workers| == i
  {
    hide IsRun, Start, QueueGood, EngineRun, Items;
    StartIsGood(cfg);
    RunIsGood(cfg, Start(cfg), actions, s);
    FinishedShard(cfg, s, i);
    var items, mine := Items(cfg.packets), Only(Items(cfg.packets), cfg.Shard(), i);
    FlowIsolation(cfg.rules, mine, t);
    if cfg.Shard()(t) == i {
      SameFlowInClass(cfg.rules, items, cfg.Shard(), t);
    } else {
      OnlyOwn(items, cfg.Shard(), i, t);
    }
  }

  lemma {:induction false} OnlyOwn(items: seq<Item>, c: FiveTuple -> nat, i: nat, t: FiveTuple)
    requires c(t) != i
    ensures Only(Only(items, c, i), Self, t) == []
  {
    if items != [] {
      var before, last := items[..|items| - 1], items[|items| - 1];
      assert items == before + [last];
      OnlyOwn(before, c, i, t);
      OnlyLast(before, last, c, i);
      OnlyLast(Only(before, c, i), last, Self, t);
    }
  }

  lemma FinishedMerge(cfg: Config, s: System)
    requires Good(cfg, s) && s.reader.Finished?
    ensures TallyOf(s.merged) == TallyOf(EngineRun(cfg.rules, Items(cfg.packets)).report)
  {
    hide QueueGood, EngineRun, Items, TallyOf, SumOver, MergeAll, ClassTally;
    var f: nat -> Tally := ClassTally<nat>(cfg.rules, Items(cfg.packets), cfg.Shard());
    forall i | 0 <= i < cfg.N()
      ensures TallyOf(Reports(Engines(s.workers))[i]) == f(i)
    {
      ShardTally(cfg, s, i);
    }
    MergeIsSum(Reports(Engines(s.workers)), f);
    ReportIsSumOfClasses<nat>(cfg.rules, Items(cfg.packets), cfg.Shard(), Below(cfg.N()));
  }

  lemma ShardTally(cfg: Config, s: System, i: nat)
    requires Good(cfg, s) && s.reader.Finished? && i < cfg.N()
    ensures TallyOf(Reports(Engines(s.workers))[i]) == ClassTally<nat>(cfg.rules, Items(cfg.packets), cfg.Shard())(i)
  {
    hide QueueGood, EngineRun, Only, Items, TallyOf;
    FinishedShard(cfg, s, i);
    assert Reports(Engines(s.workers))[i] == Engines(s.workers)[i].report == s.workers[i].engine.report;
  }
}
