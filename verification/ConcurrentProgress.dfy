/** The sharded engine always gets to its end: no push is refused, no state is stuck, and every run is bounded. */
module ConcurrentProgress {
  import opened Wrappers
  import opened Types
  import opened FlowSpec
  import opened EngineProperties
  import opened Capture
  import opened ConcurrentEngine
  import Q = BoundedQueue

  // ---- Safety of the queues ------------------------------------------------------------------------

  /**
   * In every reachable state each queue holds at most its capacity, everything pushed into it is what was popped followed
   * by what is queued, and no push has been refused.
   */
  lemma QueuesAreSafe(cfg: Config, actions: seq<Action>, s: System, i: nat)
    requires IsRun(cfg, Start(cfg), actions, s) && i < cfg.N()
    ensures Shaped(cfg, s)
    ensures var m := s.queues[i];
            && |m.buffer.queue| <= cfg.C()
            && m.pushed == m.popped + m.buffer.queue
            && (s.reader == Pushing(i) && At(s, i, READER).Out? ==> At(s, i, READER).ret == Q.Pushed(true))
  {
    StartIsGood(cfg);
    RunIsGood(cfg, Start(cfg), actions, s);
    GoodIsShaped(cfg, s);
    hide IsRun, Start, Sent, WorkerAt, Q.NoLostWakeup, Q.NoLostBroadcast, Q.ReturnsGood;
    assert QueueGood(cfg, s.pos, s.reader, i, s.queues[i], s.workers[i]);
  }

  /**
   * In every reachable state there is a queue and a worker for each shard, one at least, every queue holds one item at
   * least, and only IPv4 packets whose hash names the queue are ever pushed into it.
   */
  lemma RoutedByHash(cfg: Config, actions: seq<Action>, s: System, i: nat)
    requires IsRun(cfg, Start(cfg), actions, s) && i < |s.queues|
    ensures |s.queues| == |s.workers| == if cfg.numWorkers == 0 then 1 else cfg.numWorkers
    ensures s.queues[i].buffer.capacity == if cfg.queueCapacity == 0 then 1 else cfg.queueCapacity
    ensures forall x :: x in s.queues[i].pushed ==> x.parsed.hasIp && cfg.hash(x.Tuple()) % |s.queues| == i
  {
    StartIsGood(cfg);
    RunIsGood(cfg, Start(cfg), actions, s);
    hide IsRun, Start, WorkerAt, ReaderAt, Q.Inv, Items;
    assert QueueGood(cfg, s.pos, s.reader, i, s.queues[i], s.workers[i]);
    OnlyInClass(Items(cfg.packets[..s.pos]), cfg.Shard(), i);
    var sent := s.queues[i].pushed + InFlight(s.queues[i].pcs[READER]);
    assert forall x :: x in s.queues[i].pushed ==> x in sent;
  }

  lemma {:induction false} OnlyInClass(items: seq<Item>, c: FiveTuple -> nat, i: nat)
    ensures forall x :: x in Only(items, c, i) ==> x.parsed.hasIp && c(x.Tuple()) == i
  {
    if items != [] { OnlyInClass(items[..|items| - 1], c, i); }
  }

  // ---- No state is stuck ---------------------------------------------------------------------------

  /** A step other than a spurious wakeup. */
  predicate Useful(a: Action) {
    !(a.QueueMove? && a.mv.Spurious?)
  }

  ghost predicate CanGoOn(cfg: Config, s: System) {
    exists a :: Enabled(cfg, s, a) && Useful(a)
  }

  lemma AwakeGoesOn(cfg: Config, s: System, i: nat, t: Q.Tid)
    requires Shaped(cfg, s) && i < cfg.N() && t in {READER, WORKER}
    requires !At(s, i, t).Out? && !At(s, i, t).SleepPush? && !At(s, i, t).SleepPop?
    ensures CanGoOn(cfg, s)
  {
    hide Q.Enabled;
    assert t in s.queues[i].pcs.Keys;
    var mv := Q.AnyThreadMayMove(s.queues[i], t, Q.WantPop);
    assert Enabled(cfg, s, QueueMove(i, mv)) && Useful(QueueMove(i, mv));
  }

  lemma WorkerGoesOn(cfg: Config, s: System, i: nat)
    requires Shaped(cfg, s) && i < cfg.N() && !s.workers[i].exited
    requires !At(s, i, WORKER).SleepPush? && !At(s, i, WORKER).SleepPop?
    ensures CanGoOn(cfg, s)
  {
    if At(s, i, WORKER).Out? {
      assert Enabled(cfg, s, WorkerNext(i)) || Enabled(cfg, s, WorkerExit(i));
      assert Useful(WorkerNext(i)) && Useful(WorkerExit(i));
    } else {
      AwakeGoesOn(cfg, s, i, WORKER);
    }
  }

  /** A producer asleep on a full queue has a worker that is awake. */
  lemma FullQueueIsServed(cfg: Config, pos: nat, rd: Reader, i: nat, m: Q.Monitor<Item>, w: Worker)
    requires pos <= |cfg.packets| && QueueGood(cfg, pos, rd, i, m, w) && m.pcs[READER].SleepPush?
    ensures !w.exited && !m.pcs[WORKER].SleepPop? && !m.pcs[WORKER].SleepPush?
  {
    hide Sent;
    assert READER in Q.PushSleepers(m.pcs);
    assert WORKER in Q.PopSleepers(m.pcs) <==> m.pcs[WORKER].SleepPop?;
    assert m.pcs[WORKER].SleepPop? ==> Q.EmptyHelpers(m.pcs) == {} && Q.FullHelpers(m.pcs) == {};
  }

  /** A worker never sleeps on a queue whose closing has returned. */
  lemma ClosedQueueIsAwake(cfg: Config, pos: nat, rd: Reader, i: nat, m: Q.Monitor<Item>, w: Worker)
    requires pos <= |cfg.packets| && QueueGood(cfg, pos, rd, i, m, w) && m.buffer.closed && m.pcs[READER].Out?
    ensures !m.pcs[WORKER].SleepPop? && !m.pcs[WORKER].SleepPush?
  {
    hide Sent;
    assert WORKER in Q.PopSleepers(m.pcs) <==> m.pcs[WORKER].SleepPop?;
  }

  lemma ReaderGoesOn(cfg: Config, s: System, a: Action)
    requires Enabled(cfg, s, a) && Useful(a)
    ensures CanGoOn(cfg, s)
  {
  }

  lemma GoodGoesOn(cfg: Config, s: System)
    requires Good(cfg, s) && !s.reader.Finished?
    ensures CanGoOn(cfg, s)
  {
    hide CanGoOn, Sent, WorkerAt, Q.Inv, Place;
    GoodIsShaped(cfg, s);
    match s.reader
    case Reading =>
      if s.pos < |cfg.packets| {
        var place := Place(cfg, cfg.packets[s.pos]);
        PlaceInRange(cfg, cfg.packets[s.pos]);
        if place.Some? {
          assert QueueGood(cfg, s.pos, s.reader, place.value.0, s.queues[place.value.0], s.workers[place.value.0]);
        }
        ReaderGoesOn(cfg, s, ReadNext);
      } else {
        ReaderGoesOn(cfg, s, ReadEnd);
      }
    case Pushing(k) =>
      assert QueueGood(cfg, s.pos, s.reader, k, s.queues[k], s.workers[k]);
      if At(s, k, READER).SleepPush? {
        FullQueueIsServed(cfg, s.pos, s.reader, k, s.queues[k], s.workers[k]);
        WorkerGoesOn(cfg, s, k);
      } else if At(s, k, READER).Out? {
        ReaderGoesOn(cfg, s, PushReturned);
      } else {
        AwakeGoesOn(cfg, s, k, READER);
      }
    case Closing(k) =>
      if k < cfg.N() {
        assert QueueGood(cfg, s.pos, s.reader, k, s.queues[k], s.workers[k]);
        ReaderGoesOn(cfg, s, CallClose);
      } else {
        ReaderGoesOn(cfg, s, AllClosed);
      }
    case CloseCalled(k) =>
      assert QueueGood(cfg, s.pos, s.reader, k, s.queues[k], s.workers[k]);
      if At(s, k, READER).Out? {
        ReaderGoesOn(cfg, s, CloseReturned);
      } else {
        AwakeGoesOn(cfg, s, k, READER);
      }
    case Joining(k) =>
      if k == cfg.N() {
        ReaderGoesOn(cfg, s, MergeReport);
      } else if s.workers[k].exited {
        ReaderGoesOn(cfg, s, Join);
      } else {
        assert QueueGood(cfg, s.pos, s.reader, k, s.queues[k], s.workers[k]);
        ClosedQueueIsAwake(cfg, s.pos, s.reader, k, s.queues[k], s.workers[k]);
        WorkerGoesOn(cfg, s, k);
      }
  }

  /** In every reachable state but the final one some step other than a spurious wakeup is possible. */
  lemma NeverStuck(cfg: Config, actions: seq<Action>, s: System)
    requires IsRun(cfg, Start(cfg), actions, s) && !s.reader.Finished?
    ensures CanGoOn(cfg, s)
  {
    StartIsGood(cfg);
    hide IsRun, Start, CanGoOn, Good;
    RunIsGood(cfg, Start(cfg), actions, s);
    GoodGoesOn(cfg, s);
  }

  // ---- Every run is bounded ------------------------------------------------------------------------

  function ReaderWeight(pc: Q.Pc<Item>): nat {
    match pc
    case WantPush(_) => 8
    case SleepPush(_) => 7
    case NotifyEmpty => 3
    case WantClose => 6
    case CloseNotifyEmpty => 5
    case CloseNotifyFull => 3
    case _ => 0
  }

  function WorkerWeight(pc: Q.Pc<Item>, exited: bool): nat {
    match pc
    case Out(ret) => if exited then 0 else if ret == Q.Popped(None) then 1 else 3
    case WantPop => 2
    case SleepPop => 1
    case NotifyFull(_) => 5
    case _ => 0
  }

  function QueueWeight(m: Q.Monitor<Item>, w: Worker): nat
    requires READER in m.pcs && WORKER in m.pcs
  {
    4 * |m.buffer.queue| + ReaderWeight(m.pcs[READER]) + WorkerWeight(m.pcs[WORKER], w.exited)
  }

  function ClosingWeight(cfg: Config, k: nat): nat
    requires k <= cfg.N()
  {
    8 * (cfg.N() - k) + cfg.N() + 3
  }

  function Stage(cfg: Config, s: System): nat
    requires ReaderGood(cfg, s)
  {
    var unread := |cfg.packets| - s.pos;
    match s.reader
    case Reading => 10 * unread + ClosingWeight(cfg, 0) + 2
    case Pushing(_) => 10 * unread + ClosingWeight(cfg, 0) + 3
    case Closing(k) => ClosingWeight(cfg, k)
    case CloseCalled(k) => ClosingWeight(cfg, k) - 7
    case Joining(k) => cfg.N() - k + 1
    case Finished => 0
  }

  /** The weight of queues 0 to n - 1. */
  function Weights(cfg: Config, s: System, n: nat): nat
    requires Shaped(cfg, s) && n <= cfg.N()
  {
    if n == 0 then 0 else Weights(cfg, s, n - 1) + QueueWeight(s.queues[n - 1], s.workers[n - 1])
  }

  /** Unread packets, queued packets, open queues, and how far each thread is from its next rest. */
  function Measure(cfg: Config, s: System): nat
    requires Shaped(cfg, s) && ReaderGood(cfg, s)
  {
    Stage(cfg, s) + Weights(cfg, s, cfg.N())
  }

  /** Changing shard i changes the sum by the change of its weight. */
  lemma {:induction false} WeightsChange(cfg: Config, s: System, s': System, i: nat, n: nat)
    requires Shaped(cfg, s) && Shaped(cfg, s') && i < cfg.N() && n <= cfg.N()
    requires forall j :: 0 <= j < n && j != i ==> s'.queues[j] == s.queues[j] && s'.workers[j] == s.workers[j]
    ensures Weights(cfg, s', n) - Weights(cfg, s, n) ==
            if i < n then QueueWeight(s'.queues[i], s'.workers[i]) - QueueWeight(s.queues[i], s.workers[i]) else 0
  {
    hide QueueWeight;
    if n > 0 { WeightsChange(cfg, s, s', i, n - 1); }
  }

  /** A move inside one queue lowers its weight, or is a spurious wakeup and raises it by one. */
  lemma MoveWeight(cfg: Config, pos: nat, rd: Reader, i: nat, m: Q.Monitor<Item>, w: Worker, mv: Q.Move<Item>)
    requires pos <= |cfg.packets| && QueueGood(cfg, pos, rd, i, m, w)
    requires Q.Enabled(m, mv) && !mv.Call?
    ensures READER in Q.Do(m, mv).pcs && WORKER in Q.Do(m, mv).pcs
    ensures if mv.Spurious? then QueueWeight(Q.Do(m, mv), w) == QueueWeight(m, w) + 1
            else QueueWeight(Q.Do(m, mv), w) < QueueWeight(m, w)
  {
    hide Sent, Q.Inv, EngineRun, Hand;
    OthersWake(m, mv, if mv.t == READER then WORKER else READER);
  }

  /** The stage and the weight of shard i are all that a step changes. */
  lemma ShardWeight(cfg: Config, s: System, s': System, i: nat)
    requires Shaped(cfg, s) && Shaped(cfg, s') && ReaderGood(cfg, s) && ReaderGood(cfg, s') && i < cfg.N()
    requires forall j :: 0 <= j < cfg.N() && j != i ==> s'.queues[j] == s.queues[j] && s'.workers[j] == s.workers[j]
    ensures Measure(cfg, s') - Measure(cfg, s) ==
            Stage(cfg, s') - Stage(cfg, s) +
            QueueWeight(s'.queues[i], s'.workers[i]) - QueueWeight(s.queues[i], s.workers[i])
  {
    hide QueueWeight, Stage, ReaderGood;
    WeightsChange(cfg, s, s', i, cfg.N());
  }

  lemma WorkerWeights(m: Q.Monitor<Item>, w: Worker, e: Engine)
    requires READER in m.pcs && WORKER in m.pcs && !w.exited && m.pcs[WORKER].Out? && Q.Inv(m)
    ensures m.pcs[WORKER].ret != Q.Popped(None) ==>
              QueueWeight(Call(m, WORKER, Q.WantPop), Worker(e, false)) < QueueWeight(m, w)
    ensures m.pcs[WORKER].ret == Q.Popped(None) ==> QueueWeight(m, Worker(w.engine, true)) < QueueWeight(m, w)
  {
    CallIsGood(m, WORKER, Q.WantPop);
    hide Q.Inv, Call;
  }

  lemma InShardWeight(cfg: Config, s: System, s': System, a: Action)
    requires Good(cfg, s) && Enabled(cfg, s, a) && InShard(a)
    requires s' == Do(cfg, s, a) && Good(cfg, s') && Shaped(cfg, s')
    ensures if Useful(a) then Measure(cfg, s') < Measure(cfg, s) else Measure(cfg, s') == Measure(cfg, s) + 1
  {
    hide Sent, Q.Inv, Q.Do, Q.Enabled, Call, Consume, Measure, QueueWeight, WorkerAt, ReaderAt;
    var m, w := s.queues[a.i], s.workers[a.i];
    assert QueueGood(cfg, s.pos, s.reader, a.i, m, w);
    ShardWeight(cfg, s, s', a.i);
    if a.QueueMove? {
      MoveWeight(cfg, s.pos, s.reader, a.i, m, w, a.mv);
    } else {
      WorkerWeights(m, w, s'.workers[a.i].engine);
    }
  }

  lemma ReadNextWeight(cfg: Config, s: System, s': System)
    requires Good(cfg, s) && Enabled(cfg, s, ReadNext)
    requires s' == Do(cfg, s, ReadNext) && Good(cfg, s') && Shaped(cfg, s')
    ensures Measure(cfg, s') < Measure(cfg, s)
  {
    hide Sent, Q.Inv, Q.Do, WorkerAt, Place, Measure;
    var place := Place(cfg, cfg.packets[s.pos]);
    PlaceInRange(cfg, cfg.packets[s.pos]);
    if place.Some? {
      var i := place.value.0;
      assert QueueGood(cfg, s.pos, s.reader, i, s.queues[i], s.workers[i]);
      CallIsGood(s.queues[i], READER, Q.WantPush(place.value.1));
      ShardWeight(cfg, s, s', i);
    } else {
      ShardWeight(cfg, s, s', 0);
    }
  }

  lemma CallCloseWeight(cfg: Config, s: System, s': System)
    requires Good(cfg, s) && Enabled(cfg, s, CallClose)
    requires s' == Do(cfg, s, CallClose) && Good(cfg, s') && Shaped(cfg, s')
    ensures Measure(cfg, s') < Measure(cfg, s)
  {
    hide Sent, Q.Inv, Q.Do, WorkerAt, Measure;
    var i := s.reader.k;
    assert QueueGood(cfg, s.pos, s.reader, i, s.queues[i], s.workers[i]);
    CallIsGood(s.queues[i], READER, Q.WantClose);
    ShardWeight(cfg, s, s', i);
  }

  lemma ReaderStepWeight(cfg: Config, s: System, s': System, a: Action)
    requires Good(cfg, s) && Enabled(cfg, s, a) && OnlyReader(a)
    requires s' == Do(cfg, s, a) && Good(cfg, s') && Shaped(cfg, s')
    ensures Measure(cfg, s') < Measure(cfg, s)
  {
    hide QueueGood, QueueWeight, Measure, MergeAll, Reports;
    ShardWeight(cfg, s, s', 0);
  }

  /** Every step but a spurious wakeup comes nearer the end, and a spurious wakeup undoes one step. */
  lemma StepWeight(cfg: Config, s: System, a: Action)
    requires Good(cfg, s) && Enabled(cfg, s, a)
    ensures Good(cfg, Do(cfg, s, a)) && Shaped(cfg, Do(cfg, s, a))
    ensures if Useful(a) then Measure(cfg, Do(cfg, s, a)) < Measure(cfg, s)
            else Measure(cfg, Do(cfg, s, a)) == Measure(cfg, s) + 1
  {
    hide Good, Shaped, Enabled, Do, Measure;
    StepIsGood(cfg, s, a);
    GoodIsShaped(cfg, Do(cfg, s, a));
    var s' := Do(cfg, s, a);
    if InShard(a) {
      InShardWeight(cfg, s, s', a);
    } else if OnlyReader(a) {
      ReaderStepWeight(cfg, s, s', a);
    } else if a.ReadNext? {
      ReadNextWeight(cfg, s, s');
    } else {
      CallCloseWeight(cfg, s, s');
    }
  }

  ghost function SpuriousIn(actions: seq<Action>): nat {
    if actions == [] then 0 else (if Useful(actions[0]) then 0 else 1) + SpuriousIn(actions[1..])
  }

  lemma {:induction false} RunWeight(cfg: Config, s: System, actions: seq<Action>, s': System)
    requires Good(cfg, s) && Shaped(cfg, s) && IsRun(cfg, s, actions, s')
    ensures Good(cfg, s') && Shaped(cfg, s')
    ensures |actions| + Measure(cfg, s') <= Measure(cfg, s) + 2 * SpuriousIn(actions)
    decreases |actions|
  {
    hide Good, Shaped, Enabled, Do, Measure, Useful;
    if actions != [] {
      StepWeight(cfg, s, actions[0]);
      RunWeight(cfg, Do(cfg, s, actions[0]), actions[1..], s');
    }
  }

  /**
   * A run has at most ten steps per packet, twelve per shard, five more, and two for every spurious wakeup; so, never being
   * stuck, the engine ends unless wakeups are spurious for ever.
   */
  lemma RunsAreBounded(cfg: Config, actions: seq<Action>, s: System)
    requires IsRun(cfg, Start(cfg), actions, s)
    ensures |actions| <= 10 * |cfg.packets| + 12 * cfg.N() + 5 + 2 * SpuriousIn(actions)
  {
    StartIsGood(cfg);
    GoodIsShaped(cfg, Start(cfg));
    StartWeight(cfg, cfg.N());
    hide Good, IsRun;
    RunWeight(cfg, Start(cfg), actions, s);
  }

  lemma {:induction false} StartWeight(cfg: Config, n: nat)
    requires n <= cfg.N()
    ensures Weights(cfg, Start(cfg), n) == 3 * n
  {
    if n > 0 { StartWeight(cfg, n - 1); }
  }

  /** From a good state the end can be reached without any spurious wakeup. */
  lemma {:induction false} GoodFinishes(cfg: Config, s: System) returns (more: seq<Action>, end: System)
    requires Good(cfg, s) && Shaped(cfg, s)
    ensures IsRun(cfg, s, more, end) && end.reader.Finished? && |more| <= Measure(cfg, s)
    decreases Measure(cfg, s)
  {
    hide Good, Shaped, Enabled, Do, Measure, Useful;
    if s.reader.Finished? {
      more, end := [], s;
    } else {
      GoodGoesOn(cfg, s);
      var a :| Enabled(cfg, s, a) && Useful(a);
      StepWeight(cfg, s, a);
      var rest;
      rest, end := GoodFinishes(cfg, Do(cfg, s, a));
      more := [a] + rest;
      assert more[1..] == rest;
    }
  }

  /** Whatever has happened so far, the run can go on to its end. */
  lemma EveryRunCanFinish(cfg: Config, actions: seq<Action>, s: System)
    requires IsRun(cfg, Start(cfg), actions, s)
    ensures exists more, end :: IsRun(cfg, s, more, end) && end.reader.Finished?
  {
    StartIsGood(cfg);
    hide IsRun, Start, Good;
    RunIsGood(cfg, Start(cfg), actions, s);
    GoodIsShaped(cfg, s);
    var more, end := GoodFinishes(cfg, s);
  }
}
