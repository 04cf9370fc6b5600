/**
 * The blocking queue of include/bounded_queue.h: its critical sections in place, and its locking protocol as a state
 * machine over any number of threads, with unlock and notify as separate steps and with spurious wakeups.
 */
module BoundedQueue {
  import opened Wrappers

  // ---- The critical sections -----------------------------------------------------------------------

  datatype Buffer<T> = Buffer(capacity: nat, queue: seq<T>, closed: bool)

  datatype PushOutcome = MustWait | Refused | Accepted

  datatype PopOutcome<T> = NothingYet | Finished | Took(item: T)

  /** One evaluation of push's wait predicate under the lock, and what follows when it holds. */
  function PushSection<T>(b: Buffer<T>, item: T): (Buffer<T>, PushOutcome) {
    if !(|b.queue| < b.capacity || b.closed) then (b, MustWait)
    else if b.closed then (b, Refused)
    else (b.(queue := b.queue + [item]), Accepted)
  }

  /** One evaluation of pop's wait predicate under the lock, and what follows when it holds. */
  function PopSection<T>(b: Buffer<T>): (Buffer<T>, PopOutcome<T>) {
    if !(b.queue != [] || b.closed) then (b, NothingYet)
    else if b.queue == [] then (b, Finished)
    else (b.(queue := b.queue[1..]), Took(b.queue[0]))
  }

  class BoundedQueue<T> {
    const capacity: nat
    var queue: seq<T>
    var closed: bool

    function View(): Buffer<T>
      reads this
    {
      Buffer(capacity, queue, closed)
    }

    constructor (capacity: nat)
      ensures View() == Buffer(capacity, [], false)
    {
      this.capacity := capacity;
      queue, closed := [], false;
    }

    /** Runs push up to its next wait or to its unlock. */
    method PushLocked(item: T) returns (r: PushOutcome)
      modifies this
      ensures (View(), r) == PushSection(old(View()), item)
    {
      if !(|queue| < capacity || closed) {
        return MustWait;
      }
      if closed {
        return Refused;
      }
      queue := queue + [item];
      return Accepted;
    }

    /** Runs pop up to its next wait or to its unlock. */
    method PopLocked() returns (r: PopOutcome<T>)
      modifies this
      ensures (View(), r) == PopSection(old(View()))
    {
      if !(queue != [] || closed) {
        return NothingYet;
      }
      if queue == [] {
        return Finished;
      }
      r := Took(queue[0]);
      queue := queue[1..];
    }

    method CloseLocked()
      modifies this
      ensures View() == old(View()).(closed := true)
    {
      closed := true;
    }

    method Size() returns (n: nat)
      ensures n == |queue|
    {
      n := |queue|;
    }
  }

  // ---- The protocol --------------------------------------------------------------------------------

  type Tid = nat

  /** What a thread's last call on the queue returned. */
  datatype Ret<T> = Nothing | Pushed(ok: bool) | Popped(item: Option<T>)

  /** Where a thread stands: outside, about to take the lock, waiting on a condition variable, or about to notify. */
  datatype Pc<T> =
    | Out(ret: Ret<T>)
    | WantPush(item: T)
    | SleepPush(item: T)
    | NotifyEmpty
    | WantPop
    | SleepPop
    | NotifyFull(item: T)
    | WantClose
    | CloseNotifyEmpty
    | CloseNotifyFull

  /** The queue, its threads, and everything ever pushed and popped. */
  datatype Monitor<T> = Monitor(buffer: Buffer<T>, pcs: map<Tid, Pc<T>>, pushed: seq<T>, popped: seq<T>)

  datatype Move<T> =
    | Call(t: Tid, entry: Pc<T>)
    | EvalPush(t: Tid)
    | EvalPop(t: Tid)
    | SignalEmpty(t: Tid, woken: Option<Tid>)
    | SignalFull(t: Tid, woken: Option<Tid>)
    | SetClosed(t: Tid)
    | BroadcastEmpty(t: Tid)
    | BroadcastFull(t: Tid)
    | Spurious(t: Tid)

  predicate IsEntry<T>(pc: Pc<T>) {
    pc.WantPush? || pc.WantPop? || pc.WantClose?
  }

  function PopSleepers<T>(pcs: map<Tid, Pc<T>>): set<Tid> {
    set t | t in pcs && pcs[t].SleepPop?
  }

  function PushSleepers<T>(pcs: map<Tid, Pc<T>>): set<Tid> {
    set t | t in pcs && pcs[t].SleepPush?
  }

  /** notify_one wakes some sleeper if there is one. */
  predicate WakesOne(sleepers: set<Tid>, woken: Option<Tid>) {
    if woken.Some? then woken.value in sleepers else sleepers == {}
  }

  predicate Enabled<T>(m: Monitor<T>, mv: Move<T>) {
    mv.t in m.pcs &&
    var pc := m.pcs[mv.t];
    match mv
    case Call(t, entry) => pc.Out? && IsEntry(entry)
    case EvalPush(t) => pc.WantPush?
    case EvalPop(t) => pc.WantPop?
    case SignalEmpty(t, woken) => pc.NotifyEmpty? && WakesOne(PopSleepers(m.pcs), woken)
    case SignalFull(t, woken) => pc.NotifyFull? && WakesOne(PushSleepers(m.pcs), woken)
    case SetClosed(t) => pc.WantClose?
    case BroadcastEmpty(t) => pc.CloseNotifyEmpty?
    case BroadcastFull(t) => pc.CloseNotifyFull?
    case Spurious(t) => pc.SleepPush? || pc.SleepPop?
  }

  function Awake<T>(pc: Pc<T>): Pc<T> {
    match pc
    case SleepPush(item) => WantPush(item)
    case SleepPop => WantPop
    case _ => pc
  }

  function Wake<T>(pcs: map<Tid, Pc<T>>, woken: set<Tid>): map<Tid, Pc<T>> {
    map t | t in pcs :: if t in woken then Awake(pcs[t]) else pcs[t]
  }

  function One(woken: Option<Tid>): set<Tid> {
    if woken.Some? then {woken.value} else {}
  }

  function Do<T>(m: Monitor<T>, mv: Move<T>): Monitor<T>
    requires Enabled(m, mv)
  {
    var t, pcs := mv.t, m.pcs;
    match mv
    case Call(_, entry) => m.(pcs := pcs[t := entry])
    case EvalPush(_) =>
      var item := pcs[t].item;
      var (buffer, outcome) := PushSection(m.buffer, item);
      (match outcome
       case MustWait => m.(pcs := pcs[t := SleepPush(item)])
       case Refused => m.(pcs := pcs[t := Out(Pushed(false))])
       case Accepted => Monitor(buffer, pcs[t := NotifyEmpty], m.pushed + [item], m.popped))
    case EvalPop(_) =>
      var (buffer, outcome) := PopSection(m.buffer);
      (match outcome
       case NothingYet => m.(pcs := pcs[t := SleepPop])
       case Finished => m.(pcs := pcs[t := Out(Popped(None))])
       case Took(item) => Monitor(buffer, pcs[t := NotifyFull(item)], m.pushed, m.popped + [item]))
    case SignalEmpty(_, woken) => m.(pcs := Wake(pcs, One(woken))[t := Out(Pushed(true))])
    case SignalFull(_, woken) => m.(pcs := Wake(pcs, One(woken))[t := Out(Popped(Some(pcs[t].item)))])
    case SetClosed(_) => m.(buffer := m.buffer.(closed := true), pcs := pcs[t := CloseNotifyEmpty])
    case BroadcastEmpty(_) => m.(pcs := Wake(pcs, PopSleepers(pcs))[t := CloseNotifyFull])
    case BroadcastFull(_) => m.(pcs := Wake(pcs, PushSleepers(pcs))[t := Out(Nothing)])
    case Spurious(_) => m.(pcs := pcs[t := Awake(pcs[t])])
  }

  /**
   * Every thread can move in every state, so the scheduler is free: one outside may make any call, one asleep may wake
   * without a signal, and any other goes on.
   */
  lemma AnyThreadMayMove<T>(m: Monitor<T>, t: Tid, entry: Pc<T>) returns (mv: Move<T>)
    requires t in m.pcs && IsEntry(entry)
    ensures Enabled(m, mv) && mv.t == t
    ensures mv == Call(t, entry) <==> m.pcs[t].Out?
    ensures mv == Spurious(t) <==> m.pcs[t].SleepPush? || m.pcs[t].SleepPop?
    ensures mv.Call? ==> mv == Call(t, entry)
  {
    match m.pcs[t]
    case Out(_) => mv := Call(t, entry);
    case WantPush(_) => mv := EvalPush(t);
    case SleepPush(_) => mv := Spurious(t);
    case NotifyEmpty => mv := SignalEmpty(t, Waker(PopSleepers(m.pcs)));
    case WantPop => mv := EvalPop(t);
    case SleepPop => mv := Spurious(t);
    case NotifyFull(_) => mv := SignalFull(t, Waker(PushSleepers(m.pcs)));
    case WantClose => mv := SetClosed(t);
    case CloseNotifyEmpty => mv := BroadcastEmpty(t);
    case CloseNotifyFull => mv := BroadcastFull(t);
  }

  /** Some sleeper that notify_one may wake. */
  ghost function Waker(sleepers: set<Tid>): (woken: Option<Tid>)
    ensures WakesOne(sleepers, woken)
  {
    if sleepers == {} then None else var t :| t in sleepers; Some(t)
  }

  function Start<T>(capacity: nat, threads: set<Tid>): Monitor<T> {
    Monitor(Buffer(capacity, [], false), map t | t in threads :: Out(Nothing), [], [])
  }

  // ---- The invariant -------------------------------------------------------------------------------

  /** Awake consumers, and producers whose notification is still in flight. */
  ghost function EmptyHelpers<T>(pcs: map<Tid, Pc<T>>): set<Tid> {
    set t | t in pcs && (pcs[t].WantPop? || pcs[t].NotifyEmpty?)
  }

  /** Awake producers, and consumers whose notification is still in flight. */
  ghost function FullHelpers<T>(pcs: map<Tid, Pc<T>>): set<Tid> {
    set t | t in pcs && (pcs[t].WantPush? || pcs[t].NotifyFull?)
  }

  /** While the queue is open, whoever sleeps has enough helpers awake for all items, and for all free slots. */
  ghost predicate NoLostWakeup<T>(m: Monitor<T>) {
    && (PopSleepers(m.pcs) != {} ==> |m.buffer.queue| <= |EmptyHelpers(m.pcs)|)
    && (PushSleepers(m.pcs) != {} ==> m.buffer.capacity - |m.buffer.queue| <= |FullHelpers(m.pcs)|)
  }

  /** Once it is closed, whoever sleeps has a broadcast still to come. */
  ghost predicate NoLostBroadcast<T>(m: Monitor<T>) {
    && (PopSleepers(m.pcs) != {} ==> exists t :: t in m.pcs && m.pcs[t].CloseNotifyEmpty?)
    && (PushSleepers(m.pcs) != {} ==>
          exists t :: t in m.pcs && (m.pcs[t].CloseNotifyEmpty? || m.pcs[t].CloseNotifyFull?))
  }

  /** A refused push, or a pop that found nothing, means the queue is closed, and in the second case drained. */
  ghost predicate ReturnsGood<T>(m: Monitor<T>) {
    forall t :: t in m.pcs && m.pcs[t].Out? ==>
      (m.pcs[t].ret == Pushed(false) ==> m.buffer.closed) &&
      (m.pcs[t].ret == Popped(None) ==> m.buffer.closed && m.buffer.queue == [])
  }

  ghost predicate Inv<T>(m: Monitor<T>) {
    && |m.buffer.queue| <= m.buffer.capacity
    && m.pushed == m.popped + m.buffer.queue
    && (if m.buffer.closed then NoLostBroadcast(m) else NoLostWakeup(m))
    && ReturnsGood(m)
  }

  lemma StartIsGood<T>(capacity: nat, threads: set<Tid>)
    ensures Inv(Start<T>(capacity, threads))
  {
  }

  // The thread that moves leaves one set of helpers or sleepers and may join another.

  lemma WakeupStep<T>(m: Monitor<T>, mv: Move<T>)
    requires Inv(m) && Enabled(m, mv) && !Do(m, mv).buffer.closed
    ensures NoLostWakeup(Do(m, mv))
  {
    match mv
    case EvalPush(t) => WakeupEvalPush(m, t);
    case EvalPop(t) => WakeupEvalPop(m, t);
    case SignalEmpty(t, woken) => WakeupSignalEmpty(m, t, woken);
    case SignalFull(t, woken) => WakeupSignalFull(m, t, woken);
    case _ => WakeupOther(m, mv);
  }

  lemma WakeupEvalPush<T>(m: Monitor<T>, t: Tid)
    requires Inv(m) && Enabled(m, EvalPush(t)) && !m.buffer.closed
    ensures NoLostWakeup(Do(m, EvalPush(t)))
  {
    var m' := Do(m, EvalPush(t));
    assert PopSleepers(m'.pcs) == PopSleepers(m.pcs);
    assert t in FullHelpers(m.pcs) && t !in EmptyHelpers(m.pcs);
    assert FullHelpers(m'.pcs) == FullHelpers(m.pcs) - {t};
    if |m.buffer.queue| < m.buffer.capacity {
      assert PushSleepers(m'.pcs) == PushSleepers(m.pcs);
      assert EmptyHelpers(m'.pcs) == EmptyHelpers(m.pcs) + {t};
    } else {
      assert EmptyHelpers(m'.pcs) == EmptyHelpers(m.pcs);
    }
  }

  lemma WakeupEvalPop<T>(m: Monitor<T>, t: Tid)
    requires Inv(m) && Enabled(m, EvalPop(t)) && !m.buffer.closed
    ensures NoLostWakeup(Do(m, EvalPop(t)))
  {
    var m' := Do(m, EvalPop(t));
    assert PushSleepers(m'.pcs) == PushSleepers(m.pcs);
    assert t in EmptyHelpers(m.pcs) && t !in FullHelpers(m.pcs);
    assert EmptyHelpers(m'.pcs) == EmptyHelpers(m.pcs) - {t};
    if m.buffer.queue != [] {
      assert PopSleepers(m'.pcs) == PopSleepers(m.pcs);
      assert FullHelpers(m'.pcs) == FullHelpers(m.pcs) + {t};
    } else {
      assert FullHelpers(m'.pcs) == FullHelpers(m.pcs);
    }
  }

  /** The notifier leaves the helpers, and whoever it wakes joins them. */
  lemma SignalEmptySets<T>(m: Monitor<T>, t: Tid, woken: Option<Tid>)
    requires Enabled(m, SignalEmpty(t, woken))
    ensures var m' := Do(m, SignalEmpty(t, woken));
            && m'.buffer == m.buffer
            && PushSleepers(m'.pcs) == PushSleepers(m.pcs) && FullHelpers(m'.pcs) == FullHelpers(m.pcs)
            && PopSleepers(m'.pcs) == PopSleepers(m.pcs) - One(woken)
            && EmptyHelpers(m'.pcs) == EmptyHelpers(m.pcs) - {t} + One(woken)
            && t in EmptyHelpers(m.pcs) && One(woken) !! EmptyHelpers(m.pcs)
  {
  }

  lemma WakeupSignalEmpty<T>(m: Monitor<T>, t: Tid, woken: Option<Tid>)
    requires Inv(m) && Enabled(m, SignalEmpty(t, woken)) && !m.buffer.closed
    ensures NoLostWakeup(Do(m, SignalEmpty(t, woken)))
  {
    SignalEmptySets(m, t, woken);
    hide Do, PopSleepers, PushSleepers, EmptyHelpers, FullHelpers;
    assert woken == None ==> PopSleepers(m.pcs) == {};
    OneForOne(EmptyHelpers(m.pcs), t, woken);
  }

  lemma SignalFullSets<T>(m: Monitor<T>, t: Tid, woken: Option<Tid>)
    requires Enabled(m, SignalFull(t, woken))
    ensures var m' := Do(m, SignalFull(t, woken));
            && m'.buffer == m.buffer
            && PopSleepers(m'.pcs) == PopSleepers(m.pcs) && EmptyHelpers(m'.pcs) == EmptyHelpers(m.pcs)
            && PushSleepers(m'.pcs) == PushSleepers(m.pcs) - One(woken)
            && FullHelpers(m'.pcs) == FullHelpers(m.pcs) - {t} + One(woken)
            && t in FullHelpers(m.pcs) && One(woken) !! FullHelpers(m.pcs)
  {
  }

  lemma WakeupSignalFull<T>(m: Monitor<T>, t: Tid, woken: Option<Tid>)
    requires Inv(m) && Enabled(m, SignalFull(t, woken)) && !m.buffer.closed
    ensures NoLostWakeup(Do(m, SignalFull(t, woken)))
  {
    SignalFullSets(m, t, woken);
    hide Do, PopSleepers, PushSleepers, EmptyHelpers, FullHelpers;
    assert woken == None ==> PushSleepers(m.pcs) == {};
    OneForOne(FullHelpers(m.pcs), t, woken);
  }

  lemma OneForOne(helpers: set<Tid>, t: Tid, woken: Option<Tid>)
    requires t in helpers && One(woken) !! helpers
    ensures woken.Some? ==> |helpers - {t} + One(woken)| == |helpers|
  {
  }

  /** Calls, broadcasts and spurious wakeups only add helpers and only remove sleepers. */
  lemma WakeupOther<T>(m: Monitor<T>, mv: Move<T>)
    requires Inv(m) && Enabled(m, mv) && !Do(m, mv).buffer.closed
    requires mv.Call? || mv.SetClosed? || mv.BroadcastEmpty? || mv.BroadcastFull? || mv.Spurious?
    ensures NoLostWakeup(Do(m, mv))
  {
    var m' := Do(m, mv);
    assert PopSleepers(m'.pcs) <= PopSleepers(m.pcs) && PushSleepers(m'.pcs) <= PushSleepers(m.pcs);
    assert EmptyHelpers(m.pcs) <= EmptyHelpers(m'.pcs) && FullHelpers(m.pcs) <= FullHelpers(m'.pcs);
    SubsetSize(EmptyHelpers(m.pcs), EmptyHelpers(m'.pcs));
    SubsetSize(FullHelpers(m.pcs), FullHelpers(m'.pcs));
  }

  lemma SubsetSize(a: set<Tid>, b: set<Tid>)
    requires a <= b
    ensures |a| <= |b|
  {
    assert b == a + (b - a);
  }

  lemma BroadcastStep<T>(m: Monitor<T>, mv: Move<T>)
    requires Inv(m) && Enabled(m, mv) && Do(m, mv).buffer.closed
    ensures NoLostBroadcast(Do(m, mv))
  {
    var m' := Do(m, mv);
    if mv.SetClosed? {
      assert m'.pcs[mv.t].CloseNotifyEmpty?;
    } else {
      assert m.buffer.closed;
      assert PopSleepers(m'.pcs) <= PopSleepers(m.pcs) && PushSleepers(m'.pcs) <= PushSleepers(m.pcs);
      if mv.BroadcastEmpty? {
        assert PopSleepers(m'.pcs) == {};
        assert m'.pcs[mv.t].CloseNotifyFull?;
      } else if mv.BroadcastFull? {
        assert PushSleepers(m'.pcs) == {};
        BroadcastersStay(m, mv);
      } else {
        BroadcastersStay(m, mv);
      }
    }
  }

  lemma BroadcastersStay<T>(m: Monitor<T>, mv: Move<T>)
    requires Enabled(m, mv) && !mv.BroadcastEmpty?
    ensures forall t :: t in m.pcs && m.pcs[t].CloseNotifyEmpty? ==> Do(m, mv).pcs[t].CloseNotifyEmpty?
    ensures forall t :: t in m.pcs && m.pcs[t].CloseNotifyFull? && !mv.BroadcastFull? ==> Do(m, mv).pcs[t].CloseNotifyFull?
  {
  }

  lemma ReturnsStep<T>(m: Monitor<T>, mv: Move<T>)
    requires Inv(m) && Enabled(m, mv)
    ensures ReturnsGood(Do(m, mv))
  {
    hide NoLostWakeup, NoLostBroadcast;
  }

  /** Every step keeps the invariant: FIFO contents, the capacity bound, and no lost wakeup. */
  lemma StepIsGood<T>(m: Monitor<T>, mv: Move<T>)
    requires Inv(m) && Enabled(m, mv)
    ensures Inv(Do(m, mv))
  {
    var m' := Do(m, mv);
    if m'.buffer.closed { BroadcastStep(m, mv); } else { WakeupStep(m, mv); }
    ReturnsStep(m, mv);
    hide NoLostWakeup, NoLostBroadcast, ReturnsGood;
  }

  ghost predicate IsRun<T>(m: Monitor<T>, moves: seq<Move<T>>, m': Monitor<T>)
    decreases |moves|
  {
    if moves == [] then m' == m
    else Enabled(m, moves[0]) && IsRun(Do(m, moves[0]), moves[1..], m')
  }

  lemma {:induction false} RunIsGood<T>(m: Monitor<T>, moves: seq<Move<T>>, m': Monitor<T>)
    requires Inv(m) && IsRun(m, moves, m')
    ensures Inv(m')
    decreases |moves|
  {
    if moves != [] {
      StepIsGood(m, moves[0]);
      RunIsGood(Do(m, moves[0]), moves[1..], m');
    }
  }

  /** Everything popped so far, followed by what is queued, is everything pushed, in order; and the bound is kept. */
  lemma RunIsFifo<T>(capacity: nat, threads: set<Tid>, moves: seq<Move<T>>, m: Monitor<T>)
    requires IsRun(Start(capacity, threads), moves, m)
    ensures m.pushed == m.popped + m.buffer.queue && |m.buffer.queue| <= m.buffer.capacity
  {
    StartIsGood<T>(capacity, threads);
    RunIsGood(Start(capacity, threads), moves, m);
  }

  lemma ClosedStep<T>(m: Monitor<T>, mv: Move<T>)
    requires m.buffer.closed && Enabled(m, mv)
    ensures Do(m, mv).buffer.closed && Do(m, mv).pushed == m.pushed
  {
  }

  /** Once the queue is closed it stays closed, and nothing more is pushed whatever the threads do. */
  lemma {:induction false} ClosedAcceptsNothing<T>(m: Monitor<T>, moves: seq<Move<T>>, m': Monitor<T>)
    requires m.buffer.closed && IsRun(m, moves, m')
    ensures m'.buffer.closed && m'.pushed == m.pushed
    decreases |moves|
  {
    if moves != [] {
      ClosedStep(m, moves[0]);
      ClosedAcceptsNothing(Do(m, moves[0]), moves[1..], m');
    }
  }

  /** No thread can go on by itself: each is outside the queue or asleep. */
  ghost predicate Quiet<T>(m: Monitor<T>) {
    forall t :: t in m.pcs ==> m.pcs[t].Out? || m.pcs[t].SleepPush? || m.pcs[t].SleepPop?
  }

  /**
   * No wakeup is ever lost: when nothing is left in flight, a sleeping consumer means the queue is open and empty, a
   * sleeping producer means it is open and full, and with room for one item both kinds never sleep together.
   */
  lemma QuietIsJustified<T>(capacity: nat, threads: set<Tid>, moves: seq<Move<T>>, m: Monitor<T>)
    requires IsRun(Start(capacity, threads), moves, m) && Quiet(m)
    ensures PopSleepers(m.pcs) != {} ==> !m.buffer.closed && m.buffer.queue == []
    ensures PushSleepers(m.pcs) != {} ==> !m.buffer.closed && |m.buffer.queue| == m.buffer.capacity
    ensures m.buffer.capacity > 0 ==> PopSleepers(m.pcs) == {} || PushSleepers(m.pcs) == {}
  {
    StartIsGood<T>(capacity, threads);
    RunIsGood(Start(capacity, threads), moves, m);
    assert EmptyHelpers(m.pcs) == {} && FullHelpers(m.pcs) == {};
  }
}
