/**
 * A stream sent in segments, pulled after every arrival as the engine does: what is delivered, and when the reassembler
 * stalls at the wrap of the sequence numbers for good, in terms of what arrived in which order.
 */
module StreamDelivery {
  import opened Bytes
  import opened Wrappers
  import opened TcpReassembler
  import opened ReassemblyRuns
  import opened ReassemblyStalls

  // ---- Segments as they arrive -----------------------------------------------------------------------

  datatype Chunk = Chunk(off: nat, len: nat)

  /** A stream, its initial sequence number, the offset of the segment that arrives first, and all arrivals in order. */
  datatype Sending = Sending(isn: u32, stream: bytes, start: nat, chunks: seq<Chunk>) {
    /** The sending as it stands before the last arrival. */
    function Before(): Sending
      requires chunks != []
    {
      this.(chunks := chunks[..|chunks| - 1])
    }
  }

  ghost predicate Contains(c: Chunk, x: int) {
    c.off <= x < c.off + c.len
  }

  ghost predicate Arrived(chunks: seq<Chunk>, x: int) {
    exists c :: c in chunks && Contains(c, x)
  }

  /** Everything from offset o to offset n has arrived. */
  ghost predicate AllArrived(chunks: seq<Chunk>, o: int, n: int) {
    forall x :: o <= x < n ==> Arrived(chunks, x)
  }

  /** Arrival j is no shorter than an earlier one with the same start, unless that start had been delivered by then. */
  ghost predicate NotCut(s: Sending, i: nat, j: nat)
    requires i < j < |s.chunks|
  {
    s.chunks[i].off == s.chunks[j].off && s.chunks[j].len < s.chunks[i].len ==>
      AllArrived(s.chunks[..j], s.start, s.chunks[j].off + 1)
  }

  /**
   * Segments of one stream below half the number space, in any order and with any overlaps and retransmissions, as long as
   * none is cut shorter while it is waiting.
   */
  ghost predicate Scheduled(s: Sending) {
    && |s.stream| < 0x8000_0000
    && (s.chunks != [] ==> s.chunks[0].off == s.start)
    && (forall c :: c in s.chunks ==> c.len > 0 && c.off + c.len <= |s.stream|)
    && (forall i, j :: 0 <= i < j < |s.chunks| ==> NotCut(s, i, j))
  }

  lemma BeforeIsScheduled(s: Sending)
    requires Scheduled(s) && s.chunks != []
    ensures Scheduled(s.Before())
  {
    hide AllArrived;
    var b := s.Before();
    forall i, j | 0 <= i < j < |b.chunks|
      ensures NotCut(b, i, j)
    {
      assert NotCut(s, i, j) && b.chunks[..j] == s.chunks[..j];
    }
  }

  lemma NothingArrived(x: int)
    ensures !Arrived([], x)
  {
  }

  lemma ArrivedLast(before: seq<Chunk>, c: Chunk, x: int)
    ensures Arrived(before + [c], x) <==> Arrived(before, x) || Contains(c, x)
  {
    assert c in before + [c];
  }

  // ---- The reassembler's run -----------------------------------------------------------------------

  /** The engine pulls after every segment it adds. */
  ghost function OpsOf(chunks: seq<Chunk>): seq<Op> {
    if chunks == [] then []
    else OpsOf(chunks[..|chunks| - 1]) + [Feed(chunks[|chunks| - 1].off, chunks[|chunks| - 1].len)] + [Fetch]
  }

  ghost function RunOf(s: Sending): Option<Run> {
    Exec(s.isn, s.stream, OpsOf(s.chunks))
  }

  lemma {:induction false} OpsMembers(chunks: seq<Chunk>)
    ensures forall off: nat, len: nat :: Feed(off, len) in OpsOf(chunks) <==> Chunk(off, len) in chunks
  {
    if chunks != [] {
      OpsMembers(chunks[..|chunks| - 1]);
      assert chunks == chunks[..|chunks| - 1] + [chunks[|chunks| - 1]];
    }
  }

  lemma FedIffArrived(chunks: seq<Chunk>, x: int)
    ensures Fed(OpsOf(chunks), x) <==> Arrived(chunks, x)
  {
    var ops := OpsOf(chunks);
    OpsMembers(chunks);
    if Arrived(chunks, x) {
      var a :| a in chunks && Contains(a, x);
      assert Feed(a.off, a.len) in ops && Covers(Feed(a.off, a.len), x);
    }
    if Fed(ops, x) {
      var i :| 0 <= i < |ops| && Covers(ops[i], x);
      assert ops[i] in ops;
      assert Contains(Chunk(ops[i].off, ops[i].len), x);
    }
  }

  /** A state between arrivals: nothing yet, or delivery going on from the first arrival's start. */
  ghost predicate Begun(s: Sending, r: Run) {
    Good(s.isn, s.stream, r) && if r.out == [] then r == FIRST else r.Start() == s.start
  }

  /** The state in which the pull after the last arrival happens. */
  ghost function LastFed(s: Sending, r: Run): Run
    requires s.chunks != [] && s.chunks[|s.chunks| - 1].off + s.chunks[|s.chunks| - 1].len <= |s.stream|
  {
    var c := s.chunks[|s.chunks| - 1];
    Step(s.isn, s.stream, r, Feed(c.off, c.len))
  }

  ghost predicate LastFits(s: Sending, r: Run) {
    && s.chunks != [] && |s.stream| < 0x8000_0000
    && var c := s.chunks[|s.chunks| - 1];
       c.len > 0 && c.off + c.len <= |s.stream| && (r == FIRST ==> c.off == s.start)
  }

  /** One arrival: an admissible feed, then a pull that extends what was delivered. */
  lemma ArrivalRuns(s: Sending, r: Run)
    requires LastFits(s, r) && Begun(s, r)
    ensures var c := s.chunks[|s.chunks| - 1];
            var r1 := LastFed(s, r);
            var r2 := Step(s.isn, s.stream, r1, Fetch);
            && Admissible(s.stream, r, Feed(c.off, c.len))
            && Good(s.isn, s.stream, r1) && r1.out == r.out && r1.cursor - |r.out| == s.start
            && r1.cursor == CursorAfterFeed(r, c.off) && r1.r.initialized
            && Good(s.isn, s.stream, r2) && r2.Start() == s.start && |r.out| <= |r2.out|
  {
    var c := s.chunks[|s.chunks| - 1];
    FeedIsGood(s.isn, s.stream, r, c.off, c.len);
    FetchIsGood(s.isn, s.stream, LastFed(s, r));
    hide Add, Pull, At;
  }

  /** What two more operations do to an admissible run. */
  lemma ExecTwo(isn: u32, stream: bytes, ops: seq<Op>, feed: Op)
    requires Exec(isn, stream, ops).Some? && Admissible(stream, Exec(isn, stream, ops).value, feed)
    ensures Exec(isn, stream, ops + [feed] + [Fetch]) ==
            Some(Step(isn, stream, Step(isn, stream, Exec(isn, stream, ops).value, feed), Fetch))
  {
    ExecLast(isn, stream, ops, feed);
    ExecLast(isn, stream, ops + [feed], Fetch);
    hide Exec, Step;
  }

  lemma FirstIsGood(isn: u32, stream: bytes)
    ensures Good(isn, stream, FIRST)
  {
  }

  /** The first segment leaves a single entry at the cursor. */
  lemma FirstFed(isn: u32, stream: bytes, off: nat, len: nat)
    requires 0 < len && off + len <= |stream| < 0x8000_0000
    ensures var r := Step(isn, stream, FIRST, Feed(off, len)).r;
            r.pending == map[r.nextSeq := stream[off..off + len]]
  {
    hide Wrap, Add, Step, Good, SeqLessThan;
    FirstIsGood(isn, stream);
    FeedStores(isn, stream, FIRST, off, len);
    assert EMPTY.pending[Wrap(isn + off) := stream[off..off + len]] == map[Wrap(isn + off) := stream[off..off + len]];
  }

  /** The first arrival is delivered at once. */
  lemma FirstArrival(s: Sending)
    requires LastFits(s, FIRST)
    ensures Step(s.isn, s.stream, LastFed(s, FIRST), Fetch).out != []
  {
    var c := s.chunks[|s.chunks| - 1];
    ArrivalRuns(s, FIRST);
    FirstFed(s.isn, s.stream, c.off, c.len);
    hide Add, Pull, Step, Wrap;
    var r1 := LastFed(s, FIRST);
    FetchIsGood(s.isn, s.stream, r1);
    OffOfSeq(s.isn, r1.cursor, r1.cursor);
    assert HeldAt(r1.r.pending, s.isn, r1.cursor, r1.r.nextSeq, r1.cursor);
    assert Held(r1.r.pending, s.isn, r1.cursor, r1.cursor);
    assert !PullStalls(r1.r);
  }

  lemma LastFitsNext(s: Sending, r: Run)
    requires Scheduled(s) && s.chunks != [] && (r == FIRST ==> |s.chunks| == 1)
    ensures LastFits(s, r)
  {
  }

  /** The run is admissible throughout, and delivers from the start of the first arrival on. */
  lemma {:induction false} RunBegins(s: Sending)
    requires Scheduled(s)
    ensures RunOf(s).Some? && Begun(s, RunOf(s).value)
    ensures s.chunks != [] ==> RunOf(s).value.out != []
    ensures s.chunks == [] ==> RunOf(s) == Some(FIRST)
    ensures s.chunks != [] ==>
              var r := RunOf(s.Before());
              r.Some? && LastFits(s, r.value) && RunOf(s).value == Step(s.isn, s.stream, LastFed(s, r.value), Fetch)
    decreases |s.chunks|
  {
    hide Good, Step, Admissible, Scheduled, LastFits;
    if s.chunks == [] {
      FirstIsGood(s.isn, s.stream);
    } else {
      var b, c := s.Before(), s.chunks[|s.chunks| - 1];
      BeforeIsScheduled(s);
      RunBegins(b);
      var r := RunOf(b).value;
      LastFitsNext(s, r);
      ArrivalRuns(s, r);
      if r == FIRST { FirstArrival(s); }
      ExecTwo(s.isn, s.stream, OpsOf(b.chunks), Feed(c.off, c.len));
    }
  }

  /** Whatever is delivered has arrived. */
  lemma DeliveredHasArrived(s: Sending)
    requires Scheduled(s)
    ensures RunOf(s).Some? && AllArrived(s.chunks, s.start, RunOf(s).value.cursor)
  {
    hide Exec, Held, Fed, Good, Scheduled, Arrived;
    RunBegins(s);
    RunIsJustified(s.isn, s.stream, OpsOf(s.chunks));
    forall x | s.start <= x < RunOf(s).value.cursor
      ensures Arrived(s.chunks, x)
    {
      FedIffArrived(s.chunks, x);
    }
  }

  // ---- A run that does not stall -------------------------------------------------------------------

  /** Every entry is a segment as it arrived, but for one that may stand at the cursor. */
  ghost predicate Intact(s: Sending, r: Run) {
    forall k :: k in r.r.pending ==>
      Off(s.isn, r.cursor, k) == r.cursor || Chunk(Off(s.isn, r.cursor, k), |r.r.pending[k]|) in s.chunks
  }

  /** What is buffered from the cursor on is what has arrived. */
  ghost predicate HoldsArrived(s: Sending, r: Run) {
    forall x :: r.cursor <= x ==> (Held(r.r.pending, s.isn, r.cursor, x) <==> Arrived(s.chunks, x))
  }

  /** The state after a pull that did not stall: delivery stands at the first byte that has not arrived. */
  ghost predicate Steady(s: Sending, r: Run) {
    && Begun(s, r) && r.out != []
    && HoldsArrived(s, r) && Intact(s, r)
    && AllArrived(s.chunks, s.start, r.cursor) && !Arrived(s.chunks, r.cursor)
  }

  /** The state before the last arrival: none before it, or steady. */
  ghost predicate Ready(s: Sending, r: Run)
    requires s.chunks != []
  {
    if |s.chunks| == 1 then r == FIRST else Steady(s.Before(), r)
  }

  lemma NothingAtGap(s: Sending, r: Run, k: u32)
    requires Steady(s, r) && k in r.r.pending
    ensures Off(s.isn, r.cursor, k) != r.cursor
    ensures Chunk(Off(s.isn, r.cursor, k), |r.r.pending[k]|) in s.chunks
  {
    hide Wrap, Off, Arrived;
    TracksEntry(r.r.pending, s.isn, s.stream, r.cursor, k);
    assert !HeldAt(r.r.pending, s.isn, r.cursor, k, r.cursor) by { assert !Held(r.r.pending, s.isn, r.cursor, r.cursor); }
  }

  /** A segment never replaces a longer entry of a steady state. */
  lemma NeverCuts(s: Sending, r: Run)
    requires Scheduled(s) && s.chunks != [] && Ready(s, r)
    ensures var c := s.chunks[|s.chunks| - 1]; !Shrinks(s.isn, r, c.off, c.len)
  {
    hide Wrap, Off, Good, Held, Arrived, Scheduled;
    var c := s.chunks[|s.chunks| - 1];
    if |s.chunks| > 1 {
      assert r.r.initialized && r.r.consumedAny by { BegunHasConsumed(s.Before(), r); }
      var key := Wrap(s.isn + Max(c.off, r.cursor));
      if r.cursor < c.off + c.len && key in r.r.pending {
        ScheduledLast(s);
        OffOfSeq(s.isn, r.cursor, Max(c.off, r.cursor));
        NothingAtGap(s.Before(), r, key);
        CutIsDelivered(s, r.cursor, Chunk(c.off, |r.r.pending[key]|));
      }
    }
  }

  lemma BegunHasConsumed(s: Sending, r: Run)
    requires Begun(s, r) && r.out != []
    ensures r.r.initialized && r.r.consumedAny
  {
  }

  lemma ScheduledLast(s: Sending)
    requires Scheduled(s) && s.chunks != []
    ensures var c := s.chunks[|s.chunks| - 1]; c.len > 0 && c.off + c.len <= |s.stream| < 0x8000_0000
  {
  }

  lemma CutIsDelivered(s: Sending, cursor: nat, e: Chunk)
    requires Scheduled(s) && s.chunks != [] && e in s.Before().chunks && e.off == s.chunks[|s.chunks| - 1].off
    requires s.start <= cursor <= e.off && !Arrived(s.Before().chunks, cursor)
    ensures e.len <= s.chunks[|s.chunks| - 1].len
  {
    hide Arrived;
    var n := |s.chunks| - 1;
    var i :| 0 <= i < n && s.chunks[i] == e;
    assert NotCut(s, i, n);
  }

  /** What the last arrival leaves to be pulled. */
  ghost predicate Loaded(s: Sending, r: Run, r1: Run)
    requires s.chunks != []
  {
    && Good(s.isn, s.stream, r1) && r1.out == r.out && r1.Start() == s.start
    && HoldsArrived(s, r1) && Intact(s, r1) && AllArrived(s.chunks, s.start, r1.cursor)
    && (|s.chunks| > 1 ==> r1.cursor == r.cursor)
    && (r1.cursor < s.chunks[|s.chunks| - 1].off ==> Wrap(s.isn + s.chunks[|s.chunks| - 1].off) in r1.r.pending)
  }

  lemma ReadyHolds(s: Sending, r: Run)
    requires s.chunks != [] && Ready(s, r)
    ensures Begun(s, r)
    ensures forall x :: r.cursor <= x ==> (Held(r.r.pending, s.isn, r.cursor, x) <==> Arrived(s.Before().chunks, x))
    ensures r.out != [] ==> AllArrived(s.Before().chunks, s.start, r.cursor)
    ensures r.out == [] <==> |s.chunks| == 1
  {
    hide Off, Arrived, At;
    FirstIsGood(s.isn, s.stream);
    if |s.chunks| == 1 {
      assert s.Before().chunks == [];
      NothingHeld(s.isn, 0);
      forall x
        ensures !Arrived(s.Before().chunks, x)
      {
        NothingArrived(x);
      }
    }
  }

  lemma LoadedHolds(s: Sending, r: Run)
    requires Scheduled(s) && s.chunks != [] && Ready(s, r)
    ensures LastFits(s, r) && Begun(s, r)
    ensures var r1 := LastFed(s, r);
            HoldsArrived(s, r1) && AllArrived(s.chunks, s.start, r1.cursor)
  {
    hide Wrap, Off, Good, Held, Arrived, Step, At, Shrinks, Intact, Scheduled;
    ReadyHolds(s, r);
    ScheduledLast(s);
    ReadyFits(s, r);
    NeverCuts(s, r);
    ArrivalRuns(s, r);
    var c, b := s.chunks[|s.chunks| - 1], s.Before();
    var r1 := LastFed(s, r);
    FeedHolds(s.isn, s.stream, r, c.off, c.len);
    assert s.chunks == b.chunks + [c];
    forall x
      ensures Arrived(s.chunks, x) <==> Arrived(b.chunks, x) || Contains(c, x)
    {
      ArrivedLast(b.chunks, c, x);
    }
  }

  lemma ReadyFits(s: Sending, r: Run)
    requires Scheduled(s) && s.chunks != [] && Ready(s, r)
    ensures LastFits(s, r)
  {
    hide Good, Arrived, Held, Off, NotCut;
  }

  lemma StoredIntact(s: Sending, pending: map<u32, bytes>, cursor: nat, c: Chunk)
    requires c in s.chunks && c.len > 0 && c.off + c.len <= |s.stream| < 0x8000_0000 && cursor <= |s.stream|
    requires forall k :: k in pending ==> Chunk(Off(s.isn, cursor, k), |pending[k]|) in s.chunks
    ensures var pending' := Stored(pending, s.isn, s.stream, cursor, c.off, c.off + c.len);
            && (forall k :: k in pending' ==>
                  Off(s.isn, cursor, k) == cursor || Chunk(Off(s.isn, cursor, k), |pending'[k]|) in s.chunks)
            && (cursor < c.off ==> Wrap(s.isn + c.off) in pending')
  {
    OffOfSeq(s.isn, cursor, Max(c.off, cursor));
    hide Off, Wrap;
  }

  lemma LoadedIntact(s: Sending, r: Run)
    requires Scheduled(s) && s.chunks != [] && Ready(s, r) && LastFits(s, r) && Begun(s, r)
    ensures var c, r1 := s.chunks[|s.chunks| - 1], LastFed(s, r);
            Intact(s, r1) && (r1.cursor < c.off ==> Wrap(s.isn + c.off) in r1.r.pending)
  {
    hide Off, Good, Held, Arrived, At, Scheduled, Wrap, Add, Step, Stored;
    var c, b := s.chunks[|s.chunks| - 1], s.Before();
    ArrivalRuns(s, r);
    FeedStores(s.isn, s.stream, r, c.off, c.len);
    EntriesBefore(s, r);
    CursorInStream(s, LastFed(s, r));
    StoredIntact(s, r.r.pending, CursorAfterFeed(r, c.off), c);
  }

  lemma CursorInStream(s: Sending, r: Run)
    requires Good(s.isn, s.stream, r)
    ensures r.cursor <= |s.stream|
  {
  }

  lemma EntriesBefore(s: Sending, r: Run)
    requires s.chunks != [] && Ready(s, r)
    ensures var c := CursorAfterFeed(r, s.chunks[|s.chunks| - 1].off);
            forall k :: k in r.r.pending ==> Chunk(Off(s.isn, c, k), |r.r.pending[k]|) in s.chunks
  {
    hide Off, Good, Held, Arrived, Steady;
    var b := s.Before();
    assert s.chunks == b.chunks + [s.chunks[|s.chunks| - 1]];
    if |s.chunks| > 1 {
      SteadyBegun(b, r);
      forall k | k in r.r.pending
        ensures Chunk(Off(s.isn, r.cursor, k), |r.r.pending[k]|) in s.chunks
      {
        NothingAtGap(b, r, k);
      }
    }
  }

  lemma SteadyBegun(s: Sending, r: Run)
    requires Steady(s, r)
    ensures r.r.initialized && r.r.consumedAny
  {
    hide Off, Held, Arrived, Intact, HoldsArrived;
  }

  lemma LoadedAfter(s: Sending, r: Run)
    requires Scheduled(s) && s.chunks != [] && Ready(s, r)
    ensures LastFits(s, r) && Loaded(s, r, LastFed(s, r))
  {
    hide Wrap, Off, Good, Held, Arrived, Step, At, Intact, HoldsArrived, Scheduled, AllArrived;
    LoadedHolds(s, r);
    LoadedIntact(s, r);
    ArrivalRuns(s, r);
    if |s.chunks| > 1 { BegunHasConsumed(s.Before(), r); }
  }

  lemma PullKeepsIntact(s: Sending, r1: Run)
    requires Good(s.isn, s.stream, r1) && r1.r.initialized && Intact(s, r1)
    requires Step(s.isn, s.stream, r1, Fetch).cursor > r1.cursor
    ensures Intact(s, Step(s.isn, s.stream, r1, Fetch))
  {
    hide Wrap, Off, Held, Drain, Tracks;
    PullKeeps(r1.r, s.isn, s.stream, r1.cursor);
    var r2 := Step(s.isn, s.stream, r1, Fetch);
    hide Good;
    forall k | k in r2.r.pending
      ensures Chunk(Off(s.isn, r2.cursor, k), |r2.r.pending[k]|) in s.chunks
    {
      assert Off(s.isn, r2.cursor, k) == Off(s.isn, r1.cursor, k) >= r2.cursor;
    }
  }

  /** A pull that does not stall leads to a steady state. */
  lemma PullSteadies(s: Sending, r: Run, r1: Run)
    requires s.chunks != [] && Loaded(s, r, r1) && !PullStalls(r1.r) && r1.r.initialized
    requires Step(s.isn, s.stream, r1, Fetch).out != []
    ensures Steady(s, Step(s.isn, s.stream, r1, Fetch))
  {
    hide Wrap, Off, Held, Arrived, PullStalls, Good, Intact, Step;
    var r2 := Step(s.isn, s.stream, r1, Fetch);
    FetchIsGood(s.isn, s.stream, r1);
    FetchStands(s.isn, s.stream, r1);
    if r2.cursor > r1.cursor {
      PullKeepsIntact(s, r1);
    } else {
      SameIntact(s, r1);
    }
  }

  /** A pull that delivers nothing leaves entries where they are. */
  lemma SameIntact(s: Sending, r1: Run)
    requires Good(s.isn, s.stream, r1) && r1.r.initialized && Intact(s, r1)
    requires Step(s.isn, s.stream, r1, Fetch).cursor == r1.cursor
    ensures Intact(s, Step(s.isn, s.stream, r1, Fetch))
  {
    hide Wrap, Off, Held, Drain, Tracks;
    PullKeeps(r1.r, s.isn, s.stream, r1.cursor);
    hide Good;
  }

  // ---- The wrap of the sequence numbers --------------------------------------------------------------

  /** The first stream offset whose sequence number has wrapped to zero. */
  function WrapOffset(s: Sending): nat {
    0x1_0000_0000 - s.isn
  }

  /** Some segment that starts past the wrap has arrived. */
  ghost predicate Past(chunks: seq<Chunk>, w: nat) {
    exists c :: c in chunks && c.off >= w
  }

  /** No segment past the wrap arrives before everything up to offset n, or up to the wrap if that comes first. */
  ghost predicate NothingEarly(s: Sending, n: int) {
    forall j :: 0 <= j <= |s.chunks| && Past(s.chunks[..j], WrapOffset(s)) ==>
      AllArrived(s.chunks[..j], s.start, Min(WrapOffset(s), n))
  }

  lemma NothingEarlyLast(s: Sending, n: int)
    requires s.chunks != []
    ensures NothingEarly(s, n) <==>
            NothingEarly(s.Before(), n) &&
            (Past(s.chunks, WrapOffset(s)) ==> AllArrived(s.chunks, s.start, Min(WrapOffset(s), n)))
  {
    hide Past, AllArrived, Min;
    var b := s.Before();
    assert forall j :: 0 <= j <= |b.chunks| ==> b.chunks[..j] == s.chunks[..j];
    assert s.chunks[..|s.chunks|] == s.chunks;
  }

  lemma EarlyAtEnd(s: Sending, n: int)
    requires NothingEarly(s, n) && Past(s.chunks, WrapOffset(s))
    ensures AllArrived(s.chunks, s.start, Min(WrapOffset(s), n))
  {
    assert s.chunks[..|s.chunks|] == s.chunks;
  }

  /** Where an entry of smaller sequence number than the cursor's lies. */
  lemma SmallerIsPastWrap(isn: u32, c: nat, o: nat)
    requires c <= o < 0x8000_0000
    ensures Wrap(isn + o) < Wrap(isn + c) <==> c < 0x1_0000_0000 - isn <= o
  {
    WrapOnce(isn + o);
    WrapOnce(isn + c);
  }

  lemma WrapOnce(x: int)
    requires 0 <= x < 0x2_0000_0000
    ensures Wrap(x) == if x < 0x1_0000_0000 then x else x - 0x1_0000_0000
  {
  }

  /** An entry that comes before the cursor in raw order is a segment past the wrap, with the cursor before it. */
  lemma StallMeansPast(s: Sending, r1: Run) returns (p: Chunk)
    requires Good(s.isn, s.stream, r1) && r1.r.initialized && Intact(s, r1) && PullStalls(r1.r) && |s.stream| < 0x8000_0000
    ensures r1.cursor < WrapOffset(s) <= p.off && p in s.chunks
  {
    var k :| k in r1.r.pending && k < r1.r.nextSeq;
    hide Wrap, Off;
    TracksEntry(r1.r.pending, s.isn, s.stream, r1.cursor, k);
    var o := Off(s.isn, r1.cursor, k);
    OffIsInverse(s.isn, r1.cursor, k);
    SmallerIsPastWrap(s.isn, r1.cursor, o);
    p := Chunk(o, |r1.r.pending[k]|);
  }

  /** If nothing is early, what a segment past the wrap needs had arrived before the last arrival. */
  lemma ArrivedBefore(s: Sending, p: Chunk, x: nat)
    requires s.chunks != [] && NothingEarly(s, WrapOffset(s))
    requires p in s.chunks && p.off >= WrapOffset(s) && s.start <= x < WrapOffset(s)
    ensures Arrived(s.Before().chunks, x)
  {
    hide NothingEarly;
    var b, c := s.Before(), s.chunks[|s.chunks| - 1];
    NothingEarlyLast(s, WrapOffset(s));
    assert s.chunks == b.chunks + [c];
    if p in b.chunks {
      assert Past(b.chunks, WrapOffset(s));
      EarlyAtEnd(b, WrapOffset(s));
    } else {
      assert Past(s.chunks, WrapOffset(s));
      ArrivedLast(b.chunks, c, x);
    }
  }

  /** If nothing arrives early, the run is steady after every arrival. */
  lemma {:induction false} NothingEarlyIsSteady(s: Sending)
    requires Scheduled(s) && s.chunks != [] && NothingEarly(s, WrapOffset(s))
    ensures RunOf(s).Some? && Steady(s, RunOf(s).value)
    decreases |s.chunks|
  {
    hide Good, Step, Exec, PullStalls, NothingEarly, Arrived, Scheduled, Off, Held, Intact, HoldsArrived, LastFits, Wrap;
    RunBegins(s);
    BeforeIsScheduled(s);
    NothingEarlyLast(s, WrapOffset(s));
    RunBegins(s.Before());
    var r := RunOf(s.Before()).value;
    if |s.chunks| > 1 { NothingEarlyIsSteady(s.Before()); }
    LoadedAfter(s, r);
    ArrivalRuns(s, r);
    var r1 := LastFed(s, r);
    if PullStalls(r1.r) {
      ScheduledLast(s);
      var p := StallMeansPast(s, r1);
      ArrivedBefore(s, p, r1.cursor);
      if |s.chunks| == 1 { NothingArrived(r1.cursor); }
    }
    PullSteadies(s, r, r1);
  }

  /** The least offset, from x on, that has not arrived. */
  ghost function GapFrom(s: Sending, x: nat): nat
    decreases |s.stream| - x
  {
    if x < |s.stream| && Arrived(s.chunks, x) then GapFrom(s, x + 1) else x
  }

  /** The first byte missing from the start of the first arrival on. */
  ghost function FirstGap(s: Sending): nat {
    GapFrom(s, s.start)
  }

  lemma {:induction false} GapIs(s: Sending, x: nat, c: nat)
    requires x <= c <= |s.stream| && AllArrived(s.chunks, x, c) && !Arrived(s.chunks, c)
    ensures GapFrom(s, x) == c
    decreases c - x
  {
    hide Arrived;
    if x < c { GapIs(s, x + 1, c); }
  }

  /** If nothing arrives early, what has been delivered is the stream up to the first byte that has not arrived. */
  lemma DeliversToGap(s: Sending)
    requires Scheduled(s) && s.chunks != [] && NothingEarly(s, WrapOffset(s))
    ensures s.start <= FirstGap(s) <= |s.stream|
    ensures RunOf(s).Some? && RunOf(s).value.cursor == FirstGap(s) && RunOf(s).value.out == s.stream[s.start..FirstGap(s)]
  {
    hide Exec, NothingEarly, Arrived, Intact, HoldsArrived, Scheduled;
    NothingEarlyIsSteady(s);
    GapIs(s, s.start, RunOf(s).value.cursor);
  }

  // ---- Delivery of everything up to an offset --------------------------------------------------------

  /** Everything from the start of the first arrival to offset n has been delivered. */
  ghost predicate Delivered(s: Sending, n: nat) {
    RunOf(s).Some? && RunOf(s).value.cursor >= n
  }

  lemma DeliveredStays(s: Sending, n: nat)
    requires Scheduled(s) && s.chunks != [] && n > s.start
    ensures Delivered(s.Before(), n) ==> Delivered(s, n)
  {
    hide Good, Step, Exec, Scheduled, LastFits;
    BeforeIsScheduled(s);
    RunBegins(s);
    RunBegins(s.Before());
    ArrivalRuns(s, RunOf(s.Before()).value);
  }

  lemma NeverPast(s: Sending)
    requires !Past(s.chunks, WrapOffset(s))
    ensures NothingEarly(s, WrapOffset(s))
  {
    hide Arrived;
    forall j | 0 <= j <= |s.chunks|
      ensures !Past(s.chunks[..j], WrapOffset(s))
    {
      assert forall c :: c in s.chunks[..j] ==> c in s.chunks;
    }
  }

  lemma UpToWrap(s: Sending, n: int)
    requires NothingEarly(s, n) && n >= WrapOffset(s)
    ensures NothingEarly(s, WrapOffset(s))
  {
    hide Past, Arrived;
  }

  /** With everything past the wrap in order, either all up to n is delivered or the cursor is at the first gap. */
  lemma {:induction false} DeliveredOrGap(s: Sending, n: nat)
    requires Scheduled(s) && s.chunks != [] && NothingEarly(s, n) && s.start < n
    ensures RunOf(s).Some? && (Delivered(s, n) || !Arrived(s.chunks, RunOf(s).value.cursor))
    decreases |s.chunks|
  {
    hide NothingEarly, Past, Arrived, Scheduled, Exec, Good, Intact, HoldsArrived;
    RunBegins(s);
    if n >= WrapOffset(s) {
      UpToWrap(s, n);
      NothingEarlyIsSteady(s);
    } else if Past(s.chunks, WrapOffset(s)) {
      var b := s.Before();
      BeforeIsScheduled(s);
      NothingEarlyLast(s, n);
      ArrivedBeforePast(s, n);
      if b.chunks == [] { NothingArrived(s.start); }
      DeliveredStays(s, n);
      DeliveredOrGap(b, n);
      RunBegins(b);
      GapIsBelow(b, n);
    } else {
      NeverPast(s);
      NothingEarlyIsSteady(s);
    }
  }

  lemma GapIsBelow(s: Sending, n: nat)
    requires RunOf(s).Some? && AllArrived(s.chunks, s.start, n)
    requires Begun(s, RunOf(s).value) && RunOf(s).value.out != []
    requires Delivered(s, n) || !Arrived(s.chunks, RunOf(s).value.cursor)
    ensures Delivered(s, n)
  {
    hide Arrived, Exec, Good;
  }

  /** If all up to n lies before the wrap and nothing past it came early, it had arrived before the last arrival. */
  lemma ArrivedBeforePast(s: Sending, n: nat)
    requires s.chunks != [] && NothingEarly(s, n) && Past(s.chunks, WrapOffset(s)) && n < WrapOffset(s)
    ensures AllArrived(s.Before().chunks, s.start, n)
  {
    hide NothingEarly;
    var b, c := s.Before(), s.chunks[|s.chunks| - 1];
    NothingEarlyLast(s, n);
    var p :| p in s.chunks && p.off >= WrapOffset(s);
    assert s.chunks == b.chunks + [c];
    if p in b.chunks {
      assert Past(b.chunks, WrapOffset(b));
      EarlyAtEnd(b, n);
    } else {
      forall x | s.start <= x < n
        ensures Arrived(b.chunks, x)
      {
        assert Arrived(s.chunks, x);
        ArrivedLast(b.chunks, c, x);
      }
    }
  }

  /** The first segment past the wrap that comes too early leaves the reassembler stuck. */
  lemma EarlyIsStuck(s: Sending, n: nat)
    requires Scheduled(s) && s.chunks != [] && NothingEarly(s.Before(), n)
    requires Past(s.chunks, WrapOffset(s)) && !AllArrived(s.chunks, s.start, Min(WrapOffset(s), n))
    ensures RunOf(s).Some? && Stuck(RunOf(s).value.r) && !Delivered(s, n)
  {
    hide Good, Step, Exec, PullStalls, NothingEarly, Scheduled, Off, Held, Intact, HoldsArrived, LastFits, Wrap, Stuck;
    hide SeqLessThan, Tracks;
    var b, p := s.Before(), s.chunks[|s.chunks| - 1];
    var x := EarlyGap(s, n);
    hide Arrived, Past;
    RunBegins(s);
    BeforeIsScheduled(s);
    RunBegins(b);
    NeverPast(b);
    NothingEarlyIsSteady(b);
    var r := RunOf(b).value;
    LoadedAfter(s, r);
    ArrivalRuns(s, r);
    BegunHasConsumed(b, r);
    ScheduledLast(s);
    assert r.cursor <= x;
    StuckAfterEarly(s, r, p);
  }

  /** The missing byte; the early segment is the last arrival, and not the first. */
  lemma EarlyGap(s: Sending, n: nat) returns (x: nat)
    requires Scheduled(s) && s.chunks != [] && NothingEarly(s.Before(), n)
    requires Past(s.chunks, WrapOffset(s)) && !AllArrived(s.chunks, s.start, Min(WrapOffset(s), n))
    ensures s.start <= x < WrapOffset(s) && x < n && !Arrived(s.chunks, x) && !Arrived(s.Before().chunks, x)
    ensures !Past(s.Before().chunks, WrapOffset(s)) && s.chunks[|s.chunks| - 1].off >= WrapOffset(s) && |s.chunks| > 1
  {
    hide NothingEarly, NotCut;
    var b, c := s.Before(), s.chunks[|s.chunks| - 1];
    x :| s.start <= x < Min(WrapOffset(s), n) && !Arrived(s.chunks, x);
    assert s.chunks == b.chunks + [c];
    ArrivedLast(b.chunks, c, x);
    if Past(b.chunks, WrapOffset(s)) { EarlyAtEnd(b, n); }
    var p :| p in s.chunks && p.off >= WrapOffset(s);
    assert p == c;
  }

  lemma StuckAfterEarly(s: Sending, r: Run, p: Chunk)
    requires s.chunks != [] && p == s.chunks[|s.chunks| - 1] && LastFits(s, r) && Loaded(s, r, LastFed(s, r))
    requires r.r.consumedAny && LastFed(s, r).r.initialized
    requires LastFed(s, r).cursor < WrapOffset(s) <= p.off
    ensures var r1 := LastFed(s, r);
            Stuck(r1.r) && Step(s.isn, s.stream, r1, Fetch) == r1
  {
    var r1 := LastFed(s, r);
    FeedConsumes(s.isn, s.stream, r, p);
    hide Step, Off, Held, Intact, HoldsArrived, Wrap, Stuck, SeqLessThan, Tracks, Arrived, Drain;
    SmallerIsPastWrap(s.isn, r1.cursor, p.off);
    StraddlesIsStuck(r1.r, s.isn, s.stream, r1.cursor);
    StuckPull(r1.r);
    FetchNothing(s.isn, s.stream, r1);
  }

  lemma FeedConsumes(isn: u32, stream: bytes, r: Run, p: Chunk)
    requires p.off + p.len <= |stream|
    ensures Step(isn, stream, r, Feed(p.off, p.len)).r.consumedAny == r.r.consumedAny
  {
  }

  lemma FetchNothing(isn: u32, stream: bytes, r: Run)
    requires Pull(r.r) == (r.r, [])
    ensures Step(isn, stream, r, Fetch) == r
  {
    hide Drain;
    assert r.out + [] == r.out;
  }

  lemma StuckRunStays(s: Sending, n: nat)
    requires Scheduled(s) && s.chunks != []
    requires RunOf(s.Before()).Some? && Stuck(RunOf(s.Before()).value.r) && !Delivered(s.Before(), n)
    ensures RunOf(s).Some? && Stuck(RunOf(s).value.r) && !Delivered(s, n)
  {
    hide Exec, Stuck, Good, Add, Pull, Scheduled;
    BeforeIsScheduled(s);
    RunBegins(s);
    RunBegins(s.Before());
    var r, c := RunOf(s.Before()).value, s.chunks[|s.chunks| - 1];
    NotFirstWhenStuck(r);
    StuckForGood(r.r, Wrap(s.isn + c.off), s.stream[c.off..c.off + c.len]);
  }

  lemma NotFirstWhenStuck(r: Run)
    requires Stuck(r.r)
    ensures r.r.initialized && r.r.consumedAny
  {
  }

  /** If a segment past the wrap came too early, the run is stuck short of n. */
  lemma {:induction false} DisorderIsStuck(s: Sending, n: nat)
    requires Scheduled(s) && !NothingEarly(s, n)
    ensures s.chunks != [] && RunOf(s).Some? && Stuck(RunOf(s).value.r) && !Delivered(s, n)
    decreases |s.chunks|
  {
    hide Exec, Step, Stuck, Good, Arrived, Past, NothingEarly, Scheduled, AllArrived, Delivered;
    if s.chunks == [] {
      NothingSentEarly(s, n);
    } else {
      BeforeIsScheduled(s);
      NothingEarlyLast(s, n);
      if !NothingEarly(s.Before(), n) {
        DisorderIsStuck(s.Before(), n);
        StuckRunStays(s, n);
      } else {
        EarlyIsStuck(s, n);
      }
    }
  }

  lemma NothingSentEarly(s: Sending, n: nat)
    requires s.chunks == []
    ensures NothingEarly(s, n)
  {
  }

  /**
   * Everything from the start of the first arrival to offset n is delivered if and only if all of it has arrived and no
   * segment past the wrap arrived before all of it that lies before the wrap.
   */
  lemma DeliveredIff(s: Sending, n: nat)
    requires Scheduled(s) && s.start < n
    ensures Delivered(s, n) <==> AllArrived(s.chunks, s.start, n) && NothingEarly(s, n)
  {
    hide Exec, Arrived, Stuck, Good, NothingEarly, Scheduled;
    RunBegins(s);
    DeliveredHasArrived(s);
    if !NothingEarly(s, n) {
      DisorderIsStuck(s, n);
    } else if s.chunks == [] {
      NothingArrived(s.start);
    } else {
      DeliveredOrGap(s, n);
      if AllArrived(s.chunks, s.start, n) { GapIsBelow(s, n); }
    }
  }

  // ---- Room in a buffer ----------------------------------------------------------------------------

  /** The last pull left more than cap bytes delivered, and still not everything up to n. */
  ghost predicate OverflowsNow(s: Sending, n: nat, cap: nat) {
    RunOf(s).Some? && cap < |RunOf(s).value.out| && RunOf(s).value.cursor < n
  }

  /** This happened after some arrival. */
  ghost predicate Overflowed(s: Sending, n: nat, cap: nat)
    decreases |s.chunks|
  {
    s.chunks != [] && (Overflowed(s.Before(), n, cap) || OverflowsNow(s, n, cap))
  }

  /** Whenever more than cap bytes have arrived from the start on without a gap, so has everything up to n. */
  ghost predicate Roomy(s: Sending, n: nat, cap: nat) {
    forall j :: 0 <= j <= |s.chunks| && AllArrived(s.chunks[..j], s.start, s.start + cap + 1) ==>
      AllArrived(s.chunks[..j], s.start, n)
  }

  lemma RoomyLast(s: Sending, n: nat, cap: nat)
    requires s.chunks != []
    ensures Roomy(s, n, cap) <==>
            Roomy(s.Before(), n, cap) &&
            (AllArrived(s.chunks, s.start, s.start + cap + 1) ==> AllArrived(s.chunks, s.start, n))
  {
    hide AllArrived;
    var b := s.Before();
    assert forall j :: 0 <= j <= |b.chunks| ==> b.chunks[..j] == s.chunks[..j];
    assert s.chunks[..|s.chunks|] == s.chunks;
  }

  lemma NothingIsRoomy(s: Sending, n: nat, cap: nat)
    requires s.chunks == []
    ensures Roomy(s, n, cap)
  {
    NothingArrived(s.start);
    assert forall j :: 0 <= j <= 0 ==> s.chunks[..j] == [];
  }

  lemma OverflowsNowIff(s: Sending, n: nat, cap: nat)
    requires RunOf(s).Some? && Begun(s, RunOf(s).value) && RunOf(s).value.out != []
    requires AllArrived(s.chunks, s.start, RunOf(s).value.cursor)
    requires Delivered(s, n) || !Arrived(s.chunks, RunOf(s).value.cursor)
    ensures OverflowsNow(s, n, cap) <==>
            AllArrived(s.chunks, s.start, s.start + cap + 1) && !AllArrived(s.chunks, s.start, n)
  {
    hide Arrived, Exec, Good;
  }

  /** In terms of what arrived: in an orderly sending the buffer overflows exactly when there is no room. */
  lemma {:induction false} OverflowIff(s: Sending, n: nat, cap: nat)
    requires Scheduled(s) && s.start < n && NothingEarly(s, n)
    ensures Overflowed(s, n, cap) <==> !Roomy(s, n, cap)
    decreases |s.chunks|
  {
    hide Arrived, Scheduled, Exec, NothingEarly, Good, Roomy, Past, OverflowsNow, AllArrived, Delivered;
    if s.chunks == [] {
      NothingIsRoomy(s, n, cap);
    } else {
      BeforeIsScheduled(s);
      NothingEarlyLast(s, n);
      RoomyLast(s, n, cap);
      OverflowIff(s.Before(), n, cap);
      RunBegins(s);
      DeliveredOrGap(s, n);
      DeliveredHasArrived(s);
      OverflowsNowIff(s, n, cap);
    }
  }

  /** A buffer that holds all but the last byte has room. */
  lemma UsualIsRoomy(s: Sending, n: nat, cap: nat)
    requires n <= s.start + cap + 1
    ensures Roomy(s, n, cap)
  {
    hide Arrived;
  }

  lemma {:induction false} UsualFits(s: Sending, n: nat, cap: nat)
    requires Scheduled(s) && n <= s.start + cap + 1
    ensures !Overflowed(s, n, cap)
    decreases |s.chunks|
  {
    hide Exec, Scheduled, Good;
    if s.chunks != [] {
      BeforeIsScheduled(s);
      UsualFits(s.Before(), n, cap);
      RunBegins(s);
    }
  }

  // ---- Orderly sendings ----------------------------------------------------------------------------

  /** In particular when no sequence number of the stream wraps. */
  lemma NoWrapIsOrderly(s: Sending, n: nat)
    requires Scheduled(s) && s.isn + |s.stream| <= 0x1_0000_0000
    ensures NothingEarly(s, n)
  {
    hide NotCut, Arrived;
    forall j | 0 <= j <= |s.chunks|
      ensures !Past(s.chunks[..j], WrapOffset(s))
    {
      assert forall c :: c in s.chunks[..j] ==> c in s.chunks;
    }
  }

  /** And when the segments arrive in stream order, whatever the sequence numbers. */
  lemma InOrderIsOrderly(s: Sending, n: nat)
    requires AllArrived(s.chunks, s.start, n)
    requires forall i, j :: 0 <= i < j < |s.chunks| ==> s.chunks[i].off <= s.chunks[j].off
    ensures NothingEarly(s, n)
  {
    forall j, x | 0 <= j <= |s.chunks| && Past(s.chunks[..j], WrapOffset(s)) && s.start <= x < Min(WrapOffset(s), n)
      ensures Arrived(s.chunks[..j], x)
    {
      ArrivedInOrder(s, j, x);
    }
  }

  lemma ArrivedInOrder(s: Sending, j: nat, x: nat)
    requires j <= |s.chunks| && Past(s.chunks[..j], WrapOffset(s)) && x < WrapOffset(s) && Arrived(s.chunks, x)
    requires forall i, k :: 0 <= i < k < |s.chunks| ==> s.chunks[i].off <= s.chunks[k].off
    ensures Arrived(s.chunks[..j], x)
  {
    var p :| p in s.chunks[..j] && p.off >= WrapOffset(s);
    var k :| 0 <= k < j && s.chunks[k] == p;
    var a :| a in s.chunks && Contains(a, x);
    var i :| 0 <= i < |s.chunks| && s.chunks[i] == a;
    assert i < k;
    assert a == s.chunks[..j][i];
  }
}
