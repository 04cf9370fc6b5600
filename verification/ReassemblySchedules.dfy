/**
 * Which schedules lose nothing: a fixed segmentation, order before the first pull, and two runs that do lose bytes.
 */
module ReassemblySchedules {
  import opened Bytes
  import opened TcpReassembler
  import opened ReassemblyRuns
  import opened ReassemblyStalls

  // ---- A fixed segmentation: reorderings and exact retransmits only ----------------------------------

  ghost predicate IsSegment(all: seq<Op>, off: nat, len: nat) {
    0 < len && Feed(off, len) in all
  }

  /** Any two segments are the same or do not overlap. */
  ghost predicate Segmented(all: seq<Op>) {
    forall a: nat, m: nat, b: nat, n: nat :: IsSegment(all, a, m) && IsSegment(all, b, n) ==>
      (a == b && m == n) || a + m <= b || b + n <= a
  }

  ghost predicate Boundary(all: seq<Op>, c: nat) {
    exists off: nat, len: nat :: IsSegment(all, off, len) && (c == off || c == off + len)
  }

  lemma NoSegmentCrosses(all: seq<Op>, c: nat, off: nat, len: nat)
    requires Segmented(all) && Boundary(all, c) && IsSegment(all, off, len)
    ensures c <= off || off + len <= c
  {
    var a: nat, m: nat :| IsSegment(all, a, m) && (c == a || c == a + m);
  }

  /** Buffered entries are whole segments and the cursor stands on a segment boundary. */
  ghost predicate WholeSegments(isn: u32, s: Run, all: seq<Op>) {
    && (s.r.initialized ==> Boundary(all, s.cursor))
    && (forall k :: k in s.r.pending ==> IsSegment(all, Off(isn, s.cursor, k), |s.r.pending[k]|))
  }

  lemma StoredWhole(pending: map<u32, bytes>, isn: u32, stream: bytes, c: nat, off: nat, len: nat, all: seq<Op>)
    requires Segmented(all) && IsSegment(all, off, len) && off + len <= |stream| && off + len < c + 0x8000_0000
    requires c <= off || off + len <= c
    requires forall k :: k in pending ==> IsSegment(all, Off(isn, c, k), |pending[k]|)
    ensures var pending' := Stored(pending, isn, stream, c, off, off + len);
            forall k :: k in pending' ==> IsSegment(all, Off(isn, c, k), |pending'[k]|)
    ensures c < off + len ==> !Shortens(pending, Wrap(isn + Max(off, c)), off + len - Max(off, c))
  {
    if c <= off {
      OffOfSeq(isn, c, off);
      hide Wrap, Off;
      var key := Wrap(isn + off);
      if key in pending {
        assert IsSegment(all, Off(isn, c, key), |pending[key]|);
      }
    }
  }

  lemma AnchorIsBoundary(isn: u32, s: Run, all: seq<Op>, off: nat, len: nat)
    requires IsSegment(all, off, len) && WholeSegments(isn, s, all)
    ensures Boundary(all, CursorAfterFeed(s, off))
  {
  }

  lemma WholeAfterFeed(isn: u32, stream: bytes, s: Run, all: seq<Op>, off: nat, len: nat)
    requires Segmented(all) && IsSegment(all, off, len)
    requires Good(isn, stream, s) && WholeSegments(isn, s, all) && Admissible(stream, s, Feed(off, len))
    ensures !Shrinks(isn, s, off, len)
    ensures WholeSegments(isn, Step(isn, stream, s, Feed(off, len)), all)
  {
    hide Wrap, Off, Step, SeqLessThan, Segmented, Stored, At, Add, Boundary;
    var c := CursorAfterFeed(s, off);
    assert off + len < c + 0x8000_0000 && 0 < len;
    EntriesStayPut(isn, stream, s, off, len);
    assert forall k :: k in s.r.pending ==> IsSegment(all, Off(isn, c, k), |s.r.pending[k]|);
    FeedStores(isn, stream, s, off, len);
    AnchorIsBoundary(isn, s, all, off, len);
    hide Good, Admissible, InWindow, IsSegment, CursorAfterFeed;
    NoSegmentCrosses(all, c, off, len);
    StoredWhole(s.r.pending, isn, stream, c, off, len, all);
  }

  lemma EntriesStayPut(isn: u32, stream: bytes, s: Run, off: nat, len: nat)
    requires Good(isn, stream, s) && 0 < len && Admissible(stream, s, Feed(off, len))
    ensures forall k :: k in s.r.pending ==> Off(isn, CursorAfterFeed(s, off), k) == Off(isn, s.cursor, k)
  {
    hide Wrap, Off, SeqLessThan;
    if s.r.initialized && !s.r.consumedAny && off < s.cursor {
      Widen(s.r.pending, isn, stream, s.cursor, off, s.top);
    }
  }

  /** The cursor stops at the end of a whole entry. */
  lemma StopsAtBoundary(pending: map<u32, bytes>, isn: u32, c0: nat, c: nat, all: seq<Op>)
    requires forall k :: k in pending ==> IsSegment(all, Off(isn, c0, k), |pending[k]|)
    requires c > 0 && Held(pending, isn, c0, c - 1) && !Held(pending, isn, c0, c)
    ensures Boundary(all, c)
  {
    hide Wrap, Off, IsSegment;
    var k :| HeldAt(pending, isn, c0, k, c - 1);
    var o, len := Off(isn, c0, k), |pending[k]|;
    assert c < o + len ==> HeldAt(pending, isn, c0, k, c);
    assert IsSegment(all, o, len) && c == o + len;
  }

  lemma WholeAfterFetch(isn: u32, stream: bytes, s: Run, all: seq<Op>)
    requires Good(isn, stream, s) && WholeSegments(isn, s, all)
    ensures WholeSegments(isn, Step(isn, stream, s, Fetch), all)
  {
    hide Wrap, Off, Tracks, SeqLessThan, Drain, Held, Boundary, IsSegment, Straddles;
    if s.r.initialized {
      var out := Pull(s.r).1;
      PullDelivers(s.r, isn, stream, s.cursor);
      PullKeeps(s.r, isn, stream, s.cursor);
      if out != [] { StopsAtBoundary(s.r.pending, isn, s.cursor, s.cursor + |out|, all); }
    } else {
      DrainStep(s.r.nextSeq, s.r.pending);
    }
  }

  lemma NoWrapOrder(isn: u32, c: nat, k: u32)
    requires isn + Off(isn, c, k) < 0x1_0000_0000
    ensures Wrap(isn + c) <= k
  {
    OffIsInverse(isn, c, k);
  }

  /** All sequence numbers of the stream lie in one pass over the 32-bit space, so raw order is stream order. */
  lemma NoWrapNoStall(isn: u32, stream: bytes, s: Run)
    requires Good(isn, stream, s) && isn + |stream| <= 0x1_0000_0000
    ensures !PullStalls(s.r)
  {
    if s.r.initialized {
      forall k | k in s.r.pending
        ensures s.r.nextSeq <= k
      {
        assert Entry(isn, stream, s.cursor, k, s.r.pending[k]);
        NoWrapOrder(isn, s.cursor, k);
      }
    }
  }

  /** No pull of the run met the stalling case. */
  predicate NeverStalls(isn: u32, stream: bytes, ops: seq<Op>)
    requires Exec(isn, stream, ops).Some?
  {
    ops == [] ||
    var before := ops[..|ops| - 1];
    && NeverStalls(isn, stream, before)
    && (ops[|ops| - 1].Fetch? ==> !PullStalls(Exec(isn, stream, before).value.r))
  }

  lemma NeverStallsLast(isn: u32, stream: bytes, ops: seq<Op>, op: Op)
    requires Exec(isn, stream, ops + [op]).Some?
    ensures Exec(isn, stream, ops).Some?
    ensures NeverStalls(isn, stream, ops + [op]) <==>
            NeverStalls(isn, stream, ops) && (op.Fetch? ==> !PullStalls(Exec(isn, stream, ops).value.r))
  {
    hide PullStalls, Step, Admissible;
    assert (ops + [op])[..|ops|] == ops;
  }

  /** Over a fixed segmentation, in any order and with any retransmits, no entry is ever replaced by a shorter one. */
  lemma {:induction false} SegmentedNeverShrinks(isn: u32, stream: bytes, ops: seq<Op>, all: seq<Op>)
    requires Exec(isn, stream, ops).Some?
    requires Segmented(all) && forall op :: op in ops ==> op in all
    ensures NeverShrinks(isn, stream, ops)
    ensures WholeSegments(isn, Exec(isn, stream, ops).value, all)
  {
    if ops != [] {
      var before, op := ops[..|ops| - 1], ops[|ops| - 1];
      var s := Exec(isn, stream, before).value;
      hide Good, Step, Shrinks, WholeSegments, Segmented;
      SegmentedNeverShrinks(isn, stream, before, all);
      RunIsGood(isn, stream, before);
      match op
      case Feed(off, len) =>
        if 0 < len {
          assert IsSegment(all, off, len);
          WholeAfterFeed(isn, stream, s, all, off, len);
        } else {
          assert Step(isn, stream, s, op) == s by { EmptyFeed(isn, stream, s, off); }
        }
      case Fetch => WholeAfterFetch(isn, stream, s, all);
    }
  }

  /** Every pull of the run stopped at a byte that no segment fed before it covers. */
  ghost predicate Prompt(isn: u32, stream: bytes, ops: seq<Op>)
    requires Exec(isn, stream, ops).Some?
  {
    ops == [] ||
    var before := ops[..|ops| - 1];
    && Prompt(isn, stream, before)
    && (ops[|ops| - 1].Fetch? ==> !Fed(before, Exec(isn, stream, ops).value.cursor))
  }

  lemma PromptLast(isn: u32, stream: bytes, ops: seq<Op>, op: Op)
    requires Exec(isn, stream, ops + [op]).Some?
    ensures Exec(isn, stream, ops).Some?
    ensures Prompt(isn, stream, ops + [op]) <==>
            Prompt(isn, stream, ops) && (op.Fetch? ==> !Fed(ops, Final(isn, stream, ops).cursor))
  {
    hide Step, Admissible, Fed;
    ExecLast(isn, stream, ops, op);
    assert (ops + [op])[..|ops|] == ops;
  }

  /** Over a fixed segmentation every pull delivers all it can if and only if none meets the stalling case. */
  lemma {:induction false} PromptIffNeverStalls(isn: u32, stream: bytes, ops: seq<Op>, all: seq<Op>)
    requires Exec(isn, stream, ops).Some?
    requires Segmented(all) && forall op :: op in ops ==> op in all
    ensures Prompt(isn, stream, ops) <==> NeverStalls(isn, stream, ops)
  {
    if ops != [] {
      var before, op := ops[..|ops| - 1], ops[|ops| - 1];
      assert ops == before + [op];
      hide Step, PullStalls, Exec, Segmented, Prompt, NeverStalls, Fed, Final;
      PromptLast(isn, stream, before, op);
      NeverStallsLast(isn, stream, before, op);
      PromptIffNeverStalls(isn, stream, before, all);
      SegmentedNeverShrinks(isn, stream, before, all);
      CursorIsFirstGapIff(isn, stream, before);
    }
  }

  /** A stream that does not wrap never stalls. */
  lemma {:induction false} NoWrapNeverStalls(isn: u32, stream: bytes, ops: seq<Op>)
    requires Exec(isn, stream, ops).Some? && isn + |stream| <= 0x1_0000_0000
    ensures NeverStalls(isn, stream, ops)
  {
    if ops != [] {
      var before := ops[..|ops| - 1];
      hide Good, Step, PullStalls;
      NoWrapNeverStalls(isn, stream, before);
      RunIsGood(isn, stream, before);
      NoWrapNoStall(isn, stream, Exec(isn, stream, before).value);
    }
  }

  lemma EmptyFeed(isn: u32, stream: bytes, s: Run, off: nat)
    requires Fits(Feed(off, 0), stream)
    ensures Step(isn, stream, s, Feed(off, 0)) == s
  {
  }

  // ---- One pull at the end ---------------------------------------------------------------------------

  /** The segments of a schedule without its pulls. */
  function FeedsOf(ops: seq<Op>): seq<Op> {
    if ops == [] then []
    else if ops[|ops| - 1].Feed? then FeedsOf(ops[..|ops| - 1]) + [ops[|ops| - 1]]
    else FeedsOf(ops[..|ops| - 1])
  }

  lemma {:induction false} FeedsMembers(ops: seq<Op>)
    ensures forall op: Op :: op in FeedsOf(ops) <==> op in ops && op.Feed?
  {
    if ops != [] {
      FeedsMembers(ops[..|ops| - 1]);
      assert ops == ops[..|ops| - 1] + [ops[|ops| - 1]];
    }
  }

  lemma SameFed(a: seq<Op>, b: seq<Op>)
    requires forall op: Op :: op.Feed? ==> (op in a <==> op in b)
    ensures forall x :: Fed(a, x) <==> Fed(b, x)
  {
    forall x
      ensures Fed(a, x) <==> Fed(b, x)
    {
      if Fed(a, x) {
        var i :| 0 <= i < |a| && Covers(a[i], x);
        assert a[i] in b;
      }
      if Fed(b, x) {
        var i :| 0 <= i < |b| && Covers(b[i], x);
        assert b[i] in a;
      }
    }
  }

  lemma EarliestOfFeeds(ops: seq<Op>, i: nat, m: nat) returns (j: nat)
    requires EarliestAt(ops, i, m)
    ensures EarliestAt(FeedsOf(ops), j, m)
  {
    var feeds := FeedsOf(ops);
    FeedsMembers(ops);
    SameFed(ops, feeds);
    assert ops[i] in feeds;
    j :| 0 <= j < |feeds| && feeds[j] == ops[i];
    assert forall k :: 0 <= k < j ==> feeds[k] in feeds;
  }

  /**
   * Any mix of adds and pulls over a fixed segmentation that feeds its earliest segment first and ends in a pull delivers
   * what adding everything and pulling once delivers, as long as neither last pull stalls.
   */
  lemma AddAllThenPull(isn: u32, stream: bytes, ops: seq<Op>, i: nat, m: nat)
    requires Segmented(ops) && EarliestAt(ops, i, m)
    requires Exec(isn, stream, ops).Some? && !PullStalls(Exec(isn, stream, ops).value.r)
    requires Exec(isn, stream, FeedsOf(ops)).Some? && !PullStalls(Exec(isn, stream, FeedsOf(ops)).value.r)
    ensures Final(isn, stream, ops).out == Final(isn, stream, FeedsOf(ops)).out
  {
    hide Exec, Final, PullStalls, Segmented, EarliestAt, FeedsOf;
    FeedsMembers(ops);
    SameFed(ops, FeedsOf(ops));
    SegmentedNeverShrinks(isn, stream, ops, ops);
    SegmentedNeverShrinks(isn, stream, FeedsOf(ops), ops);
    EarliestFirstStartsAtLeast(isn, stream, ops, i, m);
    var j := EarliestOfFeeds(ops, i, m);
    EarliestFirstStartsAtLeast(isn, stream, FeedsOf(ops), j, m);
    ScheduleIndependence(isn, stream, ops, FeedsOf(ops));
  }

  /** Every schedule over a stream shorter than half the number space is admissible. */
  lemma {:induction false} ShortStreamIsAdmissible(isn: u32, stream: bytes, ops: seq<Op>)
    requires |stream| < 0x8000_0000 && forall op :: op in ops ==> Fits(op, stream)
    ensures Exec(isn, stream, ops).Some? && Exec(isn, stream, ops).value.top <= |stream|
  {
    if ops != [] {
      var before, op := ops[..|ops| - 1], ops[|ops| - 1];
      assert ops == before + [op] && op in ops;
      ShortStreamIsAdmissible(isn, stream, before);
      RunIsGood(isn, stream, before);
      hide Add, Pull, At;
    }
  }

  lemma NoWrapLastPull(isn: u32, stream: bytes, ops: seq<Op>)
    requires Exec(isn, stream, ops).Some? && isn + |stream| <= 0x1_0000_0000
    ensures !PullStalls(Exec(isn, stream, ops).value.r)
  {
    RunIsGood(isn, stream, ops);
    NoWrapNoStall(isn, stream, Exec(isn, stream, ops).value);
  }

  /** In particular over a short stream that does not wrap. */
  lemma NoWrapAddAllThenPull(isn: u32, stream: bytes, ops: seq<Op>, i: nat, m: nat)
    requires isn + |stream| <= 0x1_0000_0000 && |stream| < 0x8000_0000 && forall op :: op in ops ==> Fits(op, stream)
    requires Segmented(ops) && EarliestAt(ops, i, m)
    ensures Exec(isn, stream, ops).Some? && Exec(isn, stream, FeedsOf(ops)).Some?
    ensures Final(isn, stream, ops).out == Final(isn, stream, FeedsOf(ops)).out
  {
    hide Exec, Final, PullStalls, Segmented, EarliestAt, FeedsOf, Fits;
    FeedsMembers(ops);
    ShortStreamIsAdmissible(isn, stream, ops);
    ShortStreamIsAdmissible(isn, stream, FeedsOf(ops));
    NoWrapLastPull(isn, stream, ops);
    NoWrapLastPull(isn, stream, FeedsOf(ops));
    AddAllThenPull(isn, stream, ops, i, m);
  }

  // ---- What pendingBytes counts ----------------------------------------------------------------------

  ghost function Interval(o: nat, len: nat): (s: set<int>)
    ensures forall x :: x in s <==> o <= x < o + len
    ensures |s| == len
  {
    if len == 0 then {} else Interval(o, len - 1) + {o + len - 1}
  }

  /** The buffered offsets of the stream. */
  ghost function HeldSet(pending: map<u32, bytes>, isn: u32, stream: bytes, c: nat): set<int> {
    set x | 0 <= x < |stream| && Held(pending, isn, c, x)
  }

  /** No two entries share an offset. */
  ghost predicate Apart(pending: map<u32, bytes>, isn: u32, c: nat) {
    forall k, l, x :: HeldAt(pending, isn, c, k, x) && HeldAt(pending, isn, c, l, x) ==> k == l
  }

  lemma {:induction false} HeldBytesCounts(pending: map<u32, bytes>, isn: u32, stream: bytes, c: nat)
    requires Tracks(pending, isn, stream, c) && Apart(pending, isn, c)
    ensures HeldBytes(pending) == |HeldSet(pending, isn, stream, c)|
    decreases |pending|
  {
    hide Wrap, Off;
    if pending == map[] {
      assert HeldSet(pending, isn, stream, c) == {};
    } else {
      var k := Begin(pending);
      var rest, o := pending - {k}, Off(isn, c, k);
      assert |rest| < |pending| by { assert rest.Keys == pending.Keys - {k}; }
      assert forall l, x :: HeldAt(rest, isn, c, l, x) <==> HeldAt(pending, isn, c, l, x) && l != k;
      HeldBytesCounts(rest, isn, stream, c);
      HeldSplits(pending, isn, stream, c, k);
    }
  }

  lemma HeldSplits(pending: map<u32, bytes>, isn: u32, stream: bytes, c: nat, k: u32)
    requires Tracks(pending, isn, stream, c) && Apart(pending, isn, c) && k in pending
    ensures |HeldSet(pending, isn, stream, c)| == |pending[k]| + |HeldSet(pending - {k}, isn, stream, c)|
  {
    hide Wrap, Off;
    var rest, own := pending - {k}, Interval(Off(isn, c, k), |pending[k]|);
    assert Entry(isn, stream, c, k, pending[k]);
    assert forall l, x :: HeldAt(rest, isn, c, l, x) <==> HeldAt(pending, isn, c, l, x) && l != k;
    assert forall x :: x in own <==> HeldAt(pending, isn, c, k, x);
    forall x
      ensures x in HeldSet(pending, isn, stream, c) <==> x in own || x in HeldSet(rest, isn, stream, c)
    {
      if Held(pending, isn, c, x) {
        var l :| HeldAt(pending, isn, c, l, x);
        if l != k { assert HeldAt(rest, isn, c, l, x); }
      }
      if Held(rest, isn, c, x) {
        var l :| HeldAt(rest, isn, c, l, x);
        assert HeldAt(pending, isn, c, l, x);
      }
    }
    assert HeldSet(pending, isn, stream, c) == own + HeldSet(rest, isn, stream, c);
    assert own !! HeldSet(rest, isn, stream, c);
  }

  lemma WholeIsApart(isn: u32, s: Run, all: seq<Op>)
    requires Segmented(all) && WholeSegments(isn, s, all)
    ensures Apart(s.r.pending, isn, s.cursor)
  {
    var c, pending := s.cursor, s.r.pending;
    forall k, l, x | HeldAt(pending, isn, c, k, x) && HeldAt(pending, isn, c, l, x)
      ensures k == l
    {
      assert IsSegment(all, Off(isn, c, k), |pending[k]|) && IsSegment(all, Off(isn, c, l), |pending[l]|);
      assert Off(isn, c, k) == Off(isn, c, l);
      OffIsInverse(isn, c, k);
      OffIsInverse(isn, c, l);
    }
  }

  /** Over a fixed segmentation the number of pending bytes is the number of stream offsets that are buffered. */
  lemma PendingBytesCount(isn: u32, stream: bytes, ops: seq<Op>)
    requires Exec(isn, stream, ops).Some? && Segmented(ops)
    ensures var s := Exec(isn, stream, ops).value;
            HeldBytes(s.r.pending) == |HeldSet(s.r.pending, isn, stream, s.cursor)|
  {
    hide Exec, Segmented, NeverShrinks, Apart, HeldBytes, HeldSet, Wrap;
    var s := Exec(isn, stream, ops).value;
    RunIsGood(isn, stream, ops);
    SegmentedNeverShrinks(isn, stream, ops, ops);
    WholeIsApart(isn, s, ops);
    HeldBytesCounts(s.r.pending, isn, stream, s.cursor);
  }

  // ---- Order before the first pull --------------------------------------------------------------

  /** A segment at an absolute offset, with any data. */
  datatype Seg = Seg(off: nat, data: bytes)

  function AddAll(isn: u32, segs: seq<Seg>): Reasm {
    if segs == [] then EMPTY
    else Add(AddAll(isn, segs[..|segs| - 1]), Wrap(isn + segs[|segs| - 1].off), segs[|segs| - 1].data)
  }

  /** Non-empty segments inside one window of half the number space; the same start means the same segment. */
  ghost predicate OneWindow(segs: seq<Seg>) {
    && (forall s :: s in segs ==> |s.data| > 0)
    && (forall s, t :: s in segs && t in segs ==> s.off + |s.data| < t.off + 0x8000_0000)
    && (forall s, t :: s in segs && t in segs && s.off == t.off ==> s == t)
  }

  ghost predicate IsEarliest(segs: seq<Seg>, m: nat) {
    (exists s :: s in segs && s.off == m) && forall s :: s in segs ==> m <= s.off
  }

  /** The state that depends only on which segments arrived. */
  ghost predicate HoldsExactly(isn: u32, segs: seq<Seg>, r: Reasm) {
    && r.initialized && !r.consumedAny
    && (exists m: nat :: IsEarliest(segs, m) && r.nextSeq == Wrap(isn + m))
    && Table(isn, segs, r.pending)
  }

  /** The buffer holds every segment whole under its sequence number, and nothing else. */
  ghost predicate Table(isn: u32, segs: seq<Seg>, pending: map<u32, bytes>) {
    && (forall s :: s in segs ==> Wrap(isn + s.off) in pending && pending[Wrap(isn + s.off)] == s.data)
    && (forall k :: k in pending ==> exists s :: s in segs && Wrap(isn + s.off) == k)
  }

  lemma {:induction false} AddAllHoldsExactly(isn: u32, segs: seq<Seg>)
    requires segs != [] && OneWindow(segs)
    ensures HoldsExactly(isn, segs, AddAll(isn, segs))
  {
    hide Wrap, SeqLessThan, Add, HoldsExactly;
    var before, last := segs[..|segs| - 1], segs[|segs| - 1];
    assert segs == before + [last];
    if before == [] {
      FirstHoldsExactly(isn, last);
    } else {
      AddAllHoldsExactly(isn, before);
      AddedHoldsExactly(isn, before, last, AddAll(isn, before));
    }
  }

  /** Nothing has been delivered, so the segment is stored whole and the cursor widens back to it if needed. */
  lemma AddWhole(isn: u32, r: Reasm, s: Seg, m: nat)
    requires 0 < |s.data| < 0x8000_0000 && !r.consumedAny
    requires r.initialized ==> r.nextSeq == Wrap(isn + m) && s.off + |s.data| < m + 0x8000_0000 && m < s.off + 0x8000_0000
    requires !r.initialized ==> m == s.off
    ensures Add(r, Wrap(isn + s.off), s.data) ==
            Reasm(true, false, Wrap(isn + Min(m, s.off)), r.pending[Wrap(isn + s.off) := s.data])
  {
    hide Wrap, SeqLessThan;
    var c, end := Min(m, s.off), s.off + |s.data|;
    SeqLessThanIsOrder(isn + s.off, isn + m);
    SeqLessThanIsOrder(isn + c, isn + end);
    SeqLessThanIsOrder(isn + s.off, isn + c);
    WrapPlus(isn + s.off, |s.data|);
  }

  lemma FirstHoldsExactly(isn: u32, s: Seg)
    requires OneWindow([s])
    ensures HoldsExactly(isn, [s], Add(EMPTY, Wrap(isn + s.off), s.data))
  {
    hide Wrap, SeqLessThan, Add;
    assert s in [s];
    AddWhole(isn, EMPTY, s, s.off);
    assert IsEarliest([s], s.off);
  }

  lemma AddedHoldsExactly(isn: u32, segs: seq<Seg>, s: Seg, r: Reasm)
    requires OneWindow(segs + [s]) && HoldsExactly(isn, segs, r)
    ensures HoldsExactly(isn, segs + [s], Add(r, Wrap(isn + s.off), s.data))
  {
    hide Wrap, SeqLessThan, Add, Table;
    var all := segs + [s];
    assert forall t :: t in all <==> t in segs || t == s;
    var m: nat :| IsEarliest(segs, m) && r.nextSeq == Wrap(isn + m);
    AddWhole(isn, r, s, m);
    assert IsEarliest(all, Min(m, s.off));
    AddedToTable(isn, segs, s, r.pending);
  }

  lemma AddedToTable(isn: u32, segs: seq<Seg>, s: Seg, pending: map<u32, bytes>)
    requires OneWindow(segs + [s]) && Table(isn, segs, pending)
    ensures Table(isn, segs + [s], pending[Wrap(isn + s.off) := s.data])
  {
    hide Wrap;
    var all, pending' := segs + [s], pending[Wrap(isn + s.off) := s.data];
    assert forall t :: t in all <==> t in segs || t == s;
    forall t | t in all
      ensures Wrap(isn + t.off) in pending' && pending'[Wrap(isn + t.off)] == t.data
    {
      if Wrap(isn + t.off) == Wrap(isn + s.off) { SameSeqSameOff(isn, t.off, s.off); }
    }
    forall k | k in pending'
      ensures exists t :: t in all && Wrap(isn + t.off) == k
    {
      if k == Wrap(isn + s.off) {
        assert s in all;
      } else {
        var t :| t in segs && Wrap(isn + t.off) == k;
        assert t in all;
      }
    }
  }

  lemma SameSeqSameOff(isn: u32, x: int, y: int)
    requires Wrap(isn + x) == Wrap(isn + y) && -0x8000_0000 < x - y < 0x8000_0000
    ensures x == y
  {
    WrapDifference(isn + x, isn + y);
  }

  /** Any order of arrival before the first pull leaves the same cursor and the same buffer. */
  lemma OrderConfluence(isn: u32, a: seq<Seg>, b: seq<Seg>)
    requires OneWindow(a) && multiset(a) == multiset(b)
    ensures AddAll(isn, a) == AddAll(isn, b)
  {
    SameMembers(a, b);
    if a != [] {
      assert a[0] in b;
      AddAllHoldsExactly(isn, a);
      AddAllHoldsExactly(isn, b);
      HoldsExactlyUnique(isn, a, b, AddAll(isn, a), AddAll(isn, b));
    } else {
      assert |multiset(b)| == 0;
    }
  }

  lemma SameMembers(a: seq<Seg>, b: seq<Seg>)
    requires multiset(a) == multiset(b)
    ensures forall s :: s in a <==> s in b
    ensures |a| == |b|
  {
    forall s
      ensures s in a <==> s in b
    {
      assert s in a <==> s in multiset(a);
      assert s in b <==> s in multiset(b);
    }
    assert |multiset(a)| == |a| && |multiset(b)| == |b|;
  }

  lemma HoldsExactlyUnique(isn: u32, a: seq<Seg>, b: seq<Seg>, r: Reasm, r': Reasm)
    requires forall s :: s in a <==> s in b
    requires HoldsExactly(isn, a, r) && HoldsExactly(isn, b, r')
    ensures r == r'
  {
    hide Wrap;
    forall k
      ensures k in r.pending <==> k in r'.pending
      ensures k in r.pending ==> r.pending[k] == r'.pending[k]
    {
    }
    assert r.pending == r'.pending;
  }

  // ---- Two runs that do lose bytes --------------------------------------------------------------

  /**
   * Three one-byte segments around the wrap: the entry past it is met first and taken for a gap, so the byte that is
   * waiting at the cursor is not delivered.
   */
  lemma WrapStallExample()
    ensures
      var r := Pull(Add(EMPTY, 0xFFFF_FFFE, [7])).0;
      var s := Add(Add(r, 0, [9]), 0xFFFF_FFFF, [8]);
      s.nextSeq == 0xFFFF_FFFF && 0xFFFF_FFFF in s.pending && Pull(s) == (s, [])
  {
    PullOne(0xFFFF_FFFE, 7);
    hide Drain;
    var s := Reasm(true, true, 0xFFFF_FFFF, map[0 := [9], 0xFFFF_FFFF := [8]]);
    StallsAtWrap(s);
  }

  lemma StallsAtWrap(s: Reasm)
    requires s.nextSeq == 0xFFFF_FFFF && 0 in s.pending
    ensures Pull(s) == (s, [])
  {
    assert SeqLessThan(0xFFFF_FFFF, 0);
    hide Drain, Wrap, SeqLessThan;
    DrainStep(s.nextSeq, s.pending);
    assert s.pending != map[];
    assert Begin(s.pending) <= 0;
  }

  lemma PullOne(seq32: u32, b: u8)
    ensures Pull(Add(EMPTY, seq32, [b])) == (Reasm(true, true, Wrap(seq32 + 1), map[]), [b])
  {
    assert Add(EMPTY, seq32, [b]) == Reasm(true, false, seq32, map[seq32 := [b]]) by {
      AddWhole(0, EMPTY, Seg(seq32, [b]), seq32);
      WrapSmall(seq32);
    }
    DrainOne(seq32, b);
  }

  lemma DrainOne(seq32: u32, b: u8)
    ensures Drain(seq32, map[seq32 := [b]]) == Drained(Wrap(seq32 + 1), map[], [b])
  {
    assert !SeqLessThan(seq32, seq32);
    hide Wrap, SeqLessThan, Drain;
    var m: map<u32, bytes> := map[seq32 := [b]];
    assert seq32 in m;
    assert Begin(m) == seq32;
    assert m - {seq32} == map[];
    DrainStep(seq32, m);
    DrainStep(Wrap(seq32 + 1), map[]);
  }

  /** A shorter segment with the same start replaces a longer one, and its tail is lost. */
  lemma ShorterReplacesExample()
    ensures
      var r := Pull(Add(EMPTY, 0, [1])).0;
      Add(Add(r, 2, [3, 4]), 2, [3]).pending == map[2 := [3]]
  {
    hide Drain;
    PullOne(0, 1);
  }
}
