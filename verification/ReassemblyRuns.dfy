/**
 * Whole runs of the reassembler against one byte stream of any length.  Stream offsets are unbounded;
 * offset o travels as sequence number Wrap(isn + o), so a run may wrap the 32-bit space any number of times.
 */
module ReassemblyRuns {
  import opened Bytes
  import opened TcpReassembler
  import opened ReassemblyStalls
  import opened Wrappers

  /** The one stream offset in [base, base + 2^32) whose sequence number is k. */
  function Off(isn: u32, base: nat, k: u32): (o: nat)
    ensures base <= o < base + 0x1_0000_0000
  {
    base + Wrap(k - Wrap(isn + base))
  }

  lemma OffIsInverse(isn: u32, base: nat, k: u32)
    ensures Wrap(isn + Off(isn, base, k)) == k
  {
    hide Wrap;
    WrapMinus(k, isn + base);
    WrapPlus(k - isn - base, isn + base);
    WrapSmall(k);
  }

  lemma Rebase(isn: u32, base: nat, base': nat, k: u32)
    requires base' <= Off(isn, base, k) < base' + 0x1_0000_0000
    ensures Off(isn, base', k) == Off(isn, base, k)
  {
    OffIsInverse(isn, base, k);
    WrapDifference(isn + Off(isn, base, k), isn + base');
  }

  lemma OffOfSeq(isn: u32, base: nat, o: nat)
    requires base <= o < base + 0x1_0000_0000
    ensures Off(isn, base, Wrap(isn + o)) == o
  {
    WrapDifference(isn + o, isn + base);
  }

  /** A buffered entry holds its slice of the stream and ends within half the number space of base. */
  ghost predicate Entry(isn: u32, stream: bytes, base: nat, k: u32, buf: bytes) {
    var o := Off(isn, base, k);
    0 < |buf| && o + |buf| < base + 0x8000_0000 && o + |buf| <= |stream| && buf == stream[o..o + |buf|]
  }

  ghost predicate Tracks(pending: map<u32, bytes>, isn: u32, stream: bytes, base: nat) {
    forall k :: k in pending ==> Entry(isn, stream, base, k, pending[k])
  }

  ghost predicate HeldAt(pending: map<u32, bytes>, isn: u32, base: nat, k: u32, x: int) {
    k in pending && Off(isn, base, k) <= x < Off(isn, base, k) + |pending[k]|
  }

  /** Offset x is buffered. */
  ghost predicate Held(pending: map<u32, bytes>, isn: u32, base: nat, x: int) {
    exists k :: HeldAt(pending, isn, base, k, x)
  }

  /** What draining from cursor c delivers and leaves, with offsets counted from base. */
  ghost predicate DrainPost(pending: map<u32, bytes>, isn: u32, stream: bytes, base: nat, c: nat, d: Drained) {
    var c' := c + |d.out|;
    && c' <= |stream| && c' < base + 0x8000_0000
    && d.out == stream[c..c']
    && d.next == Wrap(isn + c')
    && (forall k :: k in d.pending ==> k in pending && d.pending[k] == pending[k] && c' < Off(isn, base, k))
    && (forall k :: k in pending ==> k in d.pending || Off(isn, base, k) + |pending[k]| <= c')
    && (forall x :: c <= x < c' ==> Held(pending, isn, base, x))
  }

  /** What the loop's tests on sequence numbers say about stream offsets. */
  lemma OffComparisons(isn: u32, base: nat, c: nat, k: u32, len: nat)
    requires base <= c < base + 0x8000_0000 && Off(isn, base, k) < base + 0x8000_0000
    ensures SeqLessThan(Wrap(isn + c), k) <==> c < Off(isn, base, k)
    ensures SeqLessThan(k, Wrap(isn + c)) <==> Off(isn, base, k) < c
    ensures Off(isn, base, k) <= c ==> Wrap(Wrap(isn + c) - k) == c - Off(isn, base, k)
    ensures Wrap(k + len) == Wrap(isn + Off(isn, base, k) + len)
  {
    var o := Off(isn, base, k);
    OffIsInverse(isn, base, k);
    SeqLessThanIsOrder(isn + c, isn + o);
    SeqLessThanIsOrder(isn + o, isn + c);
    WrapPlus(isn + o, len);
  }

  /** One iteration of the loop, in stream offsets. */
  lemma DrainUnfold(pending: map<u32, bytes>, isn: u32, stream: bytes, base: nat, c: nat, k: u32)
    requires base <= c < base + 0x8000_0000
    requires pending != map[] && k == Begin(pending)
    requires Entry(isn, stream, base, k, pending[k])
    ensures |pending - {k}| < |pending|
    ensures
      var o, buf, d := Off(isn, base, k), pending[k], Drain(Wrap(isn + c), pending);
      if c < o then d == Drained(Wrap(isn + c), pending, [])
      else if o + |buf| <= c then d == Drain(Wrap(isn + c), pending - {k})
      else d == Prepend(buf[c - o..], Drain(Wrap(isn + o + |buf|), pending - {k}))
  {
    hide Wrap, SeqLessThan, IsLeast, Off, Drain;
    DrainStep(Wrap(isn + c), pending);
    OffComparisons(isn, base, c, k, |pending[k]|);
  }

  lemma PostStop(pending: map<u32, bytes>, isn: u32, stream: bytes, base: nat, c: nat)
    requires base <= c < base + 0x8000_0000 && c <= |stream|
    requires forall j :: j in pending ==> c < Off(isn, base, j)
    ensures DrainPost(pending, isn, stream, base, c, Drained(Wrap(isn + c), pending, []))
  {
    hide Wrap, Off;
  }

  lemma PostSkip(pending: map<u32, bytes>, isn: u32, stream: bytes, base: nat, c: nat, k: u32, d: Drained)
    requires k in pending && Off(isn, base, k) + |pending[k]| <= c
    requires DrainPost(pending - {k}, isn, stream, base, c, d)
    ensures DrainPost(pending, isn, stream, base, c, d)
  {
    hide Wrap, Off;
    HeldInLarger(pending - {k}, pending, isn, base);
  }

  lemma PostTake(pending: map<u32, bytes>, isn: u32, stream: bytes, base: nat, c: nat, k: u32, d: Drained)
    requires base <= c
    requires HeldAt(pending, isn, base, k, c) && Entry(isn, stream, base, k, pending[k])
    requires DrainPost(pending - {k}, isn, stream, base, Off(isn, base, k) + |pending[k]|, d)
    ensures DrainPost(pending, isn, stream, base, c, Prepend(pending[k][c - Off(isn, base, k)..], d))
  {
    hide Wrap, Off;
    var o, buf := Off(isn, base, k), pending[k];
    var e := o + |buf|;
    assert buf[c - o..] == stream[c..e];
    assert stream[c..e] + stream[e..e + |d.out|] == stream[c..e + |d.out|];
    HeldInLarger(pending - {k}, pending, isn, base);
    forall x | c <= x < e + |d.out|
      ensures Held(pending, isn, base, x)
    {
      if x < e { assert HeldAt(pending, isn, base, k, x); }
    }
  }

  /** When raw order agrees with stream order, draining stops exactly at the first offset not buffered. */
  lemma {:induction false} DrainInOrder(pending: map<u32, bytes>, isn: u32, stream: bytes, base: nat, c: nat)
    requires base <= c < base + 0x8000_0000 && c <= |stream|
    requires Tracks(pending, isn, stream, base)
    requires forall k :: k in pending ==> Wrap(isn + base) <= k
    ensures DrainPost(pending, isn, stream, base, c, Drain(Wrap(isn + c), pending))
    decreases |pending|
  {
    hide Wrap, Off, SeqLessThan, Drain, DrainPost;
    if pending == map[] {
      DrainStep(Wrap(isn + c), pending);
      PostStop(pending, isn, stream, base, c);
    } else {
      var k := Begin(pending);
      var o, rest := Off(isn, base, k), pending - {k};
      DrainUnfold(pending, isn, stream, base, c, k);
      if c < o {
        KeysInOrder(pending, isn, base, k);
        PostStop(pending, isn, stream, base, c);
      } else if o + |pending[k]| <= c {
        DrainInOrder(rest, isn, stream, base, c);
        PostSkip(pending, isn, stream, base, c, k, Drain(Wrap(isn + c), rest));
      } else {
        var e := o + |pending[k]|;
        DrainInOrder(rest, isn, stream, base, e);
        PostTake(pending, isn, stream, base, c, k, Drain(Wrap(isn + e), rest));
      }
    }
  }

  lemma KeysInOrder(pending: map<u32, bytes>, isn: u32, base: nat, k: u32)
    requires forall j :: j in pending ==> k <= j
    requires Wrap(isn + base) <= k
    ensures forall j :: j in pending ==> Off(isn, base, k) <= Off(isn, base, j)
  {
  }

  lemma HeldInLarger(part: map<u32, bytes>, pending: map<u32, bytes>, isn: u32, base: nat)
    requires forall k :: k in part ==> k in pending && pending[k] == part[k]
    ensures forall x :: Held(part, isn, base, x) ==> Held(pending, isn, base, x)
  {
    forall x | Held(part, isn, base, x)
      ensures Held(pending, isn, base, x)
    {
      var k :| HeldAt(part, isn, base, k, x);
      assert HeldAt(pending, isn, base, k, x);
    }
  }

  /** A state whose cursor stands at stream offset c and whose buffer is part of the stream. */
  ghost predicate At(r: Reasm, isn: u32, stream: bytes, c: nat) {
    r.nextSeq == Wrap(isn + c) && c <= |stream| && Tracks(r.pending, isn, stream, c)
  }

  /** A pull delivers the next bytes of the stream and nothing else, with or without wrap-around. */
  lemma PullDelivers(r: Reasm, isn: u32, stream: bytes, c: nat)
    requires At(r, isn, stream, c)
    ensures
      var (r', out) := Pull(r);
      && c + |out| <= |stream| && out == stream[c..c + |out|]
      && At(r', isn, stream, c + |out|)
      && (forall x :: c <= x < c + |out| ==> Held(r.pending, isn, c, x))
      && (forall x :: c + |out| <= x ==> (Held(r'.pending, isn, c + |out|, x) <==> Held(r.pending, isn, c, x)))
      && (!Straddles(r.pending, r.nextSeq) ==> !Held(r.pending, isn, c, c + |out|))
      && (Straddles(r.pending, r.nextSeq) ==> r' == r && out == [])
  {
    hide Wrap, SeqLessThan, Drain;
    if Straddles(r.pending, r.nextSeq) {
      StraddleStalls(r, isn, stream, c);
    } else {
      var d := Drain(r.nextSeq, r.pending);
      DrainInOrder(r.pending, isn, stream, c, c);
      RebaseAll(r.pending, d.pending, isn, stream, c, c + |d.out|);
    }
  }

  lemma TracksEntry(pending: map<u32, bytes>, isn: u32, stream: bytes, c: nat, k: u32)
    requires Tracks(pending, isn, stream, c) && k in pending
    ensures Entry(isn, stream, c, k, pending[k])
  {
  }

  /** With an entry past the wrap, the loop meets it first, takes it for a gap, and stops. */
  lemma StraddleStalls(r: Reasm, isn: u32, stream: bytes, c: nat)
    requires At(r, isn, stream, c)
    requires Straddles(r.pending, r.nextSeq)
    ensures Pull(r) == (r, [])
  {
    hide Wrap, Off, Drain, SeqLessThan, Tracks;
    var j :| j in r.pending && j < r.nextSeq;
    var k := Begin(r.pending);
    assert k <= j;
    assert Entry(isn, stream, c, k, r.pending[k]) by { TracksEntry(r.pending, isn, stream, c, k); }
    DrainUnfold(r.pending, isn, stream, c, c, k);
    OffIsInverse(isn, c, k);
    assert c < Off(isn, c, k);
  }

  /** Entries left behind a moved cursor are still at the same stream offsets. */
  lemma RebaseAll(pending: map<u32, bytes>, left: map<u32, bytes>, isn: u32, stream: bytes, c: nat, c': nat)
    requires c <= c' < c + 0x8000_0000 && Tracks(pending, isn, stream, c)
    requires forall k :: k in left ==> k in pending && left[k] == pending[k] && c' < Off(isn, c, k)
    requires forall k :: k in pending ==> k in left || Off(isn, c, k) + |pending[k]| <= c'
    ensures Tracks(left, isn, stream, c')
    ensures forall k :: k in left ==> Off(isn, c', k) == Off(isn, c, k)
    ensures forall x :: c' <= x ==> (Held(left, isn, c', x) <==> Held(pending, isn, c, x))
    ensures !Held(pending, isn, c, c')
  {
    hide Wrap, Off;
    forall k | k in left
      ensures Off(isn, c', k) == Off(isn, c, k) && Entry(isn, stream, c', k, left[k])
    {
      assert Entry(isn, stream, c, k, pending[k]);
      Rebase(isn, c, c', k);
    }
    forall x | c' <= x
      ensures Held(left, isn, c', x) <==> Held(pending, isn, c, x)
    {
      if Held(left, isn, c', x) {
        var k :| HeldAt(left, isn, c', k, x);
        assert HeldAt(pending, isn, c, k, x);
      }
      if Held(pending, isn, c, x) {
        var k :| HeldAt(pending, isn, c, k, x);
        assert HeldAt(left, isn, c', k, x);
      }
    }
    assert !Held(left, isn, c', c');
  }

  /**
   * A pull delivers everything contiguous if and only if no entry lies past the wrap or none waits at the cursor.
   */
  lemma PullCompleteIff(r: Reasm, isn: u32, stream: bytes, c: nat)
    requires At(r, isn, stream, c)
    ensures !Held(r.pending, isn, c, c + |Pull(r).1|) <==>
            !PullStalls(r)
  {
    hide Wrap, SeqLessThan, Drain;
    PullDelivers(r, isn, stream, c);
    if Straddles(r.pending, r.nextSeq) {
      OffOfSeq(isn, c, c);
      if r.nextSeq in r.pending {
        assert Entry(isn, stream, c, r.nextSeq, r.pending[r.nextSeq]);
        assert HeldAt(r.pending, isn, c, r.nextSeq, c);
      } else {
        forall k
          ensures !HeldAt(r.pending, isn, c, k, c)
        {
          OffIsInverse(isn, c, k);
        }
      }
    }
  }

  // ---- Adding a segment ------------------------------------------------------------------------

  lemma AddAnchored(r: Reasm, seq32: u32, data: bytes)
    requires |data| > 0
    ensures Add(r, seq32, data) == Add(r.(initialized := true, nextSeq := Anchor(r, seq32)), seq32, data)
  {
    hide Wrap;
    assert !SeqLessThan(seq32, seq32) by { WrapSmall(0); }
  }

  /** The new segment would replace a longer buffered one that starts at the same place. */
  predicate Shortens(pending: map<u32, bytes>, key: u32, len: int) {
    key in pending && |pending[key]| > len
  }

  function Max(a: int, b: int): int { if a < b then b else a }
  function Min(a: int, b: int): int { if a < b then a else b }

  /** What `addSegment` stores when the segment [off, off + len) arrives at an anchored cursor c. */
  lemma AddStores(r: Reasm, isn: u32, stream: bytes, c: nat, off: nat, len: nat)
    requires At(r, isn, stream, c) && r.initialized && Anchor(r, Wrap(isn + off)) == r.nextSeq
    requires 0 < len && off + len <= |stream| && c < off + 0x8000_0000 && off + len < c + 0x8000_0000
    ensures
      var from, key := Max(off, c), Wrap(isn + Max(off, c));
      Add(r, Wrap(isn + off), stream[off..off + len]) ==
      if off + len <= c then r else r.(pending := r.pending[key := stream[from..off + len]])
  {
    hide Wrap, SeqLessThan, Tracks;
    WrapPlus(isn + off, len);
    SeqLessThanIsOrder(isn + c, isn + off + len);
    SeqLessThanIsOrder(isn + off, isn + c);
    var data := stream[off..off + len];
    if off < c < off + len {
      assert data[c - off..] == stream[c..off + len];
    }
  }

  /** Storing one slice keeps the buffer a part of the stream; it holds the slice and every entry it did not replace. */
  lemma StoreHolds(pending: map<u32, bytes>, isn: u32, stream: bytes, c: nat, from: nat, end: nat)
    requires Tracks(pending, isn, stream, c)
    requires c <= from < end <= |stream| && end < c + 0x8000_0000
    ensures
      var key := Wrap(isn + from);
      var pending' := pending[key := stream[from..end]];
      && Tracks(pending', isn, stream, c)
      && (forall x :: Held(pending', isn, c, x) <==> from <= x < end || Held(pending - {key}, isn, c, x))
      && (!Shortens(pending, key, end - from) ==>
            forall x :: Held(pending', isn, c, x) <==> from <= x < end || Held(pending, isn, c, x))
  {
    hide Wrap;
    var key := Wrap(isn + from);
    var pending' := pending[key := stream[from..end]];
    OffOfSeq(isn, c, from);
    forall k | k in pending'
      ensures Entry(isn, stream, c, k, pending'[k])
    {
      if k != key { assert Entry(isn, stream, c, k, pending[k]); }
    }
    forall x
      ensures Held(pending', isn, c, x) <==> from <= x < end || Held(pending - {key}, isn, c, x)
    {
      StoreHeldIff(pending, isn, c, key, stream[from..end], x);
    }
    HeldInLarger(pending - {key}, pending, isn, c);
    if !Shortens(pending, key, end - from) {
      forall x | Held(pending, isn, c, x)
        ensures from <= x < end || Held(pending - {key}, isn, c, x)
      {
        var k :| HeldAt(pending, isn, c, k, x);
        if k != key { assert HeldAt(pending - {key}, isn, c, k, x); }
      }
      assert forall x :: Held(pending', isn, c, x) <==> from <= x < end || Held(pending, isn, c, x);
    }
  }

  lemma StoreHeldIff(pending: map<u32, bytes>, isn: u32, c: nat, key: u32, buf: bytes, x: int)
    ensures Held(pending[key := buf], isn, c, x) <==>
            Off(isn, c, key) <= x < Off(isn, c, key) + |buf| || Held(pending - {key}, isn, c, x)
  {
    hide Wrap, Off;
    var pending' := pending[key := buf];
    if Held(pending', isn, c, x) {
      var k :| HeldAt(pending', isn, c, k, x);
      if k != key { assert HeldAt(pending - {key}, isn, c, k, x); }
    }
    if Off(isn, c, key) <= x < Off(isn, c, key) + |buf| {
      assert HeldAt(pending', isn, c, key, x);
    }
    if Held(pending - {key}, isn, c, x) {
      var k :| HeldAt(pending - {key}, isn, c, k, x);
      assert HeldAt(pending', isn, c, k, x);
    }
  }

  /** Moving the cursor back before anything was delivered keeps every entry at its offset. */
  lemma Widen(pending: map<u32, bytes>, isn: u32, stream: bytes, c: nat, c': nat, top: nat)
    requires c' <= c && Tracks(pending, isn, stream, c)
    requires forall k :: k in pending ==> Off(isn, c, k) + |pending[k]| <= top
    requires top < c' + 0x8000_0000
    ensures Tracks(pending, isn, stream, c')
    ensures forall k :: k in pending ==> Off(isn, c', k) == Off(isn, c, k)
    ensures forall x :: Held(pending, isn, c', x) <==> Held(pending, isn, c, x)
  {
    hide Wrap;
    forall k | k in pending
      ensures Off(isn, c', k) == Off(isn, c, k) && Entry(isn, stream, c', k, pending[k])
    {
      assert Entry(isn, stream, c, k, pending[k]);
      Rebase(isn, c, c', k);
    }
    hide Off;
    forall x
      ensures Held(pending, isn, c', x) <==> Held(pending, isn, c, x)
    {
      if Held(pending, isn, c, x) {
        var k :| HeldAt(pending, isn, c, k, x);
        assert HeldAt(pending, isn, c', k, x);
      }
      if Held(pending, isn, c', x) {
        var k :| HeldAt(pending, isn, c', k, x);
        assert HeldAt(pending, isn, c, k, x);
      }
    }
  }

  // ---- Runs ------------------------------------------------------------------------------------

  datatype Op = Feed(off: nat, len: nat) | Fetch

  /** A reassembler, the stream offset of its cursor, the end of the furthest segment fed, and all bytes pulled. */
  datatype Run = Run(r: Reasm, cursor: nat, top: nat, out: bytes) {
    /** The offset of the first byte delivered. */
    function Start(): int { cursor - |out| }
  }

  const FIRST: Run := Run(EMPTY, 0, 0, [])

  predicate Fits(op: Op, stream: bytes) {
    op.Feed? ==> op.off + op.len <= |stream|
  }

  function CursorAfterFeed(s: Run, off: nat): nat {
    if !s.r.initialized then off
    else if !s.r.consumedAny && off < s.cursor then off
    else s.cursor
  }

  function Step(isn: u32, stream: bytes, s: Run, op: Op): Run
    requires Fits(op, stream)
  {
    match op
    case Feed(off, len) =>
      if len == 0 then s.(r := Add(s.r, Wrap(isn + off), []))
      else Run(Add(s.r, Wrap(isn + off), stream[off..off + len]), CursorAfterFeed(s, off), Max(s.top, off + len), s.out)
    case Fetch =>
      var (r, out) := Pull(s.r);
      Run(r, s.cursor + |out|, s.top, s.out + out)
  }

  /** The segment lies within half the number space of the cursor (section 3.4 of RFC 9293). */
  predicate InWindow(s: Run, off: nat, len: nat) {
    if len == 0 then true
    else if s.r.consumedAny then s.cursor < off + 0x8000_0000 && off + len < s.cursor + 0x8000_0000
    else Max(s.top, off + len) < CursorAfterFeed(s, off) + 0x8000_0000
  }

  predicate Admissible(stream: bytes, s: Run, op: Op) {
    Fits(op, stream) && (op.Feed? ==> InWindow(s, op.off, op.len))
  }

  /** The state after a run of operations, each of them admissible; None when one is not. */
  function Exec(isn: u32, stream: bytes, ops: seq<Op>): (s: Option<Run>)
  {
    if ops == [] then Some(FIRST) else
    match Exec(isn, stream, ops[..|ops| - 1])
    case None => None
    case Some(s) =>
      if Admissible(stream, s, ops[|ops| - 1]) then Some(Step(isn, stream, s, ops[|ops| - 1])) else None
  }

  /** The invariant of every admissible run. */
  ghost predicate Good(isn: u32, stream: bytes, s: Run) {
    && (if s.r.initialized then At(s.r, isn, stream, s.cursor) else s.r == EMPTY && s.top == 0)
    && |s.out| <= s.cursor <= |stream|
    && s.out == stream[s.cursor - |s.out|..s.cursor]
    && (s.r.consumedAny <==> s.out != [])
    && (!s.r.consumedAny ==>
          s.cursor <= s.top < s.cursor + 0x8000_0000 &&
          forall k :: k in s.r.pending ==> Off(isn, s.cursor, k) + |s.r.pending[k]| <= s.top)
  }

  /** The state as it stands once `addSegment` has fixed the cursor. */
  function Anchored(isn: u32, s: Run, off: nat): Reasm {
    s.r.(initialized := true, nextSeq := Wrap(isn + CursorAfterFeed(s, off)))
  }

  lemma AnchoredIsGood(isn: u32, stream: bytes, s: Run, off: nat, len: nat)
    requires Good(isn, stream, s) && 0 < len && Admissible(stream, s, Feed(off, len))
    ensures
      var c := CursorAfterFeed(s, off);
      && Anchor(s.r, Wrap(isn + off)) == Wrap(isn + c)
      && Anchor(Anchored(isn, s, off), Wrap(isn + off)) == Wrap(isn + c)
      && At(Anchored(isn, s, off), isn, stream, c)
      && (!s.r.consumedAny ==> forall k :: k in s.r.pending ==> Off(isn, c, k) + |s.r.pending[k]| <= s.top)
      && (forall x :: Held(s.r.pending, isn, c, x) <==> Held(s.r.pending, isn, s.cursor, x))
  {
    var c := CursorAfterFeed(s, off);
    if s.r.initialized { SeqLessThanIsOrder(isn + off, isn + s.cursor); }
    SeqLessThanIsOrder(isn + off, isn + c);
    hide Wrap, SeqLessThan, Off;
    if !s.r.consumedAny && s.r.initialized && off < s.cursor {
      Widen(s.r.pending, isn, stream, s.cursor, off, s.top);
    }
  }

  /** The arriving segment would replace a longer entry with the same start. */
  predicate Shrinks(isn: u32, s: Run, off: nat, len: nat) {
    var c := CursorAfterFeed(s, off);
    c < off + len && Shortens(s.r.pending, Wrap(isn + Max(off, c)), off + len - Max(off, c))
  }

  lemma FeedStores(isn: u32, stream: bytes, s: Run, off: nat, len: nat)
    requires Good(isn, stream, s) && 0 < len && Admissible(stream, s, Feed(off, len))
    ensures
      var c := CursorAfterFeed(s, off);
      Step(isn, stream, s, Feed(off, len)) ==
      Run(Anchored(isn, s, off).(pending := Stored(s.r.pending, isn, stream, c, off, off + len)),
          c, Max(s.top, off + len), s.out)
  {
    var c, r0 := CursorAfterFeed(s, off), Anchored(isn, s, off);
    AnchoredIsGood(isn, stream, s, off, len);
    hide Wrap, SeqLessThan, Off, Add, Tracks, Good, Anchor, Held;
    AddAnchored(s.r, Wrap(isn + off), stream[off..off + len]);
    AddStores(r0, isn, stream, c, off, len);
  }

  /** The buffer after the slice [from, end) is stored, or after a segment wholly before the cursor is dropped. */
  function Stored(pending: map<u32, bytes>, isn: u32, stream: bytes, c: nat, off: nat, end: nat): map<u32, bytes>
    requires off < end <= |stream|
  {
    if end <= c then pending else pending[Wrap(isn + Max(off, c)) := stream[Max(off, c)..end]]
  }

  lemma StoredHolds(pending: map<u32, bytes>, isn: u32, stream: bytes, c: nat, off: nat, end: nat)
    requires off < end <= |stream| && end < c + 0x8000_0000 && Tracks(pending, isn, stream, c)
    ensures Tracks(Stored(pending, isn, stream, c, off, end), isn, stream, c)
    ensures (c < end && Shortens(pending, Wrap(isn + Max(off, c)), end - Max(off, c))) ||
            forall x :: c <= x ==> (Held(Stored(pending, isn, stream, c, off, end), isn, c, x) <==>
                                    off <= x < end || Held(pending, isn, c, x))
  {
    if c < end {
      hide Wrap, Off, Tracks, Held, Shortens;
      StoreHolds(pending, isn, stream, c, Max(off, c), end);
    }
  }

  lemma StoredEnds(pending: map<u32, bytes>, isn: u32, stream: bytes, c: nat, off: nat, end: nat, top: nat)
    requires off < end <= |stream| && end < c + 0x8000_0000
    requires forall k :: k in pending ==> Off(isn, c, k) + |pending[k]| <= top
    ensures var pending' := Stored(pending, isn, stream, c, off, end);
            forall k :: k in pending' ==> Off(isn, c, k) + |pending'[k]| <= Max(top, end)
  {
    if c < end { OffOfSeq(isn, c, Max(off, c)); }
    hide Wrap, Off;
  }

  /** One admissible segment: the invariant holds on. */
  lemma FeedIsGood(isn: u32, stream: bytes, s: Run, off: nat, len: nat)
    requires Good(isn, stream, s) && 0 < len && Admissible(stream, s, Feed(off, len))
    ensures Good(isn, stream, Step(isn, stream, s, Feed(off, len)))
    ensures Step(isn, stream, s, Feed(off, len)).r.initialized
    ensures Step(isn, stream, s, Feed(off, len)).r.consumedAny == s.r.consumedAny
    ensures Step(isn, stream, s, Feed(off, len)).Start() >= s.Start() || !s.r.consumedAny
  {
    hide Wrap, SeqLessThan, Off, Step, Tracks, Anchor, Held, Stored, Add;
    var c := CursorAfterFeed(s, off);
    FeedStores(isn, stream, s, off, len);
    AnchoredIsGood(isn, stream, s, off, len);
    StoredHolds(s.r.pending, isn, stream, c, off, off + len);
    if !s.r.consumedAny { StoredEnds(s.r.pending, isn, stream, c, off, off + len, s.top); }
  }

  /** One admissible segment: exactly the stated offsets are buffered afterwards. */
  lemma FeedHolds(isn: u32, stream: bytes, s: Run, off: nat, len: nat)
    requires Good(isn, stream, s) && 0 < len && Admissible(stream, s, Feed(off, len))
    requires !Shrinks(isn, s, off, len)
    ensures
      var s' := Step(isn, stream, s, Feed(off, len));
      forall x :: s'.cursor <= x ==>
        (Held(s'.r.pending, isn, s'.cursor, x) <==> off <= x < off + len || Held(s.r.pending, isn, s.cursor, x))
  {
    hide Wrap, SeqLessThan, Off, Step, Tracks, Anchor, Held, Stored, Add;
    var c := CursorAfterFeed(s, off);
    FeedStores(isn, stream, s, off, len);
    AnchoredIsGood(isn, stream, s, off, len);
    hide Good;
    StoredHolds(s.r.pending, isn, stream, c, off, off + len);
  }

  /** Some other entry holds every byte that replacing the entry under key by one that ends at offset end would drop. */
  ghost predicate TailCovered(pending: map<u32, bytes>, isn: u32, c: nat, key: u32, end: nat) {
    forall x :: end <= x && HeldAt(pending, isn, c, key, x) ==> Held(pending - {key}, isn, c, x)
  }

  /** The effect of one admissible segment that ends past the cursor, and exactly when it keeps all that was buffered. */
  lemma FeedHoldsIff(isn: u32, stream: bytes, s: Run, off: nat, len: nat)
    requires Good(isn, stream, s) && 0 < len && Admissible(stream, s, Feed(off, len))
    requires CursorAfterFeed(s, off) < off + len
    ensures
      var s' := Step(isn, stream, s, Feed(off, len));
      var c := s'.cursor;
      var key := Wrap(isn + Max(off, c));
      && (forall x :: c <= x ==> (Held(s'.r.pending, isn, c, x) <==>
            off <= x < off + len || Held(s.r.pending - {key}, isn, c, x)))
      && ((forall x :: c <= x && Held(s.r.pending, isn, s.cursor, x) ==> Held(s'.r.pending, isn, c, x)) <==>
            TailCovered(s.r.pending, isn, c, key, off + len))
  {
    hide Wrap, SeqLessThan, Off, Step, Tracks, Anchor, Add;
    var c := CursorAfterFeed(s, off);
    FeedStores(isn, stream, s, off, len);
    AnchoredIsGood(isn, stream, s, off, len);
    hide Good, Admissible;
    StoreHoldsIff(s.r.pending, isn, c, Max(off, c), stream[Max(off, c)..off + len]);
  }

  lemma StoreHoldsIff(pending: map<u32, bytes>, isn: u32, c: nat, from: nat, buf: bytes)
    requires c <= from < c + 0x8000_0000
    ensures var key, pending' := Wrap(isn + from), pending[Wrap(isn + from) := buf];
            && (forall x :: Held(pending', isn, c, x) <==>
                  from <= x < from + |buf| || Held(pending - {key}, isn, c, x))
            && ((forall x :: c <= x && Held(pending, isn, c, x) ==> Held(pending', isn, c, x)) <==>
                  TailCovered(pending, isn, c, key, from + |buf|))
  {
    var key := Wrap(isn + from);
    var pending' := pending[key := buf];
    OffOfSeq(isn, c, from);
    hide Wrap, Off;
    forall x
      ensures Held(pending', isn, c, x) <==> from <= x < from + |buf| || Held(pending - {key}, isn, c, x)
      ensures Held(pending, isn, c, x) <==> HeldAt(pending, isn, c, key, x) || Held(pending - {key}, isn, c, x)
    {
      StoreHeldIff(pending, isn, c, key, buf, x);
      HeldWithout(pending, isn, c, key, x);
    }
    hide Held;
    assert forall x :: HeldAt(pending, isn, c, key, x) ==> from <= x;
  }

  lemma HeldWithout(pending: map<u32, bytes>, isn: u32, c: nat, key: u32, x: int)
    ensures Held(pending, isn, c, x) <==> HeldAt(pending, isn, c, key, x) || Held(pending - {key}, isn, c, x)
  {
    hide Off;
    assert forall k :: HeldAt(pending - {key}, isn, c, k, x) <==> HeldAt(pending, isn, c, k, x) && k != key;
  }

  lemma FetchIsGood(isn: u32, stream: bytes, s: Run)
    requires Good(isn, stream, s)
    ensures
      var s' := Step(isn, stream, s, Fetch);
      && Good(isn, stream, s')
      && s'.out == s.out + stream[s.cursor..s'.cursor] && s.cursor <= s'.cursor
      && s'.r.initialized == s.r.initialized
      && (forall x :: s.cursor <= x < s'.cursor ==> Held(s.r.pending, isn, s.cursor, x))
      && (forall x :: s'.cursor <= x ==> (Held(s'.r.pending, isn, s'.cursor, x) <==> Held(s.r.pending, isn, s.cursor, x)))
      && (PullStalls(s.r) <==> Held(s'.r.pending, isn, s'.cursor, s'.cursor))
  {
    hide Wrap, SeqLessThan, Off, Drain, Held, Tracks;
    if s.r.initialized {
      PullDelivers(s.r, isn, stream, s.cursor);
      PullCompleteIff(s.r, isn, stream, s.cursor);
      var (r', out) := Pull(s.r);
      var c := s.cursor + |out|;
      assert s.out + out == stream[s.cursor - |s.out|..c];
      PullKeeps(s.r, isn, stream, s.cursor);
    } else {
      DrainStep(s.r.nextSeq, s.r.pending);
      NothingHeld(isn, s.cursor);
    }
  }

  /** The one case in which a pull leaves contiguous bytes behind. */
  predicate PullStalls(r: Reasm) {
    r.nextSeq in r.pending && exists k :: k in r.pending && k < r.nextSeq
  }

  lemma NothingHeld(isn: u32, c: nat)
    ensures forall x :: !Held(map[], isn, c, x)
  {
  }

  /** The entries a pull leaves are entries it found, at the same stream offsets. */
  lemma PullKeeps(r: Reasm, isn: u32, stream: bytes, c: nat)
    requires At(r, isn, stream, c)
    ensures
      var (r', out) := Pull(r);
      forall k :: k in r'.pending ==>
        k in r.pending && r'.pending[k] == r.pending[k] && Off(isn, c + |out|, k) == Off(isn, c, k)
  {
    hide Wrap, SeqLessThan, Drain;
    if Straddles(r.pending, r.nextSeq) {
      StraddleStalls(r, isn, stream, c);
    } else {
      var d := Drain(r.nextSeq, r.pending);
      DrainInOrder(r.pending, isn, stream, c, c);
      RebaseAll(r.pending, d.pending, isn, stream, c, c + |d.out|);
    }
  }

  lemma StepIsGood(isn: u32, stream: bytes, s: Run, op: Op)
    requires Good(isn, stream, s) && Admissible(stream, s, op)
    ensures Good(isn, stream, Step(isn, stream, s, op))
  {
    hide Good;
    match op
    case Feed(off, len) => if 0 < len { FeedIsGood(isn, stream, s, off, len); }
    case Fetch => FetchIsGood(isn, stream, s);
  }

  lemma {:induction false} RunIsGood(isn: u32, stream: bytes, ops: seq<Op>)
    requires Exec(isn, stream, ops).Some?
    ensures Good(isn, stream, Exec(isn, stream, ops).value)
  {
    if ops == [] {
    } else {
      hide Good, Step;
      RunIsGood(isn, stream, ops[..|ops| - 1]);
      StepIsGood(isn, stream, Exec(isn, stream, ops[..|ops| - 1]).value, ops[|ops| - 1]);
    }
  }

  /**
   * Safety of whole runs, wrap-around included: all bytes pulled so far, joined, are the stream from the first byte
   * delivered to the cursor, and going on only extends them.
   */
  lemma SafeRun(isn: u32, stream: bytes, ops: seq<Op>, op: Op)
    requires Exec(isn, stream, ops + [op]).Some?
    ensures Exec(isn, stream, ops).Some?
    ensures
      var s, s' := Exec(isn, stream, ops).value, Exec(isn, stream, ops + [op]).value;
      && 0 <= s'.Start() && s'.cursor <= |stream|
      && s'.out == stream[s'.Start()..s'.cursor]
      && (s'.r.initialized ==> s'.r.nextSeq == Wrap(isn + s'.cursor))
      && (s.out != [] ==> s'.Start() == s.Start() && s.cursor <= s'.cursor)
  {
    ExecLast(isn, stream, ops, op);
    RunIsGood(isn, stream, ops);
    RunIsGood(isn, stream, ops + [op]);
    if op == Fetch {
      FetchIsGood(isn, stream, Exec(isn, stream, ops).value);
    }
  }

  lemma ExecLast(isn: u32, stream: bytes, ops: seq<Op>, op: Op)
    ensures Exec(isn, stream, ops + [op]) ==
            match Exec(isn, stream, ops)
            case None => None
            case Some(s) => if Admissible(stream, s, op) then Some(Step(isn, stream, s, op)) else None
  {
    assert (ops + [op])[..|ops|] == ops;
  }

  // ---- Completeness ----------------------------------------------------------------------------

  predicate Covers(op: Op, x: int) {
    op.Feed? && op.off <= x < op.off + op.len
  }

  /** Offset x lies in some segment ever fed. */
  ghost predicate Fed(ops: seq<Op>, x: int) {
    exists i :: 0 <= i < |ops| && Covers(ops[i], x)
  }

  /** No operation of the run replaced a longer entry. */
  predicate NeverShrinks(isn: u32, stream: bytes, ops: seq<Op>)
    requires Exec(isn, stream, ops).Some?
  {
    ops == [] ||
    var before, op := ops[..|ops| - 1], ops[|ops| - 1];
    && NeverShrinks(isn, stream, before)
    && (op.Feed? && op.len > 0 ==> !Shrinks(isn, Exec(isn, stream, before).value, op.off, op.len))
  }

  /** Every offset fed was delivered or is buffered, except those before the first byte delivered. */
  ghost predicate Accounted(isn: u32, s: Run, ops: seq<Op>) {
    && (forall x :: s.cursor <= x ==> (Held(s.r.pending, isn, s.cursor, x) <==> Fed(ops, x)))
    && (forall x :: s.Start() <= x < s.cursor ==> Fed(ops, x))
    && (!s.r.consumedAny ==> forall x :: x < s.cursor ==> !Fed(ops, x))
    && (!s.r.consumedAny && s.r.initialized ==> Fed(ops, s.cursor))
  }

  lemma FedLast(ops: seq<Op>, op: Op)
    ensures forall x :: Fed(ops + [op], x) <==> Fed(ops, x) || Covers(op, x)
  {
    forall x
      ensures Fed(ops + [op], x) <==> Fed(ops, x) || Covers(op, x)
    {
      var more := ops + [op];
      if Covers(op, x) { assert more[|ops|] == op; }
      if Fed(ops, x) {
        var i :| 0 <= i < |ops| && Covers(ops[i], x);
        assert more[i] == ops[i];
      }
    }
  }

  lemma AccountedFeed(isn: u32, stream: bytes, s: Run, ops: seq<Op>, off: nat, len: nat)
    requires Good(isn, stream, s) && Accounted(isn, s, ops) && Admissible(stream, s, Feed(off, len))
    requires 0 < len && !Shrinks(isn, s, off, len)
    ensures Accounted(isn, Step(isn, stream, s, Feed(off, len)), ops + [Feed(off, len)])
  {
    hide Wrap, SeqLessThan, Off, Held, Tracks, Add, Step, At, Stored, Shrinks;
    FedLast(ops, Feed(off, len));
    FeedHolds(isn, stream, s, off, len);
    FeedStores(isn, stream, s, off, len);
    FeedIsGood(isn, stream, s, off, len);
    if !s.r.initialized { NothingHeld(isn, s.cursor); }
    HeldFromBase(s.r.pending, isn, s.cursor);
  }

  lemma HeldFromBase(pending: map<u32, bytes>, isn: u32, c: nat)
    ensures forall x :: Held(pending, isn, c, x) ==> c <= x
  {
  }

  /** Where delivery stands after a pull. */
  lemma FetchStands(isn: u32, stream: bytes, s: Run)
    requires Good(isn, stream, s)
    ensures var s' := Step(isn, stream, s, Fetch);
            && s.cursor <= s'.cursor && (s'.r.consumedAny <==> s'.out != []) && (s.r.consumedAny <==> s.out != [])
            && s'.r.initialized == s.r.initialized && s'.Start() == s.Start()
            && (s'.out == [] ==> s.out == [] && s'.cursor == s.cursor)
  {
    hide Wrap, SeqLessThan, Off, Held, Tracks, At, Step, PullStalls;
    FetchIsGood(isn, stream, s);
  }

  lemma FetchMoves(isn: u32, stream: bytes, s: Run)
    requires Good(isn, stream, s)
    ensures var s' := Step(isn, stream, s, Fetch);
            && (forall x :: s.cursor <= x < s'.cursor ==> Held(s.r.pending, isn, s.cursor, x))
            && (forall x :: s'.cursor <= x ==>
                  (Held(s'.r.pending, isn, s'.cursor, x) <==> Held(s.r.pending, isn, s.cursor, x)))
  {
    hide Good, Held, Step, PullStalls;
    FetchIsGood(isn, stream, s);
  }

  lemma AccountedFetch(isn: u32, stream: bytes, s: Run, ops: seq<Op>)
    requires Good(isn, stream, s) && Accounted(isn, s, ops)
    ensures Accounted(isn, Step(isn, stream, s, Fetch), ops + [Fetch])
  {
    hide Good, Held, Fed, Step, Covers;
    FetchStands(isn, stream, s);
    FetchMoves(isn, stream, s);
    forall x
      ensures Fed(ops + [Fetch], x) <==> Fed(ops, x)
    {
      FedLast(ops, Fetch);
      CoversNothing(x);
    }
  }

  lemma CoversNothing(x: int)
    ensures !Covers(Fetch, x)
  {
  }

  lemma AccountedStep(isn: u32, stream: bytes, s: Run, ops: seq<Op>, op: Op)
    requires Good(isn, stream, s) && Accounted(isn, s, ops) && Admissible(stream, s, op)
    requires op.Feed? ==> op.len == 0 || !Shrinks(isn, s, op.off, op.len)
    ensures Accounted(isn, Step(isn, stream, s, op), ops + [op])
  {
    match op
    case Feed(off, len) =>
      if 0 < len {
        AccountedFeed(isn, stream, s, ops, off, len);
      } else {
        FedLast(ops, op);
        hide Wrap, SeqLessThan, Off, Held, At;
      }
    case Fetch => AccountedFetch(isn, stream, s, ops);
  }

  lemma {:induction false} RunIsAccounted(isn: u32, stream: bytes, ops: seq<Op>)
    requires Exec(isn, stream, ops).Some? && NeverShrinks(isn, stream, ops)
    ensures Accounted(isn, Exec(isn, stream, ops).value, ops)
  {
    hide Step, Good, Shrinks;
    if ops == [] {
      NothingHeld(isn, 0);
      assert forall x :: !Fed(ops, x);
    } else {
      hide Accounted;
      var before, op := ops[..|ops| - 1], ops[|ops| - 1];
      assert ops == before + [op];
      RunIsGood(isn, stream, before);
      RunIsAccounted(isn, stream, before);
      AccountedStep(isn, stream, Exec(isn, stream, before).value, before, op);
    }
  }

  /** Only what was fed is buffered or delivered. */
  ghost predicate Justified(isn: u32, s: Run, ops: seq<Op>) {
    && (forall x :: s.cursor <= x && Held(s.r.pending, isn, s.cursor, x) ==> Fed(ops, x))
    && (forall x :: s.Start() <= x < s.cursor ==> Fed(ops, x))
  }

  lemma JustifiedFeed(isn: u32, stream: bytes, s: Run, ops: seq<Op>, off: nat, len: nat)
    requires Good(isn, stream, s) && Justified(isn, s, ops) && Admissible(stream, s, Feed(off, len)) && 0 < len
    ensures Justified(isn, Step(isn, stream, s, Feed(off, len)), ops + [Feed(off, len)])
  {
    hide Wrap, SeqLessThan, Off, Held, Tracks, Step, At, Fed, Shrinks, TailCovered;
    FedLast(ops, Feed(off, len));
    FeedStores(isn, stream, s, off, len);
    AnchoredIsGood(isn, stream, s, off, len);
    HeldFromBase(s.r.pending, isn, s.cursor);
    if CursorAfterFeed(s, off) < off + len {
      FeedHoldsIff(isn, stream, s, off, len);
      HeldInRest(s.r.pending, isn, CursorAfterFeed(s, off), Wrap(isn + Max(off, CursorAfterFeed(s, off))));
    }
  }

  lemma HeldInRest(pending: map<u32, bytes>, isn: u32, c: nat, key: u32)
    ensures forall x :: Held(pending - {key}, isn, c, x) ==> Held(pending, isn, c, x)
  {
    hide Off;
    forall x
      ensures Held(pending - {key}, isn, c, x) ==> Held(pending, isn, c, x)
    {
      HeldWithout(pending, isn, c, key, x);
    }
  }

  lemma JustifiedFetch(isn: u32, stream: bytes, s: Run, ops: seq<Op>)
    requires Good(isn, stream, s) && Justified(isn, s, ops)
    ensures Justified(isn, Step(isn, stream, s, Fetch), ops + [Fetch])
  {
    hide Wrap, SeqLessThan, Off, Held, Tracks, At, Fed, Step, PullStalls;
    FedLast(ops, Fetch);
    FetchIsGood(isn, stream, s);
  }

  /** In every run at all, only what was fed is buffered or delivered. */
  lemma {:induction false} RunIsJustified(isn: u32, stream: bytes, ops: seq<Op>)
    requires Exec(isn, stream, ops).Some?
    ensures Justified(isn, Exec(isn, stream, ops).value, ops)
  {
    hide Step, Good, Justified, Add;
    if ops == [] {
      NothingJustified(isn);
    } else {
      var before, op := ops[..|ops| - 1], ops[|ops| - 1];
      assert ops == before + [op];
      var s := Exec(isn, stream, before).value;
      RunIsGood(isn, stream, before);
      RunIsJustified(isn, stream, before);
      match op
      case Feed(off, len) =>
        if 0 < len {
          JustifiedFeed(isn, stream, s, before, off, len);
        } else {
          JustifiedNothing(isn, stream, s, before, off);
        }
      case Fetch => JustifiedFetch(isn, stream, s, before);
    }
  }

  lemma NothingJustified(isn: u32)
    ensures Justified(isn, FIRST, [])
  {
    NothingHeld(isn, 0);
  }

  lemma JustifiedNothing(isn: u32, stream: bytes, s: Run, ops: seq<Op>, off: nat)
    requires Justified(isn, s, ops) && off <= |stream|
    ensures Justified(isn, Step(isn, stream, s, Feed(off, 0)), ops + [Feed(off, 0)])
  {
    hide Fed, Held;
    FedLast(ops, Feed(off, 0));
  }

  /** The state after a run and one more pull. */
  function Final(isn: u32, stream: bytes, ops: seq<Op>): Run
    requires Exec(isn, stream, ops).Some?
  {
    Step(isn, stream, Exec(isn, stream, ops).value, Fetch)
  }

  /**
   * A pull goes on over every byte that some segment covers, from the first byte delivered; it ends at the least offset
   * that none covers if and only if it does not stall.
   */
  lemma CursorIsFirstGapIff(isn: u32, stream: bytes, ops: seq<Op>)
    requires Exec(isn, stream, ops).Some? && NeverShrinks(isn, stream, ops)
    ensures
      var s := Final(isn, stream, ops);
      && (forall x :: s.Start() <= x < s.cursor ==> Fed(ops, x))
      && (!Fed(ops, s.cursor) <==> !PullStalls(Exec(isn, stream, ops).value.r))
  {
    hide Exec, NeverShrinks, Fed;
    RunIsGood(isn, stream, ops);
    RunIsAccounted(isn, stream, ops);
    var s := Exec(isn, stream, ops).value;
    FetchIsGood(isn, stream, s);
    AccountedFetch(isn, stream, s, ops);
    FedLast(ops, Fetch);
  }

  /** The first byte delivered is the least byte fed: no segment before it came too late. */
  ghost predicate StartsAtLeast(s: Run, ops: seq<Op>) {
    forall x :: Fed(ops, x) ==> s.Start() <= x
  }

  /**
   * Any two schedules that feed the same offsets, deliver from the least of them, and end in a pull that does not stall
   * deliver the same bytes.
   */
  lemma ScheduleIndependence(isn: u32, stream: bytes, a: seq<Op>, b: seq<Op>)
    requires Exec(isn, stream, a).Some? && NeverShrinks(isn, stream, a) && !PullStalls(Exec(isn, stream, a).value.r)
    requires Exec(isn, stream, b).Some? && NeverShrinks(isn, stream, b) && !PullStalls(Exec(isn, stream, b).value.r)
    requires StartsAtLeast(Final(isn, stream, a), a) && StartsAtLeast(Final(isn, stream, b), b)
    requires forall x :: Fed(a, x) <==> Fed(b, x)
    ensures Final(isn, stream, a).out == Final(isn, stream, b).out
  {
    var s, t := Final(isn, stream, a), Final(isn, stream, b);
    hide Exec, NeverShrinks, Fed, Final, PullStalls;
    CursorIsFirstGapIff(isn, stream, a);
    CursorIsFirstGapIff(isn, stream, b);
    FinalIsGood(isn, stream, a);
    FinalIsGood(isn, stream, b);
    DeliveredOrNothingFed(isn, stream, a);
    DeliveredOrNothingFed(isn, stream, b);
    if s.out != [] || t.out != [] {
      var x := if s.out != [] then s.Start() else t.Start();
      assert Fed(a, x) && Fed(b, x);
      assert Fed(a, s.Start()) && Fed(b, t.Start());
      assert s.Start() == t.Start();
      SameGap(a, b, s.Start(), s.cursor, t.cursor);
    }
  }

  lemma FinalIsGood(isn: u32, stream: bytes, ops: seq<Op>)
    requires Exec(isn, stream, ops).Some?
    ensures Good(isn, stream, Final(isn, stream, ops))
    ensures Exec(isn, stream, ops + [Fetch]) == Some(Final(isn, stream, ops))
  {
    hide Good, Step;
    RunIsGood(isn, stream, ops);
    ExecLast(isn, stream, ops, Fetch);
    StepIsGood(isn, stream, Exec(isn, stream, ops).value, Fetch);
  }

  lemma SameGap(a: seq<Op>, b: seq<Op>, start: int, c: int, d: int)
    requires forall x :: Fed(a, x) <==> Fed(b, x)
    requires start <= c && start <= d
    requires !Fed(a, c) && !Fed(b, d)
    requires forall x :: start <= x < c ==> Fed(a, x)
    requires forall x :: start <= x < d ==> Fed(b, x)
    ensures c == d
  {
    hide Fed;
    assert c < d ==> Fed(b, c);
    assert d < c ==> Fed(a, d);
  }

  lemma DeliveredOrNothingFed(isn: u32, stream: bytes, ops: seq<Op>)
    requires Exec(isn, stream, ops).Some? && NeverShrinks(isn, stream, ops) && !PullStalls(Exec(isn, stream, ops).value.r)
    ensures Final(isn, stream, ops).out == [] ==> forall x :: !Fed(ops, x)
  {
    hide Exec, NeverShrinks, Fed, PullStalls;
    CursorIsFirstGapIff(isn, stream, ops);
    var s0, s := Exec(isn, stream, ops).value, Final(isn, stream, ops);
    RunIsGood(isn, stream, ops);
    FinalIsGood(isn, stream, ops);
    RunIsAccounted(isn, stream, ops);
    FetchIsGood(isn, stream, s0);
    AccountedFetch(isn, stream, s0, ops);
    FedLast(ops, Fetch);
    if s.out == [] {
      assert !s.r.initialized;
      NothingHeld(isn, s.cursor);
    }
  }

  // ---- The earliest segment first ------------------------------------------------------------------

  /** Operation i feeds the earliest segment of all, at offset m, before anything is pulled. */
  ghost predicate EarliestAt(ops: seq<Op>, i: nat, m: nat) {
    && i < |ops| && Covers(ops[i], m)
    && (forall j :: 0 <= j < i ==> !ops[j].Fetch?)
    && (forall x :: Fed(ops, x) ==> m <= x)
  }

  lemma {:induction false} NoFetchNoOutput(isn: u32, stream: bytes, ops: seq<Op>)
    requires Exec(isn, stream, ops).Some? && forall j :: 0 <= j < |ops| ==> !ops[j].Fetch?
    ensures Exec(isn, stream, ops).value.out == []
  {
    if ops != [] {
      hide Add;
      NoFetchNoOutput(isn, stream, ops[..|ops| - 1]);
    }
  }

  /** Before the first delivery the cursor stands at the least byte fed. */
  lemma UndeliveredStart(isn: u32, stream: bytes, s: Run, ops: seq<Op>, m: nat)
    requires Good(isn, stream, s) && Accounted(isn, s, ops) && s.out == []
    requires Fed(ops, m) && forall x :: Fed(ops, x) ==> m <= x
    ensures s.Start() == m
  {
    hide Fed, At;
    assert m < s.cursor ==> !Fed(ops, m);
    if !s.r.initialized { NothingHeld(isn, s.cursor); }
  }

  lemma FedAt(ops: seq<Op>, i: nat, x: int)
    requires i < |ops| && Covers(ops[i], x)
    ensures Fed(ops, x)
  {
  }

  /** Feeding the earliest segment before the first pull makes delivery start there, and stay so. */
  lemma {:induction false} EarliestStarts(isn: u32, stream: bytes, ops: seq<Op>, i: nat, m: nat)
    requires Exec(isn, stream, ops).Some? && NeverShrinks(isn, stream, ops) && EarliestAt(ops, i, m)
    ensures Exec(isn, stream, ops).value.Start() == m
  {
    var before, op := ops[..|ops| - 1], ops[|ops| - 1];
    assert ops == before + [op];
    var s' := Exec(isn, stream, ops).value;
    FedAt(ops, i, m);
    if |ops| == i + 1 { NoFetchBefore(isn, stream, ops, i); }
    hide Step, Good, Accounted, Shrinks, Covers, Fed;
    RunIsGood(isn, stream, ops);
    RunIsAccounted(isn, stream, ops);
    if s'.out == [] {
      UndeliveredStart(isn, stream, s', ops, m);
    } else {
      FedLast(before, op);
      EarliestStarts(isn, stream, before, i, m);
      StartStays(isn, stream, before, op);
    }
  }

  lemma NoFetchBefore(isn: u32, stream: bytes, ops: seq<Op>, i: nat)
    requires Exec(isn, stream, ops).Some? && |ops| == i + 1 && ops[i].Feed? && forall j :: 0 <= j < i ==> !ops[j].Fetch?
    ensures Exec(isn, stream, ops).value.out == []
  {
    NoFetchNoOutput(isn, stream, ops);
  }

  lemma StartStays(isn: u32, stream: bytes, ops: seq<Op>, op: Op)
    requires Exec(isn, stream, ops + [op]).Some? && Exec(isn, stream, ops + [op]).value.out != []
    ensures Exec(isn, stream, ops).Some?
    ensures Exec(isn, stream, ops + [op]).value.Start() == Exec(isn, stream, ops).value.Start()
  {
    SafeRun(isn, stream, ops, op);
    ExecLast(isn, stream, ops, op);
    RunIsGood(isn, stream, ops);
    var s := Exec(isn, stream, ops).value;
    hide Good, Add;
    if op.Fetch? { FetchIsGood(isn, stream, s); }
  }

  /** So a schedule that feeds its earliest segment first delivers from the least byte it feeds. */
  lemma EarliestFirstStartsAtLeast(isn: u32, stream: bytes, ops: seq<Op>, i: nat, m: nat)
    requires Exec(isn, stream, ops).Some? && NeverShrinks(isn, stream, ops) && EarliestAt(ops, i, m)
    ensures StartsAtLeast(Final(isn, stream, ops), ops)
  {
    hide Step, Exec, NeverShrinks, Covers, Fed;
    EarliestStarts(isn, stream, ops, i, m);
    RunIsGood(isn, stream, ops);
    FetchIsGood(isn, stream, Exec(isn, stream, ops).value);
  }

  /** A straddling state of a run is stuck. */
  lemma StraddlesIsStuck(r: Reasm, isn: u32, stream: bytes, c: nat)
    requires At(r, isn, stream, c) && r.initialized && r.consumedAny && Straddles(r.pending, r.nextSeq)
    ensures Stuck(r)
  {
    hide Straddles;
    forall k | k in r.pending
      ensures k == r.nextSeq || SeqLessThan(r.nextSeq, k)
    {
      TracksEntry(r.pending, isn, stream, c, k);
      if k != r.nextSeq { OppositeDistance(k, r.nextSeq); }
    }
  }
}
