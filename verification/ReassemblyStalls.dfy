/** The state in which the reassembler delivers nothing any more, whatever arrives. */
module ReassemblyStalls {
  import opened Bytes
  import opened TcpReassembler

  /** Some buffered entry comes before the cursor in the map's raw order, so it lies past the wrap. */
  ghost predicate Straddles(pending: map<u32, bytes>, next: u32) {
    exists k :: k in pending && k < next
  }

  /** Delivery has begun, an entry lies past the wrap, and no entry lies behind the cursor. */
  ghost predicate Stuck(r: Reasm) {
    && r.initialized && r.consumedAny
    && Straddles(r.pending, r.nextSeq)
    && (forall k :: k in r.pending ==> k == r.nextSeq || SeqLessThan(r.nextSeq, k))
  }

  lemma StuckPull(r: Reasm)
    requires Stuck(r)
    ensures Pull(r) == (r, [])
  {
    hide SeqLessThan, Wrap, Drain;
    DrainStep(r.nextSeq, r.pending);
    var j :| j in r.pending && j < r.nextSeq;
    assert Begin(r.pending) <= j;
  }

  lemma AheadOrAt(next: u32, seq32: u32)
    ensures seq32 == next || SeqLessThan(seq32, next) || SeqLessThan(next, seq32)
  {
    if seq32 != next { OppositeDistance(seq32, next); }
  }

  /** Once stuck, no segment at all, of this stream or any other, makes a pull deliver another byte. */
  lemma StuckForGood(r: Reasm, seq32: u32, data: bytes)
    requires Stuck(r)
    ensures Stuck(Add(r, seq32, data)) && Pull(Add(r, seq32, data)) == (Add(r, seq32, data), [])
  {
    var r' := Add(r, seq32, data);
    AheadOrAt(r.nextSeq, seq32);
    var j :| j in r.pending && j < r.nextSeq;
    hide SeqLessThan, Wrap, Drain;
    assert r'.nextSeq == r.nextSeq && j in r'.pending;
    StuckPull(r');
  }
}
