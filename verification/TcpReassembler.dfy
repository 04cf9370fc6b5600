/** One direction of a TCP stream: include/tcp_reassembler.h and src/tcp_reassembler.cpp. */
module TcpReassembler {
  import opened Bytes

  /** The reassembler's fields as one value. */
  datatype Reasm = Reasm(initialized: bool, consumedAny: bool, nextSeq: u32, pending: map<u32, bytes>)

  const EMPTY: Reasm := Reasm(false, false, 0, map[])

  /** The sign bit of the 32-bit difference. */
  predicate SeqLessThan(a: u32, b: u32) {
    Wrap(a - b) >= 0x8000_0000
  }

  /** For positions less than half the number space apart, comparing wrapped numbers compares positions. */
  lemma SeqLessThanIsOrder(x: int, y: int)
    requires -0x8000_0000 <= x - y < 0x8000_0000
    ensures SeqLessThan(Wrap(x), Wrap(y)) <==> x < y
    ensures x <= y ==> Wrap(Wrap(y) - Wrap(x)) == y - x
  {
    WrapDifference(x, y);
    WrapDifference(y, x);
  }

  lemma WrapDifference(x: int, y: int)
    ensures Wrap(Wrap(x) - Wrap(y)) == Wrap(x - y)
  {
    WrapMinus(Wrap(x), y);
    WrapPlus(x, -y);
  }

  lemma WrapPlus(x: int, y: int)
    ensures Wrap(Wrap(x) + y) == Wrap(x + y)
  {
    WrapShift(Wrap(x) + y, x / 0x1_0000_0000);
  }

  lemma WrapMinus(x: int, y: int)
    ensures Wrap(x - Wrap(y)) == Wrap(x - y)
  {
    WrapShift(x - y, y / 0x1_0000_0000);
  }

  lemma WrapShift(x: int, q: int)
    ensures Wrap(x + 0x1_0000_0000 * q) == Wrap(x)
  {
  }

  /** Trimming the front of a segment never runs past its end, for any segment length. */
  lemma TrimInBounds(next: u32, seq32: u32, len: nat)
    requires len > 0
    requires SeqLessThan(next, Wrap(seq32 + len)) && SeqLessThan(seq32, next)
    ensures Wrap(next - seq32) < len
  {
    var trim := Wrap(next - seq32);
    WrapMinus(next, seq32 + len);
    WrapPlus(next - seq32, -(len as int));
    assert Wrap(trim - len) >= 0x8000_0000;
    assert trim <= 0x8000_0000 by { OppositeDistance(seq32, next); }
    WrapBelow(trim - len);
  }

  lemma OppositeDistance(a: u32, b: u32)
    requires a != b
    ensures Wrap(a - b) + Wrap(b - a) == 0x1_0000_0000
  {
  }

  lemma WrapSmall(x: u32)
    ensures Wrap(x) == x
  {
  }

  lemma WrapBelow(x: int)
    requires x < 0x8000_0000 <= Wrap(x)
    ensures x < 0
  {
  }

  /** The cursor after `addSegment` has decided whether to start or to widen the window. */
  function Anchor(r: Reasm, seq32: u32): u32 {
    if !r.initialized then seq32
    else if !r.consumedAny && SeqLessThan(seq32, r.nextSeq) then seq32
    else r.nextSeq
  }

  function Add(r: Reasm, seq32: u32, data: bytes): Reasm {
    if |data| == 0 then r else
    var next := Anchor(r, seq32);
    var r' := r.(initialized := true, nextSeq := next);
    if !SeqLessThan(next, Wrap(seq32 + |data|)) then r'
    else if SeqLessThan(seq32, next) then
      TrimInBounds(next, seq32, |data|);
      r'.(pending := r.pending[next := data[Wrap(next - seq32)..]])
    else r'.(pending := r.pending[seq32 := data])
  }

  predicate IsLeast(k: u32, s: set<u32>) {
    k in s && forall j :: j in s ==> k <= j
  }

  lemma {:induction false} LeastExists(s: set<u32>)
    requires s != {}
    ensures exists k :: IsLeast(k, s)
  {
    var x :| x in s;
    var rest := s - {x};
    if rest == {} {
      assert s == {x};
      assert IsLeast(x, s);
    } else {
      LeastExists(rest);
      var k :| IsLeast(k, rest);
      assert s == rest + {x};
      assert IsLeast(if x < k then x else k, s);
    }
  }

  /** The first entry of the ordered map. */
  function Begin<V>(m: map<u32, V>): (k: u32)
    requires m != map[]
    ensures IsLeast(k, m.Keys)
  {
    assert m.Keys != {} by { var k :| k in m; assert k in m.Keys; }
    LeastExists(m.Keys);
    var k :| k in m.Keys && IsLeast(k, m.Keys);
    k
  }

  datatype Drained = Drained(next: u32, pending: map<u32, bytes>, out: bytes)

  /** The loop of `pullContiguous`: consume from the front of the ordered map up to the first gap. */
  function Drain(next: u32, pending: map<u32, bytes>): Drained
    decreases |pending|
  {
    if pending == map[] then Drained(next, pending, []) else
    var k := Begin(pending);
    var buf, rest := pending[k], pending - {k};
    assert |rest| < |pending| by { assert rest.Keys == pending.Keys - {k}; }
    if SeqLessThan(next, k) then Drained(next, pending, [])
    else if SeqLessThan(k, next) && Wrap(next - k) >= |buf| then Drain(next, rest)
    else
      var chunk := if SeqLessThan(k, next) then buf[Wrap(next - k)..] else buf;
      Prepend(chunk, Drain(Wrap(k + |buf|), rest))
  }

  lemma DrainStep(next: u32, pending: map<u32, bytes>)
    ensures pending == map[] ==> Drain(next, pending) == Drained(next, pending, [])
    ensures pending != map[] ==>
              var k := Begin(pending);
              var buf, rest := pending[k], pending - {k};
              && |rest| < |pending|
              && Drain(next, pending) ==
                 if SeqLessThan(next, k) then Drained(next, pending, [])
                 else if SeqLessThan(k, next) && Wrap(next - k) >= |buf| then Drain(next, rest)
                 else Prepend(if SeqLessThan(k, next) then buf[Wrap(next - k)..] else buf, Drain(Wrap(k + |buf|), rest))
  {
    if pending != map[] {
      var k := Begin(pending);
      assert (pending - {k}).Keys == pending.Keys - {k};
    }
  }

  function Prepend(chunk: bytes, d: Drained): Drained {
    d.(out := chunk + d.out)
  }

  lemma PrependTwice(a: bytes, b: bytes, d: Drained)
    ensures Prepend(a, Prepend(b, d)) == Prepend(a + b, d)
  {
    assert a + (b + d.out) == (a + b) + d.out;
  }

  function Pull(r: Reasm): (Reasm, bytes) {
    var d := Drain(r.nextSeq, r.pending);
    (r.(nextSeq := d.next, pending := d.pending, consumedAny := r.consumedAny || d.out != []), d.out)
  }

  lemma {:induction false} DrainTwice(next: u32, pending: map<u32, bytes>)
    ensures var d := Drain(next, pending);
            Drain(d.next, d.pending) == Drained(d.next, d.pending, [])
    decreases |pending|
  {
    hide SeqLessThan, Wrap, Drain, IsLeast;
    DrainStep(next, pending);
    if pending != map[] {
      var k := Begin(pending);
      var buf, rest := pending[k], pending - {k};
      if SeqLessThan(next, k) {
      } else if SeqLessThan(k, next) && Wrap(next - k) >= |buf| {
        DrainTwice(next, rest);
      } else {
        DrainTwice(Wrap(k + |buf|), rest);
      }
    }
  }

  /** A pull leaves nothing for a second pull. */
  lemma PullTwice(r: Reasm)
    ensures Pull(Pull(r).0) == (Pull(r).0, [])
  {
    hide Drain;
    DrainTwice(r.nextSeq, r.pending);
  }

  /** Bytes held in a set of entries. */
  ghost function HeldBytes(m: map<u32, bytes>): nat
    decreases |m|
  {
    if m == map[] then 0 else
    var k := Begin(m);
    assert |m - {k}| < |m| by { assert (m - {k}).Keys == m.Keys - {k}; }
    |m[k]| + HeldBytes(m - {k})
  }

  class TcpStreamReassembler {
    var initialized: bool
    var consumedAny: bool
    var nextSeq: u32
    var pending: map<u32, bytes>

    ghost function View(): Reasm
      reads this
    {
      Reasm(initialized, consumedAny, nextSeq, pending)
    }

    constructor ()
      ensures View() == EMPTY
    {
      initialized, consumedAny, nextSeq, pending := false, false, 0, map[];
    }

    method AddSegment(seq32: u32, data: bytes)
      modifies this
      ensures View() == Add(old(View()), seq32, data)
    {
      if |data| == 0 {
        return;
      }
      if !initialized {
        nextSeq := seq32;
        initialized := true;
      } else if !consumedAny && SeqLessThan(seq32, nextSeq) {
        nextSeq := seq32;
      }
      var segEnd := Wrap(seq32 + |data|);
      if !SeqLessThan(nextSeq, segEnd) {
        return;
      }
      var start, body := seq32, data;
      if SeqLessThan(seq32, nextSeq) {
        TrimInBounds(nextSeq, seq32, |data|);
        var trim := Wrap(nextSeq - seq32);
        body := data[trim..];
        start := nextSeq;
      }
      pending := pending[start := body];
    }

    method PullContiguous() returns (result: bytes)
      modifies this
      ensures (View(), result) == Pull(old(View()))
    {
      hide Wrap, SeqLessThan, IsLeast, Drain;
      result := [];
      ghost var d := Drain(nextSeq, pending);
      while pending != map[]
        invariant initialized == old(initialized) && consumedAny == old(consumedAny)
        invariant d == Prepend(result, Drain(nextSeq, pending))
        decreases |pending|
      {
        DrainStep(nextSeq, pending);
        var segSeq := Begin(pending);
        if SeqLessThan(nextSeq, segSeq) {
          break;
        }
        var buf, rest := pending[segSeq], pending - {segSeq};
        if SeqLessThan(segSeq, nextSeq) {
          var trim := Wrap(nextSeq - segSeq);
          if trim >= |buf| {
            pending := rest;
            continue;
          }
          PrependTwice(result, buf[trim..], Drain(Wrap(segSeq + |buf|), rest));
          result := result + buf[trim..];
        } else {
          PrependTwice(result, buf, Drain(Wrap(segSeq + |buf|), rest));
          result := result + buf;
        }
        nextSeq := Wrap(segSeq + |buf|);
        pending := rest;
      }
      assert d == Drained(nextSeq, pending, result) by {
        DrainStep(nextSeq, pending);
        assert result + [] == result;
      }
      if |result| > 0 {
        consumedAny := true;
      }
    }

    method PendingBytes() returns (total: nat)
      ensures total == HeldBytes(pending)
    {
      total := 0;
      var rest := pending;
      while rest != map[]
        invariant total + HeldBytes(rest) == HeldBytes(pending)
        decreases |rest|
      {
        var k := Begin(rest);
        total := total + |rest[k]|;
        assert (rest - {k}).Keys == rest.Keys - {k};
        rest := rest - {k};
      }
    }
  }
}
