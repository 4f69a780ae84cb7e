/** Line framing done by the UART receive interrupt of the echo bot, stated on
    values: the bytes held in `rx_buf[..rx_buf_pos]` and the lines waiting in
    the message queue `uart_msgq`.

    `Receive` is one pass of the interrupt's read loop and `ReceiveAll` the
    whole loop over the FIFO contents. `Lines` and `Pending` are an
    independent description of the same framing, by splitting the byte stream
    at its terminators; `ReceiveAllFrames` proves the two agree. */
module Framing {

  type Byte = bv8
  type Line = seq<Byte>

  /** Size of `rx_buf` and of one queue slot. */
  const MSG_SIZE: nat := 32
  /** Payload bytes a line can hold: one slot byte is kept for the NUL. */
  const MAX_LINE: nat := MSG_SIZE - 1
  /** Number of slots of `uart_msgq`. */
  const QUEUE_DEPTH: nat := 10

  const NUL: Byte := 0x00
  const LF: Byte := 0x0A
  const CR: Byte := 0x0D

  predicate IsTerminator(c: Byte) {
    c == LF || c == CR
  }

  /** What the interrupt side holds: the partial line and the queued lines. */
  datatype RxState = RxState(line: Line, queue: seq<Line>)

  /** `rx_buf_pos` is zero and the queue is empty at start-up. */
  const PowerUp: RxState := RxState([], [])

  predicate QueueBounded(q: seq<Line>) {
    |q| <= QUEUE_DEPTH && forall i :: 0 <= i < |q| ==> |q[i]| <= MAX_LINE
  }

  predicate Bounded(s: RxState) {
    |s.line| <= MAX_LINE && QueueBounded(s.queue)
  }

  /** A line as the assembler holds it: the first byte is arbitrary, none of
      the later ones is a CR or LF. */
  predicate OpenSegment(seg: Line) {
    forall j :: 1 <= j < |seg| ==> !IsTerminator(seg[j])
  }

  /** A non-blocking put: a line offered to a full queue is dropped. */
  function Put(q: seq<Line>, l: Line): (r: seq<Line>)
    ensures |q| <= QUEUE_DEPTH ==> q <= r && |r| <= QUEUE_DEPTH
    ensures |q| < QUEUE_DEPTH ==> |r| == |q| + 1 && r[|q|] == l
    ensures |q| >= QUEUE_DEPTH ==> r == q
  {
    if |q| < QUEUE_DEPTH then q + [l] else q
  }

  /** One byte read from the FIFO. A CR or LF ends the line only when the
      line is non-empty; otherwise it is stored like any byte. Once MAX_LINE
      bytes are held, every byte that does not end the line is dropped. */
  function Receive(s: RxState, c: Byte): (r: RxState)
    ensures Bounded(s) ==> Bounded(r)
    ensures OpenSegment(s.line) ==> OpenSegment(r.line)
    ensures s.queue <= r.queue && |r.queue| <= |s.queue| + 1
  {
    if IsTerminator(c) && |s.line| > 0 then RxState([], Put(s.queue, s.line))
    else if |s.line| < MAX_LINE then RxState(s.line + [c], s.queue)
    else s
  }

  /** The interrupt's loop over every byte in the FIFO. */
  function ReceiveAll(s: RxState, bytes: Line): (r: RxState)
    ensures Bounded(s) ==> Bounded(r)
    ensures OpenSegment(s.line) ==> OpenSegment(r.line)
    ensures s.queue <= r.queue
    decreases |bytes|
  {
    if bytes == [] then s else ReceiveAll(Receive(s, bytes[0]), bytes[1..])
  }

  // ---------------------------------------------------------------------
  // Reference description: splitting a stream into lines

  /** Index of the first CR or LF at or after `i`; `|s|` when there is none. */
  function TerminatorFrom(s: Line, i: nat): (k: nat)
    requires i <= |s|
    ensures i <= k <= |s|
    ensures forall j :: i <= j < k ==> !IsTerminator(s[j])
    ensures k < |s| ==> IsTerminator(s[k])
    decreases |s| - i
  {
    if i == |s| then i
    else if IsTerminator(s[i]) then i
    else TerminatorFrom(s, i + 1)
  }

  /** Where the line that starts at `s[0]` ends. Its first byte is data
      whatever it is, so the search for a terminator starts at index 1. */
  function LineEnd(s: Line): nat {
    if s == [] then 0 else TerminatorFrom(s, 1)
  }

  /** The first MAX_LINE bytes of a segment: the rest never reach the buffer. */
  function Truncate(seg: Line): Line {
    if |seg| <= MAX_LINE then seg else seg[..MAX_LINE]
  }

  /** Every line completed on the stream `s`, in order, before any queue
      capacity is taken into account. */
  function Lines(s: Line): seq<Line>
    decreases |s|
  {
    var k := LineEnd(s);
    if k == |s| then [] else [Truncate(s[..k])] + Lines(s[k + 1..])
  }

  /** What is left in the buffer after the stream `s`. */
  function Pending(s: Line): Line
    decreases |s|
  {
    var k := LineEnd(s);
    if k == |s| then Truncate(s) else Pending(s[k + 1..])
  }

  /** Offers each line to the queue in turn. */
  function PutAll(q: seq<Line>, ls: seq<Line>): seq<Line>
    decreases |ls|
  {
    if ls == [] then q else PutAll(Put(q, ls[0]), ls[1..])
  }

  function Take<T>(s: seq<T>, n: nat): seq<T> {
    if |s| <= n then s else s[..n]
  }

  // ---------------------------------------------------------------------
  // Properties

  /** Offering lines to a queue with drop-on-full keeps the queue as it was
      and appends as many of the offered lines, from the front, as fit. */
  lemma {:induction false} PutAllKeepsFirst(q: seq<Line>, ls: seq<Line>)
    requires |q| <= QUEUE_DEPTH
    ensures PutAll(q, ls) == q + Take(ls, QUEUE_DEPTH - |q|)
    decreases |ls|
  {
    if ls != [] {
      if |q| < QUEUE_DEPTH {
        PutAllKeepsFirst(q + [ls[0]], ls[1..]);
        assert ls == [ls[0]] + ls[1..];
      } else {
        PutAllKeepsFirst(q, ls[1..]);
      }
    }
  }

  lemma PutAllHead(q: seq<Line>, l: Line, ls: seq<Line>)
    ensures PutAll(q, [l] + ls) == PutAll(Put(q, l), ls)
  {
    assert ([l] + ls)[1..] == ls;
  }

  /** An open segment without a terminator after it completes no line and
      is what the buffer holds. */
  lemma OpenSegmentIsPending(seg: Line)
    requires OpenSegment(seg)
    ensures Lines(seg) == []
    ensures Pending(seg) == Truncate(seg)
  {
    if seg != [] {
      assert LineEnd(seg) == |seg|;
    }
  }

  /** A CR or LF after a non-empty open segment ends it: the segment, cut
      to MAX_LINE bytes and without the terminator, is the next line, and the
      stream after the terminator is framed afresh. */
  lemma {:induction false} SplitAtTerminator(seg: Line, c: Byte, rest: Line)
    requires OpenSegment(seg) && |seg| > 0 && IsTerminator(c)
    ensures Lines(seg + [c] + rest) == [Truncate(seg)] + Lines(rest)
    ensures Pending(seg + [c] + rest) == Pending(rest)
  {
    var s := seg + [c] + rest;
    assert s[|seg|] == c;
    assert forall j :: 1 <= j < |seg| ==> s[j] == seg[j];
    var k := LineEnd(s);
    assert k == |seg|;
    assert s[..k] == seg;
    assert s[k + 1..] == rest;
  }

  /** A byte that does not end the line extends the open segment, and the
      buffer keeps holding that segment cut to MAX_LINE bytes. */
  lemma ReceiveExtends(seg: Line, c: Byte, q: seq<Line>)
    requires OpenSegment(seg) && !(IsTerminator(c) && |seg| > 0)
    ensures OpenSegment(seg + [c])
    ensures Receive(RxState(Truncate(seg), q), c) == RxState(Truncate(seg + [c]), q)
  {
    var seg' := seg + [c];
    assert forall j :: 1 <= j < |seg| ==> seg'[j] == seg[j];
    if |seg| >= MAX_LINE {
      assert seg'[..MAX_LINE] == seg[..MAX_LINE];
    }
  }

  /** The interrupt's loop agrees with the reference description: from a
      buffer holding the open segment `seg` (as cut by MAX_LINE), the bytes
      left in the buffer are the pending part of `seg + bytes`, and the queue
      is offered every completed line, in order. */
  lemma {:induction false} ReceiveAllFrames(seg: Line, q: seq<Line>, bytes: Line)
    requires OpenSegment(seg)
    ensures ReceiveAll(RxState(Truncate(seg), q), bytes)
         == RxState(Pending(seg + bytes), PutAll(q, Lines(seg + bytes)))
    decreases |bytes|
  {
    if bytes == [] {
      assert seg + bytes == seg;
      OpenSegmentIsPending(seg);
    } else {
      var c, rest := bytes[0], bytes[1..];
      assert seg + bytes == seg + [c] + rest;
      if IsTerminator(c) && |seg| > 0 {
        var s, q' := RxState(Truncate(seg), q), Put(q, Truncate(seg));
        assert Receive(s, c) == RxState([], q');
        assert ReceiveAll(s, bytes) == ReceiveAll(RxState(Truncate([]), q'), rest);
        ReceiveAllFrames([], q', rest);
        assert [] + rest == rest;
        SplitAtTerminator(seg, c, rest);
        PutAllHead(q, Truncate(seg), Lines(rest));
      } else {
        ReceiveExtends(seg, c, q);
        ReceiveAllFrames(seg + [c], q, rest);
        assert seg + [c] + rest == seg + bytes;
      }
    }
  }

  /** Two interrupts one after the other read the same as one interrupt
      that finds both batches of bytes in the FIFO. */
  lemma {:induction false} ReceiveAllAppend(s: RxState, a: Line, b: Line)
    ensures ReceiveAll(s, a + b) == ReceiveAll(ReceiveAll(s, a), b)
    decreases |a|
  {
    if a == [] {
      assert a + b == b;
    } else {
      assert (a + b)[0] == a[0] && (a + b)[1..] == a[1..] + b;
      ReceiveAllAppend(Receive(s, a[0]), a[1..], b);
    }
  }

  /** From start-up, the queue holds the first QUEUE_DEPTH lines of the
      stream (the later ones were dropped by the full queue) and the buffer
      holds the unterminated tail. */
  lemma ReceiveFromPowerUp(bytes: Line)
    ensures ReceiveAll(PowerUp, bytes)
         == RxState(Pending(bytes), Take(Lines(bytes), QUEUE_DEPTH))
  {
    assert Truncate([]) == [];
    ReceiveAllFrames([], [], bytes);
    assert [] + bytes == bytes;
    PutAllKeepsFirst([], Lines(bytes));
  }

  /** A line longer than MAX_LINE bytes is queued as its first MAX_LINE
      bytes once its terminator arrives, if the queue has room. */
  lemma OverlongLineTruncated(seg: Line, c: Byte, q: seq<Line>)
    requires OpenSegment(seg) && |seg| > MAX_LINE && IsTerminator(c)
    requires |q| < QUEUE_DEPTH
    ensures ReceiveAll(RxState([], q), seg + [c]) == RxState([], q + [seg[..MAX_LINE]])
  {
    assert Truncate([]) == [];
    ReceiveAllFrames([], q, seg + [c]);
    assert [] + (seg + [c]) == seg + [c] + [];
    SplitAtTerminator(seg, c, []);
    OpenSegmentIsPending([]);
  }

  /** "abc" CR LF "x" LF gives the lines "abc" and LF "x": the LF that
      follows the CR finds the buffer empty and is stored as data. */
  lemma CrLfStartsNextLine()
    ensures ReceiveAll(PowerUp, [0x61, 0x62, 0x63, CR, LF, 0x78, LF]).queue
         == [[0x61, 0x62, 0x63], [LF, 0x78]]
  {
    var abc: Line := [0x61, 0x62, 0x63];
    var lfx: Line := [LF, 0x78];
    var stream := abc + [CR] + (lfx + [LF] + []);
    assert stream == [0x61, 0x62, 0x63, CR, LF, 0x78, LF];
    SplitAtTerminator(abc, CR, lfx + [LF] + []);
    SplitAtTerminator(lfx, LF, []);
    OpenSegmentIsPending([]);
    ReceiveFromPowerUp(stream);
  }

  /** A lone CR LF gives the one-byte line CR. */
  lemma LoneCrLfIsCrLine()
    ensures ReceiveAll(PowerUp, [CR, LF]).queue == [[CR]]
  {
    SplitAtTerminator([CR], LF, []);
    assert [CR] + [LF] + [] == [CR, LF];
    OpenSegmentIsPending([]);
    ReceiveFromPowerUp([CR, LF]);
  }
}
