/** The echo bot's state and its two units of execution: the UART receive
    interrupt (`Step`, `SerialCallback`) and the main thread's echo loop
    (`EchoOnce`, `DrainQueue`), both working on one `EchoBot` object that
    holds what the program keeps in file-scope statics. */
module UartEcho {
  import opened Framing
  import opened Echo

  class EchoBot {
    /** `rx_buf`: the line being assembled, NUL-terminated when it ends. */
    var rxBuf: array<Byte>
    /** `rx_buf_pos`: the number of payload bytes in `rxBuf`. */
    var rxPos: int
    /** `uart_msgq`: completed lines, oldest first, each as its payload. */
    var msgq: seq<Line>
    /** Every byte written to the UART by `uart_poll_out`, oldest first. */
    var out: Line
    /** The lines the main thread has taken from the queue so far. */
    ghost var taken: seq<Line>

    ghost predicate Valid()
      reads this, rxBuf
    {
      && rxBuf.Length == MSG_SIZE
      && 0 <= rxPos <= MAX_LINE
      && OpenSegment(rxBuf[..rxPos])
      && QueueBounded(msgq)
      && out == EchoAll(taken)
    }

    /** The interrupt side's state as a value. */
    ghost function Rx(): RxState
      reads this, rxBuf
      requires Valid()
    {
      RxState(rxBuf[..rxPos], msgq)
    }

    /** Start-up: the statics are zero and nothing has been printed. */
    constructor ()
      ensures Valid() && fresh(rxBuf)
      ensures Rx() == PowerUp && out == [] && taken == []
    {
      rxBuf := new Byte[MSG_SIZE](_ => NUL);
      rxPos := 0;
      msgq := [];
      out := [];
      taken := [];
    }

    /** One pass of the interrupt's read loop, for the byte `c`. */
    method Step(c: Byte)
      requires Valid()
      modifies this, rxBuf
      ensures Valid() && rxBuf == old(rxBuf)
      ensures Rx() == Receive(old(Rx()), c)
      ensures out == old(out) && taken == old(taken)
      ensures forall i :: 0 <= i < old(rxPos) ==> rxBuf[i] == old(rxBuf[i])
      ensures IsTerminator(c) && old(rxPos) > 0 ==> rxBuf[old(rxPos)] == NUL
    {
      if IsTerminator(c) && rxPos > 0 {
        rxBuf[rxPos] := NUL;
        msgq := Put(msgq, rxBuf[..rxPos]);
        rxPos := 0;
      } else if rxPos < MSG_SIZE - 1 {
        rxBuf[rxPos] := c;
        rxPos := rxPos + 1;
      }
    }

    /** The receive interrupt: reads every byte waiting in the FIFO. */
    method SerialCallback(fifo: Line)
      requires Valid()
      modifies this, rxBuf
      ensures Valid() && rxBuf == old(rxBuf)
      ensures Rx() == ReceiveAll(old(Rx()), fifo)
      ensures out == old(out) && taken == old(taken)
    {
      var i := 0;
      while i < |fifo|
        invariant 0 <= i <= |fifo|
        invariant Valid() && rxBuf == old(rxBuf)
        invariant ReceiveAll(Rx(), fifo[i..]) == ReceiveAll(old(Rx()), fifo)
        invariant out == old(out) && taken == old(taken)
      {
        assert fifo[i..][1..] == fifo[i + 1..];
        Step(fifo[i]);
        i := i + 1;
      }
    }

    /** `print_uart`: writes the C string held in `buf`, byte by byte. */
    method PrintUart(buf: Line)
      requires NUL in buf
      modifies this`out
      ensures out == old(out) + CStr(buf)
    {
      var n := Strlen(buf);
      CStrUnique(buf, n);
      var i := 0;
      while i < n
        invariant 0 <= i <= n
        invariant out == old(out) + buf[..i]
      {
        assert buf[..i + 1] == buf[..i] + [buf[i]];
        out := out + [buf[i]];
        i := i + 1;
      }
    }

    /** The printing half of the main loop's body: the echo prefix, the
        message held in `txBuf` and the prompt. */
    method PrintEcho(txBuf: array<Byte>)
      requires NUL in txBuf[..]
      modifies this`out
      ensures out == old(out) + ECHO_PREFIX + CStr(txBuf[..]) + PROMPT
    {
      CStrOfTerminated(ECHO_PREFIX);
      CStrOfTerminated(PROMPT);
      PrintUart(ECHO_PREFIX + [NUL]);
      assert out == old(out) + ECHO_PREFIX;
      PrintUart(txBuf[..]);
      PrintUart(PROMPT + [NUL]);
    }

    /** The copy `k_msgq_get` makes of a queued line into `tx_buf`: the
        payload, its NUL, and bytes that are never printed. */
    static method CopyMessage(line: Line) returns (txBuf: array<Byte>)
      requires |line| <= MAX_LINE
      ensures fresh(txBuf) && txBuf.Length == MSG_SIZE
      ensures txBuf[..|line|] == line && txBuf[|line|] == NUL
    {
      txBuf := new Byte[MSG_SIZE](i => if 0 <= i < |line| then line[i] else NUL);
      assert txBuf[..|line|] == line;
    }

    /** The main loop's body once `k_msgq_get` has returned `line`. */
    method EchoLine(line: Line)
      requires |line| <= MAX_LINE
      modifies this`out
      ensures out == old(out) + EchoText(line)
    {
      var txBuf := CopyMessage(line);
      CStrOfCopy(txBuf[..], line);
      PrintEcho(txBuf);
    }

    /** One pass of the main loop: `k_msgq_get` copies the oldest line with
        its NUL into `tx_buf`, which is then echoed. With the queue empty the
        thread would wait in `k_msgq_get`; here nothing happens and `got` is
        false. */
    method EchoOnce() returns (got: bool)
      requires Valid()
      modifies this
      ensures Valid() && rxBuf == old(rxBuf) && rxPos == old(rxPos)
      ensures got <==> old(msgq) != []
      ensures got ==> && msgq == old(msgq)[1..]
                      && taken == old(taken) + [old(msgq)[0]]
                      && out == old(out) + EchoText(old(msgq)[0])
      ensures !got ==> msgq == old(msgq) && out == old(out) && taken == old(taken)
    {
      if msgq == [] {
        return false;
      }
      got := true;
      var line := msgq[0];
      msgq := msgq[1..];
      EchoLine(line);
      assert EchoAll([line]) == EchoText(line) + EchoAll([]);
      EchoAllAppend(taken, [line]);
      taken := taken + [line];
    }

    /** The main loop, run until the queue is empty and `k_msgq_get` would
        wait: every queued line is echoed, oldest first. */
    method DrainQueue()
      requires Valid()
      modifies this
      ensures Valid() && rxBuf == old(rxBuf) && rxPos == old(rxPos)
      ensures msgq == [] && taken == old(taken) + old(msgq)
      ensures out == old(out) + EchoAll(old(msgq))
    {
      ghost var echoed: seq<Line> := [];
      while msgq != []
        invariant Valid() && rxBuf == old(rxBuf) && rxPos == old(rxPos)
        invariant echoed + msgq == old(msgq) && taken == old(taken) + echoed
        decreases |msgq|
      {
        ghost var line := msgq[0];
        var _ := EchoOnce();
        echoed := echoed + [line];
      }
      assert echoed == old(msgq);
      EchoAllAppend(old(taken), echoed);
    }
  }

  /** A burst of bytes received at start-up, before the main thread runs,
      then echoed: the output is the echo of the first QUEUE_DEPTH lines
      the burst completes, in the order they were completed. */
  method EchoSession(bytes: Line) returns (echoed: Line)
    ensures echoed == EchoAll(Take(Lines(bytes), QUEUE_DEPTH))
  {
    var bot := new EchoBot();
    bot.SerialCallback(bytes);
    ReceiveFromPowerUp(bytes);
    bot.DrainQueue();
    echoed := bot.out;
  }

  /** Two interrupts with no echo between them: the queue holds the first
      QUEUE_DEPTH lines of both batches read as one stream. */
  method TwoInterrupts(a: Line, b: Line) returns (queued: seq<Line>)
    ensures queued == Take(Lines(a + b), QUEUE_DEPTH)
  {
    var bot := new EchoBot();
    bot.SerialCallback(a);
    bot.SerialCallback(b);
    ReceiveAllAppend(PowerUp, a, b);
    ReceiveFromPowerUp(a + b);
    queued := bot.msgq;
  }

  /** An interrupt, the main loop emptying the queue, then another
      interrupt: the line left unfinished by the first interrupt survives
      the echo and is completed by the second. */
  method ReceiveEchoReceive(a: Line, b: Line) returns (echoed: Line, queued: seq<Line>)
    ensures echoed == EchoAll(Take(Lines(a), QUEUE_DEPTH))
    ensures queued == Take(Lines(Pending(a) + b), QUEUE_DEPTH)
  {
    var bot := new EchoBot();
    bot.SerialCallback(a);
    ReceiveFromPowerUp(a);
    bot.DrainQueue();
    ghost var held := bot.rxBuf[..bot.rxPos];
    assert held == Pending(a) && Truncate(held) == held;
    bot.SerialCallback(b);
    ReceiveAllFrames(held, [], b);
    PutAllKeepsFirst([], Lines(held + b));
    echoed, queued := bot.out, bot.msgq;
  }
}
