# UART echo bot: receive-side line assembler, message queue and echo

The program is a Zephyr echo bot for a FRDM-KL25Z board (`src/main.c`).
Its UART receive interrupt (`serial_cb`) reads bytes from the hardware
FIFO. It assembles them into lines in a static 32-byte buffer `rx_buf`,
with a cursor `rx_buf_pos`. For each byte it does one of three things:

- it ends the line on CR or LF when the buffer is not empty, then
  NUL-terminates the line, puts a copy into the 10-slot message queue
  `uart_msgq` without waiting, and resets the cursor;
- it appends the byte while fewer than 31 payload bytes are held;
- it drops the byte.

The main thread takes lines from the queue in order. It prints each one
with `print_uart`, as `"\r\nEcho: "` + line + `"\r\n> "`.

This project models that core in Dafny:

- `framing.dfy`, module `Framing`: the assembler as values. `Receive` is
  one byte and `ReceiveAll` is the read loop; the queue's drop-on-full
  put is `Put`. `Lines` and `Pending` split a byte stream at its
  terminators, a second description written independently of the loop.
  `ReceiveAllFrames` proves that the two descriptions agree.
- `echo.dfy`, module `Echo`: the C-string semantics of `print_uart`
  (`CStr`, `Strlen`) and the echo text (`EchoText`, `EchoAll`).
- `uart_echo.dfy`, module `UartEcho`: class `EchoBot`. It holds the
  program's statics: `rxBuf` (an `array` of 32 bytes), `rxPos`, the queue
  `msgq`, and the bytes written to the UART (`out`). Its methods mirror
  the interrupt's loop and the main loop. They are proved against the
  functions above, and their object invariant says that the output is
  exactly the echoes of the lines taken from the queue, in order.

Three consequences of `serial_cb` as written:

- A CR or LF arriving with an empty buffer is stored as data. So
  `"abc\r\nx\n"` gives the lines `"abc"` and `"\nx"`, and a lone `"\r\n"`
  gives the line `"\r"`.
- An overlong line is kept as its first 31 bytes and queued when its
  terminator arrives.
- The queue holds 10 lines, and a line completed while it is full is lost.

## Model

| member | source | states |
|---|---|---|
| `Framing.Receive` | src/main.c:43-55 | one byte keeps the cursor at most 31 and the queue at most 10 lines of at most 31 bytes; the held line keeps CR/LF out of every position but the first; queued lines are never changed or reordered and at most one is added |
| `Framing.ReceiveAll` | src/main.c:42-56 | over any FIFO contents, the bounds on cursor and queue and the shape of the held line hold after every byte, and the lines already queued stay in place as a prefix |
| `Framing.Put` | src/main.c:48 | the non-blocking put never changes or reorders the lines already queued and never makes the queue longer than 10; with room it adds the line at the tail, and on a full queue the line is lost and the queue is unchanged |
| `Framing.ReceiveAllAppend` | src/main.c:42-56 | two interrupts that read the byte batches `a` and then `b` leave the same state as one interrupt reading `a + b`, since `rx_buf` and `rx_buf_pos` persist between interrupts |
| `Framing.PutAllKeepsFirst` | src/main.c:17-48 | offering lines one by one to a queue of depth 10 with a non-blocking put keeps the existing entries and appends exactly the first lines that fit, in order; the rest are lost |
| `Framing.OpenSegmentIsPending` | src/main.c:52-53 | bytes after which no CR/LF has arrived (except possibly as the first byte) complete no line and stay in the buffer, cut to 31 bytes |
| `Framing.SplitAtTerminator` | src/main.c:43-51 | a CR or LF after a non-empty line completes that line, without the terminator and cut to 31 bytes, and what follows is framed from an empty buffer |
| `Framing.ReceiveExtends` | src/main.c:52-55 | a byte that does not end the line is appended while fewer than 31 bytes are held and dropped after that; a CR/LF into an empty buffer is such a byte |
| `Framing.ReceiveAllFrames` | src/main.c:42-56 | the read loop agrees with the terminator-splitting description from any reachable buffer: the buffer ends up holding the pending tail and the queue is offered every completed line in stream order |
| `Framing.ReceiveFromPowerUp` | src/main.c:17-56 | from start-up, after any byte stream the queue holds the first 10 completed lines in order and the buffer holds the unterminated tail |
| `Framing.OverlongLineTruncated` | src/main.c:43-55 | a line longer than 31 bytes is queued as its first 31 bytes once a terminator arrives, with the cursor back at 0 |
| `Framing.CrLfStartsNextLine` | src/main.c:43-53 | `"abc\r\n"` then `"x\n"` queues `"abc"` then `"\nx"`: the LF after the CR finds the buffer empty and is stored as data |
| `Framing.LoneCrLfIsCrLine` | src/main.c:43-53 | a lone `"\r\n"` queues the one-byte line `"\r"` |
| `Echo.CStr` | src/main.c:62-68 | the string `print_uart` writes is a prefix of the buffer, holds no NUL, and stops at the first NUL (or at the end) |
| `Echo.CStrUnique` | src/main.c:64 | any prefix that holds no NUL and stops at a NUL or at the end is that string |
| `Echo.Strlen` | src/main.c:64 | the length found is the index of the first NUL, with no NUL before it |
| `Echo.CStrStopsAtNul` | src/main.c:110-112 | bytes after the NUL of the copied message are never printed |
| `Echo.EchoStopsAtNul` | src/main.c:53-68 | a received 0x00 byte, stored like any other, cuts the echoed text short at that byte |
| `Echo.EchoWholeLine` | src/main.c:109-114 | a line without NUL is echoed whole between `"\r\nEcho: "` and `"\r\n> "` |
| `Echo.EchoText` | src/main.c:111-113 | the echo of a line starts with `"\r\nEcho: "`, ends with `"\r\n> "`, and never contains a NUL; `EchoWholeLine` and `EchoStopsAtNul` say what lies between |
| `Echo.EchoAll` | src/main.c:109-114 | the echoes of several lines never contain a NUL and take at least the prefix and prompt for each line |
| `Echo.CStrOfCopy` | src/main.c:110-112 | a buffer holding the line and then its NUL prints as the line's C string, whatever follows the NUL |
| `Echo.EchoAllAppend` | src/main.c:109-114 | echoing one batch of lines after another prints the two batches' echoes one after the other |
| `UartEcho.EchoBot.constructor` | src/main.c:17-23 | at start-up the cursor is 0, the queue is empty and nothing has been printed |
| `UartEcho.EchoBot.Step` | src/main.c:43-55 | one byte changes the buffer, cursor and queue exactly as `Receive` says; earlier buffer bytes are untouched, a completed line is NUL-terminated in place, the output is untouched, and the cursor stays within 0..31 with no CR/LF held after the first byte |
| `UartEcho.EchoBot.SerialCallback` | src/main.c:42-56 | reading the whole FIFO leaves the buffer and queue as `ReceiveAll` says, keeps the bounds, and prints nothing |
| `UartEcho.EchoBot.PrintUart` | src/main.c:62-68 | appends to the output exactly the bytes before the first NUL, in order |
| `UartEcho.EchoBot.CopyMessage` | src/main.c:110 | the copy into the 32-byte `tx_buf` holds the line followed by its NUL |
| `UartEcho.EchoBot.PrintEcho` | src/main.c:111-113 | prints `"\r\nEcho: "`, the C string held in `tx_buf`, then `"\r\n> "` |
| `UartEcho.EchoBot.EchoLine` | src/main.c:110-114 | the output grows by exactly the echo text of the line taken from the queue |
| `UartEcho.EchoBot.EchoOnce` | src/main.c:109-114 | takes the oldest queued line (FIFO) and prints its echo; `rx_buf`, its contents and `rx_buf_pos` are left as they were; with the queue empty nothing changes |
| `UartEcho.EchoBot.DrainQueue` | src/main.c:109-115 | running the main loop until the queue is empty prints the echoes of all queued lines, oldest first, and leaves `rx_buf`, its contents and `rx_buf_pos` as they were |
| `UartEcho.EchoSession` | src/main.c:42-114 | for a burst of bytes received at start-up and then echoed, the output is the echoes of the first 10 lines the burst completes, in order |
| `UartEcho.TwoInterrupts` | src/main.c:22-56 | after two interrupts from start-up with no echo between them, the queue holds the first 10 lines of both byte batches read as one stream |
| `UartEcho.ReceiveEchoReceive` | src/main.c:22-114 | after an interrupt, a full drain of the queue and a second interrupt, the output is the echoes of the first batch's lines, and the line left unfinished by the first interrupt is completed by the second |

## Left out

- Device readiness and callback registration with their error messages (src/main.c:78-96): driver plumbing with no logic.
- The `uart_irq_update` and `uart_irq_rx_ready` guards (src/main.c:33-39) and `uart_irq_rx_enable` (src/main.c:99): hardware calls. The FIFO's contents are the parameter of `SerialCallback`.
- `uart_fifo_read` and `uart_poll_out` are hardware primitives. The model reads bytes from the `fifo` sequence and appends written bytes to `out`.
- Concurrency between the interrupt and the main thread: the model runs them as a sequence of whole calls on one object. Any interleaving of whole `SerialCallback` and `EchoOnce` calls keeps the object invariant.
- The blocking `k_msgq_get(..., K_FOREVER)`: `EchoOnce` on an empty queue does nothing and returns false, where the thread would wait.
- The endless `while (1)` of `main`: `DrainQueue` runs it until the queue is empty, the point where the thread would wait.
- The `printk` banner and the welcome text (src/main.c:75, 102-106): fixed output with no logic.
- The stale bytes after the NUL in a queued 32-byte message: `print_uart` never reads them, so a queued line is its payload only. `CopyMessage` fills `tx_buf` past the NUL with zeros.
- The queue's 4-byte alignment argument (src/main.c:17): memory layout.
- `k_msgq_put`'s return value is ignored by the source, so the model has none.
