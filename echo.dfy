/** What the main thread prints for a queued line: `print_uart` writes a
    NUL-terminated string, and each echo is framed by a fixed prefix and the
    prompt. */
module Echo {
  import opened Framing

  /** "\r\nEcho: " */
  const ECHO_PREFIX: Line := [0x0D, 0x0A, 0x45, 0x63, 0x68, 0x6F, 0x3A, 0x20]
  /** "\r\n> " */
  const PROMPT: Line := [0x0D, 0x0A, 0x3E, 0x20]

  /** The C string held in `buf`: every byte before the first NUL, or the
      whole of `buf` when it holds no NUL. */
  function CStr(buf: Line): (r: Line)
    ensures r <= buf
    ensures NUL !in r
    ensures |r| < |buf| ==> buf[|r|] == NUL
    decreases |buf|
  {
    if buf == [] || buf[0] == NUL then [] else [buf[0]] + CStr(buf[1..])
  }

  /** The bytes printed for one line taken from the queue. */
  function EchoText(line: Line): (r: Line)
    ensures ECHO_PREFIX <= r && |r| >= |ECHO_PREFIX| + |PROMPT|
    ensures r[|r| - |PROMPT|..] == PROMPT
    ensures NUL !in r
  {
    ECHO_PREFIX + CStr(line) + PROMPT
  }

  /** The bytes printed for several lines taken from the queue in order. */
  function EchoAll(lines: seq<Line>): (r: Line)
    ensures NUL !in r
    ensures |r| >= |lines| * (|ECHO_PREFIX| + |PROMPT|)
    decreases |lines|
  {
    if lines == [] then [] else EchoText(lines[0]) + EchoAll(lines[1..])
  }

  /** The three properties of CStr pin it down: a prefix without NUL that
      stops at a NUL or at the end is the C string. */
  lemma CStrUnique(buf: Line, n: nat)
    requires n <= |buf| && NUL !in buf[..n] && (n < |buf| ==> buf[n] == NUL)
    ensures CStr(buf) == buf[..n]
  {
    var r := CStr(buf);
    assert forall j :: 0 <= j < n ==> buf[..n][j] == buf[j];
    assert forall j :: 0 <= j < |r| ==> r[j] == buf[j];
  }

  /** What follows a NUL is never printed. */
  lemma CStrStopsAtNul(line: Line, rest: Line)
    ensures CStr(line + [NUL] + rest) == CStr(line)
  {
    var buf := line + [NUL] + rest;
    var n := |CStr(line)|;
    assert buf[..n] == CStr(line);
    CStrUnique(buf, n);
  }

  /** A buffer holding `line` and then a NUL holds the C string of `line`,
      whatever follows the NUL. */
  lemma CStrOfCopy(buf: Line, line: Line)
    requires |line| < |buf| && buf[..|line|] == line && buf[|line|] == NUL
    ensures NUL in buf && CStr(buf) == CStr(line)
  {
    assert buf == line + [NUL] + buf[|line| + 1..];
    CStrStopsAtNul(line, buf[|line| + 1..]);
  }

  /** A received NUL byte cuts the echoed text short at that byte. */
  lemma EchoStopsAtNul(line: Line, k: nat)
    requires k < |line| && line[k] == NUL && NUL !in line[..k]
    ensures EchoText(line) == ECHO_PREFIX + line[..k] + PROMPT
  {
    CStrUnique(line, k);
  }

  /** A string without NUL, NUL-terminated, is printed whole. */
  lemma CStrOfTerminated(s: Line)
    requires NUL !in s
    ensures CStr(s + [NUL]) == s
  {
    assert (s + [NUL])[..|s|] == s;
    CStrUnique(s + [NUL], |s|);
  }

  /** A line without NUL is echoed whole. */
  lemma EchoWholeLine(line: Line)
    requires NUL !in line
    ensures EchoText(line) == ECHO_PREFIX + line + PROMPT
  {
    assert line[..|line|] == line;
    CStrUnique(line, |line|);
  }

  /** Echoing lines one batch after another prints the echoes one after
      another. */
  lemma {:induction false} EchoAllAppend(a: seq<Line>, b: seq<Line>)
    ensures EchoAll(a + b) == EchoAll(a) + EchoAll(b)
    decreases |a|
  {
    if a != [] {
      assert (a + b)[1..] == a[1..] + b;
      EchoAllAppend(a[1..], b);
    } else {
      assert a + b == b;
    }
  }

  /** `strlen`: the index of the first NUL. */
  method Strlen(s: Line) returns (n: nat)
    requires NUL in s
    ensures n < |s| && s[n] == NUL
    ensures NUL !in s[..n]
  {
    n := 0;
    while s[n] != NUL
      invariant n < |s| && NUL !in s[..n] && NUL in s[n..]
      decreases |s| - n
    {
      assert s[..n + 1] == s[..n] + [s[n]];
      n := n + 1;
    }
  }
}
