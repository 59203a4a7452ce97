/** How devd reads requests (`guest/devd/devd.c`): a receive buffer that keeps the start of a line
    between reads, and the two `sscanf` formats that take a line apart. Nothing but the end of
    the port empties the buffer, so what one connection leaves in it begins the next one's
    first line. */
module DevdInput {
  import opened Bytes
  import opened Optional
  import opened Text

  const RX_MAX: nat := 4096
  /** A buffer with this many bytes and no line in it is discarded. */
  const FULL: nat := RX_MAX - 1
  const NL: Byte := 0x0a
  const NUL: Byte := 0
  const SP: Byte := 0x20

  // ---- The reference form: one byte at a time ----

  /** The start of a line held back, and the lines dispatched. */
  datatype Input = Input(rx: Bytes, lines: seq<Bytes>)

  /** A newline behind a NUL is not seen: the buffer is searched as a C string. */
  function Step(c: Input, b: Byte): Input {
    if b == NL && Lacks(c.rx, NUL) then Input([], c.lines + [c.rx])
    else if |c.rx| + 1 >= FULL then Input([], c.lines)
    else Input(c.rx + [b], c.lines)
  }

  function Feed(c: Input, data: Bytes): Input {
    if data == [] then c else Step(Feed(c, data[..|data| - 1]), data[|data| - 1])
  }

  /** No newline in `s` can be seen. */
  predicate NoLine(s: Bytes) { forall i :: 0 <= i < |s| && s[i] == NL ==> !Lacks(s[..i], NUL) }

  /** What the buffer holds between two reads. */
  predicate Held(rx: Bytes) { |rx| < FULL && NoLine(rx) }

  lemma FeedNothing(c: Input)
    ensures Feed(c, []) == c
  {
  }

  lemma FeedSnoc(c: Input, data: Bytes, b: Byte)
    ensures Feed(c, data + [b]) == Step(Feed(c, data), b)
  {
    assert (data + [b])[..|data|] == data;
  }

  lemma {:induction false} FeedConcat(c: Input, a: Bytes, b: Bytes)
    ensures Feed(c, a + b) == Feed(Feed(c, a), b)
  {
    hide Feed, Step;
    if b == [] {
      assert a + b == a;
      FeedNothing(Feed(c, a));
    } else {
      var front, last := b[..|b| - 1], b[|b| - 1];
      FeedConcat(c, a, front);
      assert a + b == a + front + [last] && b == front + [last];
      FeedSnoc(c, a + front, last);
      FeedSnoc(Feed(c, a), front, last);
    }
  }

  lemma {:induction false} FeedHeld(lines: seq<Bytes>, s: Bytes)
    requires Held(s)
    ensures Feed(Input([], lines), s) == Input(s, lines)
  {
    hide Feed;
    if s == [] {
      FeedNothing(Input([], lines));
    } else {
      var front, last := s[..|s| - 1], s[|s| - 1];
      assert forall i :: 0 <= i < |front| ==> front[..i] == s[..i];
      FeedHeld(lines, front);
      assert front + [last] == s;
      FeedSnoc(Input([], lines), front, last);
    }
  }

  /** A full buffer without a line is discarded. */
  lemma FeedFull(lines: seq<Bytes>, s: Bytes)
    requires NoLine(s) && |s| == FULL
    ensures Feed(Input([], lines), s) == Input([], lines)
  {
    hide Feed;
    var front, last := s[..|s| - 1], s[|s| - 1];
    assert forall i :: 0 <= i < |front| ==> front[..i] == s[..i];
    FeedHeld(lines, front);
    assert front + [last] == s;
    FeedSnoc(Input([], lines), front, last);
  }

  /** One line. */
  lemma FeedLine(lines: seq<Bytes>, line: Bytes)
    requires Lacks(line, NUL) && Lacks(line, NL) && |line| < FULL
    ensures Feed(Input([], lines), line + [NL]) == Input([], lines + [line])
  {
    hide Feed;
    FeedHeld(lines, line);
    FeedSnoc(Input([], lines), line, NL);
  }

  /** No newline before the first NUL, or at all. */
  lemma NothingBehindNul(s: Bytes, stop: nat)
    requires stop <= |s| && Lacks(s[..stop], NL) && (stop < |s| ==> s[stop] == NUL)
    ensures NoLine(s)
  {
    assert forall j :: 0 <= j < stop ==> s[j] == s[..stop][j];
    forall k | 0 <= k < |s| && s[k] == NL ensures !Lacks(s[..k], NUL) {
      assert s[..k][stop] == s[stop];
    }
  }

  // ---- The buffer ----

  class Port {
    const buf: array<Byte>
    var n: nat

    ghost predicate Valid()
      reads this, buf
    {
      buf.Length == RX_MAX && n < FULL && Held(buf[..n])
    }

    constructor ()
      ensures Valid() && fresh(buf) && n == 0
    {
      buf := new Byte[RX_MAX](_ => 0);
      n := 0;
    }

    /** `strchr(buf + start, '\n')`, in a buffer that ends in a NUL at `n`. */
    method FindNewline(start: nat) returns (nl: Option<nat>)
      requires buf.Length == RX_MAX && start <= n <= FULL && buf[n] == NUL
      ensures nl.Some? ==> start <= nl.value < n && buf[nl.value] == NL
      ensures nl.Some? ==> Lacks(buf[start..nl.value], NUL) && Lacks(buf[start..nl.value], NL)
      ensures nl.None? ==> NoLine(buf[start..n])
    {
      var i := start;
      while buf[i] != NUL
        invariant start <= i <= n && Lacks(buf[start..i], NUL) && Lacks(buf[start..i], NL)
        decreases n - i
      {
        if buf[i] == NL {
          return Some(i);
        }
        i := i + 1;
      }
      assert buf[start..n][..i - start] == buf[start..i];
      NothingBehindNul(buf[start..n], i - start);
      return None;
    }

    /** What follows a `read` that gave `data`: the lines dispatched, and what the buffer keeps. */
    method Receive(data: Bytes) returns (lines: seq<Bytes>)
      requires Valid() && |data| <= RX_MAX - n - 1
      modifies this, buf
      ensures Valid()
      ensures Feed(Input(old(buf[..n]), []), data) == Input(buf[..n], lines)
    {
      hide Feed, NoLine;
      ghost var rx := buf[..n];
      Store(data);
      ghost var all := buf[..n];
      FeedHeld([], rx);
      FeedConcat(Input([], []), rx, data);
      lines := [];
      var start := 0;
      assert all[..0] == [];
      FeedNothing(Input([], []));
      var nl := FindNewline(start);
      while nl.Some?
        invariant start <= n == |all| <= FULL && all == buf[..n] && buf[n] == NUL
        invariant nl.Some? ==> start <= nl.value < n && buf[nl.value] == NL
        invariant nl.Some? ==> Lacks(buf[start..nl.value], NUL) && Lacks(buf[start..nl.value], NL)
        invariant nl.None? ==> NoLine(buf[start..n])
        invariant Feed(Input([], []), all[..start]) == Input([], lines)
        decreases n - start, nl.Some?
      {
        ghost var line := all[start..nl.value];
        assert line == buf[start..nl.value];
        assert all[..nl.value + 1] == all[..start] + (line + [NL]);
        FeedConcat(Input([], []), all[..start], line + [NL]);
        FeedLine(lines, line);
        lines := lines + [buf[start..nl.value]];
        start := nl.value + 1;
        nl := FindNewline(start);
      }
      ghost var rest := all[start..];
      assert all == all[..start] + rest && rest == buf[start..n];
      FeedConcat(Input([], []), all[..start], rest);
      MoveToFront(start);
      if n >= FULL {
        FeedFull(lines, rest);
        n := 0;
        NothingHeld();
      } else {
        FeedHeld(lines, rest);
      }
    }

    /** The bytes of a `read`, after what is held, and a NUL. */
    method Store(data: Bytes)
      requires Valid() && |data| <= RX_MAX - n - 1
      modifies this, buf
      ensures n == old(n) + |data| <= FULL && buf[..n] == old(buf[..n]) + data && buf[n] == NUL
    {
      ghost var rx := buf[..n];
      var at := n;
      for k := 0 to |data|
        invariant n == at && buf[..at] == rx && buf[at..at + k] == data[..k]
      {
        buf[at + k] := data[k];
      }
      n := at + |data|;
      buf[n] := NUL;
      assert buf[..n] == rx + data;
    }

    /** `memmove(buf, buf + start, n - start)`. */
    method MoveToFront(start: nat)
      requires buf.Length == RX_MAX && start <= n <= FULL
      modifies this, buf
      ensures n == old(n) - start && buf[..n] == old(buf[start..n])
    {
      var rest := n - start;
      for k := 0 to rest
        invariant n == old(n)
        invariant forall m :: 0 <= m < k ==> buf[m] == old(buf[start + m])
        invariant forall m :: k <= m < buf.Length ==> buf[m] == old(buf[m])
      {
        buf[k] := buf[start + k];
      }
      n := rest;
    }
  }

  lemma NothingHeld()
    ensures Held([])
  {
  }

  /** A stream received in reads of any sizes: the lines dispatched depend on its bytes alone. */
  method ReceiveAll(port: Port, stream: Bytes, sizes: seq<nat>) returns (lines: seq<Bytes>, taken: nat)
    requires port.Valid() && port.n == 0
    modifies port, port.buf
    ensures port.Valid() && taken <= |stream|
    ensures Feed(Input([], []), stream[..taken]) == Input(port.buf[..port.n], lines)
    ensures |sizes| >= |stream| ==> taken == |stream|
  {
    hide Feed, Held;
    lines, taken := [], 0;
    FeedNothing(Input([], []));
    assert stream[..0] == [] && port.buf[..port.n] == [];
    for i := 0 to |sizes|
      invariant port.Valid() && taken <= |stream|
      invariant Feed(Input([], []), stream[..taken]) == Input(port.buf[..port.n], lines)
      invariant taken >= i || taken == |stream|
    {
      // A read gives at least one byte while there is some, and at most what there is room for.
      var k := Min(Min(Max(sizes[i], 1), RX_MAX - port.n - 1), |stream| - taken);
      ghost var seen, rx, data := stream[..taken], port.buf[..port.n], stream[taken..taken + k];
      var more := port.Receive(stream[taken..taken + k]);
      assert seen + data == stream[..taken + k];
      FeedConcat(Input([], []), seen, data);
      FeedAfter(rx, lines, data);
      lines := lines + more;
      taken := taken + k;
    }
  }

  /** Lines dispatched earlier do not change what is dispatched next. */
  lemma {:induction false} FeedAfter(rx: Bytes, lines: seq<Bytes>, data: Bytes)
    ensures var r := Feed(Input(rx, []), data); Feed(Input(rx, lines), data) == Input(r.rx, lines + r.lines)
  {
    hide Feed;
    if data == [] {
      FeedNothing(Input(rx, []));
      FeedNothing(Input(rx, lines));
      assert lines + [] == lines;
    } else {
      var front, last := data[..|data| - 1], data[|data| - 1];
      FeedAfter(rx, lines, front);
      assert data == front + [last];
      FeedSnoc(Input(rx, []), front, last);
      FeedSnoc(Input(rx, lines), front, last);
      var r := Feed(Input(rx, []), front);
      assert lines + r.lines + [r.rx] == lines + (r.lines + [r.rx]);
    }
  }

  // ---- Requests ----

  datatype Request = RunJob(id: nat, cmd: Bytes) | Kill(id: nat) | Ping

  const EXEC: Bytes := [0x65, 0x78, 0x65, 0x63]
  const KILL: Bytes := [0x6b, 0x69, 0x6c, 0x6c]
  const PING: Bytes := [0x70, 0x69, 0x6e, 0x67]
  const U32_LIMIT: nat := 0x1_0000_0000
  const U64_LIMIT: nat := 0x1_0000_0000_0000_0000

  /** A request as the host writes it, without its newline. */
  function Render(r: Request): Bytes {
    match r
    case RunJob(id, cmd) => EXEC + [SP] + (Dec(id) + [SP] + cmd)
    case Kill(id) => KILL + [SP] + Dec(id)
    case Ping => PING
  }

  /** The requests, as text. */
  lemma RequestText(id: nat, cmd: Bytes)
    ensures Render(RunJob(id, cmd)) == Ascii("exec ") + Dec(id) + Ascii(" ") + cmd
    ensures Render(Kill(id)) == Ascii("kill ") + Dec(id) && Render(Ping) == Ascii("ping")
  {
    hide Dec;
    assert EXEC + [SP] == Ascii("exec ") && KILL + [SP] == Ascii("kill ") && [SP] == Ascii(" ");
  }

  /** What `DevClient` can send: a job number, one line, no longer than devd reads. A NUL is not
      refused by the client, but devd does not see past it. */
  predicate Deliverable(r: Request) {
    && (r.RunJob? ==> r.id < U32_LIMIT && Lacks(r.cmd, NL) && Lacks(r.cmd, NUL))
    && (r.Kill? ==> r.id < U32_LIMIT)
    && |Render(r)| < FULL
  }

  /** `isspace` */
  predicate IsBlank(b: Byte) { 9 <= b <= 13 || b == SP }

  function Blanks(s: Bytes): (n: nat)
    ensures n <= |s| && (forall i :: 0 <= i < n ==> IsBlank(s[i])) && (n < |s| ==> !IsBlank(s[n]))
  {
    if s == [] || !IsBlank(s[0]) then 0 else 1 + Blanks(s[1..])
  }

  function DigitRun(s: Bytes): (n: nat)
    ensures n <= |s| && (forall i :: 0 <= i < n ==> IsDigit(s[i])) && (n < |s| ==> !IsDigit(s[n]))
  {
    if s == [] || !IsDigit(s[0]) then 0 else 1 + DigitRun(s[1..])
  }

  /** `strtoul` into an `unsigned int`. */
  function AsUnsigned(negative: bool, magnitude: nat): nat {
    if magnitude >= U64_LIMIT then U32_LIMIT - 1
    else if negative then (U64_LIMIT - magnitude) % U32_LIMIT
    else magnitude % U32_LIMIT
  }

  datatype Number = Number(value: nat, used: nat)

  lemma {:induction false} DigitsHaveAValue(s: Bytes)
    requires forall i :: 0 <= i < |s| ==> IsDigit(s[i])
    ensures Digits(s).Some?
  {
    if s != [] {
      DigitsHaveAValue(s[..|s| - 1]);
    }
  }

  /** `%u`: white space, a sign, digits. */
  function ParseNumber(s: Bytes): (n: Option<Number>)
    ensures n.Some? ==> n.value.used <= |s|
  {
    var a := Blanks(s);
    var sign := if a < |s| && (s[a] == 0x2b || s[a] == 0x2d) then 1 else 0;
    var d := DigitRun(s[a + sign..]);
    if d == 0 then None
    else
      var digits := s[a + sign..a + sign + d];
      assert digits == s[a + sign..][..d];
      DigitsHaveAValue(digits);
      Some(Number(AsUnsigned(sign == 1 && s[a] == 0x2d, Digits(digits).value), a + sign + d))
  }

  /** `dispatch`: what devd takes a line for. */
  function ParseRequest(line: Bytes): Option<Request> {
    if line == PING then Some(Ping)
    else if EXEC <= line && ParseNumber(line[4..]).Some? then
      var number := ParseNumber(line[4..]).value;
      var rest := line[4 + number.used..];
      Some(RunJob(number.value, rest[Blanks(rest)..]))
    else if KILL <= line && ParseNumber(line[4..]).Some? then Some(Kill(ParseNumber(line[4..]).value.value))
    else None
  }

  /** A command as devd runs it: the format skips white space before it. */
  function Stripped(cmd: Bytes): Bytes { cmd[Blanks(cmd)..] }

  function Taken(r: Request): Request { if r.RunJob? then RunJob(r.id, Stripped(r.cmd)) else r }

  /** The number a line that may not be complete would start a job under. */
  function Stub(y: Bytes): Option<nat> {
    var r := ParseRequest(y);
    if r.Some? && r.value.RunJob? then Some(r.value.id) else None
  }

  lemma BlanksBefore(s: Bytes, t: Bytes)
    requires t == [] || !IsBlank(t[0])
    ensures Blanks(s + t) == Blanks(s)
  {
    hide Blanks;
    var n := Blanks(s);
    assert forall i :: 0 <= i < |s| ==> (s + t)[i] == s[i];
    assert n == |s| && t != [] ==> (s + t)[n] == t[0];
  }

  lemma DigitRunBefore(s: Bytes, t: Bytes)
    requires t == [] || !IsDigit(t[0])
    ensures DigitRun(s + t) == DigitRun(s)
  {
    hide DigitRun;
    var n := DigitRun(s);
    assert forall i :: 0 <= i < |s| ==> (s + t)[i] == s[i];
    assert n == |s| && t != [] ==> (s + t)[n] == t[0];
  }

  lemma SliceBefore(s: Bytes, t: Bytes, i: nat, j: nat)
    requires i <= j <= |s|
    ensures (s + t)[i..j] == s[i..j] && (s + t)[i..] == s[i..] + t
  {
  }

  /** A byte that no number goes on with. */
  predicate EndsNumber(b: Byte) { !IsBlank(b) && !IsDigit(b) && b != 0x2b && b != 0x2d }

  /** A number is decided by what comes before the byte that ends it. */
  lemma NumberStops(s: Bytes, t: Bytes)
    requires t == [] || EndsNumber(t[0])
    ensures ParseNumber(s + t) == ParseNumber(s)
  {
    hide Blanks, DigitRun, AsUnsigned, Digits, IsDigit, IsBlank;
    BlanksBefore(s, t);
    var a := Blanks(s);
    var all := s + t;
    assert a < |s| ==> all[a] == s[a];
    assert a == |s| && t != [] ==> all[a] == t[0];
    var sign := if a < |s| && (s[a] == 0x2b || s[a] == 0x2d) then 1 else 0;
    SliceBefore(s, t, a + sign, a + sign);
    DigitRunBefore(s[a + sign..], t);
    SliceBefore(s, t, a + sign, a + sign + DigitRun(s[a + sign..]));
  }

  // ---- What a leftover start of a line does ----

  /** The buffer after `p` follows `y`: both together, or what is left of `p` when they overflow. */
  function Joined(y: Bytes, p: Bytes): (z: Bytes)
    requires |y| < FULL && |p| < FULL
    ensures |z| < FULL
  {
    if |y| + |p| < FULL then y + p else p[FULL - |y|..]
  }

  predicate Plain(s: Bytes) { Lacks(s, NUL) && Lacks(s, NL) }

  lemma FeedJoined(y: Bytes, p: Bytes)
    requires Plain(y) && Plain(p) && |y| < FULL && |p| < FULL
    ensures Feed(Input(y, []), p) == Input(Joined(y, p), []) && Plain(Joined(y, p))
    ensures Feed(Input(y, []), p + [NL]) == Input([], [Joined(y, p)])
  {
    hide Feed, Joined;
    FeedHeld([], y);
    FeedConcat(Input([], []), y, p);
    FeedAll(y, p);
    FeedSnoc(Input(y, []), p, NL);
  }

  lemma FeedAll(y: Bytes, p: Bytes)
    requires Plain(y) && Plain(p) && |y| < FULL && |p| < FULL
    ensures Feed(Input([], []), y + p) == Input(Joined(y, p), []) && Plain(Joined(y, p))
  {
    hide Feed;
    var all := y + p;
    if |all| < FULL {
      FeedHeld([], all);
    } else {
      var head, tail := all[..FULL], p[FULL - |y|..];
      assert all == head + tail;
      FeedFull([], head);
      FeedConcat(Input([], []), head, tail);
      FeedHeld([], tail);
    }
  }

  /** "exec" does not reach into a ping. */
  lemma ExecIsBefore(y: Bytes, p: Bytes)
    requires p != [] && p[0] == PING[0] && EXEC <= y + p
    ensures |y| >= 4 && EXEC <= y && (y + p)[4..] == y[4..] + p
  {
    assert (y + p)[|y|] == p[0];
    assert EXEC[0] != PING[0] && EXEC[1] != PING[0] && EXEC[2] != PING[0] && EXEC[3] != PING[0];
  }

  lemma StubIsNumber(y: Bytes)
    ensures Stub(y) == if EXEC <= y && ParseNumber(y[4..]).Some? then Some(ParseNumber(y[4..]).value.value) else None
  {
    hide ParseNumber, Blanks;
    assert EXEC <= y ==> y[0] == EXEC[0] != PING[0];
  }

  /** Neither a ping nor a piece of one changes which job a leftover start of a line names. */
  lemma PingCompletes(y: Bytes, n: nat)
    requires y != [] && |y| < FULL && n <= |PING|
    ensures var z := Joined(y, PING[..n]); Stub(z).Some? ==> Stub(z) == Stub(y)
  {
    hide ParseNumber, Stub;
    var p := PING[..n];
    var z := Joined(y, p);
    StubIsNumber(y);
    StubIsNumber(z);
    if |y| + |p| >= FULL {
      assert |z| < |EXEC|;
    } else if n == 0 {
      assert z == y;
    } else if EXEC <= z {
      ExecIsBefore(y, p);
      NumberStops(y[4..], p);
    }
  }

  lemma DecRun(n: nat, k: nat, rest: Bytes)
    requires k <= |Dec(n)| && (rest == [] || !IsDigit(rest[0]))
    ensures DigitRun(Dec(n)[..k] + rest) == k
  {
    hide Dec;
    DecPrefix(n, k);
    DigitRunBefore(Dec(n)[..k], rest);
    assert forall i :: 0 <= i < k ==> IsDigit(Dec(n)[..k][i]);
  }

  /** The number in a request, or in a piece of one, after the space that follows its word. */
  lemma NumberReads(id: nat, k: nat, rest: Bytes)
    requires id < U32_LIMIT && k <= |Dec(id)| && (rest == [] || !IsDigit(rest[0])) && (k == 0 ==> rest == [])
    ensures ParseNumber([SP] + (Dec(id)[..k] + rest)) == if k == 0 then None else Some(Number(Leading(id, k), 1 + k))
    ensures k > 0 ==> if k == |Dec(id)| then Leading(id, k) == id else Leading(id, k) < id
  {
    hide Dec, Blanks, DigitRun;
    var number := Dec(id)[..k];
    var s := [SP] + (number + rest);
    DecPrefix(id, k);
    DecRun(id, k, rest);
    if k == 0 {
      assert s == [SP];
      OneBlank([]);
      assert s[1..] == number + rest;
    } else {
      assert IsDigit(number[0]);
      OneBlank(number + rest);
      assert s[1..] == number + rest;
      assert s[1..1 + k] == number;
    }
  }

  lemma OneBlank(s: Bytes)
    requires s == [] || !IsBlank(s[0])
    ensures Blanks([SP] + s) == 1
  {
    assert ([SP] + s)[1..] == s;
  }

  /** A request that arrives as it was sent is taken for itself, its command without leading blanks. */
  lemma RequestReads(r: Request)
    requires Deliverable(r)
    ensures ParseRequest(Render(r)) == Some(Taken(r))
  {
    match r
    case Ping =>
    case Kill(id) => KillReads(id);
    case RunJob(id, cmd) => RunJobReads(id, cmd);
  }

  lemma KillReads(id: nat)
    requires id < U32_LIMIT
    ensures ParseRequest(Render(Kill(id))) == Some(Kill(id))
  {
    hide Dec, Blanks, ParseNumber;
    var line, d := Render(Kill(id)), |Dec(id)|;
    assert Dec(id)[..d] == Dec(id) && line[4..] == [SP] + (Dec(id)[..d] + []);
    NumberReads(id, d, []);
    assert line[0] == KILL[0] && line[..4] == KILL;
  }

  lemma RunJobReads(id: nat, cmd: Bytes)
    requires id < U32_LIMIT
    ensures ParseRequest(Render(RunJob(id, cmd))) == Some(RunJob(id, Stripped(cmd)))
  {
    hide Dec, Blanks, ParseNumber;
    var line, d := Render(RunJob(id, cmd)), |Dec(id)|;
    assert Dec(id)[..d] == Dec(id) && line[4..] == [SP] + (Dec(id)[..d] + ([SP] + cmd));
    NumberReads(id, d, [SP] + cmd);
    assert line[0] == EXEC[0] && line[..4] == EXEC;
    assert line[4 + 1 + d..] == [SP] + cmd;
    BlankFirst(cmd);
  }

  lemma BlankFirst(cmd: Bytes)
    ensures var rest := [SP] + cmd; rest[Blanks(rest)..] == Stripped(cmd)
  {
    var rest := [SP] + cmd;
    assert rest[1..] == cmd;
    assert rest[1 + Blanks(cmd)..] == cmd[Blanks(cmd)..];
  }

  lemma RunJobBytes(id: nat, cmd: Bytes, n: nat)
    requires 4 < n <= |Render(RunJob(id, cmd))|
    ensures var p, d := Render(RunJob(id, cmd))[..n], |Dec(id)|;
            && EXEC <= p && n <= 6 + d + |cmd|
            && p[4..] == [SP] + (Dec(id)[..Min(n - 5, d)] + if n <= 5 + d then [] else ([SP] + cmd)[..n - 5 - d])
  {
    hide Dec;
    FieldBytes(Dec(id), cmd, n);
  }

  lemma FieldBytes(digits: Bytes, cmd: Bytes, n: nat)
    requires 4 < n <= 6 + |digits| + |cmd|
    ensures var p, d := (EXEC + [SP] + (digits + [SP] + cmd))[..n], |digits|;
            && EXEC <= p
            && p[4..] == [SP] + (digits[..Min(n - 5, d)] + if n <= 5 + d then [] else ([SP] + cmd)[..n - 5 - d])
  {
    var tail := [SP] + cmd;
    assert digits + [SP] + cmd == digits + tail;
    assert EXEC + [SP] + (digits + tail) == EXEC + ([SP] + (digits + tail));
    PrefixOfSum(EXEC, [SP] + (digits + tail), n);
    PrefixOfSum([SP], digits + tail, n - 4);
    PrefixOfSum(digits, tail, n - 5);
  }

  /** The first `n` bytes of two strings joined. */
  lemma PrefixOfSum(a: Bytes, b: Bytes, n: nat)
    requires n <= |a| + |b|
    ensures (a + b)[..n] == a[..Min(n, |a|)] + if n <= |a| then [] else b[..n - |a|]
    ensures n >= |a| ==> a <= (a + b)[..n] && (a + b)[..n][|a|..] == b[..n - |a|]
  {
  }

  /** What a piece of a request for a job names: its number so far. */
  lemma PieceOfRunJob(id: nat, cmd: Bytes, n: nat)
    requires id < U32_LIMIT && n <= |Render(RunJob(id, cmd))|
    ensures Stub(Render(RunJob(id, cmd))[..n]) ==
            if n <= |EXEC| + 1 then None else Some(Leading(id, Min(n - 5, |Dec(id)|)))
  {
    hide Dec, ParseNumber, Leading, Stub, Render;
    var d, p := |Dec(id)|, Render(RunJob(id, cmd))[..n];
    StubIsNumber(p);
    if n <= 4 {
      assert EXEC <= p ==> p[4..] == [];
      NoNumber();
    } else {
      RunJobBytes(id, cmd, n);
      NumberReads(id, Min(n - 5, d), if n <= 5 + d then [] else ([SP] + cmd)[..n - 5 - d]);
    }
  }

  lemma {:induction false} LeadingGrows(n: nat, j: nat, k: nat)
    requires j <= k <= |Dec(n)|
    ensures Leading(n, j) <= Leading(n, k)
    decreases k
  {
    hide Dec;
    DecPrefix(n, k);
    if j < k {
      LeadingGrows(n, j, k - 1);
      var s := Dec(n)[..k];
      assert s[..k - 1] == Dec(n)[..k - 1];
      DecPrefix(n, k - 1);
    }
  }

  /** A piece of a request names its own job or one with a lower number, and only if it asks for one;
      a shorter piece names no higher number. */
  lemma PieceNames(r: Request, m: nat, n: nat)
    requires Deliverable(r) && m <= n <= |Render(r)|
    ensures Stub(Render(r)[..n]).Some? ==> r.RunJob? && Stub(Render(r)[..n]).value <= r.id
    ensures Stub(Render(r)[..m]).Some? ==>
              Stub(Render(r)[..n]).Some? && Stub(Render(r)[..m]).value <= Stub(Render(r)[..n]).value
  {
    hide Dec, ParseNumber, Leading, Stub;
    if r.RunJob? {
      PieceOfRunJob(r.id, r.cmd, m);
      PieceOfRunJob(r.id, r.cmd, n);
      var d := |Dec(r.id)|;
      if n > |EXEC| + 1 {
        NumberReads(r.id, Min(n - 5, d), []);
        if m > |EXEC| + 1 {
          LeadingGrows(r.id, Min(m - 5, d), Min(n - 5, d));
        }
      }
    } else {
      NoStubOf(r, m);
      NoStubOf(r, n);
    }
  }

  lemma NoStubOf(r: Request, n: nat)
    requires !r.RunJob? && n <= |Render(r)|
    ensures Stub(Render(r)[..n]) == None
  {
    hide Dec, ParseNumber, Stub;
    var p := Render(r)[..n];
    StubIsNumber(p);
    assert |p| > 0 ==> p[0] == Render(r)[0] != EXEC[0];
  }

  /** The number a start of a line starts a job under once a ping is written behind it. */
  function Pending(y: Bytes): Option<nat> { if |y| + |PING| < FULL then Stub(y) else None }

  lemma PendingIsStarted(y: Bytes)
    requires |y| < FULL
    ensures Stub(Joined(y, PING)) == Pending(y)
  {
    hide ParseNumber, Stub;
    var z := Joined(y, PING);
    StubIsNumber(y);
    StubIsNumber(z);
    if |y| + |PING| >= FULL {
      assert |z| < |EXEC|;
    } else if EXEC <= z {
      ExecIsBefore(y, PING);
      NumberStops(y[4..], PING);
    }
  }

  lemma PendingStays(y: Bytes, n: nat)
    requires y != [] && |y| < FULL && n <= |PING|
    ensures var z := Joined(y, PING[..n]); Pending(z).Some? ==> Pending(z) == Pending(y)
  {
    hide Stub;
    PingCompletes(y, n);
    var z := Joined(y, PING[..n]);
    StubIsNumber(z);
    assert |y| + n >= FULL ==> |z| < |EXEC|;
  }

  lemma NoNumber()
    ensures ParseNumber([]) == None
  {
  }

  // ---- When a request arrives ----

  lemma {:induction false} FeedLength(rx: Bytes, data: Bytes)
    requires Lacks(data, NL)
    ensures var r := Feed(Input(rx, []), data);
            r.lines == [] && (|r.rx| == |rx| + |data| || |r.rx| < |data|)
  {
    hide Feed;
    if data == [] {
      FeedNothing(Input(rx, []));
    } else {
      var front, last := data[..|data| - 1], data[|data| - 1];
      FeedLength(rx, front);
      assert data == front + [last];
      FeedSnoc(Input(rx, []), front, last);
    }
  }

  lemma {:induction false} FeedFits(c: Input, data: Bytes)
    requires |c.rx| < FULL
    ensures |Feed(c, data).rx| < FULL
  {
    if data != [] {
      FeedFits(c, data[..|data| - 1]);
    }
  }

  /** A request is dispatched as it was sent if and only if nothing was left in the buffer before it,
      it holds no NUL, and it fits. */
  lemma RequestArrivesIff(rx: Bytes, line: Bytes)
    requires Held(rx) && Lacks(line, NL)
    ensures Feed(Input(rx, []), line + [NL]).lines == [line] <==> rx == [] && Lacks(line, NUL) && |line| < 4095
  {
    hide Feed;
    FeedSnoc(Input(rx, []), line, NL);
    FeedLength(rx, line);
    FeedFits(Input(rx, []), line);
    var r := Feed(Input(rx, []), line);
    assert [] + [r.rx] == [r.rx];
    assert [r.rx] == [line] <==> r.rx == line;
    if rx == [] && Lacks(line, NUL) && |line| < FULL {
      FeedLine([], line);
    }
  }

  /** A NUL in a request hides it and those after it, until the buffer is discarded. */
  lemma NulHidesRequests(line: Bytes, later: Bytes)
    requires !Lacks(line, NUL) && Lacks(line, NL) && |line| + 1 + |later| < FULL
    ensures Feed(Input([], []), line + [NL] + later).lines == []
  {
    hide Feed;
    var all := line + [NL] + later;
    var i :| 0 <= i < |line| && line[i] == NUL;
    assert all[..i] == line[..i] && all[i] == NUL;
    NothingBehindNul(all, i);
    FeedHeld([], all);
  }
}
