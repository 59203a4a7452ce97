/** How devd cuts a job's output into `out` lines (`guest/devd/devd.c`): a bounded buffer,
    filled by reads of any size, from which complete lines are sent, and a full buffer too. */
module DevdOutput {
  import opened Bytes

  const OUT_MAX: nat := 1024
  const NL: Byte := 10

  /** The bytes held back and the texts sent. */
  datatype Cut = Cut(pending: Bytes, texts: seq<Bytes>)

  function Step(c: Cut, b: Byte): Cut {
    if b == NL then Cut([], c.texts + [c.pending])
    else if |c.pending| + 1 == OUT_MAX then Cut([], c.texts + [c.pending + [b]])
    else Cut(c.pending + [b], c.texts)
  }

  /** The reference form: one byte at a time. */
  function Feed(c: Cut, data: Bytes): Cut {
    if data == [] then c else Step(Feed(c, data[..|data| - 1]), data[|data| - 1])
  }

  function Flush(c: Cut): seq<Bytes> {
    if c.pending == [] then c.texts else c.texts + [c.pending]
  }

  /** The texts sent for a job whose whole output is `output`. */
  function Texts(output: Bytes): seq<Bytes> { Flush(Feed(Cut([], []), output)) }

  /** What devd holds back between two reads: no newline, and less than a full text. */
  predicate Held(s: Bytes) { |s| < OUT_MAX && OneLine(s) }

  predicate OneLine(s: Bytes) { forall i :: 0 <= i < |s| ==> s[i] != NL }

  lemma {:induction false} FeedConcat(c: Cut, a: Bytes, b: Bytes)
    ensures Feed(c, a + b) == Feed(Feed(c, a), b)
  {
    if b == [] {
      assert a + b == a;
    } else {
      var k := |b| - 1;
      FeedConcat(c, a, b[..k]);
      assert (a + b)[..|a + b| - 1] == a + b[..k];
    }
  }

  lemma FeedNothing(c: Cut)
    ensures Feed(c, []) == c
  {
  }

  lemma {:induction false} FeedHeld(texts: seq<Bytes>, s: Bytes)
    requires Held(s)
    ensures Feed(Cut([], texts), s) == Cut(s, texts)
  {
    hide Step;
    if s != [] {
      var front, last := s[..|s| - 1], s[|s| - 1];
      FeedHeld(texts, front);
      StepCases(Cut(front, texts), last);
      assert front + [last] == s;
    }
  }

  lemma {:induction false} FeedKeepsHeld(c: Cut, data: Bytes)
    requires Held(c.pending)
    ensures Held(Feed(c, data).pending)
  {
    if data != [] {
      FeedKeepsHeld(c, data[..|data| - 1]);
    }
  }

  // ---- The job's buffer ----

  /** A scan of `all` at `i` whose current line starts at `start` has sent `texts`: what the
      reference form sent, short of a full text that ends the buffer. */
  ghost predicate Scanned(zero: Cut, all: Bytes, start: nat, i: nat, texts: seq<Bytes>) {
    && start <= i <= |all| <= OUT_MAX && OneLine(all[start..i])
    && Feed(zero, all[..i]) ==
       if i - start == OUT_MAX then Cut([], texts + [all[start..i]]) else Cut(all[start..i], texts)
  }

  lemma ScanStart(zero: Cut, all: Bytes)
    requires |all| <= OUT_MAX && zero.pending == []
    ensures Scanned(zero, all, 0, 0, zero.texts)
  {
    assert all[..0] == [] && all[0..0] == [];
  }

  lemma ScanByte(zero: Cut, all: Bytes, start: nat, i: nat, texts: seq<Bytes>)
    requires Scanned(zero, all, start, i, texts) && i < |all|
    ensures if all[i] == NL then Scanned(zero, all, i + 1, i + 1, texts + [all[start..i]])
            else Scanned(zero, all, start, i + 1, texts)
  {
    hide Step;
    var c, b := Cut(all[start..i], texts), all[i];
    assert all[..i + 1][..i] == all[..i];
    assert Feed(zero, all[..i + 1]) == Step(c, b);
    assert all[start..i] + [b] == all[start..i + 1];
    assert all[i + 1..i + 1] == [];
    StepCases(c, b);
  }

  lemma StepCases(c: Cut, b: Byte)
    ensures b == NL ==> Step(c, b) == Cut([], c.texts + [c.pending])
    ensures b != NL && |c.pending| + 1 == OUT_MAX ==> Step(c, b) == Cut([], c.texts + [c.pending + [b]])
    ensures b != NL && |c.pending| + 1 != OUT_MAX ==> Step(c, b) == Cut(c.pending + [b], c.texts)
  {
  }

  lemma ScanEnd(zero: Cut, all: Bytes, start: nat, texts: seq<Bytes>)
    requires Scanned(zero, all, start, |all|, texts)
    ensures Feed(zero, all) ==
            if |all| - start == OUT_MAX then Cut([], texts + [all[start..]]) else Cut(all[start..], texts)
  {
    assert all[..|all|] == all && all[start..|all|] == all[start..];
  }

  datatype ReadResult = Interrupted | Failed | Got(data: Bytes)

  class Job {
    const buf: array<Byte>
    var n: nat
    var open: bool
    /** The texts passed to `emit_out`. */
    var sent: seq<Bytes>

    ghost predicate Valid()
      reads this, buf
    {
      buf.Length == OUT_MAX && n < OUT_MAX && Held(buf[..n])
    }

    ghost function State(): Cut
      reads this, buf
      requires n <= buf.Length
    {
      Cut(buf[..n], sent)
    }

    constructor ()
      ensures Valid() && fresh(buf) && open && State() == Cut([], [])
    {
      buf := new Byte[OUT_MAX](_ => 0);
      n, open, sent := 0, true, [];
    }

    /** Sends the complete lines in the buffer, and the rest when it fills it or on a flush. */
    method Drain(flush: bool)
      requires buf.Length == OUT_MAX && n <= OUT_MAX
      modifies this`n, this`sent, buf
      ensures n <= OUT_MAX
      ensures var c := Feed(Cut([], old(sent)), old(buf[..n]));
              State() == if flush then Cut([], Flush(c)) else c
    {
      hide Scanned;
      ghost var all, zero := buf[..n], Cut([], sent);
      ScanStart(zero, all);
      var start, i := 0, 0;
      while i < n
        invariant start <= i <= n == |all| && buf[..n] == all
        invariant Scanned(zero, all, start, i, sent)
      {
        ScanByte(zero, all, start, i, sent);
        if buf[i] == NL {
          sent := sent + [buf[start..i]];
          assert buf[start..i] == all[start..i];
          start := i + 1;
        }
        i := i + 1;
      }
      ScanEnd(zero, all, start, sent);
      assert buf[start..n] == all[start..];
      var rest := n - start;
      if rest == OUT_MAX || (flush && rest > 0) {
        sent := sent + [buf[start..n]];
        rest, start := 0, n;
      }
      MoveToFront(start, rest);
      n := rest;
    }

    /** `memmove(buf, buf + start, rest)`. */
    method MoveToFront(start: nat, rest: nat)
      requires start + rest <= buf.Length
      modifies buf
      ensures buf[..rest] == old(buf[start..start + rest])
    {
      for k := 0 to rest
        invariant forall m :: 0 <= m < k ==> buf[m] == old(buf[start + m])
        invariant forall m :: k <= m < buf.Length ==> buf[m] == old(buf[m])
      {
        buf[k] := buf[start + k];
      }
    }

    /** One `read` of at most the free space, and what follows from its result. */
    method ReadJob(r: ReadResult)
      requires Valid() && open
      requires r.Got? ==> |r.data| <= OUT_MAX - n
      modifies this, buf
      ensures Valid()
      ensures open == (r.Interrupted? || (r.Got? && r.data != []))
      ensures State() == match r
                         case Interrupted => old(State())
                         case Failed => Cut([], Flush(old(State())))
                         case Got(data) => if data == [] then Cut([], Flush(old(State())))
                                           else Feed(old(State()), data)
    {
      hide Feed, Flush, Held;
      ghost var before := State();
      FeedHeld(sent, before.pending);
      NothingHeld();
      if r.Interrupted? {
        return;
      }
      if r.Failed? || r.data == [] {
        Drain(true);
        assert |State().pending| == n;
        open := false;
        return;
      }
      var at, data := n, r.data;
      for k := 0 to |data|
        invariant n == at && sent == before.texts && open
        invariant buf[..at] == before.pending && buf[at..at + k] == data[..k]
      {
        buf[at + k] := data[k];
      }
      n := at + |data|;
      assert buf[..n] == before.pending + data;
      FeedConcat(Cut([], sent), before.pending, data);
      FeedKeepsHeld(before, data);
      Drain(false);
    }
  }

  /** How one turn of the poll loop meets the pipe: how much `read` chooses to give (at least
      one byte while there is some), an interruption, or a failure. */
  datatype Turn = Interrupt | Fail | Give(atMost: nat)

  /** A job's output read in turns of any kind and size, until it is closed or the turns end. */
  method ReadInTurns(j: Job, output: Bytes, turns: seq<Turn>) returns (taken: nat, failed: bool)
    requires j.Valid() && j.open && j.State() == Cut([], [])
    modifies j, j.buf
    ensures j.Valid() && taken <= |output|
    ensures j.open ==> !failed && j.State() == Feed(Cut([], []), output[..taken])
    ensures !j.open ==> j.sent == Texts(output[..taken]) && j.n == 0
    ensures !j.open && !failed ==> taken == |output|
    ensures |turns| > |output| && j.open ==> exists i :: 0 <= i < |turns| && turns[i].Interrupt?
  {
    hide Held, Flush, Feed;
    taken, failed := 0, false;
    FeedNothing(Cut([], []));
    assert output[..0] == [];
    var i := 0;
    while i < |turns| && j.open
      invariant 0 <= i <= |turns| && taken <= |output| && j.Valid()
      invariant j.open ==> !failed && j.State() == Feed(Cut([], []), output[..taken])
      invariant !j.open ==> j.sent == Texts(output[..taken]) && j.n == 0
      invariant !j.open && !failed ==> taken == |output|
      invariant j.open && (forall k :: 0 <= k < i ==> !turns[k].Interrupt?) ==> taken >= i
    {
      match turns[i] {
        case Interrupt => j.ReadJob(Interrupted);
        case Fail =>
          j.ReadJob(Failed);
          failed := true;
        case Give(atMost) =>
          var room := OUT_MAX - j.n;
          var k := Min(Min(if atMost == 0 then 1 else atMost, room), |output| - taken);
          ghost var seen := output[..taken];
          j.ReadJob(Got(output[taken..taken + k]));
          FeedConcat(Cut([], []), seen, output[taken..taken + k]);
          assert seen + output[taken..taken + k] == output[..taken + k];
          taken := taken + k;
      }
      i := i + 1;
    }
  }

  // ---- What the host can tell from the texts ----

  /** The bytes a list of texts stands for: a full text continues, any other ended a line. */
  function Joined(texts: seq<Bytes>): Bytes {
    if texts == [] then []
    else
      var t := texts[|texts| - 1];
      Joined(texts[..|texts| - 1]) + if |t| == 1024 then t else t + [0x0a]
  }

  /** The output with its last line ended, unless a full text or a newline just ended. */
  function Ended(output: Bytes): Bytes {
    if Feed(Cut([], []), output).pending == [] then output else output + [NL]
  }

  lemma JoinedSnoc(texts: seq<Bytes>, t: Bytes)
    ensures Joined(texts + [t]) == Joined(texts) + if |t| == 1024 then t else t + [0x0a]
  {
    assert (texts + [t])[..|texts + [t]| - 1] == texts;
  }

  predicate Short(texts: seq<Bytes>) {
    forall i :: 0 <= i < |texts| ==> |texts[i]| <= 1024 && OneLine(texts[i])
  }

  lemma StepLosesNothing(c: Cut, b: Byte)
    requires Held(c.pending) && Short(c.texts)
    ensures var d := Step(c, b);
            Held(d.pending) && Short(d.texts) && Joined(d.texts) + d.pending == Joined(c.texts) + c.pending + [b]
  {
    hide Joined;
    JoinedSnoc(c.texts, c.pending);
    JoinedSnoc(c.texts, c.pending + [b]);
    var before, p := Joined(c.texts), c.pending;
    assert before + (p + [NL]) + [] == before + p + [NL];
    assert before + (p + [b]) + [] == before + p + [b];
    assert before + (p + [b]) == before + p + [b];
  }

  lemma {:induction false} FeedLosesNothing(output: Bytes)
    ensures var c := Feed(Cut([], []), output);
            Held(c.pending) && Short(c.texts) && Joined(c.texts) + c.pending == output
  {
    hide Held, Short, Step;
    if output == [] {
      NothingHeld();
    } else {
      var k := |output| - 1;
      FeedLosesNothing(output[..k]);
      StepLosesNothing(Feed(Cut([], []), output[..k]), output[k]);
      assert output == output[..k] + [output[k]];
    }
  }

  lemma NothingHeld()
    ensures Held([]) && Short([])
  {
  }

  /** The texts are at most OUT_MAX long without a newline, and joining them back (a full one
      continues, any other ended its line) loses nothing but whether the last line was ended. */
  lemma TextsDecode(output: Bytes)
    ensures Short(Texts(output)) && Joined(Texts(output)) == Ended(output)
  {
    hide Joined, Feed;
    FeedLosesNothing(output);
    var c := Feed(Cut([], []), output);
    if c.pending != [] {
      JoinedSnoc(c.texts, c.pending);
      assert Joined(Texts(output)) == Joined(c.texts) + c.pending + [NL];
    }
  }

  lemma TextsOfEnded(output: Bytes)
    ensures Texts(Ended(output)) == Texts(output)
  {
    var c := Feed(Cut([], []), output);
    if c.pending != [] {
      assert (output + [NL])[..|output|] == output;
    }
  }

  /** Two outputs give the same texts exactly when they are equal once their last line is ended. */
  lemma TextsIdentify(a: Bytes, b: Bytes)
    ensures Texts(a) == Texts(b) <==> Ended(a) == Ended(b)
  {
    hide Texts, Ended;
    TextsDecode(a);
    TextsDecode(b);
    TextsOfEnded(a);
    TextsOfEnded(b);
  }
}
