/** The lines devd sends to the host: how `devd.c` writes them and how `dev.rs` reads them,
    from a byte stream that may stop anywhere. */
module DevLines {
  import opened Bytes
  import opened Optional
  import opened Text

  const SP: Byte := 0x20
  const NL: Byte := 0x0a
  const HELLO: Bytes := [0x68, 0x65, 0x6c, 0x6c, 0x6f]
  const PONG: Bytes := [0x70, 0x6f, 0x6e, 0x67]
  const OUT: Bytes := [0x6f, 0x75, 0x74]
  const EXIT: Bytes := [0x65, 0x78, 0x69, 0x74]
  const ERROR: Bytes := [0x65, 0x72, 0x72, 0x6f, 0x72]

  const U32_LIMIT: nat := 0x1_0000_0000
  const I32_LIMIT: nat := 0x8000_0000

  datatype Event = Out(text: Bytes) | Exit(status: int) | Error(why: Bytes) | Lost

  datatype Line = Hello | Pong | Job(id: nat, event: Event)

  /** The lines devd sends: one line of text, a job number it was given, a wait status. */
  predicate Sendable(l: Line) {
    l.Job? ==>
      && l.id < U32_LIMIT
      && match l.event
         case Out(text) => Lacks(text, NL)
         case Exit(status) => 0 <= status < 256
         case Error(why) => Lacks(why, NL)
         case Lost => false
  }

  function Verb(e: Event): Bytes {
    match e
    case Out(_) => OUT
    case Exit(_) => EXIT
    case _ => ERROR
  }

  function Rest(e: Event): Bytes {
    match e
    case Out(text) => text
    case Exit(status) => if status >= 0 then Dec(status) else [0x2d] + Dec(-status)
    case Error(why) => why
    case Lost => []
  }

  /** A line as devd formats it, without its newline. */
  function Render(l: Line): Bytes {
    match l
    case Hello => HELLO + [SP, 0x31]
    case Pong => PONG
    case Job(id, e) => Verb(e) + [SP] + (Dec(id) + [SP] + Rest(e))
  }

  /** The lines, as text. */
  lemma LineText(id: nat, text: Bytes, status: nat)
    ensures Render(Hello) == Ascii("hello 1") && Render(Pong) == Ascii("pong")
    ensures Render(Job(id, Out(text))) == Ascii("out ") + Dec(id) + Ascii(" ") + text
    ensures Render(Job(id, Exit(status))) == Ascii("exit ") + Dec(id) + Ascii(" ") + Dec(status)
    ensures Render(Job(id, Error(text))) == Ascii("error ") + Dec(id) + Ascii(" ") + text
  {
    hide Dec, Ascii;
    VerbText();
  }

  lemma VerbText()
    ensures HELLO + [SP, 0x31] == Ascii("hello 1") && PONG == Ascii("pong") && [SP] == Ascii(" ")
    ensures OUT + [SP] == Ascii("out ") && EXIT + [SP] == Ascii("exit ") && ERROR + [SP] == Ascii("error ")
  {
  }

  /** `text.trim().parse::<i32>()` */
  function ParseStatus(text: Bytes): Option<int> {
    var t := Trim(text);
    var negative := t != [] && t[0] == 0x2d;
    var v := if negative then Digits(t[1..]) else ParseUnsigned(t, I32_LIMIT);
    if v.None? || (negative && (|t| == 1 || v.value > I32_LIMIT)) then None
    else
      var n: int := v.value;
      Some(if negative then -n else n)
  }

  function ParseEvent(verb: Bytes, text: Bytes): Option<Event> {
    if verb == OUT then Some(Out(text))
    else if verb == EXIT then
      var status := ParseStatus(text);
      if status.None? then None else Some(Exit(status.value))
    else if verb == ERROR then Some(Error(text))
    else None
  }

  function ParseJob(verb: Bytes, rest: Bytes): Option<Line> {
    var i := IndexOf(rest, SP);
    var id := ParseUnsigned(rest[..i], U32_LIMIT);
    var event := ParseEvent(verb, if i == |rest| then [] else rest[i + 1..]);
    if id.None? || event.None? then None else Some(Job(id.value, event.value))
  }

  /** `parse` in dev.rs. */
  function Parse(line: Bytes): Option<Line> {
    if HELLO + [SP] <= line || line == HELLO then Some(Hello)
    else if line == PONG then Some(Pong)
    else
      var i := IndexOf(line, SP);
      if i == |line| then None else ParseJob(line[..i], line[i + 1..])
  }

  lemma VerbIsAWord(e: Event)
    ensures Lacks(Verb(e), SP) && |Verb(e)| >= 3 && Verb(e)[0] != HELLO[0] && Verb(e)[0] != PONG[0]
  {
  }

  lemma ParseAfterVerb(e: Event, rest: Bytes)
    ensures Parse(Verb(e) + [SP] + rest) == ParseJob(Verb(e), rest)
  {
    hide Verb, ParseJob;
    VerbIsAWord(e);
    var verb, line := Verb(e), Verb(e) + [SP] + rest;
    assert line[0] == verb[0];
    IndexAfter(verb, SP, rest);
    assert line[..|verb|] == verb && line[|verb| + 1..] == rest;
  }

  lemma ParseInVerb(e: Event, n: nat)
    requires n <= |Verb(e)|
    ensures Parse(Verb(e)[..n]) == None
  {
    hide Verb;
    VerbIsAWord(e);
    var piece := Verb(e)[..n];
    assert n > 0 ==> piece[0] == Verb(e)[0];
    IndexAfter(piece, SP, []);
  }

  lemma ParseIdAndText(verb: Bytes, id: Bytes, text: Bytes)
    requires Lacks(id, SP)
    ensures ParseJob(verb, id + [SP] + text) ==
            var v, e := ParseUnsigned(id, U32_LIMIT), ParseEvent(verb, text);
            if v.None? || e.None? then None else Some(Job(v.value, e.value))
    ensures ParseJob(verb, id) ==
            var v, e := ParseUnsigned(id, U32_LIMIT), ParseEvent(verb, []);
            if v.None? || e.None? then None else Some(Job(v.value, e.value))
  {
    hide ParseUnsigned, ParseEvent;
    var rest := id + [SP] + text;
    IndexAfter(id, SP, text);
    assert rest[..|id|] == id && rest[|id| + 1..] == text;
    assert id[..|id|] == id;
  }

  lemma DecLacksSpace(n: nat, k: nat)
    requires k <= |Dec(n)|
    ensures Lacks(Dec(n)[..k], SP) && Lacks(Dec(n)[..k], NL)
  {
    hide Dec;
    DecPrefix(n, k);
  }

  lemma StatusParses(status: nat, k: nat)
    requires status < 256 && k <= |Dec(status)|
    ensures ParseStatus(Dec(status)[..k]) == if k == 0 then None else Some(Leading(status, k))
    ensures 0 < k ==> if k == |Dec(status)| then Leading(status, k) == status else Leading(status, k) < status
  {
    hide Dec, Leading, Trim, ParseUnsigned, Digits;
    DecPrefix(status, k);
    var t := Dec(status)[..k];
    assert forall i :: 0 <= i < k ==> IsDigit(t[i]);
    NothingToTrim(t);
    if k > 0 {
      DecParses(status, k, I32_LIMIT);
    } else {
      NothingParses();
    }
  }

  lemma NothingParses()
    ensures ParseUnsigned([], I32_LIMIT) == None
  {
  }

  /** How much of a line must arrive for it to be taken for a line. */
  function Enough(l: Line): nat {
    match l
    case Hello => |HELLO|
    case Pong => |PONG|
    case Job(id, e) => if e.Exit? then |EXIT| + |Dec(id)| + 3 else |Verb(e)| + 2
  }

  /** The event that the first `m` bytes of an event's text are taken for. */
  function EventPiece(e: Event, m: nat): Event
    requires m <= |Rest(e)|
  {
    match e
    case Out(text) => Out(text[..m])
    case Exit(status) => if status >= 0 then Exit(Leading(status, m)) else e
    case Error(why) => Error(why[..m])
    case Lost => e
  }

  lemma EventOfPiece(e: Event, m: nat)
    requires Sendable(Job(0, e)) && m <= |Rest(e)|
    ensures ParseEvent(Verb(e), Rest(e)[..m]) == if e.Exit? && m == 0 then None else Some(EventPiece(e, m))
    ensures !(e.Exit? && m == 0) ==> (EventPiece(e, m) == e <==> m == |Rest(e)|)
  {
    assert m == |Rest(e)| ==> Rest(e)[..m] == Rest(e);
    if e.Exit? {
      StatusParses(e.status, m);
    }
  }

  lemma NumberPiece(id: nat, k: nat)
    requires id < U32_LIMIT && k <= |Dec(id)|
    ensures ParseUnsigned(Dec(id)[..k], U32_LIMIT) == if k == 0 then None else Some(Leading(id, k))
    ensures k > 0 ==> if k == |Dec(id)| then Leading(id, k) == id else Leading(id, k) < id
  {
    hide Dec, Leading;
    if k > 0 {
      DecParses(id, k, U32_LIMIT);
    } else {
      DecPrefix(id, 0);
    }
  }

  /** What the first `n` bytes of a job's line are taken for: nothing before the job number, then
      the number so far with no text, then the number with the text so far. */
  function JobPiece(id: nat, e: Event, n: nat): Option<Line>
    requires n <= |Render(Job(id, e))|
  {
    var v, d := |Verb(e)|, |Dec(id)|;
    if n < Enough(Job(id, e)) then None
    else if n <= v + 1 + d then Some(Job(Leading(id, n - v - 1), EventPiece(e, 0)))
    else Some(Job(id, EventPiece(e, n - v - 2 - d)))
  }

  lemma JobPieceParses(id: nat, e: Event, n: nat)
    requires Sendable(Job(id, e)) && n <= |Render(Job(id, e))|
    ensures Parse(Render(Job(id, e))[..n]) == JobPiece(id, e, n)
  {
    hide Parse, ParseJob, Verb, Rest, Dec, ParseEvent, ParseUnsigned, Leading, EventPiece;
    var verb, number, rest := Verb(e), Dec(id), Rest(e);
    var v, d := |verb|, |number|;
    var piece := Render(Job(id, e))[..n];
    VerbIsAWord(e);
    VerbLengths(e);
    if n <= v {
      assert piece == verb[..n];
      ParseInVerb(e, n);
    } else if n <= v + 1 + d {
      var k := n - v - 1;
      assert piece == verb + [SP] + number[..k];
      ParseAfterVerb(e, number[..k]);
      DecLacksSpace(id, k);
      ParseIdAndText(verb, number[..k], []);
      assert rest[..0] == [];
      EventOfPiece(e, 0);
      NumberPiece(id, k);
    } else {
      var m := n - v - 2 - d;
      assert number[..d] == number;
      assert piece == verb + [SP] + (number + [SP] + rest[..m]);
      ParseAfterVerb(e, number + [SP] + rest[..m]);
      DecLacksSpace(id, d);
      ParseIdAndText(verb, number, rest[..m]);
      EventOfPiece(e, m);
      NumberPiece(id, d);
    }
  }

  lemma VerbLengths(e: Event)
    ensures e.Exit? ==> |Verb(e)| == |EXIT|
  {
  }

  /** What the first `n` bytes of a line are taken for. */
  function PieceOf(l: Line, n: nat): Option<Line>
    requires n <= |Render(l)|
  {
    if l.Job? then JobPiece(l.id, l.event, n) else if n < Enough(l) then None else Some(l)
  }

  /** A line, and every piece of one that the stream ends in, parses to what `PieceOf` says. */
  lemma PieceParses(l: Line, n: nat)
    requires Sendable(l) && n <= |Render(l)|
    ensures Parse(Render(l)[..n]) == PieceOf(l, n)
  {
    hide IndexOf, ParseJob, JobPiece;
    match l
    case Hello =>
      var piece := Render(l)[..n];
      if n < |HELLO| {
        assert Lacks(piece, SP);
        IndexAfter(piece, SP, []);
        assert n == |PONG| ==> piece[0] != PONG[0];
      } else if n > |HELLO| {
        assert HELLO + [SP] <= piece;
      } else {
        assert piece == HELLO;
      }
    case Pong =>
      var piece := Render(l)[..n];
      assert Lacks(piece, SP);
      IndexAfter(piece, SP, []);
      if n == |PONG| {
        assert piece == PONG;
      } else {
        assert n > 0 ==> piece[0] != HELLO[0];
      }
    case Job(id, e) => JobPieceParses(id, e, n);
  }

  /** A cut after which the line is all there but for its newline, the digit of `hello` or the space
      before an empty text. */
  predicate CutsNothing(l: Line, n: nat) {
    match l
    case Hello => n >= |HELLO|
    case Pong => n >= |PONG|
    case Job(id, e) => n >= |Render(l)| || (!e.Exit? && Rest(e) == [] && n == |Verb(e)| + 1 + |Dec(id)|)
  }

  lemma RenderLength(id: nat, e: Event)
    ensures |Render(Job(id, e))| == |Verb(e)| + |Dec(id)| + |Rest(e)| + 2
    ensures Enough(Job(id, e)) == if e.Exit? then |Verb(e)| + |Dec(id)| + 3 else |Verb(e)| + 2
  {
    hide Dec, Rest;
    VerbLengths(e);
  }

  lemma JobMisreadIff(id: nat, e: Event, n: nat)
    requires Sendable(Job(id, e)) && n <= |Render(Job(id, e))|
    ensures var l, p := Job(id, e), JobPiece(id, e, n);
            && (p != None && p != Some(l) <==> n >= Enough(l) && !CutsNothing(l, n))
            && (p.Some? ==> p.value.Job? && p.value.id <= id && !p.value.event.Lost?)
  {
    hide Dec, Leading, Render, Verb, Rest, EventPiece, Enough;
    RenderLength(id, e);
    var v, d := |Verb(e)|, |Dec(id)|;
    if n >= Enough(Job(id, e)) {
      var m := if n <= v + 1 + d then 0 else n - v - 2 - d;
      EventOfPiece(e, m);
      PieceIsNotLost(e, m);
      if n <= v + 1 + d {
        NumberPiece(id, n - v - 1);
      }
    }
  }

  lemma PieceIsNotLost(e: Event, m: nat)
    requires Sendable(Job(0, e)) && m <= |Rest(e)|
    ensures !EventPiece(e, m).Lost?
  {
    hide Leading;
  }

  /** A piece is taken for another line than the one that was sent if and only if enough of it
      arrived to be a line and something of it was cut. The number it names is never higher. */
  lemma MisreadIff(l: Line, n: nat)
    requires Sendable(l) && n <= |Render(l)|
    ensures var p := Parse(Render(l)[..n]);
            && (p != None && p != Some(l) <==> n >= Enough(l) && !CutsNothing(l, n))
            && (p.Some? && p.value.Job? ==> l.Job? && p.value.id <= l.id && !p.value.event.Lost?)
            && (p.Some? && !p.value.Job? ==> p == Some(l))
  {
    hide Parse, JobPiece;
    PieceParses(l, n);
    if l.Job? {
      JobMisreadIff(l.id, l.event, n);
    }
  }

  // ---- The stream ----

  /** What `read_until` gives, newlines removed, for a stream that ends after `bytes`. */
  function ReadLines(bytes: Bytes): seq<Bytes> {
    if bytes == [] then []
    else
      var i := IndexOf(bytes, NL);
      if i == |bytes| then [bytes] else [bytes[..i]] + ReadLines(bytes[i + 1..])
  }

  function Stream(lines: seq<Line>): Bytes {
    if lines == [] then [] else Render(lines[0]) + [NL] + Stream(lines[1..])
  }

  function Rendered(lines: seq<Line>): seq<Bytes> {
    if lines == [] then [] else [Render(lines[0])] + Rendered(lines[1..])
  }

  lemma RenderIsOneLine(l: Line)
    requires Sendable(l)
    ensures Lacks(Render(l), NL)
  {
    hide Dec;
    if l.Job? {
      DecLacksSpace(l.id, |Dec(l.id)|);
      assert Dec(l.id)[..|Dec(l.id)|] == Dec(l.id);
      RestIsOneLine(l.event);
    }
  }

  lemma RestIsOneLine(e: Event)
    requires Sendable(Job(0, e))
    ensures Lacks(Rest(e), NL)
  {
    hide Dec;
    if e.Exit? {
      DecLacksSpace(e.status, |Dec(e.status)|);
      assert Dec(e.status)[..|Dec(e.status)|] == Dec(e.status);
    }
  }

  lemma ReadNothing()
    ensures ReadLines([]) == []
  {
  }

  lemma ReadPiece(piece: Bytes)
    requires piece != [] && Lacks(piece, NL)
    ensures ReadLines(piece) == [piece]
  {
    IndexAfter(piece, NL, []);
  }

  lemma ReadFirst(line: Bytes, rest: Bytes)
    requires Lacks(line, NL)
    ensures ReadLines(line + [NL] + rest) == [line] + ReadLines(rest)
  {
    var bytes := line + [NL] + rest;
    IndexAfter(line, NL, rest);
    assert bytes[..|line|] == line && bytes[|line| + 1..] == rest;
  }

  /** A stream cut anywhere reads as the lines before the cut, whole and in order, and then
      the piece of the line it was cut in, if any of it arrived. */
  lemma {:induction false} CutStream(lines: seq<Line>, n: nat) returns (k: nat, m: nat)
    requires (forall i :: 0 <= i < |lines| ==> Sendable(lines[i])) && n <= |Stream(lines)|
    ensures k <= |lines| && n == |Stream(lines[..k])| + m
    ensures m > 0 ==> k < |lines| && m <= |Render(lines[k])|
    ensures ReadLines(Stream(lines)[..n]) ==
            Rendered(lines[..k]) + if m == 0 then [] else [Render(lines[k])[..m]]
  {
    hide Render, Sendable, IndexOf, ReadLines;
    var cut := Stream(lines)[..n];
    if n == 0 {
      k, m := 0, 0;
      assert lines[..0] == [] && cut == [];
      ReadNothing();
      return;
    }
    var first, tail := Render(lines[0]), Stream(lines[1..]);
    RenderIsOneLine(lines[0]);
    if n <= |first| {
      k, m := 0, n;
      assert lines[..0] == [] && cut == first[..n];
      assert Lacks(cut, NL);
      ReadPiece(cut);
    } else {
      var j := n - |first| - 1;
      assert cut == first + [NL] + tail[..j];
      ReadFirst(first, tail[..j]);
      k, m := CutStream(lines[1..], j);
      assert lines[..k + 1][0] == lines[0] && lines[..k + 1][1..] == lines[1..][..k];
      k := k + 1;
    }
  }

  /** A line cut inside its job number is read as an empty line of another job's output. */
  lemma CutNumberNamesAnotherJob(text: Bytes)
    ensures Parse(Render(Job(12, Out(text)))[..5]) == Some(Job(1, Out([])))
  {
    hide Parse, ParseJob;
    assert Dec(12) == Dec(1) + [0x32] && Dec(1) == [0x31];
    assert Render(Job(12, Out(text)))[..5] == OUT + [SP] + [0x31];
    ParseAfterVerb(Out(text), [0x31]);
    ParseIdAndText(OUT, [0x31], []);
    assert [0x31] == Dec(1)[..1];
    DecParses(1, 1, U32_LIMIT);
  }
}
