/** Guest jobs, from the host's `DevClient` (dev.rs) to devd (devd.c) and back, as one
    machine. The host numbers its jobs and never reuses a number. Requests and lines travel
    in order. A connection can break at any byte, either way: the lines before the break can
    still be read, and those after it are lost or arrive on a later connection; the
    requests before the break reach devd, and so does the start of the next one, which devd
    keeps in its buffer. devd can reopen its port or restart at any time, which kills every
    job it runs and empties its buffer. */
module DevJobs {
  import opened Bytes
  import opened Optional
  import opened Runs
  import opened Text
  import opened DevLines
  import opened DevRequests
  import In = DevdInput

  const MAX_JOBS: nat := 16

  /** The host's connection. Once it broke, the host can still read the first `cut` lines, and
      then what `parse` makes of the piece of the next line that arrived. */
  datatype Conn = Down | Open | Broken(cut: nat, piece: Option<Line>)

  /** A job in devd's table: its command, whether its pipe is closed, and its wait status. */
  datatype GuestJob = GuestJob(cmd: Bytes, closed: bool, status: Option<nat>)

  /** The host: the next job number, the jobs it would pass events to, the events it passed to
      each job, the command of each, whether devd has answered on this connection, and how many
      calls of `start` have seen that it had and not written yet. The channel, either way.
      The guest: its receive buffer and its job table. History: the number next to be given when
      this connection was made, the lines the guest sent of each job, and the numbers it
      took from a line that is not a request of the host's, of which no more is recorded. */
  datatype State = State(
    next: nat, live: set<nat>, seen: map<nat, seq<Event>>, cmds: map<nat, Bytes>, up: bool, checked: nat,
    conn: Conn, toHost: seq<Line>, toGuest: seq<Item>,
    rx: Bytes, guest: map<nat, GuestJob>,
    born: nat, sent: map<nat, seq<Event>>, stray: set<nat>)

  datatype Action =
    | Begin                                    // DevClient::start finds devd up
    | Start(cmd: Bytes)                        // and writes its request
    | StartFailed(cmd: Bytes, reached: bool)   // or fails to, though the request may have got through
    | SendKill(id: nat)                        // Job::kill
    | Forget(id: nat)                          // the end of Job::drop
    | Connect
    | HostRead                                 // the reader takes one line
    | Break(cut: nat, n: nat)                  // n bytes of the line after the first cut lines arrive
    | HostPiece                                // the reader takes the piece the stream ends in
    | HostEof                                  // the reader sees the end of the stream
    | HostError                                // the reader sees an error
    | LoseLine(i: nat)
    | CutRequests(k: nat, n: nat)              // n bytes of the request after the first k arrive
    | GuestTake(forked: bool, why: Bytes)      // devd receives one item
    | Output(id: nat, text: Bytes)
    | Close(id: nat)
    | Ended(id: nat, status: nat)
    | Reap(id: nat)
    | Reopen(k: nat)                           // devd opens its port anew, or restarts; k items are gone

  function At<T>(m: map<nat, seq<T>>, id: nat): seq<T> { if id in m then m[id] else [] }

  function Without<T>(s: seq<T>, i: nat): seq<T>
    requires i < |s|
  {
    s[..i] + s[i + 1..]
  }

  // ---- The host ----

  /** What is written on a connection that has broken goes nowhere. */
  function Written(s: State, r: In.Request): seq<Item> {
    if s.conn.Open? then s.toGuest + [Full(r)] else s.toGuest
  }

  function DoStart(s: State, cmd: Bytes): State
    requires s.checked > 0
  {
    s.(next := s.next + 1, live := s.live + {s.next}, seen := s.seen[s.next := []],
       cmds := s.cmds[s.next := cmd], toGuest := Written(s, In.RunJob(s.next, cmd)), checked := s.checked - 1)
  }

  function DoStartFailed(s: State, cmd: Bytes, reached: bool): State
    requires s.checked > 0
  {
    s.(next := s.next + 1, cmds := s.cmds[s.next := cmd], checked := s.checked - 1,
       toGuest := if reached then Written(s, In.RunJob(s.next, cmd)) else s.toGuest)
  }

  function LoseAll(s: State): State {
    s.(live := {}, seen := map id | id in s.seen :: if id in s.live then s.seen[id] + [Lost] else s.seen[id])
  }

  function OnLine(s: State, l: Line): State {
    match l
    case Hello => LoseAll(s).(up := true)
    case Pong => s.(up := true)
    case Job(id, event) =>
      if id !in s.live then s
      else s.(seen := s.seen[id := At(s.seen, id) + [event]],
              live := if event.Out? then s.live else s.live - {id})
  }

  function DoEof(s: State): State { LoseAll(s).(conn := Down, up := false) }

  function DoConnect(s: State): State {
    s.(conn := Open, toGuest := s.toGuest + [Full(In.Ping)], born := s.next)
  }

  function Shorter(conn: Conn): Conn { if conn.Broken? && conn.cut > 0 then Broken(conn.cut - 1, conn.piece) else conn }

  predicate Readable(conn: Conn) { conn.Open? || (conn.Broken? && conn.cut > 0) }

  function TakeLine(s: State): State
    requires s.toHost != []
  {
    s.(toHost := s.toHost[1..], conn := Shorter(s.conn))
  }

  function DoRead(s: State): State
    requires s.toHost != []
  {
    OnLine(TakeLine(s), s.toHost[0])
  }

  /** A line of which only a piece arrives is gone. */
  function DoBreak(s: State, cut: nat, n: nat): State
    requires CanBreak(s.toHost, cut, n)
  {
    if n == 0 then s.(conn := Broken(cut, None))
    else s.(conn := Broken(cut, PieceRead(s.toHost[cut], n)), toHost := Without(s.toHost, cut))
  }

  predicate CanBreak(toHost: seq<Line>, cut: nat, n: nat) {
    cut <= |toHost| && (n > 0 ==> cut < |toHost| && n <= |Render(toHost[cut])|)
  }

  function PieceRead(l: Line, n: nat): Option<Line>
    requires n <= |Render(l)|
  {
    Parse(Render(l)[..n])
  }

  /** The piece of a line that the stream ends in. */
  function DoPiece(s: State): State
    requires s.conn.Broken? && s.conn.piece.Some?
  {
    OnLine(s.(conn := Broken(0, None)), s.conn.piece.value)
  }

  /** The first `k` items, and `n` bytes of the next. */
  function Delivered(items: seq<Item>, k: nat, n: nat): seq<Item>
    requires CanCut(items, k, n)
  {
    if n == 0 then items[..k] else items[..k] + [Item(items[k].request, n)]
  }

  predicate CanCut(items: seq<Item>, k: nat, n: nat) {
    k <= |items| && (n > 0 ==> k < |items| && n <= items[k].n)
  }

  // ---- The guest ----

  function Send(s: State, id: nat, event: Event): State {
    s.(toHost := s.toHost + [Job(id, event)],
       sent := if id in s.stray then s.sent else s.sent[id := At(s.sent, id) + [event]])
  }

  /** A line that devd dispatches; `own` when it is a request as the host wrote it. */
  function Dispatch(s: State, own: bool, r: Option<In.Request>, forked: bool, why: Bytes): State {
    match r
    case None => s
    case Some(Ping) => s.(toHost := s.toHost + [Pong])
    case Some(Kill(_)) => s
    case Some(RunJob(id, cmd)) =>
      var t := if own then s else s.(stray := s.stray + {id});
      if id in s.guest || |s.guest| >= MAX_JOBS || !forked then Send(t, id, Error(why))
      else t.(guest := t.guest[id := GuestJob(cmd, false, None)])
  }

  function DoTake(s: State, forked: bool, why: Bytes): State
    requires s.toGuest != []
  {
    var c := Take(s.rx, s.toGuest[0]);
    var t := s.(toGuest := s.toGuest[1..], rx := c.rx);
    if c.lines == [] then t else Dispatch(t, s.rx == [], In.ParseRequest(c.lines[0]), forked, why)
  }

  function DoReap(s: State, id: nat): State
    requires id in s.guest && s.guest[id].status.Some?
  {
    Send(s, id, Exit(s.guest[id].status.value)).(guest := s.guest - {id})
  }

  function DoReopen(s: State, k: nat): State
    requires k <= |s.toGuest|
  {
    s.(guest := map[], rx := [], toGuest := s.toGuest[k..], toHost := s.toHost + [Hello])
  }

  /** What `start` accepts: one line, no longer than devd reads. */
  predicate Accepts(s: State, cmd: Bytes) {
    Lacks(cmd, NL) && |In.Render(In.RunJob(s.next, cmd))| + 1 <= In.FULL
  }

  function Step(s: State, a: Action): Option<State> {
    match a
    case Begin => if s.up then Some(s.(checked := s.checked + 1)) else None
    case Start(cmd) =>
      if s.checked > 0 && !s.conn.Down? && Accepts(s, cmd) then Some(DoStart(s, cmd)) else None
    case StartFailed(cmd, reached) =>
      if s.checked > 0 && Accepts(s, cmd) then Some(DoStartFailed(s, cmd, reached)) else None
    case SendKill(id) =>
      if s.conn.Down? || id !in s.seen then None else Some(s.(toGuest := Written(s, In.Kill(id))))
    case Forget(id) => Some(s.(live := s.live - {id}))
    case Connect => if s.conn.Down? then Some(DoConnect(s)) else None
    case HostRead => if s.toHost != [] && Readable(s.conn) then Some(DoRead(s)) else None
    case Break(cut, n) => if s.conn.Open? && CanBreak(s.toHost, cut, n) then Some(DoBreak(s, cut, n)) else None
    case HostPiece => if s.conn.Broken? && s.conn.cut == 0 && s.conn.piece.Some? then Some(DoPiece(s)) else None
    case HostEof => if s.conn == Broken(0, None) then Some(DoEof(s)) else None
    case HostError => if s.conn.Down? then None else Some(DoEof(s))
    case LoseLine(i) =>
      if i < |s.toHost| && (s.conn.Down? || (s.conn.Broken? && i >= s.conn.cut))
      then Some(s.(toHost := Without(s.toHost, i))) else None
    case CutRequests(k, n) =>
      if !s.conn.Open? && CanCut(s.toGuest, k, n) then Some(s.(toGuest := Delivered(s.toGuest, k, n))) else None
    case GuestTake(forked, why) =>
      if s.toGuest != [] && Lacks(why, NL) then Some(DoTake(s, forked, why)) else None
    case Output(id, text) =>
      if id in s.guest && !s.guest[id].closed && Lacks(text, NL) then Some(Send(s, id, Out(text))) else None
    case Close(id) =>
      if id in s.guest then Some(s.(guest := s.guest[id := s.guest[id].(closed := true)])) else None
    case Ended(id, status) =>
      if id in s.guest && s.guest[id].status.None? && status < 256
      then Some(s.(guest := s.guest[id := s.guest[id].(status := Some(status))])) else None
    case Reap(id) =>
      if id in s.guest && s.guest[id].closed && s.guest[id].status.Some? then Some(DoReap(s, id)) else None
    case Reopen(k) => if k <= |s.toGuest| then Some(DoReopen(s, k)) else None
  }

  // ---- What the runs are about ----

  /** The events of job `id` among `lines`. */
  function For(lines: seq<Line>, id: nat): seq<Event> {
    if lines == [] then []
    else (if lines[0].Job? && lines[0].id == id then [lines[0].event] else []) + For(lines[1..], id)
  }

  predicate AllOut(h: seq<Event>) { forall i :: 0 <= i < |h| ==> h[i].Out? }

  /** Output, then at most one event that ends the job, and nothing after it. */
  predicate EndsOnce(h: seq<Event>) { h == [] || AllOut(h[..|h| - 1]) }

  /** What the guest sent of one job: it never says Lost. */
  predicate Proper(t: seq<Event>) { EndsOnce(t) && forall i :: 0 <= i < |t| ==> !t[i].Lost? }

  /** A job was told what the guest sent, in order and from the start, and perhaps then that it was lost. */
  predicate Told(h: seq<Event>, sent: seq<Event>) {
    || h <= sent
    || (|h| > 0 && h[|h| - 1].Lost? && h[..|h| - 1] <= sent && AllOut(h[..|h| - 1]))
  }

  // ---- The invariant; `base` is the first number this client gave ----

  /** The guest has not heard of a job whose request is on its way. */
  predicate RequestOk(base: nat, r: In.Request, guest: map<nat, GuestJob>,
                      sent: map<nat, seq<Event>>, cmds: map<nat, Bytes>, stray: set<nat>)
    requires r.RunJob?
  {
    base <= r.id ==>
      At(sent, r.id) == [] && r.id in cmds && cmds[r.id] == r.cmd && (r.id !in stray ==> r.id !in guest)
  }

  ghost predicate RequestsOk(base: nat, toGuest: seq<Item>, guest: map<nat, GuestJob>,
                             sent: map<nat, seq<Event>>, cmds: map<nat, Bytes>, stray: set<nat>) {
    && (forall i :: 0 <= i < |toGuest| && Asks(toGuest[i]) ==>
          RequestOk(base, toGuest[i].request, guest, sent, cmds, stray))
    && (forall i, j :: 0 <= i < j < |toGuest| && Asks(toGuest[i]) && Asks(toGuest[j]) && base <= toGuest[i].request.id
                       ==> toGuest[i].request.id != toGuest[j].request.id)
  }

  /** The guest runs each job's own command, and has sent only output of it. */
  ghost predicate GuestOk(base: nat, next: nat, guest: map<nat, GuestJob>, sent: map<nat, seq<Event>>,
                          cmds: map<nat, Bytes>, stray: set<nat>) {
    forall id :: id in guest ==>
      && id < next && (guest[id].status.Some? ==> guest[id].status.value < 256)
      && (base <= id && id !in stray ==> AllOut(At(sent, id)) && id in cmds && guest[id].cmd == In.Stripped(cmds[id]))
  }

  ghost predicate SentOk(base: nat, next: nat, sent: map<nat, seq<Event>>) {
    forall id :: id in sent ==> id < next && (base <= id ==> Proper(sent[id]))
  }

  /** Jobs may be started: devd has answered, or had. */
  predicate Gate(s: State) { s.up || s.checked > 0 }

  /** No line here says that devd is up. */
  predicate NoAnswer(lines: seq<Line>) { forall i :: 0 <= i < |lines| ==> lines[i].Job? }

  /** A line about a number that was not given yet is read before any job can be started. */
  ghost predicate LinesOk(next: nat, gate: bool, toHost: seq<Line>) {
    && next <= U32_LIMIT
    && forall i :: 0 <= i < |toHost| ==>
         Sendable(toHost[i]) && (toHost[i].Job? ==> toHost[i].id < next || (!gate && NoAnswer(toHost[..i])))
  }

  predicate Names(piece: Option<Line>, id: nat) {
    piece.Some? && piece.value.Job? && piece.value.id == id
  }

  /** Job `id` still runs after these lines have been read. */
  predicate Survives(lines: seq<Line>, id: nat) {
    (forall i :: 0 <= i < |lines| ==> !lines[i].Hello?) && AllOut(For(lines, id))
  }

  /** What was passed on and what can still be read make up what was sent, as far as the cut. */
  predicate Reaches(conn: Conn, toHost: seq<Line>, h: seq<Event>, sent: seq<Event>, id: nat) {
    match conn
    case Down => false
    case Open => h + For(toHost, id) == sent
    case Broken(cut, piece) =>
      && cut <= |toHost| && h + For(toHost[..cut], id) <= sent
      && (Names(piece, id) && Survives(toHost[..cut], id) ==>
            h + For(toHost[..cut], id) + [piece.value.event] <= sent)
  }

  ghost predicate LiveOk(live: set<nat>, born: nat, stray: set<nat>, conn: Conn, toHost: seq<Line>,
                         seen: map<nat, seq<Event>>, sent: map<nat, seq<Event>>) {
    forall id :: id in live ==>
      born <= id && id !in stray && id in seen && AllOut(seen[id]) && Reaches(conn, toHost, seen[id], At(sent, id), id)
  }

  ghost predicate SeenOk(base: nat, next: nat, seen: map<nat, seq<Event>>, sent: map<nat, seq<Event>>) {
    forall id :: id in seen ==> base <= id < next && Told(seen[id], At(sent, id))
  }

  /** The piece a broken stream ends in is of a line like those in the channel. */
  ghost predicate CutOk(conn: Conn, toHost: seq<Line>, next: nat, gate: bool) {
    conn.Broken? ==>
      && conn.cut <= |toHost|
      && (conn.piece.Some? && conn.piece.value.Job? ==>
            && !conn.piece.value.event.Lost?
            && (conn.piece.value.id < next || (!gate && NoAnswer(toHost[..conn.cut]))))
      && (conn.piece.Some? && !conn.piece.value.Job? ==>
            forall i :: conn.cut <= i < |toHost| && toHost[i].Job? ==> toHost[i].id < next)
  }

  /** Requests are delivered in order and up to a byte; on an open connection nothing is cut. */
  ghost predicate OrderOk(s: State) {
    && s.born <= s.next
    && Orderly(s.rx, s.toGuest, s.born, s.next) && (s.conn.Open? ==> Settled(s.rx, s.toGuest))
    && (forall id :: id in s.stray ==> id < s.next)
  }

  ghost predicate Inv(base: nat, s: State) {
    && base <= s.next
    && RequestsOk(base, s.toGuest, s.guest, s.sent, s.cmds, s.stray)
    && GuestOk(base, s.next, s.guest, s.sent, s.cmds, s.stray)
    && SentOk(base, s.next, s.sent)
    && LinesOk(s.next, Gate(s), s.toHost)
    && LiveOk(s.live, s.born, s.stray, s.conn, s.toHost, s.seen, s.sent)
    && SeenOk(base, s.next, s.seen, s.sent)
    && CutOk(s.conn, s.toHost, s.next, Gate(s))
    && OrderOk(s)
  }

  /** A client that has started nothing, with anything left over from clients before it: jobs in
      devd's table, lines, and requests or the start of one. */
  ghost predicate NewClient(s: State) {
    && s.live == {} && s.seen == map[] && s.cmds == map[] && s.sent == map[] && s.stray == {}
    && !s.up && s.checked == 0 && s.conn.Down? && s.born == s.next <= U32_LIMIT
    && |s.guest| <= MAX_JOBS
    && (forall i :: 0 <= i < |s.toHost| ==> Sendable(s.toHost[i]))
    && (forall id :: id in s.guest ==> id < U32_LIMIT && (s.guest[id].status.Some? ==> s.guest[id].status.value < 256))
    && Ordered(s.rx, s.toGuest, U32_LIMIT) && RxOk(s.rx)
  }

  /** Number `id` may yet be heard as a new client's: devd runs it, or a request for it is on its way,
      or a piece of one that a ping completes, or a line of it behind one that says devd is up. */
  ghost predicate InUse(s: State, id: nat) {
    || id in s.guest
    || (exists i :: 0 <= i < |s.toHost| && s.toHost[i].Job? && s.toHost[i].id == id && !NoAnswer(s.toHost[..i]))
    || (exists i :: 0 <= i < |s.toGuest| && Named(s.toGuest[i]) == Some(id))
    || In.Pending(s.rx) == Some(id)
  }

  /** A new client none of whose numbers is in use. */
  ghost predicate Init(s: State) {
    NewClient(s) && forall id: nat :: id >= s.next ==> !InUse(s, id)
  }

  /** A break after `cut` lines and `n` bytes that misleads a job: what arrives of the next line is
      taken for an event of a job that still runs then, and the next event that was sent of that
      job is another one. */
  ghost predicate Misleads(s: State, cut: nat, n: nat)
    requires CanBreak(s.toHost, cut, n)
  {
    && n > 0
    && var p := PieceRead(s.toHost[cut], n);
       && p.Some? && p.value.Job? && p.value.id in s.live && Survives(s.toHost[..cut], p.value.id)
       && !([p.value.event] <= For(s.toHost[cut..], p.value.id))
  }

  /** Job numbers do not wrap, no break misleads a job, and no command holds a NUL. */
  ghost predicate Safe(s: State, a: Action) {
    && (a.Start? || a.StartFailed? ==> s.next < U32_LIMIT && Lacks(a.cmd, In.NUL))
    && (a.Break? && CanBreak(s.toHost, a.cut, a.n) ==> !Misleads(s, a.cut, a.n))
  }

  // ---- Facts about the parts ----

  lemma {:induction false} ForConcat(a: seq<Line>, b: seq<Line>, id: nat)
    ensures For(a + b, id) == For(a, id) + For(b, id)
  {
    if a == [] {
      assert a + b == b;
    } else {
      assert (a + b)[1..] == a[1..] + b;
      ForConcat(a[1..], b, id);
    }
  }

  lemma ForSnoc(a: seq<Line>, l: Line, id: nat)
    ensures For(a + [l], id) == if l.Job? && l.id == id then For(a, id) + [l.event] else For(a, id)
  {
    ForConcat(a, [l], id);
    assert [l][1..] == [];
  }

  lemma {:induction false} ForUnknown(lines: seq<Line>, id: nat)
    requires forall i :: 0 <= i < |lines| && lines[i].Job? ==> lines[i].id != id
    ensures For(lines, id) == []
  {
    if lines != [] {
      ForUnknown(lines[1..], id);
    }
  }

  /** Adding a line that is not job `id`'s. */
  lemma ReachesMore(conn: Conn, toHost: seq<Line>, l: Line, h: seq<Event>, sent: seq<Event>, id: nat)
    requires Reaches(conn, toHost, h, sent, id) && !(l.Job? && l.id == id)
    ensures Reaches(conn, toHost + [l], h, sent, id)
  {
    ForSnoc(toHost, l, id);
    if conn.Broken? {
      assert (toHost + [l])[..conn.cut] == toHost[..conn.cut];
    }
  }

  lemma ReachesSent(conn: Conn, toHost: seq<Line>, e: Event, h: seq<Event>, sent: seq<Event>, id: nat)
    requires Reaches(conn, toHost, h, sent, id)
    ensures Reaches(conn, toHost + [Job(id, e)], h, sent + [e], id)
  {
    ForSnoc(toHost, Job(id, e), id);
    if conn.Broken? {
      assert (toHost + [Job(id, e)])[..conn.cut] == toHost[..conn.cut];
    }
  }

  lemma SurvivesFirst(lines: seq<Line>, id: nat)
    requires lines != [] && !lines[0].Hello? && (lines[0].Job? && lines[0].id == id ==> lines[0].event.Out?)
    ensures Survives(lines, id) <==> Survives(lines[1..], id)
  {
    var rest := lines[1..];
    assert forall i :: 0 <= i < |rest| ==> rest[i] == lines[i + 1];
    if AllOut(For(rest, id)) {
      assert AllOut(For(lines, id));
    }
    if AllOut(For(lines, id)) && For(lines, id) != For(rest, id) {
      assert forall i :: 0 <= i < |For(rest, id)| ==> For(rest, id)[i] == For(lines, id)[i + 1];
    }
  }

  lemma ForFirst(lines: seq<Line>, id: nat)
    requires lines != []
    ensures For(lines, id) ==
            (if lines[0].Job? && lines[0].id == id then [lines[0].event] else []) + For(lines[1..], id)
  {
  }

  /** The lines the host can still read. */
  function Left(conn: Conn, toHost: seq<Line>): seq<Line>
    requires conn.Broken? ==> conn.cut <= |toHost|
  {
    if conn.Broken? then toHost[..conn.cut] else toHost
  }

  lemma LeftAfter(conn: Conn, toHost: seq<Line>)
    requires toHost != [] && Readable(conn) && (conn.Broken? ==> conn.cut <= |toHost|)
    ensures var lines := Left(conn, toHost);
            lines != [] && lines[0] == toHost[0] && Left(Shorter(conn), toHost[1..]) == lines[1..]
  {
    if conn.Broken? {
      assert toHost[..conn.cut][1..] == toHost[1..][..conn.cut - 1];
    }
  }

  /** What job `id` was told and can still be told, before and after the first line is read. */
  lemma ForAfter(lines: seq<Line>, h: seq<Event>, id: nat)
    requires lines != []
    ensures var l := lines[0];
            h + For(lines, id) == (if l.Job? && l.id == id then h + [l.event] else h) + For(lines[1..], id)
  {
    hide For;
    ForFirst(lines, id);
    var l, rest := lines[0], For(lines[1..], id);
    if l.Job? && l.id == id {
      assert h + ([l.event] + rest) == h + [l.event] + rest;
    } else {
      assert [] + rest == rest;
    }
  }

  /** Reading the first line moves it from the channel to its job, if that still runs then. */
  lemma ReachesRead(conn: Conn, toHost: seq<Line>, h: seq<Event>, sent: seq<Event>, id: nat)
    requires toHost != [] && Readable(conn) && Reaches(conn, toHost, h, sent, id)
    requires var l := toHost[0]; !l.Hello? && (l.Job? && l.id == id ==> l.event.Out?)
    ensures var l := toHost[0];
            Reaches(Shorter(conn), toHost[1..], if l.Job? && l.id == id then h + [l.event] else h, sent, id)
  {
    hide Survives, For;
    var lines := Left(conn, toHost);
    LeftAfter(conn, toHost);
    ForAfter(lines, h, id);
    SurvivesFirst(lines, id);
  }

  /** The event read is the next that was sent. */
  lemma ReadIsNext(conn: Conn, toHost: seq<Line>, h: seq<Event>, sent: seq<Event>, id: nat)
    requires toHost != [] && Readable(conn) && Reaches(conn, toHost, h, sent, id)
    requires toHost[0].Job? && toHost[0].id == id
    ensures h + [toHost[0].event] <= sent
  {
    hide Survives, For;
    LeftAfter(conn, toHost);
    ForAfter(Left(conn, toHost), h, id);
  }

  lemma ReachesTold(conn: Conn, toHost: seq<Line>, h: seq<Event>, sent: seq<Event>, id: nat)
    requires Reaches(conn, toHost, h, sent, id)
    ensures h <= sent
  {
  }

  // ---- Every step keeps the invariant: the host's ----

  lemma GateLines(next: nat, gate: bool, toHost: seq<Line>, n: nat, g: bool)
    requires LinesOk(next, gate, toHost) && next <= n && (n <= U32_LIMIT || n == next) && (g ==> gate)
    ensures LinesOk(n, g, toHost)
  {
    hide Sendable;
  }

  lemma GateCut(conn: Conn, toHost: seq<Line>, next: nat, gate: bool, n: nat, g: bool)
    requires CutOk(conn, toHost, next, gate) && next <= n && (g ==> gate)
    ensures CutOk(conn, toHost, n, g)
  {
  }

  /** A request on its way asks for a number that was given. */
  lemma AskedIsGiven(rx: Bytes, items: seq<Item>, born: nat, next: nat, i: nat)
    requires Orderly(rx, items, born, next) && i < |items| && Asks(items[i])
    ensures items[i].request.id < next
  {
    hide Numbers, Named, In.Render, In.Deliverable;
    assert items[i] == Full(items[i].request);
    assert ItemOk(items[i]);
    WholeNames(items[i].request);
  }

  lemma OrderlyGrows(rx: Bytes, items: seq<Item>, born: nat, next: nat, b: nat, n: nat)
    requires Orderly(rx, items, born, next) && born <= b && next <= n
    ensures Orderly(rx, items, b, n)
  {
    hide Numbers, Named, ItemOk, Whole;
    NumbersGrow(rx, items, born, next, b, n);
  }

  /** A request written on the connection as it is. */
  lemma WrittenKeepsOrder(s: State, r: In.Request)
    requires OrderOk(s) && In.Deliverable(r) && (r.RunJob? ==> r.id <= s.next)
    ensures var next := if r.RunJob? then s.next + 1 else s.next;
            && Orderly(s.rx, Written(s, r), s.born, next)
            && (s.conn.Open? ==> Settled(s.rx, Written(s, r)))
  {
    hide Numbers, Named, In.Render, In.Deliverable, After, Orderly;
    var next := if r.RunJob? then s.next + 1 else s.next;
    OrderlyGrows(s.rx, s.toGuest, s.born, s.next, s.born, next);
    if s.conn.Open? {
      AfterIsBelow(s.rx, s.toGuest, s.born, next);
      NothingNamed(s.born);
      WholeNames(r);
      OrderlySnoc(s.rx, s.toGuest, Full(r), s.born, next);
    }
  }

  /** A new request asks for a number the guest has never heard of. */
  lemma NewRequestOk(base: nat, s: State, cmd: Bytes)
    requires Inv(base, s)
    ensures var cmds := s.cmds[s.next := cmd];
            && RequestsOk(base, s.toGuest, s.guest, s.sent, cmds, s.stray)
            && RequestsOk(base, Written(s, In.RunJob(s.next, cmd)), s.guest, s.sent, cmds, s.stray)
  {
    hide AllOut, Proper, LiveOk, SeenOk, LinesOk, CutOk, Orderly, In.Render;
    var cmds := s.cmds[s.next := cmd];
    forall i | 0 <= i < |s.toGuest| && Asks(s.toGuest[i])
      ensures s.toGuest[i].request.id < s.next && RequestOk(base, s.toGuest[i].request, s.guest, s.sent, cmds, s.stray)
    {
      AskedIsGiven(s.rx, s.toGuest, s.born, s.next, i);
    }
  }

  lemma NewNumberKeepsInv(base: nat, s: State, cmd: Bytes)
    requires Inv(base, s) && s.next < U32_LIMIT
    ensures var cmds := s.cmds[s.next := cmd];
            && GuestOk(base, s.next + 1, s.guest, s.sent, cmds, s.stray) && SentOk(base, s.next + 1, s.sent)
            && SeenOk(base, s.next + 1, s.seen, s.sent)
  {
    hide AllOut, Proper, Told, RequestsOk, LiveOk, LinesOk, CutOk, OrderOk;
  }

  lemma NewJobReaches(s: State)
    requires LinesOk(s.next, true, s.toHost) && CutOk(s.conn, s.toHost, s.next, true) && !s.conn.Down?
    ensures Reaches(s.conn, s.toHost, [], [], s.next)
  {
    hide Survives, Sendable;
    ForUnknown(s.toHost, s.next);
    if s.conn.Broken? {
      ForUnknown(s.toHost[..s.conn.cut], s.next);
    }
  }

  lemma StartKeepsInv(base: nat, s: State, cmd: Bytes)
    requires Inv(base, s) && s.next < U32_LIMIT && !s.conn.Down? && s.checked > 0
    requires Accepts(s, cmd) && Lacks(cmd, In.NUL)
    ensures Inv(base, DoStart(s, cmd))
  {
    hide RequestsOk, GuestOk, LinesOk, CutOk, Reaches, Told, Orderly, Settled, Written, In.Render;
    var t := DoStart(s, cmd);
    NewRequestOk(base, s, cmd);
    NewNumberKeepsInv(base, s, cmd);
    NewJobReaches(s);
    WrittenKeepsOrder(s, In.RunJob(s.next, cmd));
    GateLines(s.next, true, s.toHost, t.next, Gate(t));
    GateCut(s.conn, s.toHost, s.next, true, t.next, Gate(t));
    NothingTold(At(s.sent, s.next));
  }

  lemma NothingTold(sent: seq<Event>)
    ensures Told([], sent)
  {
  }

  lemma StartFailedKeepsInv(base: nat, s: State, cmd: Bytes, reached: bool)
    requires Inv(base, s) && s.next < U32_LIMIT && s.checked > 0 && Accepts(s, cmd) && Lacks(cmd, In.NUL)
    ensures Inv(base, DoStartFailed(s, cmd, reached))
  {
    hide RequestsOk, GuestOk, LinesOk, CutOk, LiveOk, SeenOk, SentOk, Orderly, Settled, Written, In.Render;
    var t := DoStartFailed(s, cmd, reached);
    NewRequestOk(base, s, cmd);
    NewNumberKeepsInv(base, s, cmd);
    WrittenKeepsOrder(s, In.RunJob(s.next, cmd));
    OrderlyGrows(s.rx, s.toGuest, s.born, s.next, s.born, t.next);
    GateLines(s.next, true, s.toHost, t.next, Gate(t));
    GateCut(s.conn, s.toHost, s.next, true, t.next, Gate(t));
  }

  lemma BeginKeepsInv(base: nat, s: State)
    requires Inv(base, s) && s.up
    ensures Inv(base, s.(checked := s.checked + 1))
  {
    hide RequestsOk, GuestOk, LinesOk, CutOk, LiveOk, SeenOk, SentOk, Orderly, Settled;
  }

  lemma KillKeepsInv(base: nat, s: State, id: nat)
    requires Inv(base, s) && id in s.seen
    ensures Inv(base, s.(toGuest := Written(s, In.Kill(id))))
  {
    hide GuestOk, LiveOk, SentOk, CutOk, Orderly, Settled, In.Render;
    KillIsDeliverable(id);
    WrittenKeepsOrder(s, In.Kill(id));
    MoreRequests(base, s, In.Kill(id));
  }

  lemma KillIsDeliverable(id: nat)
    requires id < U32_LIMIT
    ensures In.Deliverable(In.Kill(id))
  {
    DecIsShort(id, 10);
  }

  lemma {:induction false} DecIsShort(n: nat, d: nat)
    requires 0 < d && n < Pow10(d)
    ensures |Dec(n)| <= d
    decreases d
  {
    if n >= 10 {
      DecIsShort(n / 10, d - 1);
    }
  }

  function Pow10(d: nat): nat { if d == 0 then 1 else 10 * Pow10(d - 1) }

  lemma MoreRequests(base: nat, s: State, r: In.Request)
    requires RequestsOk(base, s.toGuest, s.guest, s.sent, s.cmds, s.stray) && !r.RunJob?
    ensures RequestsOk(base, s.toGuest + [Full(r)], s.guest, s.sent, s.cmds, s.stray)
    ensures RequestsOk(base, Written(s, r), s.guest, s.sent, s.cmds, s.stray)
  {
    hide RequestOk, In.Render;
    var more := s.toGuest + [Full(r)];
    assert forall i :: 0 <= i < |more| && Asks(more[i]) ==> i < |s.toGuest| && more[i] == s.toGuest[i];
  }

  lemma ConnectKeepsInv(base: nat, s: State)
    requires Inv(base, s) && s.conn.Down?
    ensures Inv(base, DoConnect(s))
  {
    hide GuestOk, SentOk, SeenOk, LinesOk, CutOk, Orderly, In.Render, RequestsOk;
    assert s.live == {};
    MoreRequests(base, s, In.Ping);
    ConnectKeepsOrder(s);
    NoCut(s.toHost, s.next, Gate(s));
  }

  lemma NoCut(toHost: seq<Line>, next: nat, gate: bool)
    ensures CutOk(Open, toHost, next, gate) && CutOk(Down, toHost, next, gate)
  {
  }

  lemma ConnectKeepsOrder(s: State)
    requires OrderOk(s)
    ensures OrderOk(DoConnect(s))
  {
    hide Orderly, In.Render, After;
    var ping := Full(In.Ping);
    OrderlyGrows(s.rx, s.toGuest, s.born, s.next, s.next, s.next);
    AfterIsBelow(s.rx, s.toGuest, s.next, s.next);
    PingNamesNothing(ping, s.next);
    PingIsDeliverable();
    OrderlySnoc(s.rx, s.toGuest, ping, s.next, s.next);
  }

  lemma PingIsDeliverable()
    ensures In.Deliverable(In.Ping) && ItemOk(Full(In.Ping))
  {
  }

  /** Losing jobs that were told what was sent. */
  lemma LoseAllTold(base: nat, s: State)
    requires SeenOk(base, s.next, s.seen, s.sent)
    requires forall id :: id in s.live ==> id in s.seen && AllOut(s.seen[id]) && s.seen[id] <= At(s.sent, id)
    ensures var t := LoseAll(s); SeenOk(base, t.next, t.seen, t.sent)
  {
    var t := LoseAll(s);
    forall id | id in t.seen ensures base <= id < t.next && Told(t.seen[id], At(t.sent, id)) {
      if id in s.live {
        assert t.seen[id][..|t.seen[id]| - 1] == s.seen[id];
      }
    }
  }

  lemma LiveAreTold(s: State)
    requires LiveOk(s.live, s.born, s.stray, s.conn, s.toHost, s.seen, s.sent)
    ensures forall id :: id in s.live ==> id in s.seen && AllOut(s.seen[id]) && s.seen[id] <= At(s.sent, id)
  {
    hide Reaches;
    forall id | id in s.live ensures s.seen[id] <= At(s.sent, id) {
      ReachesTold(s.conn, s.toHost, s.seen[id], At(s.sent, id), id);
    }
  }

  /** All jobs are lost; nothing else of the state changes. */
  lemma LoseAllKeepsInv(base: nat, s: State)
    requires Inv(base, s)
    ensures Inv(base, LoseAll(s)) && Inv(base, DoEof(s))
  {
    hide RequestsOk, GuestOk, SentOk, LinesOk, SeenOk, CutOk, Orderly, Settled;
    LiveAreTold(s);
    LoseAllTold(base, s);
    GateLines(s.next, Gate(s), s.toHost, s.next, Gate(DoEof(s)));
    NoCut(s.toHost, s.next, Gate(DoEof(s)));
  }

  /** A line goes from the channel to its job. */
  lemma ReadKeepsInv(base: nat, s: State)
    requires Inv(base, s) && s.toHost != [] && Readable(s.conn)
    ensures Inv(base, DoRead(s))
  {
    hide Inv, DoRead;
    if s.toHost[0].Hello? {
      HelloKeepsInv(base, s);
    } else {
      OtherLineKeepsInv(base, s);
    }
  }

  lemma HelloKeepsInv(base: nat, s: State)
    requires Inv(base, s) && s.toHost != [] && Readable(s.conn) && s.toHost[0].Hello?
    ensures Inv(base, DoRead(s))
  {
    hide RequestsOk, GuestOk, SentOk, LiveOk, SeenOk, LinesOk, CutOk, Orderly, Settled;
    TakeKeepsLines(s);
    LoseAllKeepsInv(base, s);
    HelloLoses(s);
  }

  lemma OtherLineKeepsInv(base: nat, s: State)
    requires Inv(base, s) && s.toHost != [] && Readable(s.conn) && !s.toHost[0].Hello?
    ensures Inv(base, DoRead(s))
  {
    hide RequestsOk, GuestOk, SentOk, LiveOk, SeenOk, LinesOk, CutOk, Orderly, Settled;
    TakeKeepsLines(s);
    ReadKeepsLive(s);
    ReadKeepsSeen(base, s);
  }

  /** Once a line says that devd is up, no line is left of a number that was not given. */
  lemma TakeKeepsLines(s: State)
    requires LinesOk(s.next, Gate(s), s.toHost) && CutOk(s.conn, s.toHost, s.next, Gate(s)) && s.toHost != []
    requires Readable(s.conn)
    ensures var gate := Gate(s) || !s.toHost[0].Job?;
            && LinesOk(s.next, gate, s.toHost[1..])
            && CutOk(Shorter(s.conn), s.toHost[1..], s.next, gate)
  {
    hide Sendable;
    var rest := s.toHost[1..];
    forall i | 0 <= i < |rest| ensures rest[i] == s.toHost[i + 1] && rest[..i] == s.toHost[..i + 1][1..] {
    }
    if s.conn.Broken? {
      assert rest[..s.conn.cut - 1] == s.toHost[..s.conn.cut][1..];
      assert s.toHost[..s.conn.cut][0] == s.toHost[0];
    }
    forall i | 0 <= i < |rest| && rest[i].Job? && rest[i].id >= s.next
      ensures !Gate(s) && s.toHost[0].Job? && NoAnswer(rest[..i])
    {
      assert s.toHost[..i + 1][0] == s.toHost[0];
    }
  }

  lemma HelloLoses(s: State)
    requires s.toHost != [] && s.toHost[0].Hello?
    ensures DoRead(s) == LoseAll(s).(toHost := s.toHost[1..], conn := Shorter(s.conn), up := true)
    ensures LoseAll(s).live == {}
    ensures LiveOk({}, s.born, s.stray, Shorter(s.conn), s.toHost[1..], LoseAll(s).seen, s.sent)
  {
  }

  lemma ReadKeepsSeen(base: nat, s: State)
    requires SeenOk(base, s.next, s.seen, s.sent) && LiveOk(s.live, s.born, s.stray, s.conn, s.toHost, s.seen, s.sent)
    requires s.toHost != [] && Readable(s.conn) && !s.toHost[0].Hello?
    ensures var t := DoRead(s); SeenOk(base, t.next, t.seen, t.sent)
  {
    hide Reaches, AllOut;
    var l := s.toHost[0];
    if l.Job? && l.id in s.live {
      ReadIsNext(s.conn, s.toHost, s.seen[l.id], At(s.sent, l.id), l.id);
    }
  }

  lemma ReadKeepsLive(s: State)
    requires LiveOk(s.live, s.born, s.stray, s.conn, s.toHost, s.seen, s.sent)
    requires s.toHost != [] && Readable(s.conn) && !s.toHost[0].Hello?
    ensures var t := DoRead(s); LiveOk(t.live, t.born, t.stray, t.conn, t.toHost, t.seen, t.sent)
  {
    hide Reaches;
    var t := DoRead(s);
    forall id | id in t.live
      ensures id in t.seen && AllOut(t.seen[id]) && Reaches(t.conn, t.toHost, t.seen[id], At(t.sent, id), id)
    {
      ReachesRead(s.conn, s.toHost, s.seen[id], At(s.sent, id), id);
    }
  }

  lemma CutReaches(toHost: seq<Line>, left: seq<Line>, cut: nat, piece: Option<Line>, h: seq<Event>,
                   sent: seq<Event>, id: nat)
    requires cut <= |toHost| && cut <= |left| && left[..cut] == toHost[..cut] && h + For(toHost, id) == sent
    ensures Reaches(Broken(cut, piece), left, h, sent, id) <==>
            !(Names(piece, id) && Survives(toHost[..cut], id) && !([piece.value.event] <= For(toHost[cut..], id)))
  {
    hide For, Survives;
    ForConcat(toHost[..cut], toHost[cut..], id);
    assert toHost[..cut] + toHost[cut..] == toHost;
    var got, later := h + For(toHost[..cut], id), For(toHost[cut..], id);
    assert got + later == sent;
    if Names(piece, id) {
      PrefixAfter(got, later, piece.value.event);
    }
  }

  /** What a job that runs on a broken connection will still be told. */
  lemma BreakReaches(s: State, cut: nat, n: nat, id: nat)
    requires s.conn.Open? && CanBreak(s.toHost, cut, n) && id in s.live && id in s.seen
    requires Reaches(Open, s.toHost, s.seen[id], At(s.sent, id), id)
    ensures var t := DoBreak(s, cut, n);
            Reaches(t.conn, t.toHost, s.seen[id], At(s.sent, id), id) <==>
            !(Misleads(s, cut, n) && PieceRead(s.toHost[cut], n).value.id == id)
  {
    hide PieceRead, Survives, For;
    var t := DoBreak(s, cut, n);
    assert t.toHost[..cut] == s.toHost[..cut];
    CutReaches(s.toHost, t.toHost, cut, t.conn.piece, s.seen[id], At(s.sent, id), id);
  }

  lemma PrefixAfter(got: seq<Event>, later: seq<Event>, e: Event)
    ensures got + [e] <= got + later <==> [e] <= later
  {
    if got + [e] <= got + later {
      assert (got + later)[|got|] == e;
    }
  }

  /** A break keeps the invariant exactly when it does not mislead. */
  lemma BreakKeepsInv(base: nat, s: State, cut: nat, n: nat)
    requires Inv(base, s) && s.conn.Open? && CanBreak(s.toHost, cut, n)
    ensures Inv(base, DoBreak(s, cut, n)) <==> !Misleads(s, cut, n)
  {
    hide RequestsOk, GuestOk, SentOk, SeenOk, Reaches, PieceRead, AllOut, Survives, LinesOk, CutOk, Orderly, Settled;
    var t := DoBreak(s, cut, n);
    forall id | id in s.live
      ensures Reaches(t.conn, t.toHost, s.seen[id], At(s.sent, id), id) <==>
              !(Misleads(s, cut, n) && PieceRead(s.toHost[cut], n).value.id == id)
    {
      BreakReaches(s, cut, n, id);
    }
    BreakKeepsLines(s, cut, n);
  }

  lemma BreakKeepsLines(s: State, cut: nat, n: nat)
    requires LinesOk(s.next, Gate(s), s.toHost) && CanBreak(s.toHost, cut, n)
    ensures var t := DoBreak(s, cut, n); LinesOk(t.next, Gate(t), t.toHost) && CutOk(t.conn, t.toHost, t.next, Gate(t))
  {
    hide Sendable, PieceRead;
    var t := DoBreak(s, cut, n);
    if n > 0 {
      PieceIsKnown(s.next, Gate(s), s.toHost, cut, n);
      assert t.toHost[..cut] == s.toHost[..cut];
      WithoutKeepsLines(s.next, Gate(s), s.toHost, cut);
      var l := s.toHost[cut];
      if !l.Job? {
        forall i | cut <= i < |t.toHost| && t.toHost[i].Job? ensures t.toHost[i].id < s.next {
          assert t.toHost[i] == s.toHost[i + 1] && s.toHost[..i + 1][cut] == l;
        }
      }
    }
  }

  lemma WithoutKeepsLines(next: nat, gate: bool, toHost: seq<Line>, k: nat)
    requires LinesOk(next, gate, toHost) && k < |toHost|
    ensures LinesOk(next, gate, Without(toHost, k))
  {
    hide Sendable;
    var left := Without(toHost, k);
    forall i | 0 <= i < |left|
      ensures Sendable(left[i]) && (left[i].Job? ==> left[i].id < next || (!gate && NoAnswer(left[..i])))
    {
      if i < k {
        assert left[..i] == toHost[..i];
      } else {
        assert left[i] == toHost[i + 1];
        if left[i].Job? && left[i].id >= next {
          forall j | 0 <= j < i ensures left[..i][j].Job? {
            assert left[j] == toHost[..i + 1][if j < k then j else j + 1];
          }
        }
      }
    }
  }

  lemma PieceIsKnown(next: nat, gate: bool, toHost: seq<Line>, cut: nat, n: nat)
    requires LinesOk(next, gate, toHost) && cut < |toHost| && n <= |Render(toHost[cut])|
    ensures var p := PieceRead(toHost[cut], n);
            && (p.Some? && p.value.Job? ==>
                  !p.value.event.Lost? && (p.value.id < next || (!gate && NoAnswer(toHost[..cut]))))
            && (p.Some? && !p.value.Job? ==> !toHost[cut].Job?)
  {
    hide Parse, Render, Enough;
    MisreadIff(toHost[cut], n);
  }

  /** The last piece of a stream is told to its job. */
  lemma PieceKeepsInv(base: nat, s: State)
    requires Inv(base, s) && s.conn.Broken? && s.conn.cut == 0 && s.conn.piece.Some?
    ensures Inv(base, DoPiece(s))
  {
    hide RequestsOk, GuestOk, SentOk, LinesOk, SeenOk, LiveOk, Orderly, Settled;
    PieceTells(base, s);
    PieceOpens(s);
  }

  lemma PieceOpens(s: State)
    requires LinesOk(s.next, Gate(s), s.toHost) && CutOk(s.conn, s.toHost, s.next, Gate(s))
    requires s.conn.Broken? && s.conn.cut == 0 && s.conn.piece.Some?
    ensures var t := DoPiece(s); LinesOk(t.next, Gate(t), t.toHost) && CutOk(t.conn, t.toHost, t.next, Gate(t))
  {
    hide Sendable, LoseAll, NoAnswer;
    assert LoseAll(s.(conn := Broken(0, None))) == LoseAll(s).(conn := Broken(0, None)) by { LoseAllKeeps(s); }
    LoseAllKeeps(s.(conn := Broken(0, None)));
  }

  lemma LoseAllKeeps(s: State)
    ensures LoseAll(s) == s.(live := {}, seen := LoseAll(s).seen)
    ensures LoseAll(s.(conn := Broken(0, None))) == LoseAll(s).(conn := Broken(0, None))
  {
  }

  lemma PieceTells(base: nat, s: State)
    requires SeenOk(base, s.next, s.seen, s.sent) && LiveOk(s.live, s.born, s.stray, s.conn, s.toHost, s.seen, s.sent)
    requires s.conn.Broken? && s.conn.cut == 0 && s.conn.piece.Some?
    ensures var t := DoPiece(s);
            && SeenOk(base, t.next, t.seen, t.sent)
            && LiveOk(t.live, t.born, t.stray, t.conn, t.toHost, t.seen, t.sent)
  {
    hide SeenOk, LiveOk;
    if s.conn.piece.value.Hello? {
      PieceIsHello(base, s);
    } else {
      PieceIsLine(base, s);
    }
  }

  lemma PieceIsHello(base: nat, s: State)
    requires SeenOk(base, s.next, s.seen, s.sent) && LiveOk(s.live, s.born, s.stray, s.conn, s.toHost, s.seen, s.sent)
    requires s.conn.Broken? && s.conn.piece == Some(Hello)
    ensures var t := DoPiece(s);
            && SeenOk(base, t.next, t.seen, t.sent)
            && LiveOk(t.live, t.born, t.stray, t.conn, t.toHost, t.seen, t.sent)
  {
    hide SeenOk, Reaches;
    LiveAreTold(s);
    LoseAllTold(base, s.(conn := Broken(0, None)));
  }

  lemma PieceIsLine(base: nat, s: State)
    requires SeenOk(base, s.next, s.seen, s.sent) && LiveOk(s.live, s.born, s.stray, s.conn, s.toHost, s.seen, s.sent)
    requires s.conn.Broken? && s.conn.cut == 0 && s.conn.piece.Some? && !s.conn.piece.value.Hello?
    ensures var t := DoPiece(s);
            && SeenOk(base, t.next, t.seen, t.sent)
            && LiveOk(t.live, t.born, t.stray, t.conn, t.toHost, t.seen, t.sent)
  {
    hide SeenOk, Reaches, Told;
    var l := s.conn.piece.value;
    LiveAreTold(s);
    LiveAfterEnd(s);
    if l.Job? && l.id in s.live {
      PieceIsNext(s.conn.piece, s.toHost, s.seen[l.id], At(s.sent, l.id), l.id);
      NothingLeft(s.toHost, s.seen[l.id] + [l.event], At(s.sent, l.id), l.id);
      SeenGrows(base, s, l.id, l.event);
    }
  }

  lemma LiveAfterEnd(s: State)
    requires LiveOk(s.live, s.born, s.stray, s.conn, s.toHost, s.seen, s.sent)
    requires s.conn.Broken? && s.conn.cut == 0
    ensures LiveOk(s.live, s.born, s.stray, Broken(0, None), s.toHost, s.seen, s.sent)
  {
    hide Reaches;
    LiveAreTold(s);
    forall id | id in s.live ensures Reaches(Broken(0, None), s.toHost, s.seen[id], At(s.sent, id), id) {
      NothingLeft(s.toHost, s.seen[id], At(s.sent, id), id);
    }
  }

  lemma SeenGrows(base: nat, s: State, id: nat, event: Event)
    requires SeenOk(base, s.next, s.seen, s.sent) && id in s.seen && s.seen[id] + [event] <= At(s.sent, id)
    ensures SeenOk(base, s.next, s.seen[id := s.seen[id] + [event]], s.sent)
  {
  }

  lemma NothingLeft(toHost: seq<Line>, h: seq<Event>, sent: seq<Event>, id: nat)
    requires h <= sent
    ensures Reaches(Broken(0, None), toHost, h, sent, id)
  {
    assert toHost[..0] == [];
    assert h + [] == h;
  }

  lemma PieceIsNext(piece: Option<Line>, toHost: seq<Line>, h: seq<Event>, sent: seq<Event>, id: nat)
    requires Reaches(Broken(0, piece), toHost, h, sent, id) && Names(piece, id)
    ensures h + [piece.value.event] <= sent
  {
    assert toHost[..0] == [];
    assert h + [] == h;
  }

  lemma LoseLineKeepsInv(base: nat, s: State, i: nat)
    requires Inv(base, s) && i < |s.toHost| && (s.conn.Down? || (s.conn.Broken? && i >= s.conn.cut))
    ensures Inv(base, s.(toHost := Without(s.toHost, i)))
  {
    hide RequestsOk, GuestOk, SentOk, SeenOk, LinesOk, Orderly, Settled;
    var t := s.(toHost := Without(s.toHost, i));
    WithoutKeepsLines(s.next, Gate(s), s.toHost, i);
    forall id | id in s.live ensures Reaches(t.conn, t.toHost, s.seen[id], At(s.sent, id), id) {
      assert t.toHost[..s.conn.cut] == s.toHost[..s.conn.cut];
    }
    if s.conn.Broken? {
      assert t.toHost[..s.conn.cut] == s.toHost[..s.conn.cut];
      assert forall j :: 0 <= j < |t.toHost| ==> t.toHost[j] == s.toHost[if j < i then j else j + 1];
    }
  }

  lemma ForgetKeepsInv(base: nat, s: State, id: nat)
    requires Inv(base, s)
    ensures Inv(base, s.(live := s.live - {id}))
  {
    hide SeenOk, SentOk, LinesOk, GuestOk, RequestsOk, Reaches, AllOut, CutOk, Orderly, Settled;
  }

  lemma CutRequestsKeepsInv(base: nat, s: State, k: nat, n: nat)
    requires Inv(base, s) && !s.conn.Open? && CanCut(s.toGuest, k, n)
    ensures Inv(base, s.(toGuest := Delivered(s.toGuest, k, n)))
  {
    hide SeenOk, SentOk, LinesOk, GuestOk, LiveOk, CutOk, Orderly, Settled, In.Render, RequestOk;
    var left := Delivered(s.toGuest, k, n);
    OrderlyPrefix(s.rx, s.toGuest, k, s.born, s.next);
    if n > 0 {
      OrderlyCut(s.rx, s.toGuest, k, n, s.born, s.next);
      OrderlyParts(s.rx, s.toGuest, s.born, s.next);
      assert ItemOk(s.toGuest[k]);
    }
    forall i | 0 <= i < |left| && Asks(left[i]) ensures left[i] == s.toGuest[i] {
      assert i < k || (i == k && left[i].n == n);
    }
  }

  // ---- and the guest's ----

  /** A line about job `id`, with a number that was given. */
  lemma SendKeepsInv(base: nat, s: State, id: nat, event: Event)
    requires Inv(base, s) && id < s.next && Sendable(Job(id, event))
    requires base <= id && id !in s.stray ==> AllOut(At(s.sent, id)) && (id in s.guest ==> event.Out?)
    requires base <= id && id !in s.stray ==>
               forall i :: 0 <= i < |s.toGuest| && Asks(s.toGuest[i]) ==> s.toGuest[i].request.id != id
    ensures Inv(base, Send(s, id, event))
  {
    hide RequestsOk, LiveOk, SentOk, SeenOk, LinesOk, CutOk, Orderly, Settled;
    SendKeepsRequests(base, s, id, event);
    SendKeepsSent(base, s, id, event);
    SendKeepsLive(s, id, event);
    SendKeepsSeen(base, s, id, event);
    AddKeepsLines(s.next, Gate(s), s.toHost, Job(id, event), s.conn);
  }

  lemma AddKeepsLines(next: nat, gate: bool, toHost: seq<Line>, l: Line, conn: Conn)
    requires LinesOk(next, gate, toHost) && CutOk(conn, toHost, next, gate)
    requires Sendable(l) && (l.Job? ==> l.id < next)
    ensures LinesOk(next, gate, toHost + [l]) && CutOk(conn, toHost + [l], next, gate)
  {
    hide Sendable;
    var more := toHost + [l];
    assert forall i :: 0 <= i <= |toHost| ==> more[..i] == toHost[..i];
  }

  lemma SendKeepsRequests(base: nat, s: State, id: nat, event: Event)
    requires RequestsOk(base, s.toGuest, s.guest, s.sent, s.cmds, s.stray)
    requires base <= id && id !in s.stray ==>
               forall i :: 0 <= i < |s.toGuest| && Asks(s.toGuest[i]) ==> s.toGuest[i].request.id != id
    ensures var t := Send(s, id, event); RequestsOk(base, t.toGuest, t.guest, t.sent, t.cmds, t.stray)
  {
    hide Whole;
  }

  lemma SendKeepsSent(base: nat, s: State, id: nat, event: Event)
    requires SentOk(base, s.next, s.sent) && id < s.next && !event.Lost?
    requires base <= id && id !in s.stray ==> AllOut(At(s.sent, id))
    ensures var t := Send(s, id, event); SentOk(base, t.next, t.sent)
  {
    var was := At(s.sent, id);
    assert (was + [event])[..|was|] == was;
  }

  lemma SendKeepsSeen(base: nat, s: State, id: nat, event: Event)
    requires SeenOk(base, s.next, s.seen, s.sent)
    ensures var t := Send(s, id, event); SeenOk(base, t.next, t.seen, t.sent)
  {
    hide AllOut;
  }

  lemma SendKeepsLive(s: State, id: nat, event: Event)
    requires LiveOk(s.live, s.born, s.stray, s.conn, s.toHost, s.seen, s.sent)
    ensures var t := Send(s, id, event); LiveOk(t.live, t.born, t.stray, t.conn, t.toHost, t.seen, t.sent)
  {
    hide Reaches;
    var t := Send(s, id, event);
    forall j | j in t.live ensures Reaches(t.conn, t.toHost, t.seen[j], At(t.sent, j), j) {
      if j == id {
        ReachesSent(s.conn, s.toHost, event, s.seen[j], At(s.sent, j), j);
      } else {
        ReachesMore(s.conn, s.toHost, Job(id, event), s.seen[j], At(s.sent, j), j);
      }
    }
  }

  /** A line about no job. */
  lemma SayKeepsInv(base: nat, s: State, l: Line)
    requires Inv(base, s) && !l.Job?
    ensures Inv(base, s.(toHost := s.toHost + [l]))
  {
    hide RequestsOk, GuestOk, SentOk, SeenOk, LinesOk, CutOk, Orderly, Settled, Reaches;
    AddKeepsLines(s.next, Gate(s), s.toHost, l, s.conn);
    forall j | j in s.live ensures Reaches(s.conn, s.toHost + [l], s.seen[j], At(s.sent, j), j) {
      ReachesMore(s.conn, s.toHost, l, s.seen[j], At(s.sent, j), j);
    }
  }

  /** devd receives an item; a job it asks for is then nowhere. */
  lemma PopKeepsInv(base: nat, s: State)
    requires Inv(base, s) && s.toGuest != []
    ensures var t, i := s.(toGuest := s.toGuest[1..], rx := Take(s.rx, s.toGuest[0]).rx), s.toGuest[0];
            && Inv(base, t)
            && (Asks(i) ==> i.request.id < s.next && RequestOk(base, i.request, s.guest, s.sent, s.cmds, s.stray))
            && (Asks(i) && base <= i.request.id ==>
                forall j :: 0 <= j < |t.toGuest| && Asks(t.toGuest[j]) ==> t.toGuest[j].request.id != i.request.id)
  {
    hide GuestOk, SeenOk, LiveOk, SentOk, LinesOk, RequestOk, CutOk, Orderly, Settled, Take, Whole;
    var rest := s.toGuest[1..];
    OrderlyTake(s.rx, s.toGuest, s.born, s.next);
    if Asks(s.toGuest[0]) {
      AskedIsGiven(s.rx, s.toGuest, s.born, s.next, 0);
    }
    assert forall j :: 0 <= j < |rest| ==> rest[j] == s.toGuest[j + 1];
  }

  lemma ForkKeepsInv(base: nat, s: State, id: nat, cmd: Bytes)
    requires Inv(base, s) && id < s.next
    requires base <= id && id !in s.stray ==>
               && AllOut(At(s.sent, id)) && id in s.cmds && cmd == In.Stripped(s.cmds[id])
               && forall i :: 0 <= i < |s.toGuest| && Asks(s.toGuest[i]) ==> s.toGuest[i].request.id != id
    ensures Inv(base, s.(guest := s.guest[id := GuestJob(cmd, false, None)]))
  {
    hide SeenOk, LiveOk, SentOk, LinesOk, CutOk, Orderly, Settled, Whole, In.Stripped, AllOut;
  }

  lemma RefuseKeepsInv(base: nat, s: State, id: nat, why: Bytes)
    requires Inv(base, s) && id < s.next && Lacks(why, NL)
    requires base <= id && id !in s.stray ==>
               && AllOut(At(s.sent, id)) && id !in s.guest
               && forall i :: 0 <= i < |s.toGuest| && Asks(s.toGuest[i]) ==> s.toGuest[i].request.id != id
    ensures Inv(base, Send(s, id, Error(why)))
  {
    hide SeenOk, LiveOk, SentOk, RequestsOk, GuestOk, CutOk, Orderly, Settled, Whole, AllOut;
    SendKeepsInv(base, s, id, Error(why));
  }

  /** A number that no job runs under any more is taken from a line that is no request. */
  lemma StrayKeepsInv(base: nat, s: State, id: nat)
    requires Inv(base, s) && id < s.born
    ensures Inv(base, s.(stray := s.stray + {id}))
  {
    hide SeenOk, SentOk, LinesOk, CutOk, Orderly, Settled, Whole, Reaches, AllOut;
  }

  /** What devd dispatches when its buffer was empty: the request itself, or nothing yet. */
  lemma OwnLine(base: nat, s: State)
    requires Inv(base, s) && s.toGuest != [] && s.rx == []
    ensures var c, i := Take(s.rx, s.toGuest[0]), s.toGuest[0];
            if Whole(i) then c.lines != [] && In.ParseRequest(c.lines[0]) == Some(In.Taken(i.request))
            else c.lines == []
  {
    hide SeenOk, LiveOk, SentOk, LinesOk, CutOk, GuestOk, RequestsOk, Numbers, Take, In.Render, In.Deliverable,
         NamedBelow;
    assert ItemOk(s.toGuest[0]);
    TakeFirst(s.toGuest[0]);
    In.RequestReads(s.toGuest[0].request);
  }

  /** And when it was not: what the start of a line becomes with a ping behind it. */
  lemma JoinedLine(base: nat, s: State)
    requires Inv(base, s) && s.toGuest != [] && s.rx != []
    ensures var c, i := Take(s.rx, s.toGuest[0]), s.toGuest[0];
            if Whole(i) then c.lines == [In.Joined(s.rx, In.PING)] else c.lines == []
    ensures |s.rx| < In.FULL && s.toGuest[0].request == In.Ping
    ensures Whole(s.toGuest[0]) ==> Below(s.rx, s.born)
  {
    hide SeenOk, LiveOk, SentOk, LinesOk, CutOk, GuestOk, RequestsOk, Numbers, Take, In.Render, In.Deliverable,
         NamedBelow;
    assert ItemOk(s.toGuest[0]);
    OrderlyTake(s.rx, s.toGuest, s.born, s.next);
    TakeNext(s.rx, s.toGuest[0]);
  }

  lemma TakeKeepsInv(base: nat, s: State, forked: bool, why: Bytes)
    requires Inv(base, s) && s.toGuest != [] && Lacks(why, NL)
    ensures Inv(base, DoTake(s, forked, why))
  {
    hide Inv, Dispatch, Lacks, Take, Whole, In.ParseRequest, In.Taken, RequestOk, AllOut;
    PopKeepsInv(base, s);
    if s.rx == [] {
      OwnLine(base, s);
      if Whole(s.toGuest[0]) {
        OwnDispatch(base, s, forked, why);
      }
    } else {
      JoinedLine(base, s);
      if Whole(s.toGuest[0]) {
        var t := s.(toGuest := s.toGuest[1..], rx := Take(s.rx, s.toGuest[0]).rx);
        StrayDispatch(base, t, In.Joined(s.rx, In.PING), s.rx, forked, why);
      }
    }
  }

  lemma OwnDispatch(base: nat, s: State, forked: bool, why: Bytes)
    requires Inv(base, s) && s.toGuest != [] && Whole(s.toGuest[0]) && Lacks(why, NL)
    ensures var t := s.(toGuest := s.toGuest[1..], rx := Take(s.rx, s.toGuest[0]).rx);
            Inv(base, Dispatch(t, true, Some(In.Taken(s.toGuest[0].request)), forked, why))
  {
    hide Inv, Lacks, Take, Send, In.Stripped;
    var t, r := s.(toGuest := s.toGuest[1..], rx := Take(s.rx, s.toGuest[0]).rx), s.toGuest[0].request;
    PopKeepsInv(base, s);
    match r
    case Ping => SayKeepsInv(base, t, Pong);
    case Kill(_) =>
    case RunJob(id, cmd) =>
      if id in s.guest || |s.guest| >= MAX_JOBS || !forked {
        RefuseKeepsInv(base, t, id, why);
      } else {
        ForkKeepsInv(base, t, id, In.Stripped(cmd));
      }
  }

  lemma StrayDispatch(base: nat, t: State, line: Bytes, rx: Bytes, forked: bool, why: Bytes)
    requires Inv(base, t) && Lacks(why, NL) && |rx| < In.FULL && line == In.Joined(rx, In.PING) && Below(rx, t.born)
    ensures Inv(base, Dispatch(t, false, In.ParseRequest(line), forked, why))
  {
    hide Inv, Lacks, Send, In.ParseRequest, In.Joined, In.Pending;
    var r := In.ParseRequest(line);
    if r.Some? && r.value.RunJob? {
      var id := r.value.id;
      In.PendingIsStarted(rx);
      assert In.Stub(line) == Some(id);
      BornIsGiven(base, t);
      StrayKeepsInv(base, t, id);
      var u := t.(stray := t.stray + {id});
      if id in t.guest || |t.guest| >= MAX_JOBS || !forked {
        RefuseKeepsInv(base, u, id, why);
      } else {
        ForkKeepsInv(base, u, id, r.value.cmd);
      }
    } else if r == Some(In.Ping) {
      SayKeepsInv(base, t, Pong);
    }
  }

  lemma BornIsGiven(base: nat, s: State)
    requires Inv(base, s)
    ensures s.born <= s.next
  {
  }

  lemma OutputKeepsInv(base: nat, s: State, id: nat, text: Bytes)
    requires Inv(base, s) && id in s.guest && Lacks(text, NL)
    ensures Inv(base, Send(s, id, Out(text)))
  {
    hide SeenOk, LiveOk, SentOk, CutOk, Orderly, Settled, Whole;
    SendKeepsInv(base, s, id, Out(text));
  }

  lemma UpdateKeepsInv(base: nat, s: State, id: nat, j: GuestJob)
    requires Inv(base, s) && id in s.guest && j.cmd == s.guest[id].cmd
    requires j.status == s.guest[id].status || (j.status.Some? && j.status.value < 256)
    ensures Inv(base, s.(guest := s.guest[id := j]))
  {
    hide SeenOk, LiveOk, SentOk, LinesOk, CutOk, Orderly, Settled, Whole, AllOut, In.Stripped;
  }

  lemma FewerJobsKeepsInv(base: nat, s: State, guest: map<nat, GuestJob>)
    requires Inv(base, s) && forall id :: id in guest ==> id in s.guest && guest[id] == s.guest[id]
    ensures Inv(base, s.(guest := guest))
  {
    hide SeenOk, LiveOk, SentOk, LinesOk, CutOk, Orderly, Settled, Whole, AllOut, In.Stripped;
  }

  lemma ReapKeepsInv(base: nat, s: State, id: nat)
    requires Inv(base, s) && id in s.guest && s.guest[id].status.Some?
    ensures Inv(base, DoReap(s, id))
  {
    hide SeenOk, LiveOk, SentOk, CutOk, Orderly, Settled, Whole;
    var t := s.(guest := s.guest - {id});
    FewerJobsKeepsInv(base, s, t.guest);
    SendKeepsInv(base, t, id, Exit(s.guest[id].status.value));
  }

  lemma ReopenKeepsInv(base: nat, s: State, k: nat)
    requires Inv(base, s) && k <= |s.toGuest|
    ensures Inv(base, DoReopen(s, k))
  {
    hide SeenOk, LiveOk, SentOk, LinesOk, GuestOk, CutOk, Orderly, Whole, RequestOk;
    var t := s.(guest := map[]);
    FewerJobsKeepsInv(base, s, map[]);
    OrderlyDrop(s.rx, s.toGuest, k, s.born, s.next);
    var rest := s.toGuest[k..];
    assert forall i :: 0 <= i < |rest| ==> rest[i] == s.toGuest[i + k];
    SayKeepsInv(base, t.(rx := [], toGuest := rest), Hello);
  }

  lemma StepKeepsInv(base: nat, s: State, a: Action)
    requires Inv(base, s) && Safe(s, a) && Step(s, a).Some?
    ensures Inv(base, Step(s, a).value)
  {
    hide Inv, DoStart, DoStartFailed, DoEof, DoRead, DoBreak, DoPiece, CanBreak, Misleads, DoTake, DoReap, DoReopen,
         Send, Without, Lacks, Accepts, Written, DoConnect, Delivered, CanCut;
    match a
    case Begin => BeginKeepsInv(base, s);
    case Start(cmd) => StartKeepsInv(base, s, cmd);
    case StartFailed(cmd, reached) => StartFailedKeepsInv(base, s, cmd, reached);
    case SendKill(id) => KillKeepsInv(base, s, id);
    case Forget(id) => ForgetKeepsInv(base, s, id);
    case Connect => ConnectKeepsInv(base, s);
    case HostRead => ReadKeepsInv(base, s);
    case Break(cut, n) => BreakKeepsInv(base, s, cut, n);
    case HostPiece => PieceKeepsInv(base, s);
    case HostEof => LoseAllKeepsInv(base, s);
    case HostError => LoseAllKeepsInv(base, s);
    case LoseLine(i) => LoseLineKeepsInv(base, s, i);
    case CutRequests(k, n) => CutRequestsKeepsInv(base, s, k, n);
    case GuestTake(forked, why) => TakeKeepsInv(base, s, forked, why);
    case Output(id, text) => OutputKeepsInv(base, s, id, text);
    case Close(id) => UpdateKeepsInv(base, s, id, s.guest[id].(closed := true));
    case Ended(id, status) => UpdateKeepsInv(base, s, id, s.guest[id].(status := Some(status)));
    case Reap(id) => ReapKeepsInv(base, s, id);
    case Reopen(k) => ReopenKeepsInv(base, s, k);
  }

  // ---- Whole runs ----

  lemma InitIsInv(s: State)
    requires Init(s)
    ensures Inv(s.next, s)
  {
    hide Named, In.Pending, NoAnswer, In.Render, Sendable, Numbers, ItemOk;
    InitIsOrderly(s);
    forall id | id in s.guest ensures id < s.next {
      assert id >= s.next ==> InUse(s, id);
    }
    forall i | 0 <= i < |s.toHost| && s.toHost[i].Job? && s.toHost[i].id >= s.next ensures NoAnswer(s.toHost[..i]) {
      assert !InUse(s, s.toHost[i].id);
    }
    forall i | 0 <= i < |s.toGuest| && Asks(s.toGuest[i]) ensures s.toGuest[i].request.id < s.next {
      AskedIsGiven(s.rx, s.toGuest, s.next, s.next, i);
    }
  }

  lemma InitIsOrderly(s: State)
    requires Init(s)
    ensures Orderly(s.rx, s.toGuest, s.next, s.next)
  {
    hide Named, In.Pending, NoAnswer, In.Render, Sendable, Numbers, ItemOk, RxOk;
    forall i | 0 <= i < |s.toGuest| ensures NamedBelow(s.toGuest[i], s.next) {
      if Named(s.toGuest[i]).Some? {
        assert Named(s.toGuest[i]).value >= s.next ==> InUse(s, Named(s.toGuest[i]).value);
      }
    }
    if In.Pending(s.rx).Some? {
      assert In.Pending(s.rx).value >= s.next ==> InUse(s, In.Pending(s.rx).value);
    }
    NumbersOfOrdered(s.rx, s.toGuest, s.next);
  }

  /** Every guarded run of a new client keeps the invariant. */
  lemma RunKeepsInv(s: State, acts: seq<Action>)
    requires Init(s) && Guarded(Step, Safe, s, acts) && Exec(Step, s, acts).Some?
    ensures Inv(s.next, Exec(Step, s, acts).value)
  {
    hide Inv, Init, Step, Safe;
    InitIsInv(s);
    var base := s.next;
    forall t, a | Inv(base, t) && Safe(t, a) && Step(t, a).Some? ensures Inv(base, Step(t, a).value) {
      StepKeepsInv(base, t, a);
    }
    RunKeeps(Step, Safe, t => Inv(base, t), s, acts);
  }

  lemma ToldEndsOnce(h: seq<Event>, sent: seq<Event>)
    requires Told(h, sent) && Proper(sent)
    ensures EndsOnce(h)
    ensures h != [] && (h[|h| - 1].Exit? || h[|h| - 1].Error?) ==> h == sent
  {
    if h <= sent && h != [] {
      var k := |h| - 1;
      if k < |sent| - 1 {
        assert sent[..|sent| - 1][k] == h[k];
      }
      assert forall i :: 0 <= i < k ==> h[i] == sent[..|sent| - 1][i];
    }
  }

  /** In every run, over every reconnect and restart, each job is told the lines that devd sent
      about it, in order and from the first; then at most once that it exited, failed or was lost,
      and nothing after that. It hears of its exit or failure only after every line devd ever
      sent about it, and on an open connection nothing is missing but what is still on its way.
      devd runs the job's own command under its number, unless it took that number from a line
      that is no request of the host's. */
  lemma EveryJobIsTold(s: State, acts: seq<Action>, t: State, id: nat)
    requires Init(s) && Guarded(Step, Safe, s, acts) && Exec(Step, s, acts) == Some(t) && id in t.seen
    ensures Proper(At(t.sent, id)) && EndsOnce(t.seen[id]) && Told(t.seen[id], At(t.sent, id))
    ensures var h := t.seen[id]; h != [] && (h[|h| - 1].Exit? || h[|h| - 1].Error?) ==> h == At(t.sent, id)
    ensures id in t.live && t.conn.Open? ==> t.seen[id] + For(t.toHost, id) == At(t.sent, id)
    ensures id in t.guest && id !in t.stray ==> id in t.cmds && t.guest[id].cmd == In.Stripped(t.cmds[id])
  {
    hide Step, Safe, Init, Exec, Guarded, Inv, Told, EndsOnce, Proper, Reaches;
    var base := s.next;
    RunKeepsInv(s, acts);
    InvTells(base, t, id);
  }

  /** What the invariant says of one job the host has started. */
  lemma InvTells(base: nat, t: State, id: nat)
    requires Inv(base, t) && id in t.seen
    ensures Proper(At(t.sent, id)) && EndsOnce(t.seen[id]) && Told(t.seen[id], At(t.sent, id))
    ensures var h := t.seen[id]; h != [] && (h[|h| - 1].Exit? || h[|h| - 1].Error?) ==> h == At(t.sent, id)
    ensures id in t.live && t.conn.Open? ==> t.seen[id] + For(t.toHost, id) == At(t.sent, id)
    ensures id in t.guest && id !in t.stray ==> id in t.cmds && t.guest[id].cmd == In.Stripped(t.cmds[id])
  {
    hide Told, EndsOnce, Proper, RequestsOk, LinesOk, CutOk, OrderOk, In.Stripped;
    assert Proper(At(t.sent, id)) by { NothingIsProper(); }
    ToldEndsOnce(t.seen[id], At(t.sent, id));
  }

  lemma NothingIsProper()
    ensures Proper([])
  {
  }

  // ---- What was told stays told ----

  /** `t` has told job `id` all that `s` had, and the guest has said all it had. */
  predicate Grown(s: State, t: State, id: nat) {
    At(s.seen, id) <= At(t.seen, id) && At(s.sent, id) <= At(t.sent, id)
  }

  lemma LoseAllGrows(s: State, id: nat)
    ensures Grown(s, LoseAll(s), id)
  {
  }

  lemma OnLineGrows(s: State, l: Line, id: nat)
    ensures Grown(s, OnLine(s, l), id)
  {
    LoseAllGrows(s, id);
  }

  lemma StartGrows(base: nat, s: State, cmd: Bytes, id: nat)
    requires Inv(base, s) && s.checked > 0
    ensures Grown(s, DoStart(s, cmd), id)
  {
    hide RequestsOk, GuestOk, LinesOk, LiveOk, SentOk, CutOk, Told, OrderOk, Written;
  }

  lemma SendGrows(s: State, event: Event, id: nat)
    ensures forall j :: Grown(s, Send(s, j, event), id)
  {
  }

  lemma TakeGrows(s: State, forked: bool, why: Bytes, id: nat)
    requires s.toGuest != []
    ensures Grown(s, DoTake(s, forked, why), id)
  {
    hide Take, In.ParseRequest, Send;
    var c := Take(s.rx, s.toGuest[0]);
    var t := s.(toGuest := s.toGuest[1..], rx := c.rx);
    if c.lines != [] {
      DispatchGrows(t, s.rx == [], In.ParseRequest(c.lines[0]), forked, why, id);
    }
  }

  lemma DispatchGrows(s: State, own: bool, r: Option<In.Request>, forked: bool, why: Bytes, id: nat)
    ensures Grown(s, Dispatch(s, own, r, forked, why), id)
  {
    hide Send;
    if r.Some? && r.value.RunJob? {
      SendGrows(if own then s else s.(stray := s.stray + {r.value.id}), Error(why), id);
    }
  }

  lemma PieceGrows(s: State, id: nat)
    requires s.conn.Broken? && s.conn.piece.Some?
    ensures Grown(s, DoPiece(s), id)
  {
    hide OnLine;
    OnLineGrows(s.(conn := Broken(0, None)), s.conn.piece.value, id);
  }

  lemma StepGrows(base: nat, s: State, a: Action, id: nat)
    requires Inv(base, s) && Step(s, a).Some?
    ensures Grown(s, Step(s, a).value, id)
  {
    hide Inv, LoseAll, OnLine, Without, Lacks, DoStart, DoTake, Send, DoPiece, CanBreak, PieceRead, Accepts, Written,
         CanCut, Delivered;
    match a
    case Start(cmd) => StartGrows(base, s, cmd, id);
    case HostRead => OnLineGrows(TakeLine(s), s.toHost[0], id);
    case HostPiece => PieceGrows(s, id);
    case HostEof => LoseAllGrows(s, id);
    case HostError => LoseAllGrows(s, id);
    case GuestTake(forked, why) => TakeGrows(s, forked, why, id);
    case Output(_, text) => SendGrows(s, Out(text), id);
    case Reap(j) => SendGrows(s, Exit(s.guest[j].status.value), id);
    case _ =>
  }

  lemma RunGrows(s: State, before: seq<Action>, t: State, after: seq<Action>, u: State, id: nat)
    requires Init(s) && Guarded(Step, Safe, s, before) && Exec(Step, s, before) == Some(t)
    requires Guarded(Step, Safe, t, after) && Exec(Step, t, after) == Some(u)
    ensures Inv(s.next, u) && Grown(t, u, id)
  {
    hide Step, Safe, Init, Inv, Grown;
    RunKeepsInv(s, before);
    var base := s.next;
    NotGrown(t, id);
    forall v, a | Inv(base, v) && Grown(t, v, id) && Safe(v, a) && Step(v, a).Some?
      ensures Inv(base, Step(v, a).value) && Grown(t, Step(v, a).value, id)
    {
      StepKeepsInv(base, v, a);
      StepGrows(base, v, a, id);
      GrownMore(t, v, Step(v, a).value, id);
    }
    RunKeeps(Step, Safe, v => Inv(base, v) && Grown(t, v, id), t, after);
  }

  lemma NotGrown(s: State, id: nat)
    ensures Grown(s, s, id)
  {
  }

  lemma GrownMore(s: State, t: State, u: State, id: nat)
    requires Grown(s, t, id) && Grown(t, u, id)
    ensures Grown(s, u, id)
  {
  }

  /** Once a job has been told how it ended, no later step of any run tells it anything. */
  lemma EndIsFinal(s: State, before: seq<Action>, t: State, after: seq<Action>, u: State, id: nat)
    requires Init(s) && Guarded(Step, Safe, s, before) && Exec(Step, s, before) == Some(t) && id in t.seen
    requires Guarded(Step, Safe, t, after) && Exec(Step, t, after) == Some(u)
    ensures At(t.seen, id) <= At(u.seen, id) && At(t.sent, id) <= At(u.sent, id)
    ensures t.seen[id] != [] && !t.seen[id][|t.seen[id]| - 1].Out? ==> At(u.seen, id) == t.seen[id]
  {
    hide Step, Safe, Init, Inv, Told, Proper, EndsOnce, Guarded, Exec;
    RunGrows(s, before, t, after, u, id);
    SeenEndsOnce(s.next, u, id);
    var h := t.seen[id];
    if h != [] && !h[|h| - 1].Out? {
      NothingAfterTheEnd(h, At(u.seen, id));
    }
  }

  lemma NothingAfterTheEnd(h: seq<Event>, g: seq<Event>)
    requires h <= g && EndsOnce(g) && h != [] && !h[|h| - 1].Out?
    ensures g == h
  {
  }

  lemma SeenEndsOnce(base: nat, s: State, id: nat)
    requires Inv(base, s)
    ensures EndsOnce(At(s.seen, id))
  {
    hide RequestsOk, GuestOk, LinesOk, LiveOk, Told, EndsOnce, Proper, CutOk, OrderOk;
    NothingIsProper();
    if id in s.seen {
      ToldEndsOnce(s.seen[id], At(s.sent, id));
    } else {
      ToldEndsOnce([], []);
    }
  }

  // ---- What the host writes ----

  /** `start` writes `exec`, the job's own number and the command as it is. */
  lemma StartWrites(s: State, cmd: Bytes)
    requires s.conn.Open? && Step(s, Start(cmd)).Some?
    ensures var t := Step(s, Start(cmd)).value;
            && t.next == s.next + 1 && s.next in t.live
            && AllBytes(t.toGuest) == AllBytes(s.toGuest) + (Ascii("exec ") + Dec(s.next) + Ascii(" ") + cmd) + [0x0a]
  {
    hide In.Render, Accepts, Dec, Ascii, AllBytes, Full;
    FullBytes(s.toGuest, In.RunJob(s.next, cmd));
    In.RequestText(s.next, cmd);
  }

  /** `kill` writes that word and the job's own number. */
  lemma KillWrites(s: State, id: nat)
    requires s.conn.Open? && Step(s, SendKill(id)).Some?
    ensures AllBytes(Step(s, SendKill(id)).value.toGuest) == AllBytes(s.toGuest) + (Ascii("kill ") + Dec(id)) + [0x0a]
  {
    hide In.Render, Dec, Ascii, AllBytes, Full;
    FullBytes(s.toGuest, In.Kill(id));
    In.RequestText(id, []);
  }

  /** Each new connection begins with a ping. */
  lemma ConnectWrites(s: State)
    ensures AllBytes(DoConnect(s).toGuest) == AllBytes(s.toGuest) + Ascii("ping") + [0x0a]
  {
    hide In.Render, Dec, Ascii, AllBytes, Full;
    FullBytes(s.toGuest, In.Ping);
    In.RequestText(0, []);
  }

  /** All bytes on their way to devd. */
  function AllBytes(items: seq<Item>): Bytes {
    if items == [] then [] else AllBytes(items[..|items| - 1]) + ItemBytes(items[|items| - 1])
  }

  lemma FullBytes(items: seq<Item>, r: In.Request)
    ensures AllBytes(items + [Full(r)]) == AllBytes(items) + In.Render(r) + [0x0a]
  {
    hide In.Render;
    var all := items + [Full(r)];
    assert all[..|all| - 1] == items;
    assert ItemBytes(Full(r)) == In.Render(r) + [In.NL];
  }
}
