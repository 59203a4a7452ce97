/** Why the runs of `DevJobs` are limited as they are, and no more: a break that misleads a job does
    so to the end, a request that is cut is run as something else, and a job number that is
    in use before it is given is heard as the new job's. */
module DevJobsLimits {
  import opened Bytes
  import opened Optional
  import opened Runs
  import opened Text
  import opened DevLines
  import opened DevRequests
  import opened DevJobs
  import In = DevdInput

  // ---- Breaks ----

  /** A break misleads nobody when too little of the line arrives to be a line, or nothing of it
      that matters is cut. */
  lemma HarmlessBreak(s: State, cut: nat, n: nat)
    requires CanBreak(s.toHost, cut, n) && (n > 0 ==> Sendable(s.toHost[cut]))
    requires n > 0 ==> n < Enough(s.toHost[cut]) || CutsNothing(s.toHost[cut], n)
    ensures !Misleads(s, cut, n)
  {
    hide Parse, Render, Enough, CutsNothing, Survives;
    if n > 0 {
      var l := s.toHost[cut];
      MisreadIff(l, n);
      assert s.toHost[cut..][0] == l;
    }
  }

  /** Reading on after a break, while job `id` survives. */
  lemma {:induction false} ReadRest(s: State, id: nat)
    requires s.conn.Broken? && s.conn.cut <= |s.toHost| && id in s.live && id in s.seen
    requires Survives(s.toHost[..s.conn.cut], id)
    ensures exists t :: Leads(Step, Safe, s, t) && ReadTo(s, t, id)
    decreases s.conn.cut
  {
    hide Survives, For;
    LeadsNowhere<State, Action>(Step, Safe, s);
    if s.conn.cut == 0 {
      NothingFor(s.toHost, id);
      assert ReadTo(s, s, id);
    } else {
      var t := DoRead(s);
      OneRead(s, id);
      LeadsOn(Step, Safe, s, s, HostRead);
      ReadRest(t, id);
      var u :| Leads(Step, Safe, t, u) && ReadTo(t, u, id);
      LeadsOnward(Step, Safe, s, t, u);
      assert ReadTo(s, u, id);
    }
  }

  /** All that could still be read has been, and job `id` was told its part of it. */
  ghost predicate ReadTo(s: State, t: State, id: nat)
    requires s.conn.Broken? && s.conn.cut <= |s.toHost| && id in s.seen
  {
    && t.conn == Broken(0, s.conn.piece) && id in t.live && id in t.seen && t.sent == s.sent
    && t.seen[id] == s.seen[id] + For(s.toHost[..s.conn.cut], id)
  }

  lemma NothingFor(toHost: seq<Line>, id: nat)
    ensures For(toHost[..0], id) == []
  {
  }

  lemma OneRead(s: State, id: nat)
    requires s.conn.Broken? && 0 < s.conn.cut <= |s.toHost| && id in s.live && id in s.seen
    requires Survives(s.toHost[..s.conn.cut], id)
    ensures Step(s, HostRead) == Some(DoRead(s)) && Safe(s, HostRead)
    ensures var t := DoRead(s);
            && t.conn == Broken(s.conn.cut - 1, s.conn.piece) && t.toHost == s.toHost[1..] && t.sent == s.sent
            && id in t.live && id in t.seen
            && Survives(t.toHost[..t.conn.cut], id)
            && t.seen[id] + For(t.toHost[..t.conn.cut], id) == s.seen[id] + For(s.toHost[..s.conn.cut], id)
  {
    hide Survives, For;
    var lines := s.toHost[..s.conn.cut];
    assert lines[0] == s.toHost[0] && lines[1..] == s.toHost[1..][..s.conn.cut - 1];
    FirstSurvives(lines, id);
    SurvivesFirst(lines, id);
    ForAfter(lines, s.seen[id], id);
  }

  lemma FirstSurvives(lines: seq<Line>, id: nat)
    requires lines != [] && Survives(lines, id)
    ensures !lines[0].Hello? && (lines[0].Job? && lines[0].id == id ==> lines[0].event.Out?)
  {
    if lines[0].Job? && lines[0].id == id {
      assert For(lines, id)[0] == lines[0].event;
    }
  }

  /** The end of the stream tells job `id` the piece. */
  lemma EndTellsPiece(s: State, id: nat)
    requires s.conn.Broken? && s.conn.cut == 0 && Names(s.conn.piece, id) && id in s.live && id in s.seen
    ensures Step(s, HostPiece) == Some(DoPiece(s)) && Safe(s, HostPiece)
    ensures var t := DoPiece(s);
            t.sent == s.sent && id in t.seen && t.seen[id] == s.seen[id] + [s.conn.piece.value.event]
  {
  }

  /** What job `id` was told by then, and what else was sent. */
  lemma SentSplits(s: State, cut: nat, id: nat)
    requires cut <= |s.toHost| && id in s.seen && Reaches(Open, s.toHost, s.seen[id], At(s.sent, id), id)
    ensures s.seen[id] + For(s.toHost[..cut], id) + For(s.toHost[cut..], id) == At(s.sent, id)
  {
    hide For;
    ForConcat(s.toHost[..cut], s.toHost[cut..], id);
    assert s.toHost[..cut] + s.toHost[cut..] == s.toHost;
    assert s.seen[id] + (For(s.toHost[..cut], id) + For(s.toHost[cut..], id)) == At(s.sent, id);
  }

  /** A misleading break is heard: the run that reads what is left and then the piece tells the job
      an event that is not the next one sent. */
  lemma MisleadingBreakIsHeard(base: nat, s: State, cut: nat, n: nat) returns (id: nat, t: State)
    requires Inv(base, s) && s.conn.Open? && CanBreak(s.toHost, cut, n) && Misleads(s, cut, n)
    ensures Leads(Step, Safe, DoBreak(s, cut, n), t) && id in t.seen && !Told(t.seen[id], At(t.sent, id))
  {
    hide For, Survives, PieceRead, RequestsOk, GuestOk, SentOk, SeenOk, LinesOk, Step, Safe, DoPiece, Told, Reaches,
         Leads, AllOut, OrderOk, CutOk;
    var b, p := DoBreak(s, cut, n), PieceRead(s.toHost[cut], n).value;
    id := p.id;
    assert b.toHost[..cut] == s.toHost[..cut];
    ReadRest(b, id);
    var u :| Leads(Step, Safe, b, u) && ReadTo(b, u, id);
    EndTellsPiece(u, id);
    LeadsOn(Step, Safe, b, u, HostPiece);
    t := DoPiece(u);
    PieceIsKnown(s.next, Gate(s), s.toHost, cut, n);
    SentSplits(s, cut, id);
    WrongTale(u.seen[id], For(s.toHost[cut..], id), p.event);
  }

  lemma WrongTale(got: seq<Event>, later: seq<Event>, e: Event)
    requires !([e] <= later) && !e.Lost?
    ensures !Told(got + [e], got + later)
  {
    PrefixAfter(got, later, e);
  }

  // ---- The input that shows it ----

  const EMPTY: State := State(1, {}, map[], map[], false, 0, Down, [], [], [], map[], 1, map[], {})

  lemma EmptyIsInit()
    ensures Init(EMPTY)
  {
    assert In.Pending([]) == None;
  }

  /** devd takes a request that finds its buffer empty. */
  lemma TakesRequest(s: State, r: In.Request, forked: bool)
    requires s.toGuest == [Full(r)] && s.rx == [] && In.Deliverable(r)
    ensures Step(s, GuestTake(forked, [])) == Some(Dispatch(s.(toGuest := []), true, Some(In.Taken(r)), forked, []))
  {
    hide Take, In.Render, In.Deliverable, In.ParseRequest, Dispatch;
    var i := Full(r);
    assert ItemOk(i) by { ShortRequest(r); }
    TakeFirst(i);
    In.RequestReads(r);
    assert s.toGuest[1..] == [];
    assert s.(toGuest := [], rx := []) == s.(toGuest := []);
  }

  lemma ShortRequest(r: In.Request)
    requires In.Deliverable(r)
    ensures ItemOk(Full(r))
  {
  }

  lemma FirstConnect()
    ensures Step(EMPTY, Connect) == Some(EMPTY.(conn := Open, toGuest := [Full(In.Ping)]))
  {
    hide In.Render, Full;
    assert EMPTY.toGuest + [Full(In.Ping)] == [Full(In.Ping)];
  }

  lemma PingIsAnswered()
    ensures Step(EMPTY.(conn := Open, toGuest := [Full(In.Ping)]), GuestTake(true, [])) ==
            Some(EMPTY.(conn := Open, toHost := [Pong]))
  {
    hide In.Render, Take, In.ParseRequest, Full, In.Deliverable, Step;
    PingIsDeliverable();
    TakesRequest(EMPTY.(conn := Open, toGuest := [Full(In.Ping)]), In.Ping, true);
    assert EMPTY.toHost + [Pong] == [Pong];
  }

  lemma PongIsRead()
    ensures Step(EMPTY.(conn := Open, toHost := [Pong]), HostRead) == Some(EMPTY.(conn := Open, up := true))
  {
    assert [Pong][1..] == [];
  }

  /** A connection whose ping devd has answered. */
  lemma ReachUp() returns (acts: seq<Action>)
    ensures Exec(Step, EMPTY, acts) == Some(EMPTY.(conn := Open, up := true))
  {
    hide Exec, Step, Full;
    var t;
    NoSteps<State, Action>(Step, EMPTY);
    FirstConnect();
    acts, t := Then(Step, EMPTY, [], EMPTY, Connect);
    PingIsAnswered();
    acts, t := Then(Step, EMPTY, acts, t, GuestTake(true, []));
    PongIsRead();
    acts, t := Then(Step, EMPTY, acts, t, HostRead);
  }

  /** Job 1, to run `cmd`, is on its way. */
  lemma ReachStarted(cmd: Bytes) returns (acts: seq<Action>, t: State)
    requires Accepts(EMPTY, cmd)
    ensures Exec(Step, EMPTY, acts) == Some(t)
    ensures t == EMPTY.(next := 2, live := {1}, seen := map[1 := []], cmds := map[1 := cmd], up := true, conn := Open,
                        toGuest := [Full(In.RunJob(1, cmd))])
  {
    hide Exec, In.Render;
    var u := EMPTY.(conn := Open, up := true);
    acts := ReachUp();
    acts, t := Then(Step, EMPTY, acts, u, Begin);
    acts, t := Then(Step, EMPTY, acts, t, Start(cmd));
    assert t.toGuest == [Full(In.RunJob(1, cmd))] && t.live == {1};
  }

  lemma ShortCommand(cmd: Bytes)
    requires |cmd| <= 2 && Lacks(cmd, NL) && Lacks(cmd, In.NUL)
    ensures Accepts(EMPTY, cmd) && In.Deliverable(In.RunJob(1, cmd))
    ensures |In.Render(In.RunJob(1, cmd))| == 7 + |cmd|
  {
    assert Dec(1) == [0x31];
  }

  /** Job 1 runs and has sent "ab", which no one has read. */
  lemma ReachSent() returns (acts: seq<Action>, t: State)
    ensures Exec(Step, EMPTY, acts) == Some(t)
    ensures t.conn.Open? && t.toHost == [Job(1, Out([0x61, 0x62]))] && t.live == {1} && t.seen == map[1 := []]
    ensures t.sent == map[1 := [Out([0x61, 0x62])]]
  {
    hide Exec, In.Render, In.Deliverable, Accepts, Take;
    ShortCommand([]);
    acts, t := ReachStarted([]);
    TakesRequest(t, In.RunJob(1, []), true);
    acts, t := Then(Step, EMPTY, acts, t, GuestTake(true, []));
    acts, t := Then(Step, EMPTY, acts, t, Output(1, [0x61, 0x62]));
    assert At(EMPTY.sent, 1) + [Out([0x61, 0x62])] == [Out([0x61, 0x62])];
    assert t.toHost == [Job(1, Out([0x61, 0x62]))];
  }

  lemma CutOutput()
    ensures |Render(Job(1, Out([0x61, 0x62])))| == 8
    ensures PieceRead(Job(1, Out([0x61, 0x62])), 7) == Some(Job(1, Out([0x61])))
  {
    hide Parse;
    var whole := Job(1, Out([0x61, 0x62]));
    assert Dec(1) == [0x31];
    assert Render(whole) == OUT + [SP] + ([0x31] + [SP] + [0x61, 0x62]);
    PieceParses(whole, 7);
    assert [0x61, 0x62][..1] == [0x61];
  }

  /** A stream cut inside a line can tell a job a text the guest never sent: of "out 1 ab",
      the first seven bytes are read as the line "out 1 a". */
  lemma CutLineIsMisread() returns (acts: seq<Action>, t: State)
    ensures Init(EMPTY) && Exec(Step, EMPTY, acts) == Some(t)
    ensures At(t.seen, 1) == [Out([0x61])] && At(t.sent, 1) == [Out([0x61, 0x62])]
    ensures !Told(At(t.seen, 1), At(t.sent, 1))
  {
    hide Exec, PieceRead, Render, Init, Take, In.Render, In.ParseRequest;
    EmptyIsInit();
    acts, t := ReachSent();
    CutOutput();
    acts, t := Then(Step, EMPTY, acts, t, Break(0, 7));
    assert t.conn == Broken(0, Some(Job(1, Out([0x61]))));
    acts, t := Then(Step, EMPTY, acts, t, HostPiece);
    assert At(t.seen, 1) == [Out([0x61])];
    assert [Out([0x61])][0] != [Out([0x61, 0x62])][0];
  }

  // ---- The command a job runs ----

  /** What is left in devd's buffer makes, with the ping of the next connection, a request to run
      something else under number `id`. */
  predicate Garbles(s: State, id: nat) {
    && s.rx != [] && |s.rx| < In.FULL
    && !(id in s.cmds && In.ParseRequest(In.Joined(s.rx, In.PING)) == Some(In.RunJob(id, In.Stripped(s.cmds[id]))))
  }

  /** devd starts a job of this client's with the command it was given if and only if its buffer does
      not garble it. */
  lemma OwnCommandIff(base: nat, s: State, forked: bool, why: Bytes, id: nat)
    requires Inv(base, s) && s.toGuest != [] && base <= id && id !in s.guest && id in DoTake(s, forked, why).guest
    ensures id in s.cmds && DoTake(s, forked, why).guest[id].cmd == In.Stripped(s.cmds[id]) <==> !Garbles(s, id)
  {
    hide SeenOk, LiveOk, SentOk, LinesOk, CutOk, GuestOk, Orderly, Take, In.ParseRequest, In.Joined, In.Stripped, Whole;
    if s.rx == [] {
      OwnLine(base, s);
      PopKeepsInv(base, s);
    } else {
      JoinedLine(base, s);
    }
  }

  /** devd takes a ping that finds the start of a line in its buffer. */
  lemma TakesPing(s: State, forked: bool)
    requires s.toGuest == [Full(In.Ping)] && RxOk(s.rx)
    ensures var line := In.Joined(s.rx, In.PING);
            Step(s, GuestTake(forked, [])) ==
            Some(Dispatch(s.(toGuest := [], rx := []), s.rx == [], In.ParseRequest(line), forked, []))
  {
    hide Take, In.Render, In.Deliverable, In.ParseRequest, Dispatch, In.Joined;
    PingIsDeliverable();
    TakeNext(s.rx, Full(In.Ping));
    assert s.toGuest[1..] == [];
  }

  /** devd takes a piece of a request that finds its buffer empty. */
  lemma TakesPiece(s: State, i: Item, forked: bool)
    requires s.toGuest == [i] && s.rx == [] && ItemOk(i) && !Whole(i)
    ensures Step(s, GuestTake(forked, [])) == Some(s.(toGuest := [], rx := In.Render(i.request)[..i.n]))
  {
    hide Take, In.Render, In.Deliverable, In.ParseRequest, Dispatch;
    TakeFirst(i);
    assert s.toGuest[1..] == [];
  }

  /** "exec 1 a" and the ping of the next connection. */
  lemma JoinedCommand()
    ensures var y := In.Render(In.RunJob(1, [0x61, 0x62]))[..8];
            && RxOk(y) && y != []
            && In.ParseRequest(In.Joined(y, In.PING)) == Some(In.RunJob(1, [0x61] + In.PING))
  {
    hide In.ParseRequest;
    var cmd := [0x61] + In.PING;
    var y := In.Render(In.RunJob(1, [0x61, 0x62]))[..8];
    assert Dec(1) == [0x31];
    assert y == In.EXEC + [In.SP] + ([0x31] + [In.SP] + [0x61]);
    assert In.Joined(y, In.PING) == In.Render(In.RunJob(1, cmd));
    In.RequestReads(In.RunJob(1, cmd));
    assert In.Blanks(cmd) == 0 && cmd[0..] == cmd;
  }

  /** Job 1, to run "ab", was cut short: eight bytes of its request are in devd's buffer. */
  lemma ReachCutShort() returns (acts: seq<Action>, t: State)
    ensures Exec(Step, EMPTY, acts) == Some(t)
    ensures t.conn.Down? && t.toGuest == [] && t.rx == In.Render(In.RunJob(1, [0x61, 0x62]))[..8]
    ensures t.guest == map[] && t.cmds == map[1 := [0x61, 0x62]]
  {
    hide Exec, In.Render, In.Deliverable, Accepts, Take, Dispatch;
    ShortCommand([0x61, 0x62]);
    var r := In.RunJob(1, [0x61, 0x62]);
    acts, t := ReachStarted([0x61, 0x62]);
    acts, t := Then(Step, EMPTY, acts, t, HostError);
    acts, t := Then(Step, EMPTY, acts, t, CutRequests(0, 8));
    assert t.toGuest == [Item(r, 8)];
    TakesPiece(t, Item(r, 8), true);
    acts, t := Then(Step, EMPTY, acts, t, GuestTake(true, []));
  }

  /** A request that a disconnect cuts is run as another command: job 1 was to run "ab", eight bytes of its
      request arrive, and the next connection's ping makes them "exec 1 aping". */
  lemma CutRequestRunsAnother() returns (acts: seq<Action>, t: State)
    ensures Init(EMPTY) && Exec(Step, EMPTY, acts) == Some(t)
    ensures 1 in t.guest && t.guest[1].cmd == [0x61] + In.PING && 1 in t.cmds && t.cmds[1] == [0x61, 0x62]
  {
    hide Exec, In.Render, In.Deliverable, Accepts, Take, Dispatch, In.ParseRequest, In.Joined, RxOk, Init;
    EmptyIsInit();
    JoinedCommand();
    acts, t := ReachCutShort();
    acts, t := Then(Step, EMPTY, acts, t, Connect);
    assert t.toGuest == [Full(In.Ping)];
    TakesPing(t, true);
    DispatchStarts(t.(toGuest := [], rx := []), 1, [0x61] + In.PING);
    acts, t := Then(Step, EMPTY, acts, t, GuestTake(true, []));
  }

  lemma DispatchStarts(s: State, id: nat, cmd: Bytes)
    requires id !in s.guest && |s.guest| < MAX_JOBS
    ensures Dispatch(s, false, Some(In.RunJob(id, cmd)), true, []) ==
            s.(stray := s.stray + {id}, guest := s.guest[id := GuestJob(cmd, false, None)])
  {
  }

  /** "exec 12 x" cut inside its number starts job 1, whose command is then the ping. */
  lemma CutNumberStartsAnother(cmd: Bytes)
    ensures In.Render(In.RunJob(12, cmd))[..6] + In.PING == In.EXEC + [In.SP] + ([0x31] + In.PING)
    ensures In.ParseRequest(In.Render(In.RunJob(12, cmd))[..6] + In.PING) == Some(In.RunJob(1, In.PING))
  {
    hide In.ParseNumber, In.Blanks;
    assert Dec(12) == Dec(1) + [0x32] && Dec(1) == [0x31];
    var line := In.Render(In.RunJob(12, cmd))[..6] + In.PING;
    assert In.Render(In.RunJob(12, cmd))[..6] == In.EXEC + [In.SP] + [0x31];
    assert line[4..] == [In.SP] + (Dec(1)[..1] + In.PING);
    In.NumberReads(1, 1, In.PING);
    assert line[..4] == In.EXEC && line[0] != In.PING[0];
    assert line[6..] == In.PING;
    PingHasNoBlanks();
  }

  /** And "kill 12" cut inside its number kills job 1. */
  lemma CutKillNamesAnother()
    ensures In.Render(In.Kill(12))[..6] + In.PING == In.KILL + [In.SP] + ([0x31] + In.PING)
    ensures In.ParseRequest(In.Render(In.Kill(12))[..6] + In.PING) == Some(In.Kill(1))
  {
    hide In.ParseNumber, In.Blanks;
    assert Dec(12) == Dec(1) + [0x32] && Dec(1) == [0x31];
    var line := In.Render(In.Kill(12))[..6] + In.PING;
    assert In.Render(In.Kill(12))[..6] == In.KILL + [In.SP] + [0x31];
    assert line[4..] == [In.SP] + (Dec(1)[..1] + In.PING);
    In.NumberReads(1, 1, In.PING);
    assert line[..4] == In.KILL && line[0] != In.PING[0] && line[0] != In.EXEC[0];
  }

  lemma PingHasNoBlanks()
    ensures In.Blanks(In.PING) == 0 && In.PING[0..] == In.PING
  {
  }

  // ---- Numbers in use ----

  /** Job `id` was told something although its own request has not left the channel: it was
      told of another job. */
  ghost predicate HearsAnother(s: State, id: nat) {
    && id in s.seen && s.seen[id] != [] && !s.seen[id][0].Lost? && id in s.cmds
    && exists i :: 0 <= i < |s.toGuest| && s.toGuest[i] == Full(In.RunJob(id, s.cmds[id]))
  }

  /** That never happens to a client whose numbers are fresh. */
  lemma FreshNumbersHearTheirOwn(s: State, acts: seq<Action>, t: State, id: nat)
    requires Init(s) && Guarded(Step, Safe, s, acts) && Exec(Step, s, acts) == Some(t)
    ensures !HearsAnother(t, id)
  {
    hide Init, Guarded, Exec, Step, Safe, GuestOk, SentOk, LinesOk, LiveOk, CutOk, OrderOk, In.Render;
    RunKeepsInv(s, acts);
  }

  lemma {:induction false} DropLines(s: State)
    requires s.conn.Down?
    ensures Leads(Step, Safe, s, s.(toHost := []))
    decreases |s.toHost|
  {
    hide Leads;
    LeadsNowhere<State, Action>(Step, Safe, s);
    if s.toHost != [] {
      LeadsOn(Step, Safe, s, s, LoseLine(0));
      var t := s.(toHost := Without(s.toHost, 0));
      DropLines(t);
      LeadsOnward(Step, Safe, s, t, s.(toHost := []));
    }
  }

  /** All lines are lost but two, in their order. */
  lemma {:induction false} KeepTwo(s: State, j: nat, i: nat)
    requires s.conn.Down? && j < i < |s.toHost|
    ensures Leads(Step, Safe, s, s.(toHost := [s.toHost[j], s.toHost[i]]))
    decreases |s.toHost|
  {
    hide Leads, Take, In.Render, In.ParseRequest, Accepts, Misleads;
    LeadsNowhere<State, Action>(Step, Safe, s);
    if |s.toHost| == 2 {
      assert s.toHost == [s.toHost[j], s.toHost[i]];
    } else {
      var k := if j > 0 then 0 else if i > 1 then 1 else 2;
      LeadsOn(Step, Safe, s, s, LoseLine(k));
      var t := s.(toHost := Without(s.toHost, k));
      KeepTwo(t, if j > 0 then j - 1 else j, if i > 1 then i - 1 else i);
      LeadsOnward(Step, Safe, s, t, s.(toHost := [s.toHost[j], s.toHost[i]]));
    }
  }

  /** A client that has started nothing and is not connected. */
  ghost predicate Idle(s: State) {
    && s.live == {} && s.seen == map[] && s.cmds == map[] && !s.up && s.checked == 0 && s.conn.Down?
    && s.next <= U32_LIMIT && RxOk(s.rx)
    && (forall id :: id in s.guest ==> s.guest[id].status.Some? ==> s.guest[id].status.value < 256)
  }

  /** Nothing is on its way, either way. */
  ghost predicate Still(s: State) { Idle(s) && s.toHost == [] && s.toGuest == [] }

  /** What is on its way is lost. */
  lemma Settle(s: State)
    requires Idle(s)
    ensures Leads(Step, Safe, s, s.(toHost := [], toGuest := [])) && Still(s.(toHost := [], toGuest := []))
  {
    hide Leads;
    DropLines(s);
    var t := s.(toHost := []);
    LeadsOn(Step, Safe, s, t, CutRequests(0, 0));
    assert Delivered(t.toGuest, 0, 0) == [];
  }

  /** Two states of one client that differ in nothing its jobs could tell. */
  ghost predicate Alike(s: State, t: State) {
    t == s.(toHost := t.toHost, toGuest := t.toGuest, rx := t.rx, guest := t.guest, sent := t.sent, stray := t.stray,
            born := t.born)
  }

  /** A connection is made and ends again, with the ping behind what devd's buffer held. */
  lemma PingOnce(s: State, forked: bool) returns (t: State)
    requires Still(s)
    ensures Leads(Step, Safe, s, t) && Still(t) && Alike(s, t) && t.rx == []
    ensures var r := In.ParseRequest(In.Joined(s.rx, In.PING));
            t.guest == if forked && s.rx != [] && r.Some? && r.value.RunJob? && r.value.id !in s.guest
                          && |s.guest| < MAX_JOBS
                       then s.guest[r.value.id := GuestJob(r.value.cmd, false, None)] else s.guest
  {
    hide Leads, In.ParseRequest, In.Joined, RxOk, Take, In.Render;
    var d := PingTaken(s, forked);
    LeadsOn(Step, Safe, s, d, HostError);
    var e := DoEof(d);
    assert e.seen == map[];
    NothingNamed(0);
    Settle(e);
    t := e.(toHost := [], toGuest := []);
    LeadsOnward(Step, Safe, s, e, t);
  }

  lemma PingTaken(s: State, forked: bool) returns (d: State)
    requires Still(s)
    ensures Leads(Step, Safe, s, d) && Alike(s.(conn := Open), d) && d.rx == []
    ensures var r := In.ParseRequest(In.Joined(s.rx, In.PING));
            d.guest == if forked && s.rx != [] && r.Some? && r.value.RunJob? && r.value.id !in s.guest
                          && |s.guest| < MAX_JOBS
                       then s.guest[r.value.id := GuestJob(r.value.cmd, false, None)] else s.guest
  {
    hide Leads, In.ParseRequest, In.Joined, RxOk, Take, In.Render;
    LeadsNowhere<State, Action>(Step, Safe, s);
    LeadsOn(Step, Safe, s, s, Connect);
    var c := DoConnect(s);
    assert c.toGuest == [Full(In.Ping)];
    TakesPing(c, forked);
    LeadsOn(Step, Safe, s, c, GuestTake(forked, []));
    d := Step(c, GuestTake(forked, [])).value;
    if s.rx == [] {
      JoinedNothing();
    }
  }

  lemma JoinedNothing()
    ensures In.Joined([], In.PING) == In.PING && In.ParseRequest(In.PING) == Some(In.Ping)
  {
  }

  /** devd, with an empty buffer, answers. */
  lemma Answer(s: State) returns (t: State)
    requires Still(s) && s.rx == []
    ensures Leads(Step, Safe, s, t) && t == s.(conn := Open, up := true, born := s.next)
  {
    hide Leads, Take, In.Render, In.Deliverable;
    LeadsNowhere<State, Action>(Step, Safe, s);
    LeadsOn(Step, Safe, s, s, Connect);
    var c := DoConnect(s);
    assert c.toGuest == [Full(In.Ping)];
    PingIsDeliverable();
    TakesRequest(c, In.Ping, true);
    LeadsOn(Step, Safe, s, c, GuestTake(true, []));
    var d := c.(toGuest := [], toHost := [Pong]);
    assert c.toHost + [Pong] == [Pong];
    LeadsOn(Step, Safe, s, d, HostRead);
    t := DoRead(d);
    assert d.toHost[1..] == [];
  }

  /** Job `id` has just been started; its request is the last one on its way. */
  ghost predicate JustStarted(s: State, t: State, id: nat) {
    && t.conn.Open? && t.toHost == s.toHost && t.guest == s.guest
    && id in t.live && id in t.seen && t.seen[id] == [] && id in t.cmds
    && t.toGuest != [] && t.toGuest[|t.toGuest| - 1] == Full(In.RunJob(id, t.cmds[id]))
  }

  lemma EmptyCommand(s: State)
    requires s.next < U32_LIMIT
    ensures Accepts(s, [])
  {
    DecIsShort(s.next, 10);
  }

  lemma {:induction false} StartUpTo(s: State, id: nat)
    requires s.conn.Open? && s.up && s.next <= id < U32_LIMIT
    ensures exists t :: Leads(Step, Safe, s, t) && JustStarted(s, t, id)
    decreases id - s.next
  {
    hide Leads, In.Render, Accepts;
    LeadsNowhere<State, Action>(Step, Safe, s);
    LeadsOn(Step, Safe, s, s, Begin);
    var b := s.(checked := s.checked + 1);
    EmptyCommand(b);
    LeadsOn(Step, Safe, s, b, Start([]));
    var t := DoStart(b, []);
    if s.next == id {
      assert JustStarted(s, t, id);
    } else {
      StartUpTo(t, id);
      var u :| Leads(Step, Safe, t, u) && JustStarted(t, u, id);
      LeadsOnward(Step, Safe, s, t, u);
      assert JustStarted(s, u, id);
    }
  }

  /** A line about `id` is read while its request is still on its way. */
  lemma ReadStray(s: State, id: nat, event: Event)
    requires s.conn.Open? && s.toHost == [Job(id, event)] && !event.Lost?
    requires id in s.live && id in s.seen && s.seen[id] == [] && id in s.cmds
    requires s.toGuest != [] && s.toGuest[|s.toGuest| - 1] == Full(In.RunJob(id, s.cmds[id]))
    ensures Leads(Step, Safe, s, DoRead(s)) && HearsAnother(DoRead(s), id)
  {
    hide Leads, In.Render;
    LeadsNowhere<State, Action>(Step, Safe, s);
    LeadsOn(Step, Safe, s, s, HostRead);
    assert DoRead(s).seen[id] == [event];
    assert DoRead(s).toGuest[|s.toGuest| - 1] == Full(In.RunJob(id, s.cmds[id]));
  }

  /** devd's job speaks, or, once its pipe is closed, ends. */
  lemma JobSpeaks(s: State, id: nat) returns (t: State, event: Event)
    requires id in s.guest && s.toHost == [] && (s.guest[id].status.Some? ==> s.guest[id].status.value < 256)
    ensures Leads(Step, Safe, s, t) && t.toHost == [Job(id, event)] && !event.Lost?
    ensures t == s.(toHost := t.toHost, guest := t.guest, sent := t.sent)
  {
    hide Leads;
    LeadsNowhere<State, Action>(Step, Safe, s);
    if !s.guest[id].closed {
      LeadsOn(Step, Safe, s, s, Output(id, []));
      t, event := Send(s, id, Out([])), Out([]);
    } else {
      t, event := JobEnds(s, id);
    }
  }

  /** A job whose pipe is closed ends, and its number is free again. */
  lemma JobEnds(s: State, id: nat) returns (t: State, event: Event)
    requires id in s.guest && s.toHost == [] && s.guest[id].closed
    requires s.guest[id].status.Some? ==> s.guest[id].status.value < 256
    ensures Leads(Step, Safe, s, t) && t.toHost == [Job(id, event)] && !event.Lost?
    ensures t == s.(toHost := t.toHost, guest := s.guest - {id}, sent := t.sent)
  {
    hide Leads;
    LeadsNowhere<State, Action>(Step, Safe, s);
    t := s;
    if s.guest[id].status.None? {
      LeadsOn(Step, Safe, s, s, Ended(id, 0));
      t := s.(guest := s.guest[id := s.guest[id].(status := Some(0))]);
    }
    LeadsOn(Step, Safe, s, t, Reap(id));
    event := Exit(t.guest[id].status.value);
    assert t.guest - {id} == s.guest - {id};
    t := DoReap(t, id);
  }

  /** A job that devd runs under a number still to be given. */
  lemma StrayJob(s: State, id: nat) returns (t: State)
    requires Idle(s) && s.next <= id < U32_LIMIT && id in s.guest
    ensures Leads(Step, Safe, s, t) && HearsAnother(t, id)
  {
    hide Leads, HearsAnother, Step, In.ParseRequest, In.Joined;
    Settle(s);
    var d := s.(toHost := [], toGuest := []);
    var p := PingOnce(d, false);
    LeadsOnward(Step, Safe, s, d, p);
    var a := Answer(p);
    LeadsOnward(Step, Safe, s, p, a);
    StartUpTo(a, id);
    var u :| Leads(Step, Safe, a, u) && JustStarted(a, u, id);
    LeadsOnward(Step, Safe, s, a, u);
    var v, event := JobSpeaks(u, id);
    LeadsOnward(Step, Safe, s, u, v);
    ReadStray(v, id, event);
    t := DoRead(v);
    LeadsOnward(Step, Safe, s, v, t);
  }

  /** devd's table gets room. */
  lemma MakeRoom(s: State, j: nat) returns (t: State)
    requires Still(s) && j in s.guest
    ensures Leads(Step, Safe, s, t) && Still(t) && Alike(s, t) && t.rx == s.rx && t.guest == s.guest - {j}
  {
    hide Leads;
    LeadsNowhere<State, Action>(Step, Safe, s);
    LeadsOn(Step, Safe, s, s, Close(j));
    var c := s.(guest := s.guest[j := s.guest[j].(closed := true)]);
    var e, event := JobEnds(c, j);
    LeadsOnward(Step, Safe, s, c, e);
    assert c.guest - {j} == s.guest - {j};
    Settle(e);
    t := e.(toHost := [], toGuest := []);
    LeadsOnward(Step, Safe, s, e, t);
  }

  /** The start of a request in devd's buffer, which the next ping completes. */
  lemma StrayStub(s: State, id: nat) returns (t: State)
    requires Idle(s) && s.next <= id < U32_LIMIT && In.Pending(s.rx) == Some(id) && |s.guest| <= MAX_JOBS
    ensures Leads(Step, Safe, s, t) && HearsAnother(t, id)
  {
    hide Leads, HearsAnother, Step, In.ParseRequest, In.Joined, RxOk, In.Pending;
    if id in s.guest {
      t := StrayJob(s, id);
      return;
    }
    Settle(s);
    var d := s.(toHost := [], toGuest := []);
    if |d.guest| >= MAX_JOBS {
      var j :| j in d.guest;
      var e := MakeRoom(d, j);
      assert d.guest.Keys == e.guest.Keys + {j};
      LeadsOnward(Step, Safe, s, d, e);
      d := e;
    }
    StubStarts(s.rx, id);
    NothingPends();
    var p := PingOnce(d, true);
    LeadsOnward(Step, Safe, s, d, p);
    var u := StrayJob(p, id);
    LeadsOnward(Step, Safe, s, p, u);
    t := u;
  }

  lemma StubStarts(y: Bytes, id: nat)
    requires In.Pending(y) == Some(id) && RxOk(y)
    ensures var r := In.ParseRequest(In.Joined(y, In.PING)); r.Some? && r.value.RunJob? && r.value.id == id
  {
    hide In.ParseRequest, In.Joined, In.Pending;
    In.PendingIsStarted(y);
  }

  /** An item that devd takes without starting a job changes nothing that its jobs could tell. */
  lemma TakeOne(s: State)
    requires Idle(s) && s.toGuest != [] && RxOk(Take(s.rx, s.toGuest[0]).rx)
    ensures var t := DoTake(s, false, []);
            && Idle(t) && Alike(s, t) && t.guest == s.guest && t.toGuest == s.toGuest[1..]
            && t.rx == Take(s.rx, s.toGuest[0]).rx
    ensures Step(s, GuestTake(false, [])) == Some(DoTake(s, false, [])) && Safe(s, GuestTake(false, []))
  {
    hide In.ParseRequest, Take, RxOk, In.Render;
  }

  /** devd takes what comes before the request, and starts nothing. */
  lemma {:induction false} TakeUpTo(s: State, i: nat) returns (t: State)
    requires Idle(s) && i <= |s.toGuest| && Orderly(s.rx, s.toGuest, U32_LIMIT, U32_LIMIT)
    ensures Leads(Step, Safe, s, t) && Idle(t) && Alike(s, t) && t.guest == s.guest && t.toGuest == s.toGuest[i..]
    ensures Orderly(t.rx, t.toGuest, U32_LIMIT, U32_LIMIT)
    decreases i
  {
    hide Leads, Orderly, Take, RxOk, In.Render, DoTake, Idle, Step, Safe;
    LeadsNowhere<State, Action>(Step, Safe, s);
    if i == 0 {
      t := s;
      assert s.toGuest[0..] == s.toGuest;
    } else {
      OrderlyTake(s.rx, s.toGuest, U32_LIMIT, U32_LIMIT);
      OrderlyParts(Take(s.rx, s.toGuest[0]).rx, s.toGuest[1..], U32_LIMIT, U32_LIMIT);
      TakeOne(s);
      LeadsOn(Step, Safe, s, s, GuestTake(false, []));
      var u := DoTake(s, false, []);
      t := TakeUpTo(u, i - 1);
      LeadsOnward(Step, Safe, s, u, t);
      assert s.toGuest[1..][i - 1..] == s.toGuest[i..];
    }
  }

  /** As much of a request as has all of the number that arrived. */
  lemma JustTheNumber(i: Item, id: nat) returns (n: nat)
    requires ItemOk(i) && Named(i) == Some(id)
    ensures i.request.RunJob? && 0 < n <= i.n && n <= |In.Render(i.request)|
    ensures In.Pending(In.Render(i.request)[..n]) == Some(id)
  {
    hide In.Stub, Leading, Dec;
    var len := |In.Render(i.request)|;
    var m := Min(i.n, len);
    In.PieceNames(i.request, m, m);
    var job, cmd := i.request.id, i.request.cmd;
    In.PieceOfRunJob(job, cmd, m);
    var k := Min(m - 5, |Dec(job)|);
    n := 5 + k;
    In.PieceOfRunJob(job, cmd, n);
    DecIsShort(job, 10);
  }

  /** A request, or a piece of one, on its way. */
  lemma StrayRequest(s: State, id: nat, i: nat) returns (t: State)
    requires NewClient(s) && s.next <= id < U32_LIMIT && i < |s.toGuest| && Named(s.toGuest[i]) == Some(id)
    ensures Leads(Step, Safe, s, t) && HearsAnother(t, id)
  {
    hide Leads, HearsAnother, Step, In.ParseRequest, RxOk, In.Pending, In.Render, In.Deliverable, Named, Numbers,
         Sendable;
    LeftoversAreOrderly(s);
    var u := TakeUpTo(s, i);
    var item := u.toGuest[0];
    assert item == s.toGuest[i];
    var n := JustTheNumber(item, id);
    assert u.rx == [];
    CutTo(u, n);
    var c := u.(toGuest := [Item(item.request, n)]);
    var v := c.(toGuest := [], rx := In.Render(item.request)[..n]);
    LeadsOnward(Step, Safe, s, u, v);
    PieceFits(item.request, n);
    t := StrayStub(v, id);
    LeadsOnward(Step, Safe, s, v, t);
  }

  lemma PieceFits(r: In.Request, n: nat)
    requires In.Deliverable(r) && n <= |In.Render(r)|
    ensures RxOk(In.Render(r)[..n])
  {
    hide In.Render;
    RenderIsPlain(r);
  }

  lemma LeftoversAreOrderly(s: State)
    requires NewClient(s)
    ensures Idle(s) && Orderly(s.rx, s.toGuest, U32_LIMIT, U32_LIMIT)
  {
    hide In.Stub, Numbers, In.Render;
    NumberIsSmall(s.rx);
    NumbersOfOrdered(s.rx, s.toGuest, U32_LIMIT);
  }

  lemma NumberIsSmall(y: Bytes)
    ensures Below(y, U32_LIMIT)
  {
  }

  /** The connection ends inside the first request, and devd takes what arrives of it. */
  lemma CutTo(s: State, n: nat)
    requires s.conn.Down? && s.rx == [] && s.toGuest != [] && ItemOk(s.toGuest[0]) && 0 < n <= s.toGuest[0].n
    requires n <= |In.Render(s.toGuest[0].request)|
    ensures var r := s.toGuest[0].request;
            Leads(Step, Safe, s, s.(toGuest := [], rx := In.Render(r)[..n]))
  {
    hide Leads, In.Render, In.Deliverable, Take, Dispatch;
    var r := s.toGuest[0].request;
    LeadsNowhere<State, Action>(Step, Safe, s);
    LeadsOn(Step, Safe, s, s, CutRequests(0, n));
    var c := s.(toGuest := [Item(r, n)]);
    assert Delivered(s.toGuest, 0, n) == [Item(r, n)];
    TakesPiece(c, Item(r, n), true);
    LeadsOn(Step, Safe, s, c, GuestTake(true, []));
  }

  /** A line of a number still to be given, behind one that says devd is up. */
  lemma StrayLine(s: State, id: nat, j: nat, i: nat) returns (t: State)
    requires NewClient(s) && s.next <= id < U32_LIMIT && j < i < |s.toHost|
    requires !s.toHost[j].Job? && s.toHost[i].Job? && s.toHost[i].id == id
    ensures Leads(Step, Safe, s, t) && HearsAnother(t, id)
  {
    hide Leads, HearsAnother, In.Render, Take;
    KeepTwo(s, j, i);
    var k := s.(toHost := [s.toHost[j], s.toHost[i]]);
    LeadsOn(Step, Safe, s, k, Connect);
    var c := DoConnect(k);
    LeadsOn(Step, Safe, s, c, HostRead);
    var a := DoRead(c);
    assert a.toHost == [s.toHost[i]] && a.up;
    StartUpTo(a, id);
    var u :| Leads(Step, Safe, a, u) && JustStarted(a, u, id);
    LeadsOnward(Step, Safe, s, a, u);
    ReadStray(u, id, s.toHost[i].event);
    t := DoRead(u);
    LeadsOnward(Step, Safe, s, u, t);
  }

  /** Every client that would give a number in use can have it told of another job, by a run of safe steps. */
  lemma NumberInUseIsHeard(s: State, id: nat) returns (t: State)
    requires NewClient(s) && s.next <= id < U32_LIMIT && InUse(s, id)
    ensures Leads(Step, Safe, s, t) && HearsAnother(t, id)
  {
    hide Leads, HearsAnother, Step, Named, In.Pending, Numbers, Sendable;
    LeftoversAreOrderly(s);
    if id in s.guest {
      t := StrayJob(s, id);
    } else if In.Pending(s.rx) == Some(id) {
      t := StrayStub(s, id);
    } else if i :| 0 <= i < |s.toGuest| && Named(s.toGuest[i]) == Some(id) {
      t := StrayRequest(s, id, i);
    } else {
      var i :| 0 <= i < |s.toHost| && s.toHost[i].Job? && s.toHost[i].id == id && !NoAnswer(s.toHost[..i]);
      var j :| 0 <= j < i && !s.toHost[..i][j].Job?;
      t := StrayLine(s, id, j, i);
    }
  }

  /** No run of a new client tells a job of another, if and only if none of the numbers it will give
      is in use. */
  lemma NumbersMustBeFresh(s: State)
    requires NewClient(s)
    ensures Init(s) <==> forall t: State, id: nat :: Leads(Step, Safe, s, t) ==> !HearsAnother(t, id)
  {
    hide HearsAnother, Step, Safe, NewClient, InUse;
    if Init(s) {
      forall t: State, id: nat | Leads(Step, Safe, s, t) ensures !HearsAnother(t, id) {
        var acts :| Guarded(Step, Safe, s, acts) && Exec(Step, s, acts) == Some(t);
        FreshNumbersHearTheirOwn(s, acts, t, id);
      }
    } else {
      var id: nat :| id >= s.next && InUse(s, id);
      UsedIsANumber(s, id);
      var t := NumberInUseIsHeard(s, id);
    }
  }

  lemma UsedIsANumber(s: State, id: nat)
    requires NewClient(s) && InUse(s, id)
    ensures id < U32_LIMIT
  {
    hide In.ParseNumber, In.Blanks, In.Render;
    if i :| 0 <= i < |s.toGuest| && Named(s.toGuest[i]) == Some(id) {
      assert NamedBelow(s.toGuest[i], U32_LIMIT);
    }
    NumberIsSmall(s.rx);
  }
}
