/** Where a job's events come from, told by the actions of a run: output from what the job printed, an
    exit from how it ended, an error from devd's refusal. And no job is left without an end. */
module DevJobsEvents {
  import opened Bytes
  import opened Optional
  import opened Runs
  import opened DevLines
  import opened DevRequests
  import opened DevJobs
  import In = DevdInput

  // ---- Events and actions ----

  /** The texts of the output among some events. */
  function Texts(h: seq<Event>): seq<Bytes> {
    if h == [] then []
    else Texts(h[..|h| - 1]) + if h[|h| - 1].Out? then [h[|h| - 1].text] else []
  }

  /** What job `id` printed in a run. */
  function Printed(acts: seq<Action>, id: nat): seq<Bytes> {
    if acts == [] then []
    else
      var last := acts[|acts| - 1];
      Printed(acts[..|acts| - 1], id) + if last.Output? && last.id == id then [last.text] else []
  }

  /** The run has the action an ending event comes from. */
  ghost predicate Caused(acts: seq<Action>, id: nat, e: Event) {
    match e
    case Exit(status) => status >= 0 && Ended(id, status) in acts
    case Error(why) => exists forked :: GuestTake(forked, why) in acts
    case _ => true
  }

  ghost predicate AllCaused(acts: seq<Action>, id: nat, h: seq<Event>) {
    forall i :: 0 <= i < |h| ==> Caused(acts, id, h[i])
  }

  /** What was sent of job `id`, and how it ended, comes from the actions. */
  ghost predicate Ties(acts: seq<Action>, s: State, id: nat) {
    && Texts(At(s.sent, id)) <= Printed(acts, id)
    && (id !in s.stray ==> Texts(At(s.sent, id)) == Printed(acts, id))
    && AllCaused(acts, id, At(s.sent, id))
    && (id in s.guest && s.guest[id].status.Some? ==> Ended(id, s.guest[id].status.value) in acts)
  }

  lemma TextsSnoc(h: seq<Event>, e: Event)
    ensures Texts(h + [e]) == Texts(h) + if e.Out? then [e.text] else []
  {
    assert (h + [e])[..|h|] == h;
  }

  lemma PrintedSnoc(acts: seq<Action>, a: Action, id: nat)
    ensures Printed(acts + [a], id) == Printed(acts, id) + if a.Output? && a.id == id then [a.text] else []
  {
    assert (acts + [a])[..|acts|] == acts;
  }

  /** Sending an event that has a cause. */
  lemma SendTies(acts: seq<Action>, more: seq<Action>, s: State, j: nat, e: Event, id: nat)
    requires Ties(acts, s, id) && forall a :: a in acts ==> a in more
    requires j == id ==> Caused(more, id, e)
    requires Printed(more, id) == Printed(acts, id) + if j == id && e.Out? then [e.text] else []
    ensures Ties(more, Send(s, j, e), id)
  {
    TextsSnoc(At(s.sent, j), e);
  }

  /** A step that neither prints nor changes what is sent, how jobs ended or which numbers are stray. */
  lemma QuietTies(acts: seq<Action>, a: Action, s: State, t: State, id: nat)
    requires Ties(acts, s, id) && !(a.Output? && a.id == id)
    requires t.sent == s.sent && s.stray <= t.stray
    requires id in t.guest && t.guest[id].status.Some? ==>
               (id in s.guest && t.guest[id].status == s.guest[id].status) || a == Ended(id, t.guest[id].status.value)
    ensures Ties(acts + [a], t, id)
  {
    PrintedSnoc(acts, a, id);
  }

  predicate OfGuest(a: Action) {
    a.GuestTake? || a.Output? || a.Reap? || a.Close? || a.Ended? || a.Reopen?
  }

  predicate SameGuest(s: State, t: State) { t.sent == s.sent && t.stray == s.stray && t.guest == s.guest }

  lemma LoseAllKeepsGuest(s: State)
    ensures SameGuest(s, LoseAll(s))
  {
  }

  lemma OnLineKeepsGuest(s: State, l: Line)
    ensures SameGuest(s, OnLine(s, l))
  {
    hide LoseAll;
    LoseAllKeepsGuest(s);
  }

  lemma HostKeepsGuest(s: State, a: Action)
    requires Step(s, a).Some? && !OfGuest(a)
    ensures SameGuest(s, Step(s, a).value)
  {
    hide Accepts, CanBreak, CanCut, Delivered, PieceRead, Written, In.Render, LoseAll, OnLine, Misleads, Full, Without;
    LoseAllKeepsGuest(s);
    match a
    case HostRead => OnLineKeepsGuest(TakeLine(s), s.toHost[0]);
    case HostPiece => OnLineKeepsGuest(s.(conn := Broken(0, None)), s.conn.piece.value);
    case _ =>
  }

  lemma HostKeepsTies(acts: seq<Action>, s: State, a: Action, id: nat)
    requires Ties(acts, s, id) && Step(s, a).Some? && !a.GuestTake? && !a.Output? && !a.Reap?
    ensures Ties(acts + [a], Step(s, a).value, id)
  {
    hide Ties, Step;
    if OfGuest(a) {
      GuestKeepsSent(s, a, id);
    } else {
      HostKeepsGuest(s, a);
    }
    QuietTies(acts, a, s, Step(s, a).value, id);
  }

  lemma GuestKeepsSent(s: State, a: Action, id: nat)
    requires Step(s, a).Some? && (a.Close? || a.Ended? || a.Reopen?)
    ensures var t := Step(s, a).value;
            && t.sent == s.sent && t.stray == s.stray
            && (id in t.guest && t.guest[id].status.Some? ==>
                  (id in s.guest && t.guest[id].status == s.guest[id].status)
                  || a == Ended(id, t.guest[id].status.value))
  {
  }

  lemma TakeKeepsTies(acts: seq<Action>, s: State, forked: bool, why: Bytes, id: nat)
    requires Ties(acts, s, id) && s.toGuest != []
    ensures Ties(acts + [GuestTake(forked, why)], DoTake(s, forked, why), id)
  {
    hide Ties, Take, In.ParseRequest, Send;
    var a := GuestTake(forked, why);
    var c := Take(s.rx, s.toGuest[0]);
    var t := s.(toGuest := s.toGuest[1..], rx := c.rx);
    QuietTies(acts, a, s, t, id);
    if c.lines != [] {
      DispatchTies(acts + [a], t, s.rx == [], In.ParseRequest(c.lines[0]), forked, why, id);
    }
  }

  lemma DispatchTies(acts: seq<Action>, s: State, own: bool, r: Option<In.Request>, forked: bool, why: Bytes, id: nat)
    requires Ties(acts, s, id) && GuestTake(forked, why) in acts
    ensures Ties(acts, Dispatch(s, own, r, forked, why), id)
  {
    hide Ties, Send;
    match r
    case None =>
    case Some(Kill(_)) =>
    case Some(Ping) => SayTies(acts, s, Pong, id);
    case Some(RunJob(j, cmd)) =>
      var t := if own then s else s.(stray := s.stray + {j});
      StrayTies(acts, s, t.stray, id);
      if j in s.guest || |s.guest| >= MAX_JOBS || !forked {
        assert Caused(acts, j, Error(why));
        SendTies(acts, acts, t, j, Error(why), id);
      } else {
        ForkTies(acts, t, j, cmd, id);
      }
  }

  lemma SayTies(acts: seq<Action>, s: State, l: Line, id: nat)
    requires Ties(acts, s, id)
    ensures Ties(acts, s.(toHost := s.toHost + [l]), id)
  {
  }

  lemma StrayTies(acts: seq<Action>, s: State, stray: set<nat>, id: nat)
    requires Ties(acts, s, id) && s.stray <= stray
    ensures Ties(acts, s.(stray := stray), id)
  {
  }

  lemma ForkTies(acts: seq<Action>, s: State, j: nat, cmd: Bytes, id: nat)
    requires Ties(acts, s, id)
    ensures Ties(acts, s.(guest := s.guest[j := GuestJob(cmd, false, None)]), id)
  {
  }

  lemma StepTies(base: nat, acts: seq<Action>, s: State, a: Action, id: nat)
    requires Inv(base, s) && base <= id && Ties(acts, s, id) && Step(s, a).Some?
    ensures Ties(acts + [a], Step(s, a).value, id)
  {
    hide Inv, Ties, DoTake, Send;
    match a
    case GuestTake(forked, why) => TakeKeepsTies(acts, s, forked, why, id);
    case Output(j, text) =>
      PrintedSnoc(acts, a, id);
      SendTies(acts, acts + [a], s, j, Out(text), id);
    case Reap(j) => ReapTies(acts, s, j, id);
    case _ => HostKeepsTies(acts, s, a, id);
  }

  lemma ReapTies(acts: seq<Action>, s: State, j: nat, id: nat)
    requires Ties(acts, s, id) && Step(s, Reap(j)).Some?
    ensures Ties(acts + [Reap(j)], DoReap(s, j), id)
  {
    hide Send;
    PrintedSnoc(acts, Reap(j), id);
    SendTies(acts, acts + [Reap(j)], s, j, Exit(s.guest[j].status.value), id);
    SendKeepsGuest(s, j, Exit(s.guest[j].status.value));
  }

  lemma SendKeepsGuest(s: State, j: nat, e: Event)
    ensures Send(s, j, e).guest == s.guest && Send(s, j, e).stray == s.stray
  {
  }

  lemma {:induction false} RunTies(s: State, acts: seq<Action>, id: nat)
    requires Init(s) && Guarded(Step, Safe, s, acts) && Exec(Step, s, acts).Some? && s.next <= id
    ensures Ties(acts, Exec(Step, s, acts).value, id)
  {
    hide Step, Safe, Init, Ties, Guarded;
    if acts == [] {
      NothingTied(s, id);
    } else {
      GuardedFront(Step, Safe, s, acts);
      var front := acts[..|acts| - 1];
      RunTies(s, front, id);
      RunKeepsInv(s, front);
      StepTies(s.next, front, Exec(Step, s, front).value, acts[|acts| - 1], id);
      assert front + [acts[|acts| - 1]] == acts;
    }
  }

  lemma NothingTied(s: State, id: nat)
    requires Init(s) && s.next <= id
    ensures Ties([], s, id)
  {
    assert !InUse(s, id);
  }

  lemma {:induction false} TextsPrefix(h: seq<Event>, sent: seq<Event>)
    requires h <= sent
    ensures Texts(h) <= Texts(sent)
    decreases |sent|
  {
    if |h| < |sent| {
      var front := sent[..|sent| - 1];
      TextsPrefix(h, front);
      assert sent == front + [sent[|sent| - 1]];
    } else {
      assert h == sent;
    }
  }

  /** In every run, a job's events are its own and true: the output it is told is what it printed, from
      the first line on and in order; it is told that it exited with a status only if it ended with
      that status, and that it could not start only if devd gave that reason. When it is told its
      exit, it has been told all it printed. */
  lemma EventsAreTheJobs(s: State, acts: seq<Action>, t: State, id: nat)
    requires Init(s) && Guarded(Step, Safe, s, acts) && Exec(Step, s, acts) == Some(t) && id in t.seen
    ensures Texts(t.seen[id]) <= Printed(acts, id)
    ensures forall i :: 0 <= i < |t.seen[id]| ==> Caused(acts, id, t.seen[id][i])
    ensures var h := t.seen[id]; h != [] && h[|h| - 1].Exit? && id !in t.stray ==> Texts(h) == Printed(acts, id)
  {
    hide Step, Safe, Init, Guarded, Caused, EndsOnce, Proper;
    RunKeepsInv(s, acts);
    SeenIsNew(s.next, t, id);
    RunTies(s, acts, id);
    EveryJobIsTold(s, acts, t, id);
    ToldIsCaused(acts, id, t.seen[id], At(t.sent, id));
  }

  lemma SeenIsNew(base: nat, s: State, id: nat)
    requires Inv(base, s) && id in s.seen
    ensures base <= id
  {
  }

  lemma ToldIsCaused(acts: seq<Action>, id: nat, h: seq<Event>, sent: seq<Event>)
    requires Told(h, sent) && AllCaused(acts, id, sent)
    ensures AllCaused(acts, id, h) && Texts(h) <= Texts(sent)
  {
    if h <= sent {
      TextsPrefix(h, sent);
    } else {
      TextsPrefix(h[..|h| - 1], sent);
    }
  }

  // ---- No job is waited on in vain ----

  predicate AsksFor(i: Item, id: nat) { Asks(i) && i.request.id == id }

  /** A line that ends job `id`: its own last one, or the one that ends all jobs. */
  predicate EndsJob(l: Line, id: nat) { l.Hello? || (l.Job? && l.id == id && !l.event.Out?) }

  predicate Asked(items: seq<Item>, id: nat) { exists i :: 0 <= i < |items| && AsksFor(items[i], id) }

  predicate Ending(lines: seq<Line>, id: nat) { exists i :: 0 <= i < |lines| && EndsJob(lines[i], id) }

  /** Job `id` is asked for, runs, or has its end on its way. */
  predicate Underway(s: State, id: nat) {
    Asked(s.toGuest, id) || id in s.guest || Ending(s.toHost, id)
  }

  ghost predicate NoneStranded(s: State) {
    s.conn.Open? ==> forall id :: id in s.live ==> Underway(s, id)
  }

  lemma AskedMore(items: seq<Item>, i: Item, id: nat)
    ensures Asked(items + [i], id) <==> Asked(items, id) || AsksFor(i, id)
  {
    hide AsksFor;
    var more := items + [i];
    assert more[|items|] == i;
    assert forall k :: 0 <= k < |items| ==> more[k] == items[k];
  }

  lemma EndingMore(lines: seq<Line>, l: Line, id: nat)
    ensures Ending(lines + [l], id) <==> Ending(lines, id) || EndsJob(l, id)
  {
    hide EndsJob;
    var more := lines + [l];
    assert more[|lines|] == l;
    assert forall k :: 0 <= k < |lines| ==> more[k] == lines[k];
  }

  lemma AskedFirst(items: seq<Item>, id: nat)
    requires items != []
    ensures Asked(items, id) <==> AsksFor(items[0], id) || Asked(items[1..], id)
  {
    hide AsksFor;
    assert forall k :: 1 <= k < |items| ==> items[1..][k - 1] == items[k];
  }

  lemma EndingFirst(lines: seq<Line>, id: nat)
    requires lines != []
    ensures Ending(lines, id) <==> EndsJob(lines[0], id) || Ending(lines[1..], id)
  {
    hide EndsJob;
    assert forall k :: 1 <= k < |lines| ==> lines[1..][k - 1] == lines[k];
  }

  lemma SendStrandsNone(s: State, j: nat, e: Event, id: nat)
    ensures Underway(s, id) || (j == id && !e.Out?) ==> Underway(Send(s, j, e), id)
  {
    hide Asked, Ending;
    EndingMore(s.toHost, Job(j, e), id);
  }

  /** devd takes a request: it starts the job, or says that it did not. */
  lemma TakeStrandsNone(base: nat, s: State, forked: bool, why: Bytes, id: nat)
    requires Inv(base, s) && s.toGuest != [] && Underway(s, id)
    ensures Underway(DoTake(s, forked, why), id)
  {
    hide Inv, Take, In.ParseRequest, Asked, Ending, Send, Dispatch, In.Taken;
    AskedFirst(s.toGuest, id);
    var c := Take(s.rx, s.toGuest[0]);
    var t := s.(toGuest := s.toGuest[1..], rx := c.rx);
    if AsksFor(s.toGuest[0], id) {
      assert s.rx == [] by {
        if s.rx != [] {
          JoinedLine(base, s);
        }
      }
      OwnLine(base, s);
      AskedIsAnswered(t, s.toGuest[0].request, forked, why);
    } else if c.lines != [] {
      DispatchStrandsNone(t, s.rx == [], In.ParseRequest(c.lines[0]), forked, why, id);
    }
  }

  lemma AskedIsAnswered(t: State, r: In.Request, forked: bool, why: Bytes)
    requires r.RunJob?
    ensures Underway(Dispatch(t, true, Some(In.Taken(r)), forked, why), r.id)
  {
    hide Asked, Ending, In.Stripped, Send;
    SendStrandsNone(t, r.id, Error(why), r.id);
  }

  lemma DispatchStrandsNone(s: State, own: bool, r: Option<In.Request>, forked: bool, why: Bytes, id: nat)
    requires Underway(s, id)
    ensures Underway(Dispatch(s, own, r, forked, why), id)
  {
    hide Asked, Ending, Send;
    match r
    case Some(Ping) => EndingMore(s.toHost, Pong, id);
    case Some(RunJob(j, _)) =>
      var t := if own then s else s.(stray := s.stray + {j});
      SendStrandsNone(t, j, Error(why), id);
    case _ =>
  }

  lemma GuestStrandsNone(base: nat, s: State, a: Action, id: nat)
    requires Inv(base, s) && OfGuest(a) && Underway(s, id) && Step(s, a).Some?
    ensures Underway(Step(s, a).value, id)
  {
    hide Inv, Asked, Ending, Send, DoTake;
    match a
    case GuestTake(forked, why) => TakeStrandsNone(base, s, forked, why, id);
    case Output(j, text) => SendStrandsNone(s, j, Out(text), id);
    case Reap(j) => ReapStrandsNone(s, j, id);
    case Reopen(k) => EndingMore(s.toHost, Hello, id);
    case _ =>
  }

  lemma ReapStrandsNone(s: State, j: nat, id: nat)
    requires Underway(s, id) && j in s.guest && s.guest[j].status.Some?
    ensures Underway(DoReap(s, j), id)
  {
    hide Asked, Ending, Send;
    SendKeepsGuest(s, j, Exit(s.guest[j].status.value));
    SendKeepsQueues(s, j, Exit(s.guest[j].status.value));
    EndingMore(s.toHost, Job(j, Exit(s.guest[j].status.value)), id);
  }

  lemma SendKeepsQueues(s: State, j: nat, e: Event)
    ensures var t := Send(s, j, e); t.toGuest == s.toGuest && t.toHost == s.toHost + [Job(j, e)] && t.live == s.live
  {
  }

  /** A line that is read ends a job, or was not its end. */
  lemma ReadStrandsNone(s: State, id: nat)
    requires s.conn.Open? && s.toHost != [] && id in DoRead(s).live && Underway(s, id)
    ensures id in s.live && Underway(DoRead(s), id)
  {
    hide Asked, Ending, LoseAll;
    EndingFirst(s.toHost, id);
    LoseAllLoses(TakeLine(s));
    LoseAllKeepsGuest(TakeLine(s));
  }

  lemma LoseAllLoses(s: State)
    ensures LoseAll(s).live == {} && LoseAll(s).toGuest == s.toGuest && LoseAll(s).toHost == s.toHost
  {
  }

  lemma HostStrandsNone(base: nat, s: State, a: Action, id: nat)
    requires Inv(base, s) && NoneStranded(s) && !OfGuest(a) && Step(s, a).Some?
    requires Step(s, a).value.conn.Open? && id in Step(s, a).value.live
    ensures Underway(Step(s, a).value, id)
  {
    hide Asked, Ending, LoseAll, DoRead, Accepts, CanBreak, CanCut, Delivered, In.Render, Inv, Without, AsksFor, Full,
         PieceRead;
    LoseAllKeepsConn(s.(conn := Broken(0, None)));
    match a
    case Start(cmd) => StartStrandsNone(s, cmd, id);
    case StartFailed(cmd, reached) => FailedStrandsNone(s, cmd, reached, id);
    case SendKill(j) => AskedMore(s.toGuest, Full(In.Kill(j)), id);
    case Connect => DownIsEmpty(base, s);
    case HostRead => OpenReads(s, id);
    case _ =>
  }

  lemma LoseAllKeepsConn(s: State)
    ensures LoseAll(s).conn == s.conn
  {
  }

  lemma OpenReads(s: State, id: nat)
    requires NoneStranded(s) && s.toHost != [] && DoRead(s).conn.Open? && id in DoRead(s).live
    ensures Underway(DoRead(s), id)
  {
    hide Underway, OnLine;
    ReadKeepsOpen(s);
    if s.conn.Open? && id in s.live {
      ReadStrandsNone(s, id);
    }
  }

  lemma ReadKeepsOpen(s: State)
    requires s.toHost != []
    ensures DoRead(s).conn.Open? ==> s.conn.Open?
    ensures DoRead(s).live <= s.live
  {
  }

  lemma DownIsEmpty(base: nat, s: State)
    requires Inv(base, s) && s.conn.Down?
    ensures s.live == {}
  {
  }

  lemma StartStrandsNone(s: State, cmd: Bytes, id: nat)
    requires NoneStranded(s) && s.conn.Open? && s.checked > 0 && id in DoStart(s, cmd).live
    ensures Underway(DoStart(s, cmd), id)
  {
    hide Asked, Ending, In.Render;
    AskedMore(s.toGuest, Full(In.RunJob(s.next, cmd)), id);
  }

  lemma FailedStrandsNone(s: State, cmd: Bytes, reached: bool, id: nat)
    requires NoneStranded(s) && s.conn.Open? && s.checked > 0 && id in s.live
    ensures Underway(DoStartFailed(s, cmd, reached), id)
  {
    hide Asked, Ending, In.Render;
    AskedMore(s.toGuest, Full(In.RunJob(s.next, cmd)), id);
  }

  lemma StepStrandsNone(base: nat, s: State, a: Action)
    requires Inv(base, s) && NoneStranded(s) && Step(s, a).Some?
    ensures NoneStranded(Step(s, a).value)
  {
    hide Inv, Step, Underway;
    var t := Step(s, a).value;
    if t.conn.Open? {
      forall id | id in t.live ensures Underway(t, id) {
        if OfGuest(a) {
          GuestKeepsHost(s, a);
          GuestStrandsNone(base, s, a, id);
        } else {
          HostStrandsNone(base, s, a, id);
        }
      }
    }
  }

  lemma GuestKeepsHost(s: State, a: Action)
    requires OfGuest(a) && Step(s, a).Some?
    ensures Step(s, a).value.conn == s.conn && Step(s, a).value.live == s.live && Step(s, a).value.seen == s.seen
  {
    hide Take, In.ParseRequest, Dispatch, Send;
    match a
    case GuestTake(forked, why) =>
      var c := Take(s.rx, s.toGuest[0]);
      var t := s.(toGuest := s.toGuest[1..], rx := c.rx);
      if c.lines != [] {
        DispatchKeepsHost(t, s.rx == [], In.ParseRequest(c.lines[0]), forked, why);
      }
    case Output(j, text) => SendKeepsHost(s, j, Out(text));
    case Reap(j) => SendKeepsHost(s, j, Exit(s.guest[j].status.value));
    case _ =>
  }

  lemma SendKeepsHost(s: State, j: nat, e: Event)
    ensures Send(s, j, e).conn == s.conn && Send(s, j, e).live == s.live && Send(s, j, e).seen == s.seen
  {
  }

  lemma DispatchKeepsHost(s: State, own: bool, r: Option<In.Request>, forked: bool, why: Bytes)
    ensures var t := Dispatch(s, own, r, forked, why); t.conn == s.conn && t.live == s.live && t.seen == s.seen
  {
    hide Send;
    if r.Some? && r.value.RunJob? {
      SendKeepsHost(if own then s else s.(stray := s.stray + {r.value.id}), r.value.id, Error(why));
    }
  }

  /** While a connection is open, no job is waited on in vain: one that has not ended is asked for, or
      runs, or has its end on its way. */
  lemma NoJobIsStranded(s: State, acts: seq<Action>, t: State, id: nat)
    requires Init(s) && Guarded(Step, Safe, s, acts) && Exec(Step, s, acts) == Some(t)
    requires t.conn.Open? && id in t.live
    ensures Underway(t, id)
  {
    hide Inv, Init, Step, Safe, Underway;
    StartsUnstranded(s);
    var base := s.next;
    forall u, a | Inv(base, u) && NoneStranded(u) && Safe(u, a) && Step(u, a).Some?
      ensures Inv(base, Step(u, a).value) && NoneStranded(Step(u, a).value)
    {
      StepKeepsInv(base, u, a);
      StepStrandsNone(base, u, a);
    }
    RunKeeps(Step, Safe, u => Inv(base, u) && NoneStranded(u), s, acts);
  }

  lemma StartsUnstranded(s: State)
    requires Init(s)
    ensures Inv(s.next, s) && NoneStranded(s)
  {
    hide Inv;
    InitIsInv(s);
  }

  // ---- Every job ends ----

  predicate HasEnded(h: seq<Event>) { h != [] && !h[|h| - 1].Out? }

  /** A job that the host waits on no more has ended, or its `Job` was dropped. */
  ghost predicate Closed(acts: seq<Action>, s: State) {
    && (forall id :: id in s.live ==> id in s.seen && id < s.next)
    && (forall id :: id in s.seen && id !in s.live && Forget(id) !in acts ==> HasEnded(s.seen[id]))
  }

  lemma LoseAllCloses(acts: seq<Action>, s: State)
    requires Closed(acts, s)
    ensures Closed(acts, LoseAll(s))
  {
  }

  lemma OnLineCloses(acts: seq<Action>, s: State, l: Line)
    requires Closed(acts, s)
    ensures Closed(acts, OnLine(s, l))
  {
    hide LoseAll;
    LoseAllCloses(acts, s);
    if l.Hello? {
      LoseAllKeepsUp(acts, LoseAll(s));
    }
  }

  lemma LoseAllKeepsUp(acts: seq<Action>, s: State)
    requires Closed(acts, s)
    ensures Closed(acts, s.(up := true))
  {
  }

  /** A longer run, and a state with the same jobs. */
  lemma ClosedLater(acts: seq<Action>, more: seq<Action>, s: State, t: State)
    requires Closed(acts, s) && (forall a :: a in acts ==> a in more)
    requires t.live == s.live && t.seen == s.seen && t.next >= s.next
    ensures Closed(more, t)
  {
  }

  lemma StepCloses(acts: seq<Action>, s: State, a: Action)
    requires Closed(acts, s) && Step(s, a).Some?
    ensures Closed(acts + [a], Step(s, a).value)
  {
    hide Closed, LoseAll, OnLine, Written, Accepts, CanBreak, CanCut, Delivered, PieceRead, In.Render, DoTake, DoReap,
         DoReopen, Send, Full, Without;
    var more, t := acts + [a], Step(s, a).value;
    match a
    case Start(cmd) => StartCloses(acts, s, cmd);
    case Forget(id) => ForgetCloses(acts, s, id);
    case HostRead =>
      ClosedLater(acts, more, s, TakeLine(s));
      OnLineCloses(more, TakeLine(s), s.toHost[0]);
    case HostPiece =>
      ClosedLater(acts, more, s, s.(conn := Broken(0, None)));
      OnLineCloses(more, s.(conn := Broken(0, None)), s.conn.piece.value);
    case HostEof => EofCloses(acts, s, a);
    case HostError => EofCloses(acts, s, a);
    case _ =>
      if OfGuest(a) {
        GuestKeepsHost(s, a);
        GuestKeepsNext(s, a);
      }
      ClosedLater(acts, more, s, t);
  }

  lemma GuestKeepsNext(s: State, a: Action)
    requires OfGuest(a) && Step(s, a).Some?
    ensures Step(s, a).value.next == s.next
  {
    hide Take, In.ParseRequest;
  }

  lemma EofCloses(acts: seq<Action>, s: State, a: Action)
    requires Closed(acts, s)
    ensures Closed(acts + [a], DoEof(s))
  {
    hide Closed, LoseAll;
    LoseAllCloses(acts, s);
    ClosedLater(acts, acts + [a], LoseAll(s), DoEof(s));
  }

  lemma StartCloses(acts: seq<Action>, s: State, cmd: Bytes)
    requires Closed(acts, s) && s.checked > 0
    ensures Closed(acts + [Start(cmd)], DoStart(s, cmd))
  {
  }

  lemma ForgetCloses(acts: seq<Action>, s: State, id: nat)
    requires Closed(acts, s)
    ensures Closed(acts + [Forget(id)], s.(live := s.live - {id}))
  {
  }

  lemma {:induction false} RunCloses(s: State, acts: seq<Action>)
    requires Init(s) && Exec(Step, s, acts).Some?
    ensures Closed(acts, Exec(Step, s, acts).value)
  {
    hide Step, Closed;
    if acts == [] {
      NothingClosed(s);
    } else {
      var front := acts[..|acts| - 1];
      RunCloses(s, front);
      StepCloses(front, Exec(Step, s, front).value, acts[|acts| - 1]);
      assert front + [acts[|acts| - 1]] == acts;
    }
  }

  lemma NothingClosed(s: State)
    requires Init(s)
    ensures Closed([], s)
  {
  }

  /** In every run, a job that nobody dropped has been told an end (exited, failed or lost) or is still
      waited on, and none is once the connection is down. */
  lemma EveryJobEnds(s: State, acts: seq<Action>, t: State, id: nat)
    requires Init(s) && Guarded(Step, Safe, s, acts) && Exec(Step, s, acts) == Some(t)
    requires id in t.seen && Forget(id) !in acts
    ensures id in t.live || HasEnded(t.seen[id])
    ensures t.conn.Down? ==> HasEnded(t.seen[id])
  {
    hide Inv, Init, Step, Safe, Guarded, HasEnded;
    RunCloses(s, acts);
    RunKeepsInv(s, acts);
    if t.conn.Down? {
      DownIsEmpty(s.next, t);
    }
  }
}
