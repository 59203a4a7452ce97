/** One control connection (`crates/cdj3k-emu-control/src/server.rs`): a reader thread that
    asks the window one request at a time, the window that answers through responders and
    sends events, and the queue of the writer thread. A request's `done` flag is set and its
    reply queued under one mutex, as two steps here, so that every other thread may act
    between them wherever the mutex lets it. */
module ControlServer {
  import opened Optional
  import opened Runs

  /** What the reader makes of a line: not UTF-8, nothing, too long, not a command, or a command. */
  datatype LineKind = NotText | Blank | TooLong | Malformed | Asks(serverGone: bool)

  /** Whose words a reply is. */
  datatype Words = Window(value: int) | LineError | Dropped | Timeout

  /** A line that was not blank. `words` is the answer it has (`done` is `words.Some?`); `locked`,
      while that answer's holder has the mutex and has not queued it; `responder`, while the
      window or the channel to it still holds the responder. */
  datatype Request = Request(words: Option<Words>, locked: bool, responder: bool)

  /** An event knows the requests that the window had finished answering when it was sent. */
  datatype Item = Reply(request: nat, words: Words) | Event(after: set<nat>)

  datatype Reader = Reading | Asking(request: nat) | Stopped

  /** `returned` holds the requests for which the window's call of `Responder::send` returned;
      `writing`, whether the writer thread still takes lines. */
  datatype State = State(requests: seq<Request>, reader: Reader, queue: seq<Item>, returned: set<nat>, writing: bool)

  datatype Action =
    | ReadLine(kind: LineKind)
    | ReadEnd
    | Answer(r: nat, value: int)   // Responder::send takes the mutex
    | DropResponder(r: nat)        // Responder::drop takes the mutex
    | TimeOut                      // ask_window, holding the mutex, is past its deadline
    | Queue(r: nat)                // whoever answered r queues the reply and frees the mutex
    | Resume                       // ask_window finds the request done
    | PeerClosed                   // ask_window finds the client gone
    | SendEvent
    | WriterEnds

  function Push(s: State, item: Item): State {
    if s.writing then s.(queue := s.queue + [item]) else s
  }

  /** A line the reader answers itself. */
  function AnswerLine(s: State, reader: Reader): State {
    var id := |s.requests|;
    Push(s, Reply(id, LineError)).(requests := s.requests + [Request(Some(LineError), false, false)], reader := reader)
  }

  /** A line that `read_line` refused: `serve` returns, and nobody holds a responder. */
  const UNANSWERED: Request := Request(None, false, false)

  function DoReadLine(s: State, kind: LineKind): State {
    match kind
    case NotText => s.(requests := s.requests + [UNANSWERED], reader := Stopped)
    case Blank => s
    case TooLong => AnswerLine(s, Stopped)
    case Malformed => AnswerLine(s, if s.writing then Reading else Stopped)
    case Asks(serverGone) =>
      s.(requests := s.requests + [Request(None, false, true)],
         reader := if serverGone then Stopped else Asking(|s.requests|))
  }

  predicate Unlocked(s: State, r: nat) { r < |s.requests| && !s.requests[r].locked }

  /** Takes the mutex; the flag decides whether there is a reply to queue. */
  function Mark(r: Request, words: Words): Request {
    if r.words.Some? then r else r.(words := Some(words), locked := true)
  }

  function DoAnswer(s: State, r: nat, value: int): State
    requires r < |s.requests|
  {
    var done := s.requests[r].words.Some?;
    s.(requests := s.requests[r := Mark(s.requests[r], Window(value))],
       returned := if done then s.returned + {r} else s.returned)
  }

  function DoDrop(s: State, r: nat): State
    requires r < |s.requests|
  {
    s.(requests := s.requests[r := Mark(s.requests[r], Dropped).(responder := false)])
  }

  function DoQueue(s: State, r: nat): State
    requires r < |s.requests| && s.requests[r].words.Some?
  {
    var words := s.requests[r].words.value;
    Push(s, Reply(r, words)).(requests := s.requests[r := s.requests[r].(locked := false)],
                           returned := if words.Window? then s.returned + {r} else s.returned)
  }

  function Step(s: State, a: Action): Option<State> {
    match a
    case ReadLine(kind) => if s.reader.Reading? then Some(DoReadLine(s, kind)) else None
    case ReadEnd => if s.reader.Reading? then Some(s.(reader := Stopped)) else None
    case Answer(r, value) => if Unlocked(s, r) && s.requests[r].responder then Some(DoAnswer(s, r, value)) else None
    case DropResponder(r) => if Unlocked(s, r) && s.requests[r].responder then Some(DoDrop(s, r)) else None
    case TimeOut =>
      if s.reader.Asking? && Unlocked(s, s.reader.request) && s.requests[s.reader.request].words.None?
      then Some(s.(requests := s.requests[s.reader.request := Mark(s.requests[s.reader.request], Timeout)])) else None
    case Queue(r) =>
      if r < |s.requests| && s.requests[r].locked && s.requests[r].words.Some? then Some(DoQueue(s, r)) else None
    case Resume =>
      if s.reader.Asking? && Unlocked(s, s.reader.request) && s.requests[s.reader.request].words.Some?
      then Some(s.(reader := Reading)) else None
    case PeerClosed =>
      if s.reader.Asking? && Unlocked(s, s.reader.request) && s.requests[s.reader.request].words.None?
      then Some(s.(reader := Stopped)) else None
    case SendEvent => Some(Push(s, Event(s.returned)))
    case WriterEnds => Some(s.(writing := false))
  }

  const INIT: State := State([], Reading, [], {}, true)

  // ---- What the queue holds ----

  /** The requests that the queued replies answer, in queue order. */
  function Answered(queue: seq<Item>): seq<nat> {
    if queue == [] then []
    else
      var last := queue[|queue| - 1];
      Answered(queue[..|queue| - 1]) + if last.Reply? then [last.request] else []
  }

  function UpTo(n: nat): (s: seq<nat>)
    ensures |s| == n && forall i :: 0 <= i < n ==> s[i] == i
  {
    seq(n, i => i)
  }

  predicate Complete(r: Request) { r.words.Some? && !r.locked }

  /** How many requests have had their reply queued: all, or all but the last. */
  function Settled(requests: seq<Request>): nat {
    if requests == [] || Complete(requests[|requests| - 1]) then |requests| else |requests| - 1
  }

  ghost predicate RequestsOk(requests: seq<Request>, reader: Reader) {
    && (forall r :: 0 <= r < Settled(requests) ==> Complete(requests[r]))
    && (forall r :: 0 <= r < |requests| && requests[r].locked ==> requests[r].words.Some?)
    && (reader.Reading? ==> Settled(requests) == |requests|)
    && (reader.Asking? ==> reader.request == |requests| - 1)
  }

  ghost predicate RepliesOk(requests: seq<Request>, queue: seq<Item>, writing: bool) {
    && Answered(queue) == UpTo(|Answered(queue)|)
    && |Answered(queue)| <= Settled(requests)
    && (writing ==> |Answered(queue)| == Settled(requests))
    && (forall i :: 0 <= i < |queue| && queue[i].Reply? ==>
          queue[i].request < |requests| && requests[queue[i].request].words == Some(queue[i].words))
  }

  ghost predicate EventsOk(queue: seq<Item>, returned: set<nat>, writing: bool) {
    && (forall i :: 0 <= i < |queue| && queue[i].Event? ==>
          forall r :: r in queue[i].after ==> r < |Answered(queue[..i])|)
    && (writing ==> forall r :: r in returned ==> r < |Answered(queue)|)
  }

  ghost predicate Inv(s: State) {
    && RequestsOk(s.requests, s.reader)
    && RepliesOk(s.requests, s.queue, s.writing)
    && EventsOk(s.queue, s.returned, s.writing)
  }

  lemma AnsweredSnoc(queue: seq<Item>, item: Item)
    ensures Answered(queue + [item]) == Answered(queue) + if item.Reply? then [item.request] else []
  {
    assert (queue + [item])[..|queue|] == queue;
  }

  lemma UpToNext(n: nat)
    ensures UpTo(n) + [n] == UpTo(n + 1)
  {
  }

  /** Queueing the reply of the one request that was not settled. */
  lemma ReplyKeepsReplies(before: seq<Request>, after: seq<Request>, queue: seq<Item>, words: Words)
    requires RepliesOk(before, queue, true)
    requires |after| == Settled(before) + 1 == Settled(after) && after[|after| - 1].words == Some(words)
    requires forall r :: 0 <= r < |before| && before[r].words.Some? ==> r < |after| && after[r].words == before[r].words
    ensures RepliesOk(after, queue + [Reply(Settled(before), words)], true)
  {
    AnsweredSnoc(queue, Reply(Settled(before), words));
    UpToNext(Settled(before));
  }

  /** Requests may gain answers, and settled ones stay settled. */
  lemma OtherKeepsReplies(before: seq<Request>, after: seq<Request>, queue: seq<Item>, writing: bool)
    requires RepliesOk(before, queue, writing)
    requires Settled(before) <= Settled(after) && (writing ==> Settled(after) == Settled(before))
    requires forall r :: 0 <= r < |before| && before[r].words.Some? ==> r < |after| && after[r].words == before[r].words
    ensures RepliesOk(after, queue, writing)
  {
  }

  lemma PushKeepsEvents(queue: seq<Item>, returned: set<nat>, item: Item)
    requires EventsOk(queue, returned, true) && (item.Event? ==> item.after == returned)
    ensures EventsOk(queue + [item], returned, true)
  {
    AnsweredSnoc(queue, item);
    var longer := queue + [item];
    forall i | 0 <= i < |longer| && longer[i].Event?
      ensures forall r :: r in longer[i].after ==> r < |Answered(longer[..i])|
    {
      assert longer[..i] == queue[..i];
      if i == |queue| {
        assert queue[..i] == queue;
      }
    }
  }

  // ---- Every step keeps the invariant ----

  lemma ReadLineKeepsInv(s: State, kind: LineKind)
    requires Inv(s) && s.reader.Reading?
    ensures Inv(DoReadLine(s, kind))
  {
    hide RepliesOk, EventsOk;
    var t := DoReadLine(s, kind);
    match kind
    case Blank =>
    case NotText => OtherKeepsReplies(s.requests, t.requests, s.queue, s.writing);
    case Asks(_) => OtherKeepsReplies(s.requests, t.requests, s.queue, s.writing);
    case _ =>
      assert Settled(t.requests) == |t.requests|;
      if s.writing {
        ReplyKeepsReplies(s.requests, t.requests, s.queue, LineError);
        PushKeepsEvents(s.queue, s.returned, Reply(|s.requests|, LineError));
      } else {
        OtherKeepsReplies(s.requests, t.requests, s.queue, s.writing);
      }
  }

  /** An answer that has yet to be queued. */
  lemma MarkKeepsInv(s: State, r: nat, words: Words, responder: bool)
    requires Inv(s) && Unlocked(s, r)
    ensures Inv(s.(requests := s.requests[r := Mark(s.requests[r], words).(responder := responder)]))
  {
    hide RepliesOk, EventsOk;
    var marked := s.requests[r := Mark(s.requests[r], words).(responder := responder)];
    OtherKeepsReplies(s.requests, marked, s.queue, s.writing);
  }

  lemma AnswerKeepsInv(s: State, r: nat, value: int)
    requires Inv(s) && Unlocked(s, r) && s.requests[r].responder
    ensures Inv(DoAnswer(s, r, value))
  {
    hide RepliesOk;
    MarkKeepsInv(s, r, Window(value), true);
    if s.requests[r].words.Some? && s.writing {
      SettledIsQueued(s, r);
    }
  }

  lemma SettledIsQueued(s: State, r: nat)
    requires Inv(s) && s.writing && r < |s.requests| && Complete(s.requests[r])
    ensures r < |Answered(s.queue)|
  {
  }

  lemma QueueKeepsInv(s: State, r: nat)
    requires Inv(s) && r < |s.requests| && s.requests[r].locked && s.requests[r].words.Some?
    ensures Inv(DoQueue(s, r))
  {
    hide RepliesOk, EventsOk;
    var t, words := DoQueue(s, r), s.requests[r].words.value;
    assert r == |s.requests| - 1 == Settled(s.requests) && Settled(t.requests) == |t.requests|;
    if s.writing {
      ReplyKeepsReplies(s.requests, t.requests, s.queue, words);
      PushKeepsEvents(s.queue, s.returned, Reply(r, words));
      ReturnKeepsEvents(s, t, r);
    } else {
      OtherKeepsReplies(s.requests, t.requests, s.queue, false);
      DeadKeepsEvents(s.queue, s.returned, t.returned);
    }
  }

  lemma ReturnKeepsEvents(s: State, t: State, r: nat)
    requires EventsOk(t.queue, s.returned, true) && t.returned <= s.returned + {r}
    requires RepliesOk(t.requests, t.queue, true) && r < Settled(t.requests)
    ensures EventsOk(t.queue, t.returned, true)
  {
  }

  lemma DeadKeepsEvents(queue: seq<Item>, before: set<nat>, after: set<nat>)
    requires EventsOk(queue, before, false)
    ensures EventsOk(queue, after, false)
  {
  }

  lemma EventKeepsInv(s: State)
    requires Inv(s)
    ensures Inv(Push(s, Event(s.returned)))
  {
    hide RequestsOk;
    if s.writing {
      PushKeepsEvents(s.queue, s.returned, Event(s.returned));
      AnsweredSnoc(s.queue, Event(s.returned));
    }
  }

  lemma StepKeepsInv(s: State, a: Action)
    requires Inv(s) && Step(s, a).Some?
    ensures Inv(Step(s, a).value)
  {
    hide RepliesOk, EventsOk, DoReadLine, DoAnswer, DoQueue, Push;
    match a
    case ReadLine(kind) => ReadLineKeepsInv(s, kind);
    case ReadEnd =>
    case Answer(r, value) => AnswerKeepsInv(s, r, value);
    case DropResponder(r) => MarkKeepsInv(s, r, Dropped, false);
    case TimeOut => MarkKeepsInv(s, s.reader.request, Timeout, s.requests[s.reader.request].responder);
    case Queue(r) => QueueKeepsInv(s, r);
    case Resume =>
    case PeerClosed =>
    case SendEvent => EventKeepsInv(s);
    case WriterEnds => WriterEndKeepsInv(s);
  }

  lemma WriterEndKeepsInv(s: State)
    requires Inv(s)
    ensures Inv(s.(writing := false))
  {
  }

  lemma RunKeepsInv(acts: seq<Action>)
    requires Exec(Step, INIT, acts).Some?
    ensures Inv(Exec(Step, INIT, acts).value)
  {
    hide Inv, Step;
    InitIsInv();
    forall t, a | Inv(t) && Always(t, a) && Step(t, a).Some? ensures Inv(Step(t, a).value) {
      StepKeepsInv(t, a);
    }
    RunKeeps(Step, Always, Inv, INIT, acts);
  }

  lemma InitIsInv()
    ensures Inv(INIT)
  {
  }

  /** In every interleaving, the queued replies answer the lines that were not blank one to
      one and in order, each with the answer its request was given first. While the writer
      runs, none is missing but the last line's, and that only as long as it is being asked,
      after its client was found gone, or when it is not UTF-8. */
  lemma RepliesMatchRequests(acts: seq<Action>, s: State)
    requires Exec(Step, INIT, acts) == Some(s)
    ensures Answered(s.queue) == UpTo(|Answered(s.queue)|) && |Answered(s.queue)| <= |s.requests|
    ensures s.writing ==> |Answered(s.queue)| >= |s.requests| - 1
    ensures s.writing && s.requests != [] && Complete(s.requests[|s.requests| - 1]) ==>
              |Answered(s.queue)| == |s.requests|
    ensures s.writing && s.reader.Reading? ==> |Answered(s.queue)| == |s.requests|
    ensures forall i :: 0 <= i < |s.queue| && s.queue[i].Reply? ==>
              s.queue[i].request < |s.requests| && s.requests[s.queue[i].request].words == Some(s.queue[i].words)
  {
    RunKeepsInv(acts);
  }

  /** The reader stopped at a line that is not UTF-8. */
  predicate Refused(s: State) {
    s.reader.Stopped? && s.requests != [] && s.requests[|s.requests| - 1] == UNANSWERED
  }

  /** A line that is not UTF-8 ends the requests of its connection: it is the last one, and in
      no later run does it get a reply. */
  lemma NotTextIsNeverAnswered(acts: seq<Action>, s: State, more: seq<Action>, t: State)
    requires Exec(Step, INIT, acts) == Some(s) && s.reader.Reading?
    requires Exec(Step, DoReadLine(s, NotText), more) == Some(t)
    ensures |t.requests| == |s.requests| + 1 && t.requests[|s.requests|] == UNANSWERED
    ensures |s.requests| !in Answered(t.queue)
  {
    hide Step, Inv;
    var first, n := DoReadLine(s, NotText), |s.requests| + 1;
    var inv := (u: State) => Inv(u) && Refused(u) && |u.requests| == n;
    RunKeepsInv(acts);
    ReadLineKeepsInv(s, NotText);
    forall u, a | inv(u) && Always(u, a) && Step(u, a).Some? ensures inv(Step(u, a).value) {
      StepKeepsInv(u, a);
      RefusedStays(u, a);
    }
    RunKeeps(Step, Always, inv, first, more);
    LastIsMissing(t);
  }

  lemma RefusedStays(s: State, a: Action)
    requires Inv(s) && Refused(s) && Step(s, a).Some?
    ensures Refused(Step(s, a).value) && |Step(s, a).value.requests| == |s.requests|
  {
    hide RepliesOk, EventsOk;
  }

  lemma LastIsMissing(s: State)
    requires Inv(s) && Refused(s)
    ensures |s.requests| - 1 !in Answered(s.queue)
  {
  }

  /** An event the window sends after replying to a request is queued after that request's reply. */
  lemma EventsFollowReplies(acts: seq<Action>, s: State, i: nat, r: nat)
    requires Exec(Step, INIT, acts) == Some(s) && i < |s.queue| && s.queue[i].Event? && r in s.queue[i].after
    ensures r in Answered(s.queue[..i])
  {
    RunKeepsInv(acts);
    AnsweredPrefix(s.queue, i);
    assert Answered(s.queue[..i])[r] == Answered(s.queue)[r] == r;
  }

  lemma {:induction false} AnsweredPrefix(queue: seq<Item>, i: nat)
    requires i <= |queue|
    ensures Answered(queue[..i]) <= Answered(queue)
  {
    if i < |queue| {
      var front := queue[..|queue| - 1];
      AnsweredPrefix(front, i);
      assert front[..i] == queue[..i];
    } else {
      assert queue[..i] == queue;
    }
  }

  // ---- One answer ----

  predicate Has(s: State, r: nat, words: Words) { r < |s.requests| && s.requests[r].words == Some(words) }

  lemma StepKeepsAnswer(s: State, a: Action, r: nat, words: Words)
    requires Has(s, r, words) && Step(s, a).Some?
    ensures Has(Step(s, a).value, r, words)
  {
  }

  /** The first answer stands: a late reply, a drop or a timeout after it changes nothing, in any run. */
  lemma FirstAnswerStands(s: State, acts: seq<Action>, t: State, r: nat)
    requires Exec(Step, s, acts) == Some(t) && r < |s.requests| && s.requests[r].words.Some?
    ensures r < |t.requests| && t.requests[r].words == s.requests[r].words
  {
    hide Step;
    var words := s.requests[r].words.value;
    forall u, a | Has(u, r, words) && Always(u, a) && Step(u, a).Some? ensures Has(Step(u, a).value, r, words) {
      StepKeepsAnswer(u, a, r, words);
    }
    RunKeeps(Step, Always, u => Has(u, r, words), s, acts);
  }

  // ---- Whose answer it is ----

  /** What the window answered request `r`, in the order of a run. */
  function Answers(acts: seq<Action>, r: nat): seq<int> {
    if acts == [] then []
    else
      var last := acts[|acts| - 1];
      Answers(acts[..|acts| - 1], r) + if last.Answer? && last.r == r then [last.value] else []
  }

  /** The words of request `r` come from the actions of the run: the window's are its first answer,
      and any others were there before it answered, or it never did. */
  ghost predicate Tied(acts: seq<Action>, s: State, r: nat) {
    if r >= |s.requests| then Answers(acts, r) == []
    else match s.requests[r].words
      case None => Answers(acts, r) == []
      case Some(Window(value)) => Answers(acts, r) != [] && Answers(acts, r)[0] == value
      case Some(Dropped) => Answers(acts, r) == [] && DropResponder(r) in acts
      case Some(LineError) => Answers(acts, r) == [] && (ReadLine(TooLong) in acts || ReadLine(Malformed) in acts)
      case Some(Timeout) => TimeOut in acts
  }

  /** Only a held responder answers, and only a request it was made for. */
  predicate HeldOk(s: State) {
    forall r :: 0 <= r < |s.requests| && s.requests[r].responder ==>
      !(s.requests[r].words == Some(Dropped)) && !(s.requests[r].words == Some(LineError))
  }

  lemma StepKeepsHeld(s: State, a: Action)
    requires HeldOk(s) && Step(s, a).Some?
    ensures HeldOk(Step(s, a).value)
  {
  }

  lemma StepTies(acts: seq<Action>, s: State, a: Action, r: nat)
    requires HeldOk(s) && Tied(acts, s, r) && Step(s, a).Some?
    ensures Tied(acts + [a], Step(s, a).value, r)
  {
    assert (acts + [a])[..|acts|] == acts;
  }

  lemma {:induction false} RunTies(acts: seq<Action>, r: nat)
    requires Exec(Step, INIT, acts).Some?
    ensures Tied(acts, Exec(Step, INIT, acts).value, r) && HeldOk(Exec(Step, INIT, acts).value)
  {
    hide Step, Tied, HeldOk;
    if acts == [] {
      NothingTied(r);
    } else {
      var front := acts[..|acts| - 1];
      RunTies(front, r);
      var s := Exec(Step, INIT, front).value;
      StepKeepsHeld(s, acts[|acts| - 1]);
      StepTies(front, s, acts[|acts| - 1], r);
      assert front + [acts[|acts| - 1]] == acts;
    }
  }

  lemma NothingTied(r: nat)
    ensures Tied([], INIT, r) && HeldOk(INIT)
  {
  }

  /** In every run, a reply with the window's words carries the value of the window's first answer to
      that request; a reply that its responder was dropped, or that its line was wrong, is queued only
      when that happened and the window gave none; and one of a timeout only after one. */
  lemma RepliesAreTheWindows(acts: seq<Action>, s: State, i: nat)
    requires Exec(Step, INIT, acts) == Some(s) && i < |s.queue| && s.queue[i].Reply?
    ensures var Reply(r, words) := s.queue[i];
            match words
            case Window(value) => Answers(acts, r) != [] && Answers(acts, r)[0] == value
            case Dropped => Answers(acts, r) == [] && DropResponder(r) in acts
            case LineError => Answers(acts, r) == [] && (ReadLine(TooLong) in acts || ReadLine(Malformed) in acts)
            case Timeout => TimeOut in acts
  {
    hide Step, Answers, HeldOk;
    RepliesMatchRequests(acts, s);
    RunTies(acts, s.queue[i].request);
  }

  // ---- A line that is too long ----

  /** A line that is too long gets its error and ends the requests of its connection: none follows it in
      any later run. */
  lemma TooLongIsTheLast(acts: seq<Action>, s: State, more: seq<Action>, t: State)
    requires Exec(Step, INIT, acts) == Some(s) && s.reader.Reading?
    requires Exec(Step, DoReadLine(s, TooLong), more) == Some(t)
    ensures |t.requests| == |s.requests| + 1 && t.requests[|s.requests|].words == Some(LineError)
    ensures s.writing ==> Reply(|s.requests|, LineError) in DoReadLine(s, TooLong).queue
  {
    hide Step;
    var first, n := DoReadLine(s, TooLong), |s.requests|;
    var inv := (u: State) => u.reader.Stopped? && |u.requests| == n + 1 && u.requests[n].words == Some(LineError);
    forall u, a | inv(u) && Always(u, a) && Step(u, a).Some? ensures inv(Step(u, a).value) {
      StoppedReadsNoMore(u, a);
      StepKeepsAnswer(u, a, n, LineError);
    }
    RunKeeps(Step, Always, inv, first, more);
  }

  lemma StoppedReadsNoMore(s: State, a: Action)
    requires s.reader.Stopped? && Step(s, a).Some?
    ensures Step(s, a).value.reader.Stopped? && |Step(s, a).value.requests| == |s.requests|
  {
  }

  // ---- Every line counts ----

  /** The lines of a run that were not blank. */
  function LinesRead(acts: seq<Action>): nat {
    if acts == [] then 0
    else
      var last := acts[|acts| - 1];
      LinesRead(acts[..|acts| - 1]) + if last.ReadLine? && !last.kind.Blank? then 1 else 0
  }

  lemma StepCounts(s: State, a: Action)
    requires Step(s, a).Some?
    ensures |Step(s, a).value.requests| == |s.requests| + if a.ReadLine? && !a.kind.Blank? then 1 else 0
  {
  }

  lemma {:induction false} RequestsAreLines(acts: seq<Action>, s: State)
    requires Exec(Step, INIT, acts) == Some(s)
    ensures |s.requests| == LinesRead(acts)
  {
    hide Step;
    if acts != [] {
      var front := acts[..|acts| - 1];
      RequestsAreLines(front, Exec(Step, INIT, front).value);
      StepCounts(Exec(Step, INIT, front).value, acts[|acts| - 1]);
    }
  }

  /** While the reader reads, with the writer running, every line read that was not blank has had its
      reply queued; at no time are more queued, and at most the last line's is missing. */
  lemma EveryLineIsAnswered(acts: seq<Action>, s: State)
    requires Exec(Step, INIT, acts) == Some(s)
    ensures |Answered(s.queue)| <= LinesRead(acts)
    ensures s.writing ==> |Answered(s.queue)| >= LinesRead(acts) - 1
    ensures s.writing && s.reader.Reading? ==> |Answered(s.queue)| == LinesRead(acts)
  {
    hide Step, Answered, LinesRead;
    RequestsAreLines(acts, s);
    RepliesMatchRequests(acts, s);
  }
}
