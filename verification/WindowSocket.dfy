/** Commands to a window (`crates/cdj3k-emu-platform/src/window_socket.rs`). Each command has
    a connection thread that queues it and waits; the window takes commands off the queue.
    Both race to set the command's `taken` flag. Every atomic operation is one step. */
module WindowSocket {
  import opened Optional
  import opened Runs

  datatype Reply = Ok | Yes | No | Busy | NotRunning

  /** Where the sending end of a command's reply channel is. */
  datatype Holder = InQueue | InResponder | Gone

  /** How the connection thread answered its client; all but Replied are `busy`. */
  datatype Answer = Replied(reply: Reply) | WindowClosed | Disconnected | TimedOut

  datatype Thread =
    | Waiting                 // in recv_timeout
    | Expired                 // it timed out; the flag is not swapped yet
    | Committed               // the window has the command: in recv
    | Done(answer: Answer)

  /** `handed` counts how often the window got the command, and `given` is its reply. */
  datatype Command = Command(
    thread: Thread, taken: bool, sender: Holder, mail: Option<Reply>, handed: nat, given: Option<Reply>)

  /** `popped` is the command `next` took off the queue and has not tried to take yet. */
  datatype State = State(commands: seq<Command>, queue: seq<nat>, popped: Option<nat>, closed: bool)

  datatype Action =
    | Ask                            // a thread queues a new command
    | Pop                            // the window: try_recv
    | Swap                           // the window: taken.swap(true)
    | Respond(c: nat, reply: Reply)  // the window: Responder::reply
    | DropResponder(c: nat)
    | CloseWindow                    // the WindowSocket and its queue are dropped
    | Receive(c: nat)                // the thread: a reply is there
    | Hangup(c: nat)                 // the thread: the channel is empty and has no sender
    | Expire(c: nat)                 // the thread: recv_timeout timed out
    | Withdraw(c: nat)               // the thread: taken.swap(true)

  function Ended(c: Command, a: Answer): Command { c.(thread := Done(a)) }

  function DoSwap(c: Command): Command {
    if c.taken then c.(sender := Gone) else c.(taken := true, sender := InResponder, handed := c.handed + 1)
  }

  function DoWithdraw(c: Command): Command {
    if c.taken then c.(thread := Committed) else Ended(c.(taken := true), TimedOut)
  }

  /** What one action does to the command it is about. */
  function Act(c: Command, a: Action): Option<Command> {
    match a
    case Respond(_, reply) =>
      if c.sender.InResponder? then Some(c.(mail := Some(reply), given := Some(reply), sender := Gone)) else None
    case DropResponder(_) => if c.sender.InResponder? then Some(c.(sender := Gone)) else None
    case Receive(_) =>
      if (c.thread.Waiting? || c.thread.Committed?) && c.mail.Some?
      then Some(Ended(c.(mail := None), Replied(c.mail.value))) else None
    case Hangup(_) =>
      if (c.thread.Waiting? || c.thread.Committed?) && c.mail.None? && c.sender.Gone?
      then Some(Ended(c, Disconnected)) else None
    case Expire(_) => if c.thread.Waiting? then Some(c.(thread := Expired)) else None
    case Withdraw(_) => if c.thread.Expired? then Some(DoWithdraw(c)) else None
    case _ => None
  }

  function Hungup(cs: seq<Command>): (r: seq<Command>)
    ensures |r| == |cs|
  {
    seq(|cs|, i requires 0 <= i < |cs| => if cs[i].sender.InQueue? then cs[i].(sender := Gone) else cs[i])
  }

  function Step(s: State, a: Action): Option<State> {
    match a
    case Ask =>
      var id := |s.commands|;
      if s.closed
      then Some(s.(commands := s.commands + [Command(Done(WindowClosed), false, Gone, None, 0, None)]))
      else Some(s.(commands := s.commands + [Command(Waiting, false, InQueue, None, 0, None)], queue := s.queue + [id]))
    case Pop =>
      if !s.closed && s.popped.None? && s.queue != []
      then Some(s.(popped := Some(s.queue[0]), queue := s.queue[1..])) else None
    case Swap =>
      if s.popped.Some? && s.popped.value < |s.commands|
      then Some(s.(popped := None, commands := s.commands[s.popped.value := DoSwap(s.commands[s.popped.value])]))
      else None
    case CloseWindow =>
      if !s.closed && s.popped.None?
      then Some(s.(closed := true, queue := [], commands := Hungup(s.commands))) else None
    case _ =>
      if a.c < |s.commands| && Act(s.commands[a.c], a).Some?
      then Some(s.(commands := s.commands[a.c := Act(s.commands[a.c], a).value])) else None
  }

  const INIT: State := State([], [], None, false)

  // ---- What holds of each command ----

  predicate CommandOk(c: Command) {
    && c.handed <= 1
    && (c.handed == 1 ==> c.taken && !c.sender.InQueue?)
    && (c.handed == 0 ==> c.given.None? && !c.sender.InResponder? && !c.thread.Committed?)
    && (c.taken && c.handed == 0 ==> c.thread == Done(TimedOut))
    && (c.given.Some? ==> c.sender.Gone?)
    && (c.mail.Some? ==> c.given == c.mail)
    && (c.given.Some? && !c.thread.Done? ==> c.mail == c.given)
    && (c.thread.Done? ==> AnswerOk(c, c.thread.answer))
  }

  /** A command that was handed over is answered by its reply, or `busy` when the window
      dropped it without one; one that was not is answered `busy`, and never handed over. */
  predicate AnswerOk(c: Command, a: Answer) {
    match a
    case Replied(reply) => c.handed == 1 && c.given == Some(reply)
    case Disconnected => c.sender.Gone? && c.given.None?
    case WindowClosed => c.handed == 0 && c.sender.Gone?
    case TimedOut => c.handed == 0 && c.taken
  }

  predicate Queued(queue: seq<nat>, popped: Option<nat>, c: nat) { c in queue || popped == Some(c) }

  ghost predicate Inv(s: State) {
    && (forall c :: 0 <= c < |s.commands| ==> CommandOk(s.commands[c]))
    && (forall c :: 0 <= c < |s.commands| && s.commands[c].sender.InQueue? ==> Queued(s.queue, s.popped, c))
    && (forall c: nat :: Queued(s.queue, s.popped, c) ==> c < |s.commands| && s.commands[c].sender.InQueue?)
    && (forall i, j :: 0 <= i < j < |s.queue| ==> s.queue[i] != s.queue[j])
    && (s.popped.Some? ==> s.popped.value !in s.queue)
  }

  lemma ActKeepsCommand(c: Command, a: Action)
    requires CommandOk(c) && Act(c, a).Some?
    ensures var d := Act(c, a).value; CommandOk(d) && (d.sender.InQueue? <==> c.sender.InQueue?)
    ensures c.thread.Done? ==> Act(c, a).value.thread == c.thread
  {
  }

  lemma SwapKeepsCommand(c: Command)
    requires CommandOk(c) && c.sender.InQueue?
    ensures CommandOk(DoSwap(c)) && !DoSwap(c).sender.InQueue?
  {
  }

  lemma StepKeepsInv(s: State, a: Action)
    requires Inv(s) && Step(s, a).Some?
    ensures Inv(Step(s, a).value)
  {
    hide CommandOk, Act, DoSwap;
    var t := Step(s, a).value;
    match a
    case Ask => AskKeepsInv(s);
    case Pop => PopKeepsInv(s);
    case Swap => SwapKeepsInv(s);
    case CloseWindow => HungupOk(s.commands);
    case _ => ActKeepsCommand(s.commands[a.c], a);
  }

  lemma PopKeepsInv(s: State)
    requires Inv(s) && Step(s, Pop).Some?
    ensures Inv(Step(s, Pop).value)
  {
    hide CommandOk;
    var t := Step(s, Pop).value;
    assert forall i :: 0 <= i < |t.queue| ==> t.queue[i] == s.queue[i + 1];
    forall c: nat ensures Queued(t.queue, t.popped, c) <==> Queued(s.queue, s.popped, c) {
      assert s.queue == [s.queue[0]] + t.queue;
    }
  }

  lemma SwapKeepsInv(s: State)
    requires Inv(s) && Step(s, Swap).Some?
    ensures Inv(Step(s, Swap).value)
  {
    hide CommandOk, DoSwap;
    var t, p := Step(s, Swap).value, s.popped.value;
    assert Queued(s.queue, s.popped, p);
    SwapKeepsCommand(s.commands[p]);
    forall c: nat | Queued(t.queue, t.popped, c) ensures c < |t.commands| && t.commands[c].sender.InQueue? {
      assert Queued(s.queue, s.popped, c);
    }
    forall c | 0 <= c < |t.commands| && t.commands[c].sender.InQueue? ensures Queued(t.queue, t.popped, c) {
      assert Queued(s.queue, s.popped, c);
    }
  }

  lemma AskKeepsInv(s: State)
    requires Inv(s)
    ensures Inv(Step(s, Ask).value)
  {
    hide CommandOk;
    NewCommandOk();
    var t := Step(s, Ask).value;
    assert forall i :: 0 <= i < |s.queue| ==> s.queue[i] in s.queue;
    forall c: nat | c in s.queue || s.popped == Some(c) ensures c < |s.commands| {
      assert Queued(s.queue, s.popped, c);
    }
    forall c | 0 <= c < |t.commands| && t.commands[c].sender.InQueue? ensures Queued(t.queue, t.popped, c) {
      if c < |s.commands| {
        assert Queued(s.queue, s.popped, c);
      } else {
        assert t.queue[|s.queue|] == c;
      }
    }
    forall c: nat | Queued(t.queue, t.popped, c) ensures c < |t.commands| && t.commands[c].sender.InQueue? {
      assert Queued(s.queue, s.popped, c) || c == |s.commands|;
    }
  }

  lemma NewCommandOk()
    ensures CommandOk(Command(Done(WindowClosed), false, Gone, None, 0, None))
    ensures CommandOk(Command(Waiting, false, InQueue, None, 0, None))
  {
  }

  lemma HungupOk(cs: seq<Command>)
    requires forall c :: 0 <= c < |cs| ==> CommandOk(cs[c])
    ensures forall c :: 0 <= c < |cs| ==> CommandOk(Hungup(cs)[c]) && !Hungup(cs)[c].sender.InQueue?
  {
  }

  lemma RunKeepsInv(acts: seq<Action>)
    requires Exec(Step, INIT, acts).Some?
    ensures Inv(Exec(Step, INIT, acts).value)
  {
    hide Inv, Step;
    InitIsInv();
    forall t, a | Inv(t) && Always(t, a) && Step(t, a).Some? ensures Inv(Step(t, a).value) {
      StepKeepsInv(t, a);
    }
    RunKeeps(Step, Always, Inv, INIT, acts);
  }

  lemma InitIsInv()
    ensures Inv(INIT)
  {
  }

  /** In every interleaving, a command is handed to the window at most once. One answered
      `busy` by timeout was not handed over. One that was handed over and answered got the
      window's reply, or `busy` because its responder was dropped without one. Only a
      reply of the window's is ever passed on. */
  lemma CommandsAreAnsweredRight(acts: seq<Action>, s: State, c: nat)
    requires Exec(Step, INIT, acts) == Some(s) && c < |s.commands|
    ensures var d := s.commands[c];
            && d.handed <= 1
            && (d.thread == Done(TimedOut) || d.thread == Done(WindowClosed) ==> d.handed == 0)
            && (d.handed == 1 && d.thread.Done? ==>
                  || (d.given.Some? && d.thread.answer == Replied(d.given.value))
                  || (d.given.None? && d.sender.Gone? && d.thread.answer == Disconnected))
            && (d.thread.Done? && d.thread.answer.Replied? ==> d.given == Some(d.thread.answer.reply))
  {
    RunKeepsInv(acts);
  }

  // ---- Whose reply it is ----

  /** What a client reads: the word of its answer. */
  function Word(a: Answer): Reply { if a.Replied? then a.reply else Busy }

  /** What the window replied to command `c`, in the order of a run. */
  function Responses(acts: seq<Action>, c: nat): seq<Reply> {
    if acts == [] then []
    else
      var last := acts[|acts| - 1];
      Responses(acts[..|acts| - 1], c) + if last.Respond? && last.c == c then [last.reply] else []
  }

  predicate Gives(s: State, c: nat, replies: seq<Reply>) {
    if c >= |s.commands| || s.commands[c].given.None? then replies == [] else replies == [s.commands[c].given.value]
  }

  lemma StepGives(s: State, a: Action, c: nat, replies: seq<Reply>)
    requires Inv(s) && Gives(s, c, replies) && Step(s, a).Some?
    ensures Gives(Step(s, a).value, c, replies + if a.Respond? && a.c == c then [a.reply] else [])
  {
    assert c < |s.commands| ==> CommandOk(s.commands[c]);
  }

  lemma {:induction false} RunGives(acts: seq<Action>, c: nat)
    requires Exec(Step, INIT, acts).Some?
    ensures Gives(Exec(Step, INIT, acts).value, c, Responses(acts, c))
  {
    hide Step, Gives, Inv;
    if acts == [] {
      NothingGiven(c);
    } else {
      var front := acts[..|acts| - 1];
      RunGives(front, c);
      RunKeepsInv(front);
      StepGives(Exec(Step, INIT, front).value, acts[|acts| - 1], c, Responses(front, c));
    }
  }

  lemma NothingGiven(c: nat)
    ensures Gives(INIT, c, [])
  {
  }

  /** The client hears what the window said and nothing else: the window replies to a command at
      most once in any run, a client answered by a reply got that reply, and one answered otherwise
      reads `busy` and was not replied to. */
  lemma ClientsHearTheWindow(acts: seq<Action>, s: State, c: nat)
    requires Exec(Step, INIT, acts) == Some(s) && c < |s.commands|
    ensures |Responses(acts, c)| <= 1
    ensures s.commands[c].thread.Done? ==>
              var a := s.commands[c].thread.answer;
              if a.Replied? then Responses(acts, c) == [Word(a)] else Responses(acts, c) == [] && Word(a) == Busy
  {
    RunGives(acts, c);
    RunKeepsInv(acts);
    assert CommandOk(s.commands[c]);
  }

  // ---- In which order ----

  /** The queue is the last commands asked, and the command taken off it the one before. */
  ghost predicate InOrder(s: State) {
    var first := |s.commands| - |s.queue|;
    !s.closed ==>
      && (forall i :: 0 <= i < |s.queue| ==> s.queue[i] == first + i)
      && (s.popped.Some? ==> s.popped.value == first - 1)
      && (forall d :: 0 <= d < |s.commands| && s.commands[d].handed > 0 ==>
            d < if s.popped.Some? then first - 1 else first)
  }

  lemma StepKeepsOrder(s: State, a: Action)
    requires Inv(s) && InOrder(s) && Step(s, a).Some?
    ensures InOrder(Step(s, a).value)
  {
    hide CommandOk;
  }

  /** The window gets the commands in the order they were asked: one that still waits in the queue
      was asked after every one handed over. */
  lemma CommandsComeInOrder(acts: seq<Action>, s: State, c: nat, d: nat)
    requires Exec(Step, INIT, acts) == Some(s) && c < |s.commands| && d < |s.commands|
    requires s.commands[d].handed == 1 && s.commands[c].sender.InQueue?
    ensures d < c
  {
    hide Step, CommandOk;
    forall t, a | Inv(t) && InOrder(t) && ClosedIsEmpty(t) && Always(t, a) && Step(t, a).Some?
      ensures Inv(Step(t, a).value) && InOrder(Step(t, a).value) && ClosedIsEmpty(Step(t, a).value)
    {
      StepKeepsInv(t, a);
      StepKeepsOrder(t, a);
      StepKeepsClosed(t, a);
    }
    InitIsInv();
    RunKeeps(Step, Always, t => Inv(t) && InOrder(t) && ClosedIsEmpty(t), INIT, acts);
    assert Queued(s.queue, s.popped, c);
  }

  predicate ClosedIsEmpty(s: State) { s.closed ==> s.queue == [] && s.popped.None? }

  lemma StepKeepsClosed(s: State, a: Action)
    requires ClosedIsEmpty(s) && Step(s, a).Some?
    ensures ClosedIsEmpty(Step(s, a).value)
  {
  }

  // ---- One answer ----

  /** `c` has been answered as `a`, and if by timeout it was not handed over. */
  predicate Answered(s: State, c: nat, a: Answer) {
    c < |s.commands| && s.commands[c].thread == Done(a) && (a.TimedOut? ==> s.commands[c].handed == 0)
  }

  lemma StepKeepsAnswer(s: State, a: Action, c: nat, answer: Answer)
    requires Inv(s) && Answered(s, c, answer) && Step(s, a).Some?
    ensures Answered(Step(s, a).value, c, answer)
  {
  }

  /** An answer is final: no later step of any run changes it, or hands over a command that
      was answered `busy` by timeout. */
  lemma AnswerIsFinal(before: seq<Action>, s: State, after: seq<Action>, t: State, c: nat)
    requires Exec(Step, INIT, before) == Some(s) && Exec(Step, s, after) == Some(t)
    requires c < |s.commands| && s.commands[c].thread.Done?
    ensures c < |t.commands| && t.commands[c].thread == s.commands[c].thread
    ensures s.commands[c].thread == Done(TimedOut) ==> t.commands[c].handed == 0
  {
    hide Inv, Step;
    var a := s.commands[c].thread.answer;
    RunKeepsInv(before);
    CommandsAreAnsweredRight(before, s, c);
    forall u, x | Inv(u) && Answered(u, c, a) && Always(u, x) && Step(u, x).Some?
      ensures Inv(Step(u, x).value) && Answered(Step(u, x).value, c, a)
    {
      StepKeepsInv(u, x);
      StepKeepsAnswer(u, x, c, a);
    }
    RunKeeps(Step, Always, u => Inv(u) && Answered(u, c, a), s, after);
  }

  // ---- No thread is stuck ----

  predicate Own(a: Action) { a.Receive? || a.Hangup? || a.Expire? || a.Withdraw? }

  /** What a thread does alone does to its command alone. */
  lemma {:induction false} OwnRun(s: State, c: nat, steps: seq<Action>)
    requires c < |s.commands| && Exec(Act, s.commands[c], steps).Some?
    requires forall i :: 0 <= i < |steps| ==> Own(steps[i]) && steps[i].c == c
    ensures var t := Exec(Step, s, steps);
            t.Some? && |t.value.commands| == |s.commands| &&
            Some(t.value.commands[c]) == Exec(Act, s.commands[c], steps)
  {
    hide Act;
    if steps != [] {
      OwnRun(s, c, steps[..|steps| - 1]);
    }
  }

  /** The thread's withdrawal: it ends with `busy`, or leaves the answer to the window. */
  lemma WithdrawSteps(d: Command, c: nat) returns (steps: seq<Action>, e: Command)
    requires CommandOk(d) && !d.sender.InResponder?
    requires d.thread.Expired? || (d.thread.Waiting? && d.sender.InQueue?)
    ensures |steps| <= 2 && forall i :: 0 <= i < |steps| ==> Own(steps[i]) && steps[i].c == c
    ensures Exec(Act, d, steps) == Some(e)
    ensures e.thread.Done? || (|steps| == 1 && e.thread.Committed? && e.sender.Gone?)
  {
    hide Exec;
    NoSteps<Command, Action>(Act, d);
    if d.thread.Expired? {
      steps, e := Then(Act, d, [], d, Withdraw(c));
    } else {
      steps, e := Then(Act, d, [], d, Expire(c));
      steps, e := Then(Act, d, steps, e, Withdraw(c));
    }
  }

  lemma OwnSteps(d: Command, c: nat) returns (steps: seq<Action>, e: Command)
    requires CommandOk(d) && !d.sender.InResponder?
    ensures |steps| <= 2 && forall i :: 0 <= i < |steps| ==> Own(steps[i]) && steps[i].c == c
    ensures Exec(Act, d, steps) == Some(e) && e.thread.Done?
  {
    hide Exec;
    NoSteps<Command, Action>(Act, d);
    steps, e := [], d;
    if d.thread.Expired? || (d.thread.Waiting? && d.sender.InQueue?) {
      steps, e := WithdrawSteps(d, c);
    }
    if !e.thread.Done? {
      steps, e := Then(Act, d, steps, e, if e.mail.Some? then Receive(c) else Hangup(c));
    }
  }

  /** A thread never waits on more than the window's word: unless the window holds the
      command's responder, at most two steps of the thread's own answer its client. */
  lemma ThreadCanAnswer(before: seq<Action>, s: State, c: nat) returns (steps: seq<Action>, t: State)
    requires Exec(Step, INIT, before) == Some(s) && c < |s.commands| && !s.commands[c].sender.InResponder?
    ensures |steps| <= 2 && forall i :: 0 <= i < |steps| ==> Own(steps[i]) && steps[i].c == c
    ensures Exec(Step, s, steps) == Some(t) && c < |t.commands| && t.commands[c].thread.Done?
  {
    hide Step, Act, CommandOk;
    RunKeepsInv(before);
    var e;
    steps, e := OwnSteps(s.commands[c], c);
    OwnRun(s, c, steps);
    t := Exec(Step, s, steps).value;
  }

  // ---- Every command asked ----

  function Asks(acts: seq<Action>): nat {
    if acts == [] then 0 else Asks(acts[..|acts| - 1]) + if acts[|acts| - 1].Ask? then 1 else 0
  }

  lemma StepCounts(s: State, a: Action)
    requires Step(s, a).Some?
    ensures |Step(s, a).value.commands| == |s.commands| + if a.Ask? then 1 else 0
  {
    hide Act, DoSwap;
  }

  /** Each command is one that a client asked, so the laws above are about all of them. */
  lemma {:induction false} CommandsAreAsked(acts: seq<Action>, s: State)
    requires Exec(Step, INIT, acts) == Some(s)
    ensures |s.commands| == Asks(acts)
  {
    hide Step;
    if acts != [] {
      var front := acts[..|acts| - 1];
      CommandsAreAsked(front, Exec(Step, INIT, front).value);
      StepCounts(Exec(Step, INIT, front).value, acts[|acts| - 1]);
    }
  }
}
