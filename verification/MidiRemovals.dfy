/** How often a published device is removed from MIDIServer's setup. `slot_retire` removes it
    when its link ends; `Start` removes every device that carries the marker, also those that
    the slots of a run still hold. */
module MidiRemovals {
  import opened Optional
  import opened Runs
  import opened MidiDevices
  import opened MidiLink

  /** The calls of `MIDISetupRemoveDevice` on device `d`. */
  function Removals(t: State, d: Dev): nat {
    multiset(t.retired)[d] + multiset(t.swept)[Ours(d)]
  }

  /** A `Start` has removed device `d`, or is about to. */
  predicate Taken(t: State, d: Dev) {
    Ours(d) in t.swept || (t.starting.Some? && Ours(d) in t.starting.value)
  }

  /** A `Start` that begins in `t` takes device `d`. */
  predicate Collects(t: Option<State>, a: Action, d: Dev) {
    t.Some? && a.StartCollect? && Ours(d) in Doomed(t.value.setup)
  }

  /** A `Start` of the run begins while device `d` is listed, among the devices it has room for. */
  ghost predicate StartsUnder(s: State, acts: seq<Action>, d: Dev) {
    exists k :: 0 <= k < |acts| && Collects(Exec(Step, s, acts[..k]), acts[k], d)
  }

  lemma DetachKeepsTaken(s: State, i: nat)
    requires i < |s.slots|
    ensures var t := Detach(s, i); t.swept == s.swept && t.starting == s.starting
  {
  }

  lemma {:induction false} DetachBelowKeepsTaken(s: State, n: nat)
    requires n <= |s.slots|
    ensures var t := DetachBelow(s, n); t.swept == s.swept && t.starting == s.starting
  {
    hide Detach;
    if n > 0 {
      DetachBelowKeepsTaken(s, n - 1);
      DetachKeepsTaken(DetachBelow(s, n - 1), n - 1);
    }
  }

  lemma DeviceKeepsTaken(s: State, a: Action)
    ensures var t := DoDevice(s, a); t.Some? ==> t.value.swept == s.swept && t.value.starting == s.starting
  {
  }

  lemma UseKeepsTaken(s: State, idx: nat, gen: nat, ok: bool)
    ensures var t := DoRead(s, ok); t.Some? ==> t.value.swept == s.swept && t.value.starting == s.starting
    ensures var t := DoSend(s, idx, gen, ok); t.Some? ==> t.value.swept == s.swept && t.value.starting == s.starting
  {
  }

  lemma ScanKeepsTaken(s: State, a: Action)
    requires a.ClaimSlot? || a.DialOk? || a.Connect? || a.CloseOurs? || a.Live?
    requires Step(s, a).Some?
    ensures Step(s, a).value.swept == s.swept && Step(s, a).value.starting == s.starting
  {
    hide FreeSlot, PathConnected;
  }

  /** One step takes a device if and only if it is a `Start` that collects it. */
  lemma TakenByStep(s: State, a: Action, d: Dev)
    requires Step(s, a).Some?
    ensures Taken(Step(s, a).value, d) <==> Taken(s, d) || Collects(Some(s), a, d)
  {
    hide Doomed, DoClaimSlot, DoDialOk, DoConnect, DoCloseOurs, DoLive, DoDevice, DoRead, DoSend, DetachBelow, Ready,
         MarkedOnes, Remove;
    match a
    case Read(ok) => UseKeepsTaken(s, 0, 0, ok);
    case Send(idx, gen, ok) => UseKeepsTaken(s, idx, gen, ok);
    case DropAll => DetachBelowKeepsTaken(s, |s.slots|);
    case ClaimSlot(_) => ScanKeepsTaken(s, a);
    case DialOk(_) => ScanKeepsTaken(s, a);
    case Connect(_) => ScanKeepsTaken(s, a);
    case CloseOurs => ScanKeepsTaken(s, a);
    case Live(_) => ScanKeepsTaken(s, a);
    case StartRemove => SweepTakes(s, d);
    case _ => DeviceKeepsTaken(s, a);
  }

  lemma SweepTakes(s: State, d: Dev)
    requires DoStart(s, StartRemove).Some?
    ensures Taken(DoStart(s, StartRemove).value, d) <==> Taken(s, d)
  {
    var doomed := s.starting.value;
    assert doomed == [doomed[0]] + doomed[1..];
  }

  /** A device is removed by `Start` if and only if one began while it was listed. */
  lemma {:induction false} TakenIff(s: State, acts: seq<Action>, d: Dev)
    requires Init(s) && Exec(Step, s, acts).Some?
    ensures Taken(Exec(Step, s, acts).value, d) <==> StartsUnder(s, acts, d)
  {
    hide Step, Collects, Taken, StartsUnder;
    if acts == [] {
      NothingTaken(s, d);
    } else {
      var n := |acts| - 1;
      TakenIff(s, acts[..n], d);
      TakenByStep(Exec(Step, s, acts[..n]).value, acts[n], d);
      StartsUnderLast(s, acts, d);
    }
  }

  lemma NothingTaken(s: State, d: Dev)
    requires Init(s)
    ensures !Taken(s, d) && !StartsUnder(s, [], d)
  {
  }

  lemma StartsUnderLast(s: State, acts: seq<Action>, d: Dev)
    requires acts != []
    ensures var n := |acts| - 1;
            StartsUnder(s, acts, d) <==>
            StartsUnder(s, acts[..n], d) || Collects(Exec(Step, s, acts[..n]), acts[n], d)
  {
    hide Step, Exec, Collects;
    var n := |acts| - 1;
    assert forall k :: 0 <= k < n ==> acts[..n][..k] == acts[..k] && acts[..n][k] == acts[k];
    if StartsUnder(s, acts[..n], d) {
      var k :| 0 <= k < n && Collects(Exec(Step, s, acts[..n][..k]), acts[..n][k], d);
      assert Collects(Exec(Step, s, acts[..k]), acts[k], d);
    }
  }

  /** Once a run's slots are dropped and retired, each device it published was removed from the
      setup exactly once if and only if no `Start` began while it was listed. */
  lemma RemovedOnceIff(s: State, acts: seq<Action>, t: State, d: Dev)
    requires Init(s) && Exec(Step, s, acts) == Some(t)
    requires t.pump.Waiting? && t.detached == {} && t.starting.None? && d < t.nextDev
    ensures Removals(t, d) >= 1 && Ours(d) !in t.setup
    ensures Removals(t, d) == 1 <==> !StartsUnder(s, acts, d)
  {
    hide Step, StartsUnder;
    EveryRunKeepsTheTable(s, acts);
    NothingOutlivesARun(s, acts);
    TakenIff(s, acts, d);
    CountOne(t.retired, d);
  }

  lemma {:induction false} CountOne(q: seq<nat>, x: nat)
    requires NoRepeats(q) && x in q
    ensures multiset(q)[x] == 1
  {
    var n := |q| - 1;
    assert q == q[..n] + [q[n]];
    if x != q[n] {
      CountOne(q[..n], x);
    }
  }

  /** As long as no `Start` is under way, a connected slot's device is in the setup if and only
      if no `Start` began while it was. */
  lemma SlotHasItsDeviceIff(s: State, acts: seq<Action>, t: State, i: nat)
    requires Init(s) && Exec(Step, s, acts) == Some(t) && t.starting.None?
    requires i < |t.slots| && t.slots[i].dev.Some?
    ensures Ours(t.slots[i].dev.value) in t.setup <==> !StartsUnder(s, acts, t.slots[i].dev.value)
  {
    hide Step, StartsUnder;
    EveryRunKeepsTheTable(s, acts);
    TakenIff(s, acts, t.slots[i].dev.value);
  }

  /** A `Start` that has room for all marked devices takes every one that is listed. */
  lemma ListedIsDoomed(setup: seq<Device>, d: Dev)
    ensures Ours(d) in Doomed(setup) ==> Ours(d) in setup
    ensures |MarkedOnes(setup)| <= MAX_DOOMED ==> (Ours(d) in Doomed(setup) <==> Ours(d) in setup)
  {
    MarkedIn(setup);
    var marked := MarkedOnes(setup);
    assert marked[..|marked|] == marked;
  }

  // ----- A restart -----

  const FREE: Slot := Slot(None, 0, 0, None, 0)
  const TABLE: seq<Slot> := [FREE, FREE, FREE, FREE, FREE, FREE, FREE, FREE]
  const FRESH: State :=
    State(TABLE, 1, false, 0, false, Waiting, map[], {}, [], None, 0, 0, map[], [], [], [], [])

  /** Slot 0 is connected and has published device 0. */
  const PUBLISHED: State :=
    FRESH.(slots := TABLE[0 := Slot(Some(3), 1, 0, Some(0), 0)], nextGen := 2, running := true, pump := Running(0),
           open := map[3 := Link(0)], setup := [Ours(0)], nextConn := 1, nextDev := 1, endpoints := map[(0, 1) := 0])

  lemma FreshIsInit()
    ensures Init(FRESH)
  {
    assert TABLE == seq(MAX_SLOTS, _ => Slot(None, 0, 0, None, 0));
  }

  lemma ReachRunning() returns (acts: seq<Action>)
    ensures Exec(Step, FRESH, acts) == Some(FRESH.(running := true, pump := Scanning(0)))
  {
    hide Exec;
    var t;
    NoSteps<State, Action>(Step, FRESH);
    acts, t := Then(Step, FRESH, [], FRESH, StartCollect);
    assert t.starting == Some([]);
    acts, t := Then(Step, FRESH, acts, t, StartRun);
    acts, t := Then(Step, FRESH, acts, t, Wake);
    acts, t := Then(Step, FRESH, acts, t, Live(true));
    acts, t := Then(Step, FRESH, acts, t, BeginScan);
  }

  lemma ReachConnected() returns (acts: seq<Action>)
    ensures Exec(Step, FRESH, acts) ==
            Some(PUBLISHED.(slots := TABLE[0 := Slot(Some(3), 1, 0, None, 0)], pump := Creating(0, 0), setup := [],
                            nextDev := 0, endpoints := map[]))
  {
    hide Exec;
    acts := ReachRunning();
    var t := FRESH.(running := true, pump := Scanning(0));
    acts, t := Then(Step, FRESH, acts, t, ClaimSlot(0));
    acts, t := Then(Step, FRESH, acts, t, DialOk(3));
    acts, t := Then(Step, FRESH, acts, t, Connect(true));
    acts, t := Then(Step, FRESH, acts, t, Live(true));
  }

  lemma ReachRecorded() returns (acts: seq<Action>)
    ensures Exec(Step, FRESH, acts) == Some(PUBLISHED.(pump := Recorded(0, 0), endpoints := map[]))
  {
    hide Exec;
    acts := ReachConnected();
    var t := Exec(Step, FRESH, acts).value;
    acts, t := Then(Step, FRESH, acts, t, AddDevice(0));
    assert t.setup == [Ours(0)];
    acts, t := Then(Step, FRESH, acts, t, RecordDevice);
    assert t.slots == PUBLISHED.slots;
  }

  lemma ReachPublished() returns (acts: seq<Action>)
    ensures Exec(Step, FRESH, acts) == Some(PUBLISHED)
  {
    hide Exec;
    acts := ReachRecorded();
    var t := PUBLISHED.(pump := Recorded(0, 0), endpoints := map[]);
    acts, t := Then(Step, FRESH, acts, t, PublishEndpoint);
    acts, t := Then(Step, FRESH, acts, t, EndScan);
  }

  lemma DoomedOne(d: Device)
    requires !d.Unmarked?
    ensures Doomed([d]) == [d] && Remove([d], d) == []
  {
    assert [d][..0] == [];
    assert MarkedOnes([d]) == [d];
  }

  /** From `s`, a whole `Start` removes device 0. */
  lemma StartSweeps(acts: seq<Action>, s: State) returns (more: seq<Action>)
    requires Exec(Step, FRESH, acts) == Some(s) && s.setup == [Ours(0)] && s.starting.None? && !s.stopping
    ensures Exec(Step, FRESH, more) == Some(s.(setup := [], swept := s.swept + [Ours(0)], running := true))
  {
    hide Exec;
    var t;
    assert Doomed(s.setup) == [Ours(0)] by { DoomedOne(Ours(0)); }
    more, t := Then(Step, FRESH, acts, s, StartCollect);
    assert t.starting == Some([Ours(0)]);
    more, t := Then(Step, FRESH, more, t, StartRemove);
    assert t.starting.value == [];
    assert t.setup == [];
    more, t := Then(Step, FRESH, more, t, StartRun);
  }

  /** A `Start` without a `Stop` leaves a connected slot whose device is gone. */
  lemma StartOrphansASlot() returns (acts: seq<Action>, t: State)
    ensures Init(FRESH) && Exec(Step, FRESH, acts) == Some(t) && t.starting.None?
    ensures |t.slots| > 0 && t.slots[0].fd.Some? && t.slots[0].dev == Some(0) && Ours(0) !in t.setup
  {
    FreshIsInit();
    acts := ReachPublished();
    acts := StartSweeps(acts, PUBLISHED);
    t := Exec(Step, FRESH, acts).value;
  }

  /** `Stop` and then `Start` before the pump's next turn: the device is removed twice, once by
      `Start` and once when the pump drops the old run's slots. */
  lemma RestartRemovesTwice() returns (acts: seq<Action>, t: State)
    ensures Init(FRESH) && Exec(Step, FRESH, acts) == Some(t)
    ensures t.pump.Waiting? && t.detached == {} && t.starting.None? && t.nextDev == 1 && Removals(t, 0) == 2
  {
    hide Exec, DetachBelow, Remove;
    FreshIsInit();
    acts := ReachPublished();
    acts, t := Then(Step, FRESH, acts, PUBLISHED, StopFlag);
    acts, t := Then(Step, FRESH, acts, t, StopEpoch);
    acts := StartSweeps(acts, t);
    t := Exec(Step, FRESH, acts).value;
    acts, t := Then(Step, FRESH, acts, t, Live(false));
    DropsTheSlot(t);
    acts, t := Then(Step, FRESH, acts, t, DropAll);
    acts, t := Then(Step, FRESH, acts, t, Retire(0));
    assert t.detached == {} && t.retired == [0] && t.swept == [Ours(0)];
  }

  lemma DropsTheSlot(s: State)
    requires s.slots == PUBLISHED.slots && s.detached == {}
    ensures var t := DetachBelow(s, 8);
            t == s.(slots := t.slots, open := t.open, closed := t.closed, detached := {0})
  {
    DropsFree(s, 8);
  }

  lemma {:induction false} DropsFree(s: State, n: nat)
    requires 0 < n <= 8 && s.slots == PUBLISHED.slots && s.detached == {}
    ensures var t := DetachBelow(s, n);
            && t == s.(slots := t.slots, open := t.open, closed := t.closed, detached := {0})
            && forall i :: n <= i < 8 ==> t.slots[i] == FREE
  {
    if n == 1 {
      assert DetachBelow(s, 0) == s;
    } else {
      DropsFree(s, n - 1);
    }
  }
}
