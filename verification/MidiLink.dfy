/** The slot table of the MIDI driver (`tools/midi-driver/link.c`, `device.c`, `plugin.c`),
    shared by the pump thread, MIDIServer's `Send` calls, and `Start` and `Stop`. What runs
    under the slot lock is one step; dialling, publishing a device and retiring it run
    outside the lock, and other threads' steps come between. The process's descriptor
    numbers are reused, also by code outside the driver. */
module MidiLink {
  import opened Optional
  import opened Runs
  import opened MidiDevices

  /** Slot generations are u32. */
  const WRAP: nat := 0x1_0000_0000

  type Fd = nat
  type Path = nat
  type Dev = nat
  /** A connection: one socket that `dial` connected. */
  type Conn = nat

  datatype Owner = Link(conn: Conn) | Foreign

  /** `conn` is the connection `fd` was dialled for. */
  datatype Slot = Slot(fd: Option<Fd>, gen: nat, path: Path, dev: Option<Dev>, conn: Conn)

  /** Where the pump is. `e` is the epoch of its run. */
  datatype Pump =
    | Waiting
    | Running(e: nat)
    | Scanning(e: nat)
    | Dialling(e: nat, path: Path, idx: nat)
    | Dialled(e: nat, path: Path, idx: nat, fd: Fd, conn: Conn)
    | ClosingOurs(e: nat, fd: Fd, conn: Conn)
    | Connected(e: nat, idx: nat)
    | Creating(e: nat, idx: nat)
    | Added(e: nat, idx: nat, dev: Dev)
    | Recorded(e: nat, idx: nat)
    | CreateFailed(e: nat, idx: nat)
    | Polling(e: nat, ready: seq<(nat, Fd)>)
    | Dropping

  /** A write by `Send`: the endpoint's slot index and generation, and who got the bytes. */
  datatype Write = Write(idx: nat, gen: nat, to: Owner)

  datatype State = State(
    slots: seq<Slot>,
    nextGen: nat,
    running: bool,
    epoch: nat,
    stopping: bool,
    pump: Pump,
    /** The process's open descriptors. */
    open: map<Fd, Owner>,
    /** Devices handed back by `slot_detach`, not yet retired. */
    detached: set<Dev>,
    /** MIDIServer's device list. */
    setup: seq<Device>,
    /** What a `Start` under way has collected and not yet removed. */
    starting: Option<seq<Device>>,
    // history
    nextConn: Conn,
    nextDev: Dev,
    endpoints: map<(nat, nat), Conn>,
    closed: seq<Conn>,
    retired: seq<Dev>,
    /** Removals by `Start`. */
    swept: seq<Device>,
    writes: seq<Write>)

  datatype Action =
    // plugin.c
    | StartCollect
    | StartRemove
    | StartRun
    | StopFlag
    | StopEpoch
    // the pump
    | Wake
    | Live(answer: bool)
    | BeginScan
    | ClaimSlot(path: Path)
    | EndScan
    | DialOk(fd: Fd)
    | DialFailed
    | Connect(namesOk: bool)
    | CloseOurs
    | AddDevice(at: nat)
    | CreateFail
    | RecordDevice
    | PublishEndpoint
    | DetachFailed
    | Poll
    | Read(ok: bool)
    | DropAll
    // any thread
    | Retire(dev: Dev)
    | Send(idx: nat, gen: nat, ok: bool)
    // the rest of the process
    | OpenForeign(fd: Fd)
    | CloseForeign(fd: Fd)
    | OtherDevices(after: seq<Device>)

  // ----- refCons -----

  /** The generation in the high bits, the index plus one in the low 8 bits. */
  function RefMake(gen: nat, idx: nat): nat {
    gen * 256 + idx + 1
  }

  function RefIdx(r: nat): int {
    r % 256 - 1
  }

  function RefGen(r: nat): nat {
    r / 256 % WRAP
  }

  lemma RefConRoundTrip(gen: nat, idx: nat)
    requires gen < WRAP && idx < MAX_SLOTS
    ensures RefIdx(RefMake(gen, idx)) == idx && RefGen(RefMake(gen, idx)) == gen
  {
  }

  // ----- the slot table -----

  predicate PathConnected(slots: seq<Slot>, path: Path) {
    exists i :: 0 <= i < |slots| && slots[i].fd.Some? && slots[i].path == path
  }

  /** The first free slot; the table's size when it is full. */
  function FreeSlot(slots: seq<Slot>, from: nat): (i: nat)
    requires from <= |slots|
    ensures from <= i <= |slots| && (i < |slots| ==> slots[i].fd.None?)
    ensures forall k :: from <= k < i ==> slots[k].fd.Some?
    decreases |slots| - from
  {
    if from == |slots| || slots[from].fd.None? then from else FreeSlot(slots, from + 1)
  }

  /** `slot_detach`: closes the socket, frees the slot and hands its device back. */
  function Detach(s: State, i: nat): State
    requires i < |s.slots|
  {
    var sl := s.slots[i];
    if sl.fd.None? then s
    else
      s.(slots := s.slots[i := sl.(fd := None, dev := None)],
         open := s.open - {sl.fd.value},
         closed := s.closed + [sl.conn],
         detached := s.detached + if sl.dev.Some? then {sl.dev.value} else {})
  }

  /** `drop_all_slots`: detaches every slot below `n`. */
  function DetachBelow(s: State, n: nat): State
    requires n <= |s.slots|
    ensures |DetachBelow(s, n).slots| == |s.slots|
  {
    if n == 0 then s else Detach(DetachBelow(s, n - 1), n - 1)
  }

  function Ready(slots: seq<Slot>, from: nat): seq<(nat, Fd)>
    requires from <= |slots|
    decreases |slots| - from
  {
    if from == |slots| then []
    else (if slots[from].fd.Some? then [(from, slots[from].fd.value)] else []) + Ready(slots, from + 1)
  }

  // ----- the steps -----

  function DoClaimSlot(s: State, path: Path): Option<State> {
    if !s.pump.Scanning? then None
    else
      var idx := FreeSlot(s.slots, 0);
      if PathConnected(s.slots, path) || idx == |s.slots| then Some(s)
      else Some(s.(pump := Dialling(s.pump.e, path, idx)))
  }

  function DoDialOk(s: State, fd: Fd): Option<State> {
    if s.pump.Dialling? && fd !in s.open
    then Some(s.(open := s.open[fd := Link(s.nextConn)], nextConn := s.nextConn + 1,
                 pump := Dialled(s.pump.e, s.pump.path, s.pump.idx, fd, s.nextConn)))
    else None
  }

  function DoConnect(s: State, namesOk: bool): Option<State> {
    if !s.pump.Dialled? || s.pump.idx >= |s.slots| || s.nextGen >= WRAP then None
    else
      var Dialled(e, path, idx, fd, conn) := s.pump;
      if s.slots[idx].fd.Some? || PathConnected(s.slots, path) then Some(s.(pump := ClosingOurs(e, fd, conn)))
      else
        var t := s.(slots := s.slots[idx := Slot(Some(fd), s.nextGen, path, None, conn)], nextGen := s.nextGen + 1);
        Some(if namesOk then t.(pump := Connected(e, idx)) else Detach(t, idx).(pump := Scanning(e)))
  }

  function DoCloseOurs(s: State): Option<State> {
    if s.pump.ClosingOurs?
    then Some(s.(open := s.open - {s.pump.fd}, closed := s.closed + [s.pump.conn], pump := Scanning(s.pump.e)))
    else None
  }

  function DoLive(s: State, answer: bool): Option<State> {
    // Two loads: `running` first, then the epoch. Stop may store between them.
    match s.pump
    case Running(e) =>
      if answer && s.epoch == e then Some(s)
      else if !answer && (!s.running || s.epoch != e) then Some(s.(pump := Dropping)) else None
    case Connected(e, idx) =>
      if answer && s.epoch == e then Some(s.(pump := Creating(e, idx)))
      else if !answer && (!s.running || s.epoch != e) then Some(s.(pump := Running(e))) else None
    case _ => None
  }

  function DoDevice(s: State, a: Action): Option<State> {
    match s.pump
    case Creating(e, idx) =>
      if a.AddDevice? && a.at <= |s.setup|
      then Some(s.(pump := Added(e, idx, s.nextDev), nextDev := s.nextDev + 1,
                   setup := s.setup[..a.at] + [Ours(s.nextDev)] + s.setup[a.at..]))
      else if a.CreateFail? then Some(s.(pump := CreateFailed(e, idx)))
      else None
    case Added(e, idx, dev) =>
      if a.RecordDevice? && idx < |s.slots|
      then Some(s.(slots := s.slots[idx := s.slots[idx].(dev := Some(dev))], pump := Recorded(e, idx))) else None
    case Recorded(e, idx) =>
      if a.PublishEndpoint? && idx < |s.slots|
      then Some(s.(endpoints := s.endpoints[(idx, s.slots[idx].gen) := s.slots[idx].conn], pump := Scanning(e)))
      else None
    case CreateFailed(e, idx) =>
      if a.DetachFailed? && idx < |s.slots| then Some(Detach(s, idx).(pump := Scanning(e))) else None
    case _ => None
  }

  function DoRead(s: State, ok: bool): Option<State> {
    if !s.pump.Polling? then None
    else if s.pump.ready == [] then Some(s.(pump := Running(s.pump.e)))
    else
      var (i, fd) := s.pump.ready[0];
      var t := s.(pump := Polling(s.pump.e, s.pump.ready[1..]));
      if i >= |s.slots| then None
      // Send may have closed this descriptor since the poll.
      else if s.slots[i].fd != Some(fd) || ok then Some(t)
      else Some(Detach(t, i))
  }

  function DoSend(s: State, idx: nat, gen: nat, ok: bool): Option<State> {
    // MIDIServer hands over the refCon of an endpoint that was published.
    if (idx, gen) !in s.endpoints || idx >= |s.slots| then None
    else
      var sl := s.slots[idx];
      if sl.fd.None? || sl.gen != gen || sl.fd.value !in s.open then Some(s)
      else
        var t := s.(writes := s.writes + [Write(idx, gen, s.open[sl.fd.value])]);
        Some(if ok then t else Detach(t, idx))
  }

  /** `Start` removes what an earlier load left behind, one device after the other, and then
      lets the pump run. Other threads' steps come between, as far as MIDIServer's own lock
      on its setup allows. */
  function DoStart(s: State, a: Action): Option<State> {
    match s.starting
    case None => if a.StartCollect? then Some(s.(starting := Some(Doomed(s.setup)))) else None
    case Some(doomed) =>
      if a.StartRemove? && doomed != []
      then Some(s.(setup := Remove(s.setup, doomed[0]), swept := s.swept + [doomed[0]], starting := Some(doomed[1..])))
      else if a.StartRun? && doomed == [] && !s.stopping then Some(s.(running := true, starting := None))
      else None
  }

  function Step(s: State, a: Action): Option<State> {
    match a
    case StartCollect => DoStart(s, a)
    case StartRemove => DoStart(s, a)
    case StartRun => DoStart(s, a)
    case StopFlag => if s.stopping then None else Some(s.(running := false, stopping := true))
    case StopEpoch => if s.stopping then Some(s.(epoch := s.epoch + 1, stopping := false)) else None
    case Wake => if s.pump.Waiting? && s.running && !s.stopping then Some(s.(pump := Running(s.epoch))) else None
    case Live(answer) => DoLive(s, answer)
    case BeginScan => if s.pump.Running? then Some(s.(pump := Scanning(s.pump.e))) else None
    case ClaimSlot(path) => DoClaimSlot(s, path)
    case EndScan => if s.pump.Scanning? then Some(s.(pump := Running(s.pump.e))) else None
    case DialOk(fd) => DoDialOk(s, fd)
    case DialFailed => if s.pump.Dialling? then Some(s.(pump := Scanning(s.pump.e))) else None
    case Connect(namesOk) => DoConnect(s, namesOk)
    case CloseOurs => DoCloseOurs(s)
    case AddDevice(_) => DoDevice(s, a)
    case CreateFail => DoDevice(s, a)
    case RecordDevice => DoDevice(s, a)
    case PublishEndpoint => DoDevice(s, a)
    case DetachFailed => DoDevice(s, a)
    case Poll => if s.pump.Running? then Some(s.(pump := Polling(s.pump.e, Ready(s.slots, 0)))) else None
    case Read(ok) => DoRead(s, ok)
    case DropAll => if s.pump.Dropping? then Some(DetachBelow(s, |s.slots|).(pump := Waiting)) else None
    case Retire(dev) =>
      if dev in s.detached
      then Some(s.(detached := s.detached - {dev}, retired := s.retired + [dev], setup := Remove(s.setup, Ours(dev))))
      else None
    case Send(idx, gen, ok) => DoSend(s, idx, gen, ok)
    case OpenForeign(fd) => if fd !in s.open then Some(s.(open := s.open[fd := Foreign])) else None
    case CloseForeign(fd) =>
      if fd in s.open && s.open[fd] == Foreign then Some(s.(open := s.open - {fd})) else None
    case OtherDevices(after) => if MarkedOnes(after) == MarkedOnes(s.setup) then Some(s.(setup := after)) else None
  }

  ghost predicate Init(s: State) {
    && s.slots == seq(MAX_SLOTS, _ => Slot(None, 0, 0, None, 0))
    && s.nextGen == 1 && s.nextConn == 0 && s.nextDev == 0 && s.pump == Waiting && !s.stopping && s.detached == {}
    && (forall fd :: fd in s.open ==> s.open[fd] == Foreign)
    && s.endpoints == map[] && s.closed == [] && s.retired == [] && s.writes == []
    && (forall d :: d in s.setup ==> !d.Ours?) && s.starting.None? && s.swept == []
  }

  // ----- the invariant -----

  /** The pump's own connection, between dialling and the table. */
  ghost predicate InHand(p: Pump, fd: Fd, conn: Conn) {
    (p.Dialled? && p.fd == fd && p.conn == conn) || (p.ClosingOurs? && p.fd == fd && p.conn == conn)
  }

  ghost predicate NoRepeats(q: seq<nat>) {
    forall i, j :: 0 <= i < j < |q| ==> q[i] != q[j]
  }

  /** Connected slots: their descriptors are theirs, and no two share anything. */
  ghost predicate SlotsOk(slots: seq<Slot>, open: map<Fd, Owner>, nextGen: nat) {
    && |slots| == MAX_SLOTS
    && (forall i :: 0 <= i < |slots| && slots[i].fd.Some? ==>
          slots[i].fd.value in open && open[slots[i].fd.value] == Link(slots[i].conn) && slots[i].gen < nextGen)
    && (forall i, j :: 0 <= i < j < |slots| && slots[i].fd.Some? && slots[j].fd.Some? ==>
          slots[i].path != slots[j].path && slots[i].conn != slots[j].conn && slots[i].gen != slots[j].gen)
    && (forall i :: 0 <= i < |slots| && slots[i].fd.None? ==> slots[i].dev.None?)
  }

  ghost predicate InTable(slots: seq<Slot>, fd: Fd) {
    exists i :: 0 <= i < |slots| && slots[i].fd == Some(fd)
  }

  ghost predicate IsOpen(open: map<Fd, Owner>, c: Conn) {
    exists fd :: fd in open && open[fd] == Link(c)
  }

  /** An open link is held by a slot or by the pump's dial, and has one descriptor. */
  ghost predicate LinksHeld(slots: seq<Slot>, open: map<Fd, Owner>, pump: Pump) {
    && (forall fd :: fd in open && open[fd].Link? ==> InHand(pump, fd, open[fd].conn) || InTable(slots, fd))
    && (forall f, g :: f in open && g in open && f != g && open[f].Link? ==> open[f] != open[g])
    && (pump.Dialled? || pump.ClosingOurs? ==>
          pump.fd in open && open[pump.fd] == Link(pump.conn) && !InTable(slots, pump.fd))
  }

  /** Each connection is open or was closed, and never both or twice. */
  ghost predicate ClosedOnce(open: map<Fd, Owner>, closed: seq<Conn>, nextConn: Conn) {
    && (forall fd :: fd in open && open[fd].Link? ==> open[fd].conn < nextConn && open[fd].conn !in closed)
    && NoRepeats(closed) && (forall c :: c in closed ==> c < nextConn)
    && (forall c: Conn :: c < nextConn ==> c in closed || IsOpen(open, c))
  }

  ghost predicate InSlot(slots: seq<Slot>, d: Dev) {
    exists i :: 0 <= i < |slots| && slots[i].dev == Some(d)
  }

  /** A published device is in one place only: its slot, the pump that is publishing it,
      waiting to be retired, or retired. */
  ghost predicate DevicesApart(slots: seq<Slot>, pump: Pump, detached: set<Dev>, retired: seq<Dev>, nextDev: Dev) {
    && (forall i :: 0 <= i < |slots| && slots[i].dev.Some? ==>
          slots[i].dev.value < nextDev && slots[i].dev.value !in detached && slots[i].dev.value !in retired)
    && (forall i, j :: 0 <= i < j < |slots| && slots[i].dev.Some? ==> slots[i].dev != slots[j].dev)
    && (pump.Added? ==> pump.dev < nextDev && !InSlot(slots, pump.dev) && pump.dev !in detached && pump.dev !in retired)
    && (forall d :: d in detached ==> d < nextDev && d !in retired)
    && NoRepeats(retired) && (forall d :: d in retired ==> d < nextDev)
  }

  /** And it is in one of them. */
  ghost predicate DevicesKept(slots: seq<Slot>, pump: Pump, detached: set<Dev>, retired: seq<Dev>, nextDev: Dev) {
    forall d: Dev :: d < nextDev ==>
      d in retired || d in detached || InSlot(slots, d) || (pump.Added? && pump.dev == d)
  }

  /** A published device is listed until `slot_retire` or a `Start` removes it. */
  ghost predicate SetupOk(setup: seq<Device>, retired: seq<Dev>, swept: seq<Device>, nextDev: Dev) {
    forall d: Dev :: Ours(d) in setup <==> d < nextDev && d !in retired && Ours(d) !in swept
  }

  /** `Start` removes no device that was not published yet. */
  ghost predicate SweepOk(starting: Option<seq<Device>>, swept: seq<Device>, nextDev: Dev) {
    && (forall d: Dev :: Ours(d) in swept ==> d < nextDev)
    && (starting.Some? ==> forall d: Dev :: Ours(d) in starting.value ==> d < nextDev)
  }

  /** An endpoint names at most the connection it was published for. */
  ghost predicate EndpointsOk(slots: seq<Slot>, endpoints: map<(nat, nat), Conn>, nextGen: nat, writes: seq<Write>) {
    && (forall k :: k in endpoints ==> k.0 < MAX_SLOTS && k.1 < nextGen)
    && (forall i :: 0 <= i < |slots| && slots[i].fd.Some? && (i, slots[i].gen) in endpoints ==>
          endpoints[(i, slots[i].gen)] == slots[i].conn)
    && (forall w :: w in writes ==> WriteOk(endpoints, w))
  }

  ghost predicate WriteOk(endpoints: map<(nat, nat), Conn>, w: Write) {
    (w.idx, w.gen) in endpoints && w.to == Link(endpoints[(w.idx, w.gen)])
  }

  ghost predicate PumpOk(slots: seq<Slot>, pump: Pump, endpoints: map<(nat, nat), Conn>, epoch: nat) {
    && (pump.Waiting? ==> forall i :: 0 <= i < |slots| ==> slots[i].fd.None?)
    && (!pump.Waiting? && !pump.Dropping? ==> pump.e <= epoch)
    && (Publishing(pump) ==>
          Unpublished(slots, pump.idx, endpoints) && (!pump.Recorded? ==> slots[pump.idx].dev.None?))
  }

  /** The slot the pump is publishing: connected, and no endpoint can reach it yet. */
  ghost predicate Unpublished(slots: seq<Slot>, idx: nat, endpoints: map<(nat, nat), Conn>) {
    idx < |slots| && slots[idx].fd.Some? && (idx, slots[idx].gen) !in endpoints
  }

  ghost predicate Inv(s: State) {
    && SlotsOk(s.slots, s.open, s.nextGen)
    && LinksHeld(s.slots, s.open, s.pump)
    && ClosedOnce(s.open, s.closed, s.nextConn)
    && DevicesApart(s.slots, s.pump, s.detached, s.retired, s.nextDev)
    && DevicesKept(s.slots, s.pump, s.detached, s.retired, s.nextDev)
    && SetupOk(s.setup, s.retired, s.swept, s.nextDev)
    && SweepOk(s.starting, s.swept, s.nextDev)
    && EndpointsOk(s.slots, s.endpoints, s.nextGen, s.writes)
    && PumpOk(s.slots, s.pump, s.endpoints, s.epoch)
  }

  // ----- detaching -----

  lemma FreeKeepsLinks(slots: seq<Slot>, open: map<Fd, Owner>, pump: Pump, i: nat, free: Slot)
    requires LinksHeld(slots, open, pump) && i < |slots| && slots[i].fd.Some? && free.fd.None?
    ensures LinksHeld(slots[i := free], open - {slots[i].fd.value}, pump)
  {
    var t, o := slots[i := free], open - {slots[i].fd.value};
    forall fd | fd in o && o[fd].Link? ensures InHand(pump, fd, o[fd].conn) || InTable(t, fd) {
      if !InHand(pump, fd, o[fd].conn) {
        var k :| 0 <= k < |slots| && slots[k].fd == Some(fd);
        assert t[k].fd == Some(fd);
      }
    }
  }

  lemma CloseKeepsCount(open: map<Fd, Owner>, closed: seq<Conn>, nextConn: Conn, fd: Fd)
    requires ClosedOnce(open, closed, nextConn) && fd in open && open[fd].Link?
    requires forall f, g :: f in open && g in open && f != g && open[f].Link? ==> open[f] != open[g]
    ensures ClosedOnce(open - {fd}, closed + [open[fd].conn], nextConn)
  {
    var o, cs := open - {fd}, closed + [open[fd].conn];
    assert forall c :: c in cs <==> c in closed || c == open[fd].conn;
    forall c: Conn | c < nextConn && c !in cs ensures IsOpen(o, c) {
      var f :| f in open && open[f] == Link(c);
      assert f in o && o[f] == Link(c);
    }
  }

  lemma FreeKeepsDevices(slots: seq<Slot>, pump: Pump, detached: set<Dev>, retired: seq<Dev>, nextDev: Dev, i: nat,
                         free: Slot)
    requires DevicesApart(slots, pump, detached, retired, nextDev)
    requires DevicesKept(slots, pump, detached, retired, nextDev)
    requires i < |slots| && free.dev.None?
    ensures var d := detached + if slots[i].dev.Some? then {slots[i].dev.value} else {};
            DevicesApart(slots[i := free], pump, d, retired, nextDev)
            && DevicesKept(slots[i := free], pump, d, retired, nextDev)
  {
    var t := slots[i := free];
    forall d: Dev | InSlot(slots, d) && slots[i].dev != Some(d) ensures InSlot(t, d) {
      var k :| 0 <= k < |slots| && slots[k].dev == Some(d);
      assert t[k].dev == Some(d);
    }
  }

  predicate Publishing(p: Pump) {
    p.Connected? || p.Creating? || p.Added? || p.Recorded? || p.CreateFailed?
  }

  lemma DetachKeepsInv(s: State, i: nat)
    requires Inv(s) && i < |s.slots| && (Publishing(s.pump) ==> s.pump.idx != i)
    ensures Inv(Detach(s, i))
  {
    hide SetupOk, SweepOk, LinksHeld, ClosedOnce, DevicesApart, DevicesKept, NoRepeats;
    assert forall f, g :: f in s.open && g in s.open && f != g && s.open[f].Link? ==> s.open[f] != s.open[g] by {
      LinksAreApart(s.slots, s.open, s.pump);
    }
    if s.slots[i].fd.Some? {
      var free := s.slots[i].(fd := None, dev := None);
      FreeKeepsLinks(s.slots, s.open, s.pump, i, free);
      CloseKeepsCount(s.open, s.closed, s.nextConn, s.slots[i].fd.value);
      FreeKeepsDevices(s.slots, s.pump, s.detached, s.retired, s.nextDev, i, free);
      FreeKeepsSlots(s.slots, s.open, s.nextGen, i, free);
    }
  }

  lemma LinksAreApart(slots: seq<Slot>, open: map<Fd, Owner>, pump: Pump)
    requires LinksHeld(slots, open, pump)
    ensures forall f, g :: f in open && g in open && f != g && open[f].Link? ==> open[f] != open[g]
  {
  }

  lemma FreeKeepsSlots(slots: seq<Slot>, open: map<Fd, Owner>, nextGen: nat, i: nat, free: Slot)
    requires SlotsOk(slots, open, nextGen) && i < |slots| && slots[i].fd.Some? && free.fd.None? && free.dev.None?
    ensures SlotsOk(slots[i := free], open - {slots[i].fd.value}, nextGen)
  {
  }

  // ----- every step -----

  /** A step that moves only the pump and the run flags, with nothing in the pump's hand. */
  lemma PumpStepKeepsInv(s: State, t: State)
    requires Inv(s) && t == s.(pump := t.pump, running := t.running, epoch := t.epoch, stopping := t.stopping)
    requires t.pump == s.pump || (!s.pump.Dialled? && !s.pump.ClosingOurs? && !s.pump.Added?)
    requires t.pump == s.pump || (!t.pump.Dialled? && !t.pump.ClosingOurs? && !t.pump.Added?)
    requires PumpOk(t.slots, t.pump, t.endpoints, t.epoch)
    ensures Inv(t)
  {
  }

  lemma DialKeepsCount(open: map<Fd, Owner>, closed: seq<Conn>, nextConn: Conn, fd: Fd)
    requires ClosedOnce(open, closed, nextConn) && fd !in open
    ensures ClosedOnce(open[fd := Link(nextConn)], closed, nextConn + 1)
  {
    hide NoRepeats;
    var o := open[fd := Link(nextConn)];
    forall c: Conn | c < nextConn + 1 && c !in closed ensures IsOpen(o, c) {
      if c == nextConn {
        assert o[fd] == Link(c);
      } else {
        var f :| f in open && open[f] == Link(c);
        assert o[f] == Link(c);
      }
    }
  }

  lemma DialKeepsLinks(slots: seq<Slot>, open: map<Fd, Owner>, pump: Pump, next: Pump, closed: seq<Conn>,
                       nextConn: Conn, nextGen: nat)
    requires LinksHeld(slots, open, pump) && SlotsOk(slots, open, nextGen) && ClosedOnce(open, closed, nextConn)
    requires pump.Dialling? && next.Dialled? && next.fd !in open && next.conn == nextConn
    ensures var o := open[next.fd := Link(nextConn)]; LinksHeld(slots, o, next) && SlotsOk(slots, o, nextGen)
  {
    hide IsOpen, NoRepeats;
    var o := open[next.fd := Link(nextConn)];
    assert !InTable(slots, next.fd);
  }

  lemma DialOkKeepsInv(s: State, fd: Fd)
    requires Inv(s) && DoDialOk(s, fd).Some?
    ensures Inv(DoDialOk(s, fd).value)
  {
    hide SetupOk, SweepOk, SlotsOk, LinksHeld, ClosedOnce, EndpointsOk;
    var t := DoDialOk(s, fd).value;
    DialKeepsCount(s.open, s.closed, s.nextConn, fd);
    DialKeepsLinks(s.slots, s.open, s.pump, t.pump, s.closed, s.nextConn, s.nextGen);
  }

  lemma CloseOursKeepsInv(s: State)
    requires Inv(s) && DoCloseOurs(s).Some?
    ensures Inv(DoCloseOurs(s).value)
  {
    CloseKeepsCount(s.open, s.closed, s.nextConn, s.pump.fd);
  }

  lemma FillKeepsSlots(slots: seq<Slot>, open: map<Fd, Owner>, nextGen: nat, i: nat, sl: Slot)
    requires SlotsOk(slots, open, nextGen) && i < |slots| && !PathConnected(slots, sl.path)
    requires sl.fd.Some? && sl.fd.value in open && open[sl.fd.value] == Link(sl.conn) && sl.gen == nextGen
    requires !InTable(slots, sl.fd.value)
    requires forall f, g :: f in open && g in open && f != g && open[f].Link? ==> open[f] != open[g]
    ensures SlotsOk(slots[i := sl], open, nextGen + 1)
  {
  }

  lemma FillKeepsLinks(slots: seq<Slot>, open: map<Fd, Owner>, pump: Pump, next: Pump, i: nat, sl: Slot)
    requires LinksHeld(slots, open, pump) && pump.Dialled? && !next.Dialled? && !next.ClosingOurs?
    requires i < |slots| && slots[i].fd.None? && sl.fd == Some(pump.fd)
    ensures LinksHeld(slots[i := sl], open, next)
  {
    var t := slots[i := sl];
    assert t[i].fd == Some(pump.fd);
    forall f | f in open && open[f].Link? ensures InTable(t, f) {
      if f != pump.fd {
        var k :| 0 <= k < |slots| && slots[k].fd == Some(f);
        assert t[k].fd == Some(f);
      }
    }
  }

  /** The table entry a dialled connection gets. */
  lemma FillKeepsInv(s: State, t: State)
    requires Inv(s) && s.pump.Dialled? && s.pump.idx < |s.slots| && s.nextGen < WRAP
    requires s.slots[s.pump.idx].fd.None? && !PathConnected(s.slots, s.pump.path)
    requires t == s.(slots := s.slots[s.pump.idx := Slot(Some(s.pump.fd), s.nextGen, s.pump.path, None, s.pump.conn)],
                     nextGen := s.nextGen + 1, pump := t.pump)
    requires t.pump == Connected(s.pump.e, s.pump.idx) || t.pump == Scanning(s.pump.e)
    ensures Inv(t)
  {
    var i := s.pump.idx;
    FillKeepsSlots(s.slots, s.open, s.nextGen, i, t.slots[i]);
    FillKeepsLinks(s.slots, s.open, s.pump, t.pump, i, t.slots[i]);
    FreeKeepsDevices(s.slots, s.pump, s.detached, s.retired, s.nextDev, i, t.slots[i]);
    assert s.detached + {} == s.detached;
  }

  lemma ConnectKeepsInv(s: State, namesOk: bool)
    requires Inv(s) && DoConnect(s, namesOk).Some?
    ensures Inv(DoConnect(s, namesOk).value)
  {
    hide SetupOk, SweepOk, SlotsOk, LinksHeld, ClosedOnce, DevicesApart, DevicesKept, EndpointsOk, PumpOk;
    var Dialled(e, path, idx, fd, conn) := s.pump;
    if s.slots[idx].fd.Some? || PathConnected(s.slots, path) {
      LoseRace(s);
    } else {
      var t := s.(slots := s.slots[idx := Slot(Some(fd), s.nextGen, path, None, conn)], nextGen := s.nextGen + 1);
      if namesOk {
        FillKeepsInv(s, t.(pump := Connected(e, idx)));
      } else {
        var u := t.(pump := Scanning(e));
        FillKeepsInv(s, u);
        DetachKeepsInv(u, idx);
        assert DoConnect(s, namesOk).value == Detach(u, idx);
      }
    }
  }

  lemma LoseRace(s: State)
    requires Inv(s) && s.pump.Dialled?
    ensures Inv(s.(pump := ClosingOurs(s.pump.e, s.pump.fd, s.pump.conn)))
  {
  }

  lemma CreateFailKeepsInv(s: State)
    requires Inv(s) && DoDevice(s, CreateFail).Some?
    ensures Inv(DoDevice(s, CreateFail).value)
  {
    hide SetupOk, SweepOk, SlotsOk, LinksHeld, ClosedOnce, DevicesApart, DevicesKept, EndpointsOk, Detach;
    PumpStepKeepsInv(s, DoDevice(s, CreateFail).value);
  }

  /** A new device is in the pump's hand, and nowhere else. */
  lemma AddKeepsDevices(slots: seq<Slot>, pump: Pump, next: Pump, detached: set<Dev>, retired: seq<Dev>, nextDev: Dev)
    requires DevicesApart(slots, pump, detached, retired, nextDev)
    requires DevicesKept(slots, pump, detached, retired, nextDev)
    requires pump.Creating? && next.Added? && next.dev == nextDev
    ensures DevicesApart(slots, next, detached, retired, nextDev + 1)
    ensures DevicesKept(slots, next, detached, retired, nextDev + 1)
  {
  }

  lemma PumpKeepsLinks(slots: seq<Slot>, open: map<Fd, Owner>, pump: Pump, next: Pump)
    requires LinksHeld(slots, open, pump)
    requires !pump.Dialled? && !pump.ClosingOurs? && !next.Dialled? && !next.ClosingOurs?
    ensures LinksHeld(slots, open, next)
  {
  }

  lemma AddKeepsSetup(setup: seq<Device>, starting: Option<seq<Device>>, retired: seq<Dev>, swept: seq<Device>,
                      nextDev: Dev, at: nat)
    requires SetupOk(setup, retired, swept, nextDev) && SweepOk(starting, swept, nextDev) && at <= |setup|
    requires nextDev !in retired
    ensures SetupOk(setup[..at] + [Ours(nextDev)] + setup[at..], retired, swept, nextDev + 1)
    ensures SweepOk(starting, swept, nextDev + 1)
  {
    assert setup == setup[..at] + setup[at..];
  }

  lemma AddDeviceKeepsInv(s: State, at: nat)
    requires Inv(s) && DoDevice(s, AddDevice(at)).Some?
    ensures Inv(DoDevice(s, AddDevice(at)).value)
  {
    hide SetupOk, SweepOk, SlotsOk, LinksHeld, ClosedOnce, DevicesKept, EndpointsOk, NoRepeats;
    var t := DoDevice(s, AddDevice(at)).value;
    AddKeepsSetup(s.setup, s.starting, s.retired, s.swept, s.nextDev, at);
    AddKeepsDevices(s.slots, s.pump, t.pump, s.detached, s.retired, s.nextDev);
    PumpKeepsLinks(s.slots, s.open, s.pump, t.pump);
  }

  /** Publishing the endpoint of a slot that no endpoint could reach. */
  lemma PublishKeepsEndpoints(slots: seq<Slot>, endpoints: map<(nat, nat), Conn>, nextGen: nat, writes: seq<Write>,
                              i: nat)
    requires EndpointsOk(slots, endpoints, nextGen, writes) && Unpublished(slots, i, endpoints)
    requires i < MAX_SLOTS && slots[i].gen < nextGen
    ensures EndpointsOk(slots, endpoints[(i, slots[i].gen) := slots[i].conn], nextGen, writes)
  {
  }

  lemma PublishKeepsInv(s: State)
    requires Inv(s) && DoDevice(s, PublishEndpoint).Some?
    ensures Inv(DoDevice(s, PublishEndpoint).value)
  {
    hide SetupOk, SweepOk, LinksHeld, ClosedOnce, DevicesApart, DevicesKept, EndpointsOk;
    var t := DoDevice(s, PublishEndpoint).value;
    PumpStepKeepsInv(s, s.(pump := t.pump));
    PublishKeepsEndpoints(s.slots, s.endpoints, s.nextGen, s.writes, s.pump.idx);
  }

  /** Recording a device changes no descriptor. */
  lemma RecordKeepsLinks(slots: seq<Slot>, open: map<Fd, Owner>, pump: Pump, next: Pump, i: nat, dev: Dev)
    requires LinksHeld(slots, open, pump) && pump.Added? && next.Recorded? && i < |slots|
    ensures LinksHeld(slots[i := slots[i].(dev := Some(dev))], open, next)
  {
    var t := slots[i := slots[i].(dev := Some(dev))];
    forall fd: Fd | InTable(slots, fd) ensures InTable(t, fd) {
      var k :| 0 <= k < |slots| && slots[k].fd == Some(fd);
      assert t[k].fd == Some(fd);
    }
  }

  lemma RecordKeepsDevices(slots: seq<Slot>, pump: Pump, next: Pump, detached: set<Dev>, retired: seq<Dev>,
                           nextDev: Dev)
    requires DevicesApart(slots, pump, detached, retired, nextDev)
    requires DevicesKept(slots, pump, detached, retired, nextDev)
    requires pump.Added? && next.Recorded? && pump.idx < |slots| && slots[pump.idx].dev.None?
    ensures var t := slots[pump.idx := slots[pump.idx].(dev := Some(pump.dev))];
            DevicesApart(t, next, detached, retired, nextDev) && DevicesKept(t, next, detached, retired, nextDev)
  {
    var t := slots[pump.idx := slots[pump.idx].(dev := Some(pump.dev))];
    assert t[pump.idx].dev == Some(pump.dev);
    forall d: Dev | InSlot(slots, d) ensures InSlot(t, d) {
      var k :| 0 <= k < |slots| && slots[k].dev == Some(d);
      assert t[k].dev == Some(d);
    }
  }

  lemma RecordDeviceKeepsInv(s: State)
    requires Inv(s) && DoDevice(s, RecordDevice).Some?
    ensures Inv(DoDevice(s, RecordDevice).value)
  {
    hide SetupOk, SweepOk, LinksHeld, ClosedOnce, DevicesApart, DevicesKept;
    var t := DoDevice(s, RecordDevice).value;
    RecordKeepsLinks(s.slots, s.open, s.pump, t.pump, s.pump.idx, s.pump.dev);
    RecordKeepsDevices(s.slots, s.pump, t.pump, s.detached, s.retired, s.nextDev);
  }

  lemma DetachFailedKeepsInv(s: State)
    requires Inv(s) && DoDevice(s, DetachFailed).Some?
    ensures Inv(DoDevice(s, DetachFailed).value)
  {
    var u := s.(pump := Scanning(s.pump.e));
    PumpStepKeepsInv(s, u);
    DetachKeepsInv(u, s.pump.idx);
    assert DoDevice(s, DetachFailed).value == Detach(u, s.pump.idx);
  }

  lemma ReadKeepsInv(s: State, ok: bool)
    requires Inv(s) && DoRead(s, ok).Some?
    ensures Inv(DoRead(s, ok).value)
  {
    PumpStepKeepsInv(s, s.(pump := Running(s.pump.e)));
    if s.pump.ready != [] {
      var t := s.(pump := Polling(s.pump.e, s.pump.ready[1..]));
      PumpStepKeepsInv(s, t);
      DetachKeepsInv(t, s.pump.ready[0].0);
    }
  }

  lemma {:induction false} DetachBelowKeepsInv(s: State, n: nat)
    requires Inv(s) && s.pump.Dropping? && n <= |s.slots|
    ensures Inv(DetachBelow(s, n)) && DetachBelow(s, n).pump == s.pump
    ensures forall i :: 0 <= i < n ==> DetachBelow(s, n).slots[i].fd.None?
    ensures DetachBelow(s, n).epoch == s.epoch
  {
    hide Inv;
    if n > 0 {
      DetachBelowKeepsInv(s, n - 1);
      DetachKeepsInv(DetachBelow(s, n - 1), n - 1);
    }
  }

  lemma DropAllKeepsInv(s: State)
    requires Inv(s) && s.pump.Dropping?
    ensures Inv(DetachBelow(s, |s.slots|).(pump := Waiting))
  {
    DetachBelowKeepsInv(s, |s.slots|);
    var t := DetachBelow(s, |s.slots|);
    PumpStepKeepsInv(t, t.(pump := Waiting));
  }

  lemma SendKeepsInv(s: State, idx: nat, gen: nat, ok: bool)
    requires Inv(s) && DoSend(s, idx, gen, ok).Some?
    ensures Inv(DoSend(s, idx, gen, ok).value)
  {
    var sl := s.slots[idx];
    if sl.fd.Some? && sl.gen == gen {
      var t := s.(writes := s.writes + [Write(idx, gen, s.open[sl.fd.value])]);
      assert Inv(t);
      DetachKeepsInv(t, idx);
    }
  }

  lemma RetireKeepsInv(s: State, dev: Dev)
    requires Inv(s) && Step(s, Retire(dev)).Some?
    ensures Inv(Step(s, Retire(dev)).value)
  {
    hide SetupOk, SweepOk, SlotsOk, LinksHeld, ClosedOnce, EndpointsOk, PumpOk;
    RetireKeepsSetup(s.setup, s.retired, s.swept, s.nextDev, dev);
  }

  lemma RetireKeepsSetup(setup: seq<Device>, retired: seq<Dev>, swept: seq<Device>, nextDev: Dev, dev: Dev)
    requires SetupOk(setup, retired, swept, nextDev)
    ensures SetupOk(Remove(setup, Ours(dev)), retired + [dev], swept, nextDev)
  {
    RemoveIn(setup, Ours(dev));
  }

  lemma StartKeepsInv(s: State, a: Action)
    requires Inv(s) && DoStart(s, a).Some?
    ensures Inv(DoStart(s, a).value)
  {
    hide SetupOk, SlotsOk, LinksHeld, ClosedOnce, DevicesApart, DevicesKept, EndpointsOk, PumpOk, Doomed;
    if a.StartCollect? {
      DoomedAreListed(s.setup, s.retired, s.swept, s.nextDev);
    } else if a.StartRemove? {
      SweepKeepsSetup(s.setup, s.retired, s.swept, s.nextDev, s.starting.value[0]);
    }
  }

  lemma DoomedAreListed(setup: seq<Device>, retired: seq<Dev>, swept: seq<Device>, nextDev: Dev)
    requires SetupOk(setup, retired, swept, nextDev)
    ensures forall d: Dev :: Ours(d) in Doomed(setup) ==> d < nextDev
  {
    MarkedIn(setup);
  }

  lemma SweepKeepsSetup(setup: seq<Device>, retired: seq<Dev>, swept: seq<Device>, nextDev: Dev, device: Device)
    requires SetupOk(setup, retired, swept, nextDev)
    ensures SetupOk(Remove(setup, device), retired, swept + [device], nextDev)
  {
    RemoveIn(setup, device);
  }

  lemma OthersKeepInv(s: State, after: seq<Device>)
    requires Inv(s) && MarkedOnes(after) == MarkedOnes(s.setup)
    ensures Inv(s.(setup := after))
  {
    hide SweepOk, SlotsOk, LinksHeld, ClosedOnce, DevicesApart, DevicesKept, EndpointsOk, PumpOk;
    MarkedIn(after);
    MarkedIn(s.setup);
    assert forall d: Dev :: Ours(d) in after <==> Ours(d) in MarkedOnes(s.setup);
  }

  /** The rest of the process opens or closes descriptors of its own. */
  ghost predicate ForeignChange(before: map<Fd, Owner>, after: map<Fd, Owner>) {
    && (forall f :: f in before && before[f].Link? ==> f in after && after[f] == before[f])
    && (forall f :: f in after && after[f].Link? ==> f in before && after[f] == before[f])
  }

  lemma ForeignKeepsLinks(slots: seq<Slot>, before: map<Fd, Owner>, after: map<Fd, Owner>, pump: Pump, nextGen: nat)
    requires LinksHeld(slots, before, pump) && SlotsOk(slots, before, nextGen) && ForeignChange(before, after)
    ensures LinksHeld(slots, after, pump) && SlotsOk(slots, after, nextGen)
  {
    hide InTable, InHand;
  }

  lemma ForeignKeepsCount(before: map<Fd, Owner>, after: map<Fd, Owner>, closed: seq<Conn>, nextConn: Conn)
    requires ClosedOnce(before, closed, nextConn) && ForeignChange(before, after)
    ensures ClosedOnce(after, closed, nextConn)
  {
    hide NoRepeats;
    forall c: Conn | IsOpen(before, c) ensures IsOpen(after, c) {
      var f :| f in before && before[f] == Link(c);
      assert f in after && after[f] == Link(c);
    }
  }

  lemma ForeignKeepsInv(s: State, fd: Fd, open: map<Fd, Owner>)
    requires Inv(s)
    requires || (fd !in s.open && open == s.open[fd := Foreign])
             || (fd in s.open && s.open[fd] == Foreign && open == s.open - {fd})
    ensures Inv(s.(open := open))
  {
    hide SetupOk, SweepOk, DevicesApart, DevicesKept, EndpointsOk, PumpOk, LinksHeld, SlotsOk, ClosedOnce;
    ForeignKeepsLinks(s.slots, s.open, open, s.pump, s.nextGen);
    ForeignKeepsCount(s.open, open, s.closed, s.nextConn);
  }

  lemma FlagsKeepInv(s: State, a: Action)
    requires Inv(s) && Step(s, a).Some?
    requires a.StopFlag? || a.StopEpoch? || a.Wake? || a.Live?
    ensures Inv(Step(s, a).value)
  {
    hide SetupOk, SweepOk, SlotsOk, LinksHeld, ClosedOnce, DevicesApart, DevicesKept, EndpointsOk, Ready, Detach,
         Unpublished;
    PumpStepKeepsInv(s, Step(s, a).value);
  }

  lemma ScanKeepsInv(s: State, a: Action)
    requires Inv(s) && Step(s, a).Some?
    requires a.BeginScan? || a.ClaimSlot? || a.EndScan? || a.DialFailed? || a.Poll?
    ensures Inv(Step(s, a).value)
  {
    hide SetupOk, SweepOk, SlotsOk, LinksHeld, ClosedOnce, DevicesApart, DevicesKept, EndpointsOk, Ready, Detach,
         Unpublished, FreeSlot, PathConnected;
    PumpStepKeepsInv(s, Step(s, a).value);
  }

  lemma StepKeepsInv(s: State, a: Action)
    requires Inv(s) && Step(s, a).Some?
    ensures Inv(Step(s, a).value)
  {
    hide Inv, DoClaimSlot, DoDialOk, DoConnect, DoCloseOurs, DoLive, DoDevice, DoRead, DoSend, Detach, DetachBelow,
         Ready, DoStart, MarkedOnes, Remove, Doomed;
    match a
    case DialOk(fd) => DialOkKeepsInv(s, fd);
    case Connect(namesOk) => ConnectKeepsInv(s, namesOk);
    case CloseOurs => CloseOursKeepsInv(s);
    case AddDevice(at) => AddDeviceKeepsInv(s, at);
    case CreateFail => CreateFailKeepsInv(s);
    case PublishEndpoint => PublishKeepsInv(s);
    case RecordDevice => RecordDeviceKeepsInv(s);
    case DetachFailed => DetachFailedKeepsInv(s);
    case Read(ok) => ReadKeepsInv(s, ok);
    case DropAll => DropAllKeepsInv(s);
    case Send(idx, gen, ok) => SendKeepsInv(s, idx, gen, ok);
    case Retire(dev) => RetireKeepsInv(s, dev);
    case OpenForeign(fd) => ForeignKeepsInv(s, fd, s.open[fd := Foreign]);
    case CloseForeign(fd) => ForeignKeepsInv(s, fd, s.open - {fd});
    case OtherDevices(after) => OthersKeepInv(s, after);
    case StartCollect => StartKeepsInv(s, a);
    case StartRemove => StartKeepsInv(s, a);
    case StartRun => StartKeepsInv(s, a);
    case BeginScan => ScanKeepsInv(s, a);
    case ClaimSlot(_) => ScanKeepsInv(s, a);
    case EndScan => ScanKeepsInv(s, a);
    case DialFailed => ScanKeepsInv(s, a);
    case Poll => ScanKeepsInv(s, a);
    case _ => FlagsKeepInv(s, a);
  }

  // ----- main results -----

  lemma InitIsInv(s: State)
    requires Init(s)
    ensures Inv(s)
  {
  }

  /** Everything the table promises, in every interleaving of the pump, `Send`, `Start` with its
      removal of stale devices, `Stop` and the rest of the process, as long as fewer than 2^32 links were made. */
  lemma EveryRunKeepsTheTable(s: State, acts: seq<Action>)
    requires Init(s) && Exec(Step, s, acts).Some?
    ensures Inv(Exec(Step, s, acts).value)
  {
    hide Inv, Init, Step;
    forall t, a | Inv(t) && Always(t, a) && Step(t, a).Some? ensures Inv(Step(t, a).value) {
      StepKeepsInv(t, a);
    }
    InitIsInv(s);
    RunKeeps(Step, Always, Inv, s, acts);
  }

  /** No two connected slots share a path. */
  lemma PathsAreDistinct(s: State, acts: seq<Action>, i: nat, j: nat)
    requires Init(s) && Exec(Step, s, acts).Some? && i < j < |Exec(Step, s, acts).value.slots|
    requires var t := Exec(Step, s, acts).value; t.slots[i].fd.Some? && t.slots[j].fd.Some?
    ensures var t := Exec(Step, s, acts).value; t.slots[i].path != t.slots[j].path
  {
    EveryRunKeepsTheTable(s, acts);
  }

  /** `link_send` writes only to the connection its endpoint was published for: never to
      a later link in the same slot, nor to a descriptor number that someone else got. */
  lemma SendsReachTheirOwnLink(s: State, acts: seq<Action>, w: Write)
    requires Init(s) && Exec(Step, s, acts).Some? && w in Exec(Step, s, acts).value.writes
    ensures var t := Exec(Step, s, acts).value;
            (w.idx, w.gen) in t.endpoints && w.to == Link(t.endpoints[(w.idx, w.gen)])
  {
    EveryRunKeepsTheTable(s, acts);
    assert WriteOk(Exec(Step, s, acts).value.endpoints, w);
  }

  /** Between two runs the table is empty: no slot survives into a later run, every socket
      ever dialled has been closed exactly once, and every device ever published was handed to
      `slot_retire` exactly once or is about to be. (`MidiRemovals` says how often a device is
      removed from the setup: `Start` removes devices too.) */
  lemma NothingOutlivesARun(s: State, acts: seq<Action>)
    requires Init(s) && Exec(Step, s, acts).Some? && Exec(Step, s, acts).value.pump.Waiting?
    ensures var t := Exec(Step, s, acts).value;
            && (forall i :: 0 <= i < |t.slots| ==> t.slots[i].fd.None? && t.slots[i].dev.None?)
            && (forall c: Conn :: c in t.closed <==> c < t.nextConn) && NoRepeats(t.closed)
            && (forall d: Dev :: d < t.nextDev <==> (d in t.retired || d in t.detached))
            && NoRepeats(t.retired) && (forall d :: d in t.detached ==> d !in t.retired)
  {
    EveryRunKeepsTheTable(s, acts);
    EmptyTable(Exec(Step, s, acts).value);
  }

  lemma EmptyTable(t: State)
    requires Inv(t) && t.pump.Waiting?
    ensures forall i :: 0 <= i < |t.slots| ==> t.slots[i].fd.None? && t.slots[i].dev.None?
    ensures (forall c: Conn :: c in t.closed <==> c < t.nextConn) && NoRepeats(t.closed)
    ensures forall d: Dev :: d < t.nextDev <==> (d in t.retired || d in t.detached)
    ensures NoRepeats(t.retired) && (forall d :: d in t.detached ==> d !in t.retired)
  {
    forall fd | fd in t.open ensures !t.open[fd].Link? {
      assert !InTable(t.slots, fd);
    }
  }

  /** The pump is where it asks whether run `e` is live: between two turns, or with a slot
      connected and its device not yet made. */
  predicate Asks(p: Pump, e: nat) { p == Running(e) || (p.Connected? && p.e == e) }

  /** A run that `Stop` has ended never counts as live again, whatever `Start` does. */
  lemma {:induction false} StoppedRunStaysStopped(s: State, acts: seq<Action>, e: nat)
    requires s.epoch > e && Exec(Step, s, acts).Some?
    ensures Exec(Step, s, acts).value.epoch > e
    ensures Asks(Exec(Step, s, acts).value.pump, e) ==>
              DoLive(Exec(Step, s, acts).value, true).None? && DoLive(Exec(Step, s, acts).value, false).Some?
  {
    hide Step;
    if acts != [] {
      StoppedRunStaysStopped(s, acts[..|acts| - 1], e);
      EpochGrows(Exec(Step, s, acts[..|acts| - 1]).value, acts[|acts| - 1]);
    }
  }

  lemma EpochGrows(s: State, a: Action)
    requires Step(s, a).Some?
    ensures Step(s, a).value.epoch >= s.epoch
  {
    hide Ready, FreeSlot, PathConnected, DoDevice, DoRead, DoSend, DetachBelow;
    match a
    case Read(ok) => UsesKeepEpoch(s, 0, 0, ok);
    case Send(idx, gen, ok) => UsesKeepEpoch(s, idx, gen, ok);
    case DropAll => DetachBelowKeepsEpoch(s, |s.slots|);
    case _ => DeviceKeepsEpoch(s, a);
  }

  lemma DeviceKeepsEpoch(s: State, a: Action)
    ensures DoDevice(s, a).Some? ==> DoDevice(s, a).value.epoch == s.epoch
  {
  }

  lemma UsesKeepEpoch(s: State, idx: nat, gen: nat, ok: bool)
    ensures DoRead(s, ok).Some? ==> DoRead(s, ok).value.epoch == s.epoch
    ensures DoSend(s, idx, gen, ok).Some? ==> DoSend(s, idx, gen, ok).value.epoch == s.epoch
  {
  }

  lemma {:induction false} DetachBelowKeepsEpoch(s: State, n: nat)
    requires n <= |s.slots|
    ensures DetachBelow(s, n).epoch == s.epoch
  {
    if n > 0 {
      DetachBelowKeepsEpoch(s, n - 1);
    }
  }

  // ----- a Send to a live link arrives -----

  /** A connection is named by no endpoint before its own is published, and by no other ever. */
  ghost predicate EndpointsApart(slots: seq<Slot>, pump: Pump, endpoints: map<(nat, nat), Conn>, nextConn: Conn) {
    && (forall k :: k in endpoints ==>
          endpoints[k] < nextConn && (pump.Dialled? || pump.ClosingOurs? ==> endpoints[k] != pump.conn))
    && (forall k, i :: k in endpoints && 0 <= i < |slots| && slots[i].fd.Some? && slots[i].conn == endpoints[k] ==>
          k == (i, slots[i].gen))
  }

  ghost predicate Apart(s: State) { EndpointsApart(s.slots, s.pump, s.endpoints, s.nextConn) }

  lemma DetachKeepsApart(s: State, i: nat)
    requires Apart(s) && i < |s.slots|
    ensures Apart(Detach(s, i)) && Detach(s, i).pump == s.pump && |Detach(s, i).slots| == |s.slots|
  {
  }

  lemma {:induction false} DetachBelowKeepsApart(s: State, n: nat)
    requires Apart(s) && n <= |s.slots|
    ensures Apart(DetachBelow(s, n)) && DetachBelow(s, n).pump == s.pump
  {
    hide Apart, Detach;
    if n > 0 {
      DetachBelowKeepsApart(s, n - 1);
      DetachKeepsApart(DetachBelow(s, n - 1), n - 1);
    }
  }

  /** The pump lets go of what it had in hand. */
  lemma PumpKeepsApart(s: State, pump: Pump)
    requires Apart(s) && !pump.Dialled? && (pump.ClosingOurs? ==> s.pump.Dialled? && pump.conn == s.pump.conn)
    ensures Apart(s.(pump := pump))
  {
  }

  lemma ConnectKeepsApart(s: State, namesOk: bool)
    requires Inv(s) && Apart(s) && DoConnect(s, namesOk).Some?
    ensures Apart(DoConnect(s, namesOk).value)
  {
    hide Inv, PathConnected;
    var Dialled(e, path, idx, fd, conn) := s.pump;
    if s.slots[idx].fd.None? && !PathConnected(s.slots, path) {
      var t := s.(slots := s.slots[idx := Slot(Some(fd), s.nextGen, path, None, conn)], nextGen := s.nextGen + 1);
      assert Apart(t.(pump := Scanning(e)));
      DetachKeepsApart(t.(pump := Scanning(e)), idx);
    }
  }

  lemma DeviceKeepsApart(s: State, a: Action)
    requires Inv(s) && Apart(s) && DoDevice(s, a).Some?
    ensures Apart(DoDevice(s, a).value)
  {
    hide Detach, LinksHeld, DevicesApart, DevicesKept, SetupOk, SweepOk, EndpointsOk, NoRepeats;
    if s.pump.CreateFailed? {
      PumpKeepsApart(s, Scanning(s.pump.e));
      DetachKeepsApart(s.(pump := Scanning(s.pump.e)), s.pump.idx);
      DetachIgnoresPump(s, s.pump.idx, Scanning(s.pump.e));
    } else if s.pump.Recorded? {
      SlotIsOpen(s, s.pump.idx);
    }
  }

  lemma DetachIgnoresPump(s: State, i: nat, pump: Pump)
    requires i < |s.slots|
    ensures Detach(s, i).(pump := pump) == Detach(s.(pump := pump), i)
  {
  }

  lemma SlotIsOpen(s: State, i: nat)
    requires Inv(s) && i < |s.slots| && s.slots[i].fd.Some?
    ensures s.slots[i].conn < s.nextConn
  {
    hide LinksHeld, DevicesApart, DevicesKept, SetupOk, SweepOk, EndpointsOk, PumpOk;
  }

  lemma UseKeepsApart(s: State, idx: nat, gen: nat, ok: bool)
    requires Apart(s)
    ensures DoRead(s, ok).Some? ==> Apart(DoRead(s, ok).value)
    ensures DoSend(s, idx, gen, ok).Some? ==> Apart(DoSend(s, idx, gen, ok).value)
  {
    hide Detach;
    if DoRead(s, ok).Some? && s.pump.ready != [] {
      var t := s.(pump := Polling(s.pump.e, s.pump.ready[1..]));
      DetachKeepsApart(t, s.pump.ready[0].0);
    }
    if DoSend(s, idx, gen, ok).Some? {
      var sl := s.slots[idx];
      if sl.fd.Some? && sl.fd.value in s.open {
        DetachKeepsApart(s.(writes := s.writes + [Write(idx, gen, s.open[sl.fd.value])]), idx);
      }
    }
  }

  lemma StepKeepsApart(s: State, a: Action)
    requires Inv(s) && Apart(s) && Step(s, a).Some?
    ensures Apart(Step(s, a).value)
  {
    hide Inv, DoConnect, DoDevice, DoRead, DoSend, Detach, DetachBelow, Ready, FreeSlot, PathConnected,
         MarkedOnes, Remove, Doomed;
    match a
    case Connect(namesOk) => ConnectKeepsApart(s, namesOk);
    case Read(ok) => UseKeepsApart(s, 0, 0, ok);
    case Send(idx, gen, ok) => UseKeepsApart(s, idx, gen, ok);
    case DropAll =>
      DetachBelowKeepsApart(s, |s.slots|);
      PumpKeepsApart(DetachBelow(s, |s.slots|), Waiting);
    case AddDevice(_) => DeviceKeepsApart(s, a);
    case CreateFail => DeviceKeepsApart(s, a);
    case RecordDevice => DeviceKeepsApart(s, a);
    case PublishEndpoint => DeviceKeepsApart(s, a);
    case DetachFailed => DeviceKeepsApart(s, a);
    case _ =>
  }

  /** The connection that an endpoint was published for is still in its slot. */
  predicate StillLinked(s: State, idx: nat, gen: nat) {
    && (idx, gen) in s.endpoints && idx < |s.slots|
    && s.slots[idx].fd.Some? && s.slots[idx].conn == s.endpoints[(idx, gen)]
  }

  /** In every reachable state, a `Send` to a published endpoint writes to the endpoint's connection
      if that is still in the slot, and writes nothing if it is not. */
  lemma SendArrivesIff(s: State, acts: seq<Action>, t: State, idx: nat, gen: nat, ok: bool)
    requires Init(s) && Exec(Step, s, acts) == Some(t) && (idx, gen) in t.endpoints
    ensures Step(t, Send(idx, gen, ok)).Some?
    ensures Step(t, Send(idx, gen, ok)).value.writes ==
            t.writes + if StillLinked(t, idx, gen) then [Write(idx, gen, Link(t.endpoints[(idx, gen)]))] else []
  {
    hide Step, Inv, Init, Apart, Detach;
    assert Inv(s) && Apart(s) by { StartsApart(s); }
    forall u, a | Inv(u) && Apart(u) && Always(u, a) && Step(u, a).Some?
      ensures Inv(Step(u, a).value) && Apart(Step(u, a).value)
    {
      StepKeepsInv(u, a);
      StepKeepsApart(u, a);
    }
    RunKeeps(Step, Always, u => Inv(u) && Apart(u), s, acts);
    SendOf(t, idx, gen, ok);
  }

  lemma StartsApart(s: State)
    requires Init(s)
    ensures Inv(s) && Apart(s)
  {
    hide Inv;
    InitIsInv(s);
  }

  lemma SendOf(t: State, idx: nat, gen: nat, ok: bool)
    requires Inv(t) && Apart(t) && (idx, gen) in t.endpoints
    ensures Step(t, Send(idx, gen, ok)).Some?
    ensures Step(t, Send(idx, gen, ok)).value.writes ==
            t.writes + if StillLinked(t, idx, gen) then [Write(idx, gen, Link(t.endpoints[(idx, gen)]))] else []
  {
    hide LinksHeld, ClosedOnce, DevicesApart, DevicesKept, SetupOk, SweepOk, PumpOk;
    DetachKeepsWrites(t.(writes := t.writes + [Write(idx, gen, Link(t.endpoints[(idx, gen)]))]), idx);
  }

  lemma DetachKeepsWrites(s: State, i: nat)
    ensures i < |s.slots| ==> Detach(s, i).writes == s.writes
  {
  }

  /** A link whose read or write fails is closed at once, its slot free and its device handed over. */
  lemma FailedLinkIsClosed(s: State, acts: seq<Action>, t: State, a: Action, i: nat)
    requires Init(s) && Exec(Step, s, acts) == Some(t) && i < |t.slots| && t.slots[i].fd.Some?
    requires || (a == Send(i, t.slots[i].gen, false) && (i, t.slots[i].gen) in t.endpoints)
             || (a == Read(false) && t.pump.Polling? && t.pump.ready != []
                 && t.pump.ready[0] == (i, t.slots[i].fd.value))
    ensures Step(t, a).Some?
    ensures var u, sl := Step(t, a).value, t.slots[i];
            && u.slots == t.slots[i := sl.(fd := None, dev := None)]
            && u.closed == t.closed + [sl.conn] && sl.fd.value !in u.open
            && u.detached == t.detached + if sl.dev.Some? then {sl.dev.value} else {}
  {
    hide Init, Exec, Inv;
    EveryRunKeepsTheTable(s, acts);
    SlotIsLinked(t, i);
  }

  lemma SlotIsLinked(t: State, i: nat)
    requires Inv(t) && i < |t.slots| && t.slots[i].fd.Some?
    ensures t.slots[i].fd.value in t.open
  {
  }
}
