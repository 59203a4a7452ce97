/** The staged install of `crates/cdj3k-emu-storage/src/staging.rs`, and the locks and
    the slot removal of `lib.rs`, as steps that interleave: each file operation is one
    step, and a process can end before any of them. A call that returns an I/O error
    ends the same way: the only thing left to happen is that its locks drop. Three probes
    take an error for an absent file instead, and each is a step of its own: the read of
    the record, the look for it in `new`, and the look for a staged file in an apply. */
module Staging {
  import opened Optional
  import opened Runs

  type Pid = nat
  /** One call of `StagedFirmware::new` that succeeded. A file is identified by the
      install that wrote it; it is renamed and never copied, so this is also its inode. */
  type Install = nat

  datatype Part = Kernel | Initramfs | Emmc
  datatype DirEntry = Firmware(part: Part) | Tmp | Complete

  const PARTS: seq<Part> := [Kernel, Initramfs, Emmc]

  type Files = map<Part, Install>

  /** What a process that is inside one of the calls does next. */
  datatype Proc =
    // StagedFirmware::new
    | NewLocked
    | NewClearing
    // An install under way, `finish` with `checked` files opened, and `drop`
    | Writing(id: Install)
    | Finishing(id: Install, checked: nat)
    | TmpWritten(id: Install)
    | Dropping
    // read_pending
    | Reading
    | ReadClearing
    // apply_staged
    | ApplyLocked
    | ApplyNothing
    | ApplyRead(record: Install)
    | ApplyEmmcLocked(record: Install)
    | Renaming(record: Install, done: nat)
    | ApplyClearing(record: Install)
    // FirmwarePaths::remove, with discard_staged inside it
    | RemoveLocked
    | DiscardClearing
    | RemovingLive(next: nat)
    // A running QEMU, with the eMMC it opened
    | Qemu(emmc: Install)

  /** One successful return of `apply_staged`, with what was on disk then. */
  datatype Applied = Applied(record: Install, live: Files, settings: Option<Install>)

  /** `.staging/` holds `staged`, `tmp` and `record`; `instance-N/` the rest. */
  datatype Disk = Disk(
    staged: Files,
    tmp: Option<Install>,
    record: Option<Install>,
    live: Files,
    settings: Option<Install>)

  datatype State = State(
    disk: Disk,
    // the flocks on .staging/.lock, on .open, and on each eMMC inode
    stagingLock: Option<Pid>,
    claim: Option<Pid>,
    emmcLocks: map<Install, Pid>,
    procs: map<Pid, Proc>,
    nextInstall: Install,
    applied: seq<Applied>)

  datatype Action =
    | TakeClaim(pid: Pid)
    | NewLock(pid: Pid)
    | NewCheck(pid: Pid)
    | ClearOne(pid: Pid, entry: DirEntry)
    | ClearDone(pid: Pid)
    | WriteFile(pid: Pid, part: Part)
    | FinishCheck(pid: Pid)
    | FinishTmp(pid: Pid)
    | FinishRename(pid: Pid)
    | Drop(pid: Pid)
    | ReadLock(pid: Pid)
    | ReadRecord(pid: Pid)
    | ApplyLock(pid: Pid)
    | ApplyReadRecord(pid: Pid)
    /** The record is there and cannot be read, which is taken for no record. */
    | ReadFails(pid: Pid)
    | NewCheckFails(pid: Pid)
    | ApplySkip(pid: Pid)
    | ApplyLockEmmc(pid: Pid)
    | ApplySettings(pid: Pid)
    | ApplyRename(pid: Pid)
    | RemoveLock(pid: Pid)
    | RemoveDiscard(pid: Pid)
    | RemoveLive(pid: Pid)
    | QemuStart(pid: Pid)
    | End(pid: Pid)

  predicate Provisioned(f: Files) {
    Kernel in f && Initramfs in f && Emmc in f
  }

  predicate AllFrom(f: Files, id: Install) {
    Provisioned(f) && f[Kernel] == id && f[Initramfs] == id && f[Emmc] == id
  }

  predicate InDir(d: Disk, e: DirEntry) {
    match e
    case Firmware(p) => p in d.staged
    case Tmp => d.tmp.Some?
    case Complete => d.record.Some?
  }

  predicate DirEmpty(d: Disk) {
    d.staged == map[] && d.tmp.None? && d.record.None?
  }

  function Delete(d: Disk, e: DirEntry): Disk {
    match e
    case Firmware(p) => d.(staged := d.staged - {p})
    case Tmp => d.(tmp := None)
    case Complete => d.(record := None)
  }

  predicate Clearing(p: Proc) {
    p.NewClearing? || p.Dropping? || p.ReadClearing? || p.ApplyNothing? || p.ApplyClearing? || p.DiscardClearing?
  }

  predicate UsesStaging(p: Proc) {
    !p.RemoveLocked? && !p.RemovingLive? && !p.Qemu?
  }

  function Goto(s: State, pid: Pid, p: Proc): State {
    s.(procs := s.procs[pid := p])
  }

  /** The process leaves the call or dies: every flock it holds drops, but the slot's
      claim only with the process. */
  function Leave(s: State, pid: Pid): State {
    s.(procs := s.procs - {pid},
       stagingLock := if s.stagingLock == Some(pid) then None else s.stagingLock,
       emmcLocks := map f | f in s.emmcLocks && s.emmcLocks[f] != pid :: s.emmcLocks[f])
  }

  /** A non-blocking exclusive flock on the live eMMC: None if another holds it, and
      nothing to hold when the file does not exist. */
  function LockEmmc(s: State, pid: Pid): (t: Option<State>)
    ensures t.Some? ==> t.value == s.(emmcLocks := t.value.emmcLocks)
  {
    if Emmc !in s.disk.live then Some(s)
    else if s.disk.live[Emmc] in s.emmcLocks then None
    else Some(s.(emmcLocks := s.emmcLocks[s.disk.live[Emmc] := pid]))
  }

  /** The last step of `clear`'s caller. */
  function AfterClear(s: State, pid: Pid): State
    requires pid in s.procs
  {
    match s.procs[pid]
    case NewClearing => Goto(s, pid, Writing(s.nextInstall)).(nextInstall := s.nextInstall + 1)
    case ApplyClearing(r) => Leave(s, pid).(applied := s.applied + [Applied(r, s.disk.live, s.disk.settings)])
    case DiscardClearing => Goto(s, pid, RemovingLive(0)).(stagingLock := None)
    case _ => Leave(s, pid)
  }

  /** Whether `pid` is inside a call, at `p`. */
  predicate At(s: State, pid: Pid, p: Proc) {
    pid in s.procs && s.procs[pid] == p
  }

  function DoLock(s: State, pid: Pid, p: Proc): Option<State> {
    if pid !in s.procs && s.stagingLock.None?
    then Some(Goto(s, pid, p).(stagingLock := Some(pid))) else None
  }

  function DoEmmcLock(s: State, pid: Pid, p: Proc): Option<State> {
    if pid !in s.procs && LockEmmc(s, pid).Some?
    then Some(Goto(LockEmmc(s, pid).value, pid, p)) else None
  }

  function DoNewCheck(s: State, pid: Pid): Option<State> {
    if !At(s, pid, NewLocked) then None
    // A record with a file already moved is a swap cut short.
    else Some(if s.disk.record.Some? && !Provisioned(s.disk.staged) then Leave(s, pid) else Goto(s, pid, NewClearing))
  }

  /** A record that cannot be seen does not stop a new install. */
  function DoNewCheckFails(s: State, pid: Pid): Option<State> {
    if At(s, pid, NewLocked) then Some(Goto(s, pid, NewClearing)) else None
  }

  function DoReadFails(s: State, pid: Pid): Option<State> {
    if At(s, pid, Reading) then Some(Goto(s, pid, ReadClearing))
    else if At(s, pid, ApplyLocked) then Some(Goto(s, pid, ApplyNothing))
    else None
  }

  function DoClearOne(s: State, pid: Pid, e: DirEntry): Option<State> {
    if pid in s.procs && Clearing(s.procs[pid]) && InDir(s.disk, e)
    then Some(s.(disk := Delete(s.disk, e))) else None
  }

  function DoClearDone(s: State, pid: Pid): Option<State> {
    if pid in s.procs && Clearing(s.procs[pid]) && DirEmpty(s.disk) then Some(AfterClear(s, pid)) else None
  }

  function DoWriteFile(s: State, pid: Pid, part: Part): Option<State> {
    if pid in s.procs && s.procs[pid].Writing?
    then Some(s.(disk := s.disk.(staged := s.disk.staged[part := s.procs[pid].id]))) else None
  }

  function DoFinishCheck(s: State, pid: Pid): Option<State> {
    if pid !in s.procs then None
    else match s.procs[pid]
      case Writing(id) => Some(Goto(s, pid, Finishing(id, 0)))
      case Finishing(id, n) =>
        if n >= 3 then None
        else Some(Goto(s, pid, if PARTS[n] in s.disk.staged then Finishing(id, n + 1) else Dropping))
      case _ => None
  }

  function DoFinishTmp(s: State, pid: Pid): Option<State> {
    if pid in s.procs && s.procs[pid].Finishing? && s.procs[pid].checked == 3
    then Some(Goto(s, pid, TmpWritten(s.procs[pid].id)).(disk := s.disk.(tmp := Some(s.procs[pid].id)))) else None
  }

  function DoFinishRename(s: State, pid: Pid): Option<State> {
    if pid in s.procs && s.procs[pid].TmpWritten?
    then Some(Leave(s, pid).(disk := s.disk.(record := s.disk.tmp, tmp := None))) else None
  }

  function DoDrop(s: State, pid: Pid): Option<State> {
    if pid in s.procs && (s.procs[pid].Writing? || s.procs[pid].Finishing? || s.procs[pid].TmpWritten?)
    then Some(Goto(s, pid, Dropping)) else None
  }

  function DoReadRecord(s: State, pid: Pid): Option<State> {
    if !At(s, pid, Reading) then None
    else Some(if s.disk.record.Some? then Leave(s, pid) else Goto(s, pid, ReadClearing))
  }

  function DoApplyReadRecord(s: State, pid: Pid): Option<State> {
    if !At(s, pid, ApplyLocked) then None
    else Some(Goto(s, pid, if s.disk.record.Some? then ApplyRead(s.disk.record.value) else ApplyNothing))
  }

  function DoApplyLockEmmc(s: State, pid: Pid): Option<State> {
    if pid in s.procs && s.procs[pid].ApplyRead? then
      match LockEmmc(s, pid)
      case None => Some(Leave(s, pid))
      case Some(t) => Some(Goto(t, pid, ApplyEmmcLocked(s.procs[pid].record)))
    else None
  }

  function DoApplySettings(s: State, pid: Pid): Option<State> {
    if pid in s.procs && s.procs[pid].ApplyEmmcLocked? then
      var r := s.procs[pid].record;
      Some(Goto(s, pid, Renaming(r, 0)).(disk := s.disk.(settings := Some(r))))
    else None
  }

  function DoApplyRename(s: State, pid: Pid): Option<State> {
    if pid !in s.procs || !s.procs[pid].Renaming? then None
    else
      var Renaming(r, n) := s.procs[pid];
      if n >= 3 then Some(Goto(s, pid, ApplyClearing(r)))
      else Some(Goto(s, pid, Renaming(r, n + 1)).(disk := Rename(s.disk, PARTS[n])))
  }

  /** A staged file that cannot be seen is not moved. */
  function DoApplySkip(s: State, pid: Pid): Option<State> {
    if pid in s.procs && s.procs[pid].Renaming? && s.procs[pid].done < 3
    then Some(Goto(s, pid, Renaming(s.procs[pid].record, s.procs[pid].done + 1))) else None
  }

  function DoRemoveDiscard(s: State, pid: Pid): Option<State> {
    if !At(s, pid, RemoveLocked) then None
    // An install still writing, or a reader, holds the lock: the discard is skipped.
    else Some(if s.stagingLock.None? then Goto(s, pid, DiscardClearing).(stagingLock := Some(pid))
              else Goto(s, pid, RemovingLive(0)))
  }

  function DoRemoveLive(s: State, pid: Pid): Option<State> {
    if pid !in s.procs || !s.procs[pid].RemovingLive? then None
    else
      var n := s.procs[pid].next;
      if n >= 3 then Some(Leave(s, pid))
      else Some(Goto(s, pid, RemovingLive(n + 1)).(disk := s.disk.(live := s.disk.live - {PARTS[n]})))
  }

  function DoEnd(s: State, pid: Pid): Option<State> {
    if pid !in s.procs then None
    else
      var t := Leave(s, pid);
      Some(if s.claim == Some(pid) then t.(claim := None) else t)
  }

  function Step(s: State, a: Action): Option<State> {
    match a
    case TakeClaim(pid) => if s.claim.None? then Some(s.(claim := Some(pid))) else None
    case NewLock(pid) => DoLock(s, pid, NewLocked)
    case ReadLock(pid) => DoLock(s, pid, Reading)
    case ApplyLock(pid) => if s.claim == Some(pid) then DoLock(s, pid, ApplyLocked) else None
    case RemoveLock(pid) => DoEmmcLock(s, pid, RemoveLocked)
    case QemuStart(pid) => if Emmc in s.disk.live then DoEmmcLock(s, pid, Qemu(s.disk.live[Emmc])) else None
    case NewCheck(pid) => DoNewCheck(s, pid)
    case ClearOne(pid, e) => DoClearOne(s, pid, e)
    case ClearDone(pid) => DoClearDone(s, pid)
    case WriteFile(pid, part) => DoWriteFile(s, pid, part)
    case FinishCheck(pid) => DoFinishCheck(s, pid)
    case FinishTmp(pid) => DoFinishTmp(s, pid)
    case FinishRename(pid) => DoFinishRename(s, pid)
    case Drop(pid) => DoDrop(s, pid)
    case ReadRecord(pid) => DoReadRecord(s, pid)
    case ApplyReadRecord(pid) => DoApplyReadRecord(s, pid)
    case ReadFails(pid) => DoReadFails(s, pid)
    case NewCheckFails(pid) => DoNewCheckFails(s, pid)
    case ApplySkip(pid) => DoApplySkip(s, pid)
    case ApplyLockEmmc(pid) => DoApplyLockEmmc(s, pid)
    case ApplySettings(pid) => DoApplySettings(s, pid)
    case ApplyRename(pid) => DoApplyRename(s, pid)
    case RemoveDiscard(pid) => DoRemoveDiscard(s, pid)
    case RemoveLive(pid) => DoRemoveLive(s, pid)
    case End(pid) => DoEnd(s, pid)
  }

  /** Move a staged file over the live one; a missing one was moved by an earlier try. */
  function Rename(d: Disk, p: Part): Disk {
    if p in d.staged then d.(staged := d.staged - {p}, live := d.live[p := d.staged[p]]) else d
  }

  ghost predicate Init(s: State) {
    DirEmpty(s.disk) && s.stagingLock.None? && s.claim.None?
    && s.emmcLocks == map[] && s.procs == map[] && s.applied == []
    && (forall p :: p in s.disk.live ==> s.disk.live[p] < s.nextInstall)
  }

  // ----- the steps that can tear an install -----

  /** File `p` of install `r` is waiting in staging, or has been swapped in. */
  predicate Held(staged: Files, live: Files, r: Install, p: Part) {
    if p in staged then staged[p] == r else p in live && live[p] == r
  }

  predicate Whole(d: Disk, r: Install) {
    Held(d.staged, d.live, r, Kernel) && Held(d.staged, d.live, r, Initramfs) && Held(d.staged, d.live, r, Emmc)
  }

  predicate RecordWhole(d: Disk) {
    d.record.Some? ==> Whole(d, d.record.value)
  }

  /** The record counts: it will be read, or is being applied. A holder of the staging lock
      that clears the directory has given it up, but an apply that returns has not. */
  ghost predicate Believed(s: State) {
    match s.stagingLock
    case None => s.disk.record.Some?
    case Some(q) =>
      q in s.procs && (s.procs[q].ApplyClearing? || (s.disk.record.Some? && !Clearing(s.procs[q])))
  }

  /** The three ways to leave a record whose files are not all there: to end inside `clear`
      after it deleted a file and before it deleted the record, to delete a live file that a
      swap has already moved, and to pass over a staged file that cannot be seen. */
  ghost predicate Tears(s: State, a: Action) {
    match a
    case End(pid) => s.stagingLock == Some(pid) && !RecordWhole(s.disk)
    case RemoveLive(pid) =>
      pid in s.procs && s.procs[pid].RemovingLive? && s.procs[pid].next < 3 && Believed(s)
      && var p := PARTS[s.procs[pid].next]; p in s.disk.live && p !in s.disk.staged
    case ApplySkip(pid) =>
      pid in s.procs && s.procs[pid].Renaming? && s.procs[pid].done < 3
      && PARTS[s.procs[pid].done] in s.disk.staged
    case _ => false
  }

  ghost predicate Safe(s: State, a: Action) {
    !Tears(s, a)
  }

  // ----- the invariant -----

  /** Where the process holding the staging lock is, tied to what is on disk. */
  ghost predicate PhaseOk(d: Disk, locks: map<Install, Pid>, pid: Pid, p: Proc) {
    match p
    case Writing(id) => Own(d, id)
    case Finishing(id, n) => Own(d, id) && n <= 3 && forall k :: 0 <= k < n ==> PARTS[k] in d.staged
    case TmpWritten(id) => Own(d, id) && d.tmp == Some(id) && Provisioned(d.staged)
    case Dropping => d.record.None?
    case ReadClearing => true
    case ApplyNothing => true
    case NewClearing => true
    case DiscardClearing => true
    case ApplyRead(r) => d.record == Some(r) && Whole(d, r)
    case ApplyEmmcLocked(r) => d.record == Some(r) && Whole(d, r) && EmmcOurs(d.live, locks, pid)
    case Renaming(r, n) =>
      d.record == Some(r) && Whole(d, r) && d.settings == Some(r) && n <= 3
      && (forall k :: 0 <= k < n ==> PARTS[k] !in d.staged)
      && (n <= 2 ==> EmmcOurs(d.live, locks, pid))
    case ApplyClearing(r) =>
      d.settings == Some(r) && AllFrom(d.live, r) && d.staged == map[]
      && (d.record.Some? ==> d.record == Some(r))
    case _ => RecordWhole(d)
  }

  /** The staging directory holds this install's own files and no record. */
  ghost predicate Own(d: Disk, id: Install) {
    d.record.None? && (d.tmp.Some? ==> d.tmp == Some(id))
    && (forall p :: p in d.staged ==> d.staged[p] == id)
  }

  /** No QEMU has the live eMMC: this process holds its flock, or there is none. */
  ghost predicate EmmcOurs(live: Files, locks: map<Install, Pid>, pid: Pid) {
    Emmc in live ==> live[Emmc] in locks && locks[live[Emmc]] == pid
  }

  /** All three live files and the settings come from the install that wrote the record. */
  ghost predicate Consistent(e: Applied) {
    AllFrom(e.live, e.record) && e.settings == Some(e.record)
  }

  /** Who may use the staging directory. */
  ghost predicate Locks(s: State) {
    && (forall pid :: pid in s.procs && UsesStaging(s.procs[pid]) ==> s.stagingLock == Some(pid))
    && (s.stagingLock.Some? ==> s.stagingLock.value in s.procs && UsesStaging(s.procs[s.stagingLock.value]))
  }

  /** The record that counts has all its files. */
  ghost predicate Kept(s: State) {
    match s.stagingLock
    case None => RecordWhole(s.disk)
    case Some(q) => q in s.procs && PhaseOk(s.disk, s.emmcLocks, q, s.procs[q])
  }

  ghost predicate Inv(s: State) {
    && Locks(s)
    && Kept(s)
    && (s.disk.record.Some? ==> s.disk.tmp.None?)
    && (forall pid :: pid in s.procs && s.procs[pid].Qemu? ==>
          s.procs[pid].emmc in s.emmcLocks && s.emmcLocks[s.procs[pid].emmc] == pid)
    && (forall i :: 0 <= i < |s.applied| ==> Consistent(s.applied[i]))
  }

  lemma PartNames()
    ensures PARTS[0] == Kernel && PARTS[1] == Initramfs && PARTS[2] == Emmc
  {
  }

  /** A process that leaves with the directory whole, or with no record, breaks nothing. */
  lemma LeaveKeepsInv(s: State, pid: Pid)
    requires Inv(s) && pid in s.procs
    requires s.stagingLock == Some(pid) ==> RecordWhole(s.disk)
    ensures Inv(Leave(s, pid))
  {
  }

  lemma LockKeepsInv(s: State, pid: Pid, p: Proc)
    requires Inv(s) && DoLock(s, pid, p).Some? && (p.NewLocked? || p.Reading? || p.ApplyLocked?)
    ensures Inv(DoLock(s, pid, p).value)
  {
  }

  lemma EmmcLockKeepsInv(s: State, pid: Pid, p: Proc)
    requires Inv(s) && DoEmmcLock(s, pid, p).Some?
    requires p.RemoveLocked? || (Emmc in s.disk.live && p == Qemu(s.disk.live[Emmc]))
    ensures Inv(DoEmmcLock(s, pid, p).value)
  {
  }

  lemma NewCheckKeepsInv(s: State, pid: Pid)
    requires Inv(s) && DoNewCheck(s, pid).Some?
    ensures Inv(DoNewCheck(s, pid).value)
  {
    LeaveKeepsInv(s, pid);
  }

  lemma ClearOneKeepsInv(s: State, pid: Pid, e: DirEntry)
    requires Inv(s) && DoClearOne(s, pid, e).Some?
    ensures Inv(DoClearOne(s, pid, e).value)
  {
  }

  lemma ClearDoneKeepsInv(s: State, pid: Pid)
    requires Inv(s) && DoClearDone(s, pid).Some?
    ensures Inv(DoClearDone(s, pid).value)
  {
    LeaveKeepsInv(s, pid);
  }

  lemma WriteFileKeepsInv(s: State, pid: Pid, part: Part)
    requires Inv(s) && DoWriteFile(s, pid, part).Some?
    ensures Inv(DoWriteFile(s, pid, part).value)
  {
  }

  lemma FinishCheckKeepsInv(s: State, pid: Pid)
    requires Inv(s) && DoFinishCheck(s, pid).Some?
    ensures Inv(DoFinishCheck(s, pid).value)
  {
    PartNames();
  }

  lemma FinishTmpKeepsInv(s: State, pid: Pid)
    requires Inv(s) && DoFinishTmp(s, pid).Some?
    ensures Inv(DoFinishTmp(s, pid).value)
  {
    PartNames();
  }

  lemma FinishRenameKeepsInv(s: State, pid: Pid)
    requires Inv(s) && DoFinishRename(s, pid).Some?
    ensures Inv(DoFinishRename(s, pid).value)
  {
  }

  lemma DropKeepsInv(s: State, pid: Pid)
    requires Inv(s) && DoDrop(s, pid).Some?
    ensures Inv(DoDrop(s, pid).value)
  {
  }

  lemma ReadRecordKeepsInv(s: State, pid: Pid)
    requires Inv(s) && DoReadRecord(s, pid).Some?
    ensures Inv(DoReadRecord(s, pid).value)
  {
    LeaveKeepsInv(s, pid);
  }

  lemma ApplyReadRecordKeepsInv(s: State, pid: Pid)
    requires Inv(s) && DoApplyReadRecord(s, pid).Some?
    ensures Inv(DoApplyReadRecord(s, pid).value)
  {
  }

  lemma ApplyLockEmmcKeepsInv(s: State, pid: Pid)
    requires Inv(s) && DoApplyLockEmmc(s, pid).Some?
    ensures Inv(DoApplyLockEmmc(s, pid).value)
  {
    LeaveKeepsInv(s, pid);
  }

  lemma ApplySettingsKeepsInv(s: State, pid: Pid)
    requires Inv(s) && DoApplySettings(s, pid).Some?
    ensures Inv(DoApplySettings(s, pid).value)
  {
  }

  lemma RenameKeepsWhole(d: Disk, r: Install, p: Part)
    requires Whole(d, r)
    ensures Whole(Rename(d, p), r) && p !in Rename(d, p).staged
  {
  }

  lemma RenamedAll(d: Disk, r: Install)
    requires Whole(d, r) && forall k :: 0 <= k < 3 ==> PARTS[k] !in d.staged
    ensures d.staged == map[] && AllFrom(d.live, r)
  {
    PartNames();
    assert PARTS[0] !in d.staged && PARTS[1] !in d.staged && PARTS[2] !in d.staged;
    forall p: Part ensures p !in d.staged {
      match p case Kernel => case Initramfs => case Emmc =>
    }
  }

  lemma RenameKeepsPhase(d: Disk, locks: map<Install, Pid>, pid: Pid, r: Install, n: nat)
    requires n < 3 && PhaseOk(d, locks, pid, Renaming(r, n))
    ensures PhaseOk(Rename(d, PARTS[n]), locks, pid, Renaming(r, n + 1))
  {
    PartNames();
    RenameKeepsWhole(d, r, PARTS[n]);
  }

  lemma ApplyRenameKeepsInv(s: State, pid: Pid)
    requires Inv(s) && DoApplyRename(s, pid).Some?
    ensures Inv(DoApplyRename(s, pid).value)
  {
    var Renaming(r, n) := s.procs[pid];
    if n >= 3 {
      RenamedAll(s.disk, r);
    } else {
      RenameKeepsPhase(s.disk, s.emmcLocks, pid, r, n);
    }
  }

  lemma RemoveDiscardKeepsInv(s: State, pid: Pid)
    requires Inv(s) && DoRemoveDiscard(s, pid).Some?
    ensures Inv(DoRemoveDiscard(s, pid).value)
  {
  }

  /** Deleting a live file keeps a phase exactly when the phase has no record to keep, or the
      file is still staged, or it was not there. */
  lemma DeleteLiveKeepsPhase(d: Disk, locks: map<Install, Pid>, pid: Pid, p: Proc, part: Part)
    requires PhaseOk(d, locks, pid, p) && UsesStaging(p)
    ensures PhaseOk(d.(live := d.live - {part}), locks, pid, p) <==>
            !(p.ApplyClearing? || (d.record.Some? && !Clearing(p))) || part in d.staged || part !in d.live
  {
    assert part == Kernel || part == Initramfs || part == Emmc;
    if part !in d.live {
      assert d.live - {part} == d.live;
    }
  }

  lemma DeleteLiveKeepsRecord(d: Disk, part: Part)
    requires RecordWhole(d)
    ensures RecordWhole(d.(live := d.live - {part})) <==> d.record.None? || part in d.staged || part !in d.live
  {
    assert part == Kernel || part == Initramfs || part == Emmc;
  }

  lemma RemoveLiveKeepsInv(s: State, pid: Pid)
    requires Inv(s) && DoRemoveLive(s, pid).Some?
    ensures Inv(DoRemoveLive(s, pid).value) <==> Safe(s, RemoveLive(pid))
  {
    hide RecordWhole, PhaseOk, Consistent;
    LeaveKeepsInv(s, pid);
    var n := s.procs[pid].next;
    if n < 3 {
      var t := DoRemoveLive(s, pid).value;
      assert t.disk == s.disk.(live := s.disk.live - {PARTS[n]});
      match s.stagingLock
      case None =>
        DeleteLiveKeepsRecord(s.disk, PARTS[n]);
      case Some(q) =>
        assert q != pid;
        DeleteLiveKeepsPhase(s.disk, s.emmcLocks, q, s.procs[q], PARTS[n]);
    }
  }

  lemma EndKeepsInv(s: State, pid: Pid)
    requires Inv(s) && DoEnd(s, pid).Some?
    ensures Inv(DoEnd(s, pid).value) <==> Safe(s, End(pid))
  {
    if Safe(s, End(pid)) {
      LeaveKeepsInv(s, pid);
    }
  }

  lemma ApplySkipKeepsInv(s: State, pid: Pid)
    requires Inv(s) && DoApplySkip(s, pid).Some?
    ensures Inv(DoApplySkip(s, pid).value) <==> Safe(s, ApplySkip(pid))
  {
    hide Whole, EmmcOurs, Consistent;
    PartNames();
  }

  /** A failed probe gives the record up; only an end before it is deleted can tear it. */
  lemma ReadFailsKeepsInv(s: State, pid: Pid)
    requires Inv(s) && DoReadFails(s, pid).Some?
    ensures Inv(DoReadFails(s, pid).value)
  {
  }

  lemma NewCheckFailsKeepsInv(s: State, pid: Pid)
    requires Inv(s) && DoNewCheckFails(s, pid).Some?
    ensures Inv(DoNewCheckFails(s, pid).value)
  {
  }

  /** A step breaks the invariant exactly when it tears. */
  lemma StepKeepsInv(s: State, a: Action)
    requires Inv(s) && Step(s, a).Some?
    ensures Inv(Step(s, a).value) <==> Safe(s, a)
  {
    if a.End? {
      EndKeepsInv(s, a.pid);
    } else if a.RemoveLive? {
      RemoveLiveKeepsInv(s, a.pid);
    } else if a.ApplySkip? {
      ApplySkipKeepsInv(s, a.pid);
    } else {
      OtherKeepsInv(s, a);
    }
  }

  lemma OtherKeepsInv(s: State, a: Action)
    requires Inv(s) && Step(s, a).Some? && !a.End? && !a.RemoveLive? && !a.ApplySkip?
    ensures Inv(Step(s, a).value)
  {
    hide Inv, Step;
    if a.ClearOne? || a.ClearDone? || a.WriteFile? || a.FinishCheck? || a.FinishTmp? || a.FinishRename? || a.Drop? {
      InstallKeepsInv(s, a);
    } else {
      CallKeepsInv(s, a);
    }
  }

  lemma InstallKeepsInv(s: State, a: Action)
    requires Inv(s) && Step(s, a).Some?
    requires a.ClearOne? || a.ClearDone? || a.WriteFile? || a.FinishCheck? || a.FinishTmp? || a.FinishRename? || a.Drop?
    ensures Inv(Step(s, a).value)
  {
    hide Inv, DoClearOne, DoClearDone, DoWriteFile, DoFinishCheck, DoFinishTmp, DoFinishRename, DoDrop;
    match a
    case ClearOne(pid, e) => ClearOneKeepsInv(s, pid, e);
    case ClearDone(pid) => ClearDoneKeepsInv(s, pid);
    case WriteFile(pid, part) => WriteFileKeepsInv(s, pid, part);
    case FinishCheck(pid) => FinishCheckKeepsInv(s, pid);
    case FinishTmp(pid) => FinishTmpKeepsInv(s, pid);
    case FinishRename(pid) => FinishRenameKeepsInv(s, pid);
    case Drop(pid) => DropKeepsInv(s, pid);
  }

  lemma CallKeepsInv(s: State, a: Action)
    requires Inv(s) && Step(s, a).Some? && !a.End? && !a.RemoveLive? && !a.ApplySkip? && !a.ClearOne? && !a.ClearDone?
    requires !a.WriteFile? && !a.FinishCheck? && !a.FinishTmp? && !a.FinishRename? && !a.Drop?
    ensures Inv(Step(s, a).value)
  {
    hide Inv, DoLock, DoEmmcLock, DoNewCheck, DoNewCheckFails, DoReadFails, DoReadRecord, DoApplyReadRecord,
         DoApplyLockEmmc, DoApplySettings, DoApplyRename, DoRemoveDiscard;
    match a
    case TakeClaim(pid) => TakeClaimKeepsInv(s, pid);
    case NewLock(pid) => LockKeepsInv(s, pid, NewLocked);
    case ReadLock(pid) => LockKeepsInv(s, pid, Reading);
    case ApplyLock(pid) => LockKeepsInv(s, pid, ApplyLocked);
    case RemoveLock(pid) => EmmcLockKeepsInv(s, pid, RemoveLocked);
    case QemuStart(pid) => EmmcLockKeepsInv(s, pid, Qemu(s.disk.live[Emmc]));
    case NewCheck(pid) => NewCheckKeepsInv(s, pid);
    case NewCheckFails(pid) => NewCheckFailsKeepsInv(s, pid);
    case ReadFails(pid) => ReadFailsKeepsInv(s, pid);
    case ReadRecord(pid) => ReadRecordKeepsInv(s, pid);
    case ApplyReadRecord(pid) => ApplyReadRecordKeepsInv(s, pid);
    case ApplyLockEmmc(pid) => ApplyLockEmmcKeepsInv(s, pid);
    case ApplySettings(pid) => ApplySettingsKeepsInv(s, pid);
    case ApplyRename(pid) => ApplyRenameKeepsInv(s, pid);
    case RemoveDiscard(pid) => RemoveDiscardKeepsInv(s, pid);
  }

  lemma TakeClaimKeepsInv(s: State, pid: Pid)
    requires Inv(s)
    ensures Inv(s.(claim := Some(pid)))
  {
  }

  // ----- main results -----

  /** In every run without a tearing step, each record `apply_staged` returned came with
      all three live files and the settings of that one install. */
  lemma EveryApplyIsOneInstall(s: State, acts: seq<Action>)
    requires Init(s) && Guarded(Step, Safe, s, acts) && Exec(Step, s, acts).Some?
    ensures var t := Exec(Step, s, acts).value;
            Inv(t) && forall e :: e in t.applied ==> Consistent(e)
  {
    forall t, a | Inv(t) && Safe(t, a) && Step(t, a).Some? ensures Inv(Step(t, a).value) {
      StepKeepsInv(t, a);
    }
    RunKeeps(Step, Safe, Inv, s, acts);
  }

  /** Only the renames of an apply and the deletes of a removal touch the live files,
      so nothing an install, a drop, a reader or a death does is seen by the slot. */
  lemma {:induction false} LiveFilesStayUntilApply(s: State, acts: seq<Action>)
    requires forall a :: a in acts ==> !a.ApplyRename? && !a.RemoveLive?
    requires Exec(Step, s, acts).Some?
    ensures Exec(Step, s, acts).value.disk.live == s.disk.live
  {
    hide Step;
    if acts != [] {
      var front := acts[..|acts| - 1];
      LiveFilesStayUntilApply(s, front);
      assert acts[|acts| - 1] in acts;
      StepKeepsLive(Exec(Step, s, front).value, acts[|acts| - 1]);
    }
  }

  lemma StepKeepsLive(s: State, a: Action)
    requires !a.ApplyRename? && !a.RemoveLive? && Step(s, a).Some?
    ensures Step(s, a).value.disk.live == s.disk.live
  {
    hide LockEmmc, Provisioned, InDir, DirEmpty, Rename;
  }

  /** No rename of an apply, in any run, replaces an eMMC that a running QEMU has open. */
  lemma ApplyNeverReplacesARunningEmmc(s: State, acts: seq<Action>, t: State, pid: Pid, q: Pid)
    requires Init(s) && Guarded(Step, Safe, s, acts) && Exec(Step, s, acts) == Some(t)
    requires DoApplyRename(t, pid).Some? && q in t.procs && t.procs[q].Qemu?
    ensures var u := DoApplyRename(t, pid).value;
            Emmc in t.disk.live && t.disk.live[Emmc] == t.procs[q].emmc ==>
              Emmc in u.disk.live && u.disk.live[Emmc] == t.procs[q].emmc
  {
    hide Init, Safe, Step, Exec, Guarded;
    EveryApplyIsOneInstall(s, acts);
    PartNames();
  }
}
