/** What the staged install promises beyond its invariant: when an apply returns the right
    files, when a swap cut short is finished, when the settings are backed by files, and the
    runs in which each of these fails. */
module StagingLaws {
  import opened Optional
  import opened Runs
  import opened Staging

  // ----- exactly when an apply is right -----

  /** The disk after an apply's first `n` renames. */
  function Renamed(d: Disk, n: nat): Disk
    requires n <= 3
  {
    if n == 0 then d else Rename(Renamed(d, n - 1), PARTS[n - 1])
  }

  lemma NotRenamed(d: Disk)
    ensures Renamed(d, 0) == d
  {
  }

  lemma RenamedAgain(d: Disk, n: nat)
    requires n < 3
    ensures Renamed(d, n + 1) == Rename(Renamed(d, n), PARTS[n])
  {
  }

  lemma RenameThrice(d: Disk, r: Install)
    ensures Renamed(d, 3).staged == map[]
    ensures Renamed(d, 3).tmp == d.tmp && Renamed(d, 3).record == d.record && Renamed(d, 3).settings == d.settings
    ensures AllFrom(Renamed(d, 3).live, r) <==> Whole(d, r)
  {
    PartNames();
    var one, two := Rename(d, Kernel), Rename(Rename(d, Kernel), Initramfs);
    assert Renamed(d, 0) == d;
    assert Renamed(d, 1) == one && Renamed(d, 2) == two;
    var e := Rename(two, Emmc);
    assert Renamed(d, 3) == e;
    forall p: Part ensures p !in e.staged {
      match p case Kernel => case Initramfs => case Emmc =>
    }
  }

  /** Process `q` keeps the staging lock, so it is inside one and the same apply; nothing else
      deletes a live file, and no staged file is passed over. */
  ghost predicate WhileHeld(t: State, a: Action, q: Pid) {
    t.stagingLock == Some(q) && !a.RemoveLive? && !a.ApplySkip?
  }

  /** Where `q`'s apply of `r`, which read the record with `d` on disk, has got to. */
  ghost predicate Swapping(d: Disk, r: Install, t: Disk, p: Proc) {
    match p
    case ApplyRead(x) => x == r && t.staged == d.staged && t.live == d.live
    case ApplyEmmcLocked(x) => x == r && t.staged == d.staged && t.live == d.live
    case Renaming(x, n) =>
      x == r && n <= 3 && t.settings == Some(r) && t.staged == Renamed(d, n).staged && t.live == Renamed(d, n).live
    case ApplyClearing(x) => x == r && t.settings == Some(r) && t.live == Renamed(d, 3).live
    case _ => false
  }

  /** `q`'s apply is under way, or has ended with or without its return. */
  ghost predicate SwapAfter(d: Disk, r: Install, before: seq<Applied>, q: Pid, t: State) {
    if t.stagingLock == Some(q) then t.applied == before && q in t.procs && Swapping(d, r, t.disk, t.procs[q])
    else t.applied == before || t.applied == before + [Applied(r, Renamed(d, 3).live, Some(r))]
  }

  ghost predicate Swap(d: Disk, r: Install, before: seq<Applied>, q: Pid, t: State) {
    Locks(t) && SwapAfter(d, r, before, q, t)
  }

  predicate InstallStep(a: Action) {
    || a.ClearOne? || a.ClearDone? || a.WriteFile? || a.FinishCheck? || a.FinishTmp? || a.FinishRename?
    || a.Drop? || a.End?
  }

  predicate ApplyStep(a: Action) {
    a.ApplyReadRecord? || a.ReadFails? || a.ApplyLockEmmc? || a.ApplySettings? || a.ApplyRename? || a.ApplySkip?
  }

  /** The staging directory has one user at a time, whatever happens. */
  lemma StepKeepsLocks(s: State, a: Action)
    requires Locks(s) && Step(s, a).Some?
    ensures Locks(Step(s, a).value)
  {
    hide Step, Locks;
    if InstallStep(a) {
      InstallKeepsLocks(s, a);
    } else if ApplyStep(a) {
      ApplyKeepsLocks(s, a);
    } else if EntryStep(a) {
      EntryKeepsLocks(s, a);
    } else {
      CallsKeepLocks(s, a);
    }
  }

  lemma InstallKeepsLocks(s: State, a: Action)
    requires Locks(s) && Step(s, a).Some? && InstallStep(a)
    ensures Locks(Step(s, a).value)
  {
    hide Delete, DirEmpty, InDir, DoLock, DoEmmcLock, DoNewCheck, DoNewCheckFails, DoReadFails, DoReadRecord,
         DoApplyReadRecord, DoApplyLockEmmc, DoApplySettings, DoApplyRename, DoApplySkip, DoRemoveDiscard, DoRemoveLive;
  }

  lemma ApplyKeepsLocks(s: State, a: Action)
    requires Locks(s) && Step(s, a).Some? && ApplyStep(a)
    ensures Locks(Step(s, a).value)
  {
    hide LockEmmc, Rename, DoClearOne, DoClearDone, DoWriteFile, DoFinishCheck, DoFinishTmp, DoFinishRename,
         DoDrop, DoEnd, DoLock, DoEmmcLock, DoNewCheck, DoNewCheckFails, DoReadRecord, DoRemoveDiscard, DoRemoveLive;
  }

  predicate EntryStep(a: Action) {
    a.TakeClaim? || a.NewLock? || a.ReadLock? || a.ApplyLock? || a.RemoveLock? || a.QemuStart?
  }

  lemma EntryKeepsLocks(s: State, a: Action)
    requires Locks(s) && Step(s, a).Some? && EntryStep(a)
    ensures Locks(Step(s, a).value)
  {
    hide LockEmmc, Provisioned, DoClearOne, DoClearDone, DoWriteFile, DoFinishCheck, DoFinishTmp, DoFinishRename,
         DoDrop, DoEnd, DoReadFails, DoApplyReadRecord, DoApplyLockEmmc, DoApplySettings, DoApplyRename, DoApplySkip,
         DoNewCheck, DoNewCheckFails, DoReadRecord, DoRemoveDiscard, DoRemoveLive;
  }

  lemma CallsKeepLocks(s: State, a: Action)
    requires Locks(s) && Step(s, a).Some? && !InstallStep(a) && !ApplyStep(a) && !EntryStep(a)
    ensures Locks(Step(s, a).value)
  {
    hide LockEmmc, Provisioned, DoClearOne, DoClearDone, DoWriteFile, DoFinishCheck, DoFinishTmp, DoFinishRename,
         DoDrop, DoEnd, DoReadFails, DoApplyReadRecord, DoApplyLockEmmc, DoApplySettings, DoApplyRename, DoApplySkip,
         DoLock, DoEmmcLock;
  }

  lemma OthersKeepSwap(d: Disk, r: Install, before: seq<Applied>, q: Pid, s: State, a: Action)
    requires Swap(d, r, before, q, s) && WhileHeld(s, a, q) && a.pid != q && Step(s, a).Some?
    ensures Step(s, a).value.disk == s.disk && Step(s, a).value.applied == s.applied
    ensures Step(s, a).value.stagingLock == Some(q)
    ensures q in Step(s, a).value.procs && Step(s, a).value.procs[q] == s.procs[q]
  {
    hide LockEmmc, Rename, Delete, DirEmpty, InDir, Provisioned, Swapping;
  }

  lemma RenameIsRenamed(d: Disk, e: Disk, n: nat)
    requires n < 3 && e.staged == Renamed(d, n).staged && e.live == Renamed(d, n).live
    ensures Rename(e, PARTS[n]).staged == Renamed(d, n + 1).staged && Rename(e, PARTS[n]).live == Renamed(d, n + 1).live
    ensures Rename(e, PARTS[n]).settings == e.settings
  {
    RenamedAgain(d, n);
  }

  /** What a process inside an apply that has read the record can do. */
  lemma OnlyApplySteps(s: State, a: Action)
    requires Step(s, a).Some? && a.pid in s.procs
    requires var p := s.procs[a.pid]; p.ApplyRead? || p.ApplyEmmcLocked? || p.Renaming? || p.ApplyClearing?
    ensures || a.ApplyLockEmmc? || a.ApplySettings? || a.ApplyRename? || a.ApplySkip? || a.ClearOne? || a.ClearDone?
            || a.End? || a.TakeClaim?
  {
    hide Rename, DirEmpty, InDir, Provisioned, LockEmmc;
  }

  lemma ClearKeepsSwap(d: Disk, r: Install, before: seq<Applied>, q: Pid, s: State, a: Action)
    requires Swap(d, r, before, q, s) && WhileHeld(s, a, q) && a.pid == q && Step(s, a).Some?
    requires a.ClearOne? || a.ClearDone? || a.End? || a.TakeClaim?
    ensures SwapAfter(d, r, before, q, Step(s, a).value)
  {
    hide Rename, Renamed, DirEmpty, InDir, Provisioned, DoLock, DoEmmcLock, DoNewCheck, DoNewCheckFails, DoReadFails,
         DoWriteFile, DoFinishCheck, DoFinishTmp, DoFinishRename, DoDrop, DoReadRecord, DoApplyReadRecord,
         DoApplyLockEmmc, DoApplySettings, DoApplyRename, DoApplySkip, DoRemoveDiscard, DoRemoveLive;
  }

  lemma MoveKeepsSwap(d: Disk, r: Install, before: seq<Applied>, q: Pid, s: State, a: Action)
    requires Swap(d, r, before, q, s) && WhileHeld(s, a, q) && a.pid == q && Step(s, a).Some?
    requires a.ApplyLockEmmc? || a.ApplySettings? || a.ApplyRename?
    ensures SwapAfter(d, r, before, q, Step(s, a).value)
  {
    hide Rename, Renamed, DirEmpty, InDir, Provisioned, DoLock, DoEmmcLock, DoNewCheck, DoNewCheckFails, DoReadFails,
         DoWriteFile, DoFinishCheck, DoFinishTmp, DoFinishRename, DoDrop, DoReadRecord, DoApplyReadRecord, DoApplySkip,
         DoRemoveDiscard, DoRemoveLive, DoClearOne, DoClearDone, DoEnd, LockEmmc;
    NotRenamed(d);
    var p := s.procs[q];
    if p.Renaming? && p.done < 3 {
      RenameIsRenamed(d, s.disk, p.done);
    }
  }

  lemma StepKeepsSwap(d: Disk, r: Install, before: seq<Applied>, q: Pid, s: State, a: Action)
    requires Swap(d, r, before, q, s) && WhileHeld(s, a, q) && Step(s, a).Some?
    ensures Swap(d, r, before, q, Step(s, a).value)
  {
    hide Step, Locks, Renamed;
    StepKeepsLocks(s, a);
    if a.pid == q {
      OnlyApplySteps(s, a);
      if a.ApplyLockEmmc? || a.ApplySettings? || a.ApplyRename? {
        MoveKeepsSwap(d, r, before, q, s, a);
      } else {
        ClearKeepsSwap(d, r, before, q, s, a);
      }
    } else {
      OthersKeepSwap(d, r, before, q, s, a);
    }
  }

  /** Every apply that returns a record, in every run: what it returns is of one install if and
      only if every file of the record was staged or already live when it read the record.
      `q` has just read record `r`, and keeps the staging lock until it returns. */
  lemma ApplyIsRightIffWhole(s: State, q: Pid, r: Install, acts: seq<Action>, t: State)
    requires Locks(s) && s.stagingLock == Some(q) && At(s, q, ApplyRead(r))
    requires Guarded(Step, (u: State, a: Action) => WhileHeld(u, a, q), s, acts)
    requires Exec(Step, s, acts) == Some(t) && |t.applied| > |s.applied|
    ensures |t.applied| == |s.applied| + 1 && t.applied[..|s.applied|] == s.applied
    ensures var e := t.applied[|s.applied|]; e.record == r && (Consistent(e) <==> Whole(s.disk, r))
  {
    hide Step, Locks, Renamed;
    var d, before := s.disk, s.applied;
    forall u, a | Swap(d, r, before, q, u) && WhileHeld(u, a, q) && Step(u, a).Some?
      ensures Swap(d, r, before, q, Step(u, a).value)
    {
      StepKeepsSwap(d, r, before, q, u, a);
    }
    RunKeeps(Step, (u: State, a: Action) => WhileHeld(u, a, q), u => Swap(d, r, before, q, u), s, acts);
    RenameThrice(d, r);
  }

  // ----- giving a record up -----

  /** Processes that clear the directory without having applied what it holds. */
  predicate Discards(p: Proc) {
    p.NewClearing? || p.DiscardClearing? || p.ReadClearing? || p.ApplyNothing?
  }

  ghost predicate Discarding(s: State) {
    s.stagingLock.Some? && s.stagingLock.value in s.procs && Discards(s.procs[s.stagingLock.value])
  }

  /** A step that decides to clear a directory with a record in it: a new install over a finished
      one, a removal that gets the staging lock, or a probe that does not see the record. */
  ghost predicate GivesUp(s: State, a: Action) {
    s.disk.record.Some? &&
    match a
    case NewCheck(pid) => At(s, pid, NewLocked) && Provisioned(s.disk.staged)
    case NewCheckFails(pid) => At(s, pid, NewLocked)
    case ReadFails(pid) => At(s, pid, Reading) || At(s, pid, ApplyLocked)
    case RemoveDiscard(pid) => At(s, pid, RemoveLocked) && s.stagingLock.None?
    case _ => false
  }

  /** These are all the steps after which a record is being cleared that was not before. */
  lemma GivesUpIff(s: State, a: Action)
    requires Locks(s) && Step(s, a).Some?
    ensures var t := Step(s, a).value;
            !Discarding(s) && s.disk.record.Some? ==> (Discarding(t) <==> GivesUp(s, a))
  {
    hide Step, Locks, Discarding, GivesUp;
    if Discarding(s) || s.disk.record.None? {
    } else if InstallStep(a) {
      InstallGivesUpNothing(s, a);
    } else {
      CallGivesUpIff(s, a);
    }
  }

  lemma InstallGivesUpNothing(s: State, a: Action)
    requires Locks(s) && Step(s, a).Some? && InstallStep(a) && !Discarding(s) && s.disk.record.Some?
    ensures !Discarding(Step(s, a).value) && !GivesUp(s, a)
  {
    hide Delete, DirEmpty, InDir, DoLock, DoEmmcLock, DoNewCheck, DoNewCheckFails, DoReadFails, DoReadRecord,
         DoApplyReadRecord, DoApplyLockEmmc, DoApplySettings, DoApplyRename, DoApplySkip, DoRemoveDiscard, DoRemoveLive;
  }

  lemma CallGivesUpIff(s: State, a: Action)
    requires Locks(s) && Step(s, a).Some? && !InstallStep(a) && !Discarding(s) && s.disk.record.Some?
    ensures Discarding(Step(s, a).value) <==> GivesUp(s, a)
  {
    hide LockEmmc, Rename, Delete, InDir, DoClearOne, DoClearDone, DoWriteFile, DoFinishCheck, DoFinishTmp,
         DoFinishRename, DoDrop, DoEnd;
  }

  /** A failed read of the record does what a good one would if and only if there is no record; with
      one, it gives a finished or half-swapped install up. */
  lemma FailedReadIsHarmlessIff(s: State, pid: Pid)
    requires DoReadFails(s, pid).Some?
    ensures DoReadFails(s, pid) == (if At(s, pid, Reading) then DoReadRecord(s, pid) else DoApplyReadRecord(s, pid))
            <==> s.disk.record.None?
    ensures s.disk.record.Some? <==> GivesUp(s, ReadFails(pid))
  {
    var failed := DoReadFails(s, pid).value.procs;
    if s.disk.record.Some? {
      if At(s, pid, Reading) {
        assert pid in failed && pid !in DoReadRecord(s, pid).value.procs;
      } else {
        assert failed[pid] == ApplyNothing && DoApplyReadRecord(s, pid).value.procs[pid].ApplyRead?;
      }
    }
  }

  // ----- a swap cut short -----

  /** A swap that has begun: its record is there, and some of its files are live. */
  ghost predicate HalfSwapped(s: State, r: Install) {
    && s.disk.record == Some(r) && Whole(s.disk, r) && !Provisioned(s.disk.staged) && s.disk.settings == Some(r)
    && !Discarding(s)
  }

  ghost predicate SwappedIn(s: State, r: Install) {
    AllFrom(s.disk.live, r) && s.disk.settings == Some(r)
  }

  ghost predicate Undisturbed(s: State, a: Action) {
    Safe(s, a) && !GivesUp(s, a)
  }

  /** The first rename of an apply begins the swap. */
  lemma FirstRenameBeginsTheSwap(s: State, pid: Pid, r: Install)
    requires Inv(s) && At(s, pid, Renaming(r, 0))
    ensures HalfSwapped(DoApplyRename(s, pid).value, r)
  {
    PartNames();
    RenameKeepsWhole(s.disk, r, Kernel);
  }

  predicate TouchesDisk(a: Action) {
    || a.ClearOne? || a.WriteFile? || a.FinishTmp? || a.FinishRename? || a.ApplySettings? || a.ApplyRename?
    || a.RemoveLive?
  }

  lemma OtherStepsKeepDisk(s: State, a: Action)
    requires !TouchesDisk(a) && Step(s, a).Some?
    ensures Step(s, a).value.disk == s.disk
  {
    hide LockEmmc, Provisioned;
  }

  lemma HalfSwapDiskStep(s: State, a: Action, r: Install)
    requires Inv(s) && HalfSwapped(s, r) && Undisturbed(s, a) && TouchesDisk(a) && Step(s, a).Some?
    ensures var d := Step(s, a).value.disk;
            (d.record == Some(r) && Whole(d, r) && !Provisioned(d.staged) && d.settings == Some(r))
            || SwappedIn(Step(s, a).value, r)
  {
    PartNames();
    if a.ApplyRename? && s.procs[a.pid].done < 3 {
      RenameKeepsWhole(s.disk, r, PARTS[s.procs[a.pid].done]);
    }
  }

  lemma HalfSwapStep(s: State, a: Action, r: Install)
    requires Inv(s) && HalfSwapped(s, r) && Undisturbed(s, a) && Step(s, a).Some?
    ensures HalfSwapped(Step(s, a).value, r) || SwappedIn(Step(s, a).value, r)
  {
    hide Step, Discarding, GivesUp, Kept;
    GivesUpIff(s, a);
    if TouchesDisk(a) {
      HalfSwapDiskStep(s, a, r);
    } else {
      OtherStepsKeepDisk(s, a);
    }
  }

  /** From its first rename on, a swap cut short is completed and never replaced by an install:
      along every run up to the point where the swap is complete, its record and files stay,
      unless a removal or a failed probe gives the record up. */
  lemma HalfSwapIsFinishedNotReplaced(s: State, acts: seq<Action>, r: Install)
    requires Inv(s) && HalfSwapped(s, r) && Exec(Step, s, acts).Some?
    requires Guarded(Step, (t: State, a: Action) => Undisturbed(t, a) && !SwappedIn(t, r), s, acts)
    ensures var t := Exec(Step, s, acts).value; Inv(t) && (HalfSwapped(t, r) || SwappedIn(t, r))
  {
    hide Step, Inv, HalfSwapped, SwappedIn, Safe, GivesUp;
    forall t, a | Inv(t) && (HalfSwapped(t, r) || SwappedIn(t, r)) && Undisturbed(t, a) && !SwappedIn(t, r)
                  && Step(t, a).Some?
      ensures var u := Step(t, a).value; Inv(u) && (HalfSwapped(u, r) || SwappedIn(u, r))
    {
      StepKeepsInv(t, a);
      HalfSwapStep(t, a, r);
    }
    RunKeeps(Step, (t: State, a: Action) => Undisturbed(t, a) && !SwappedIn(t, r),
             t => Inv(t) && (HalfSwapped(t, r) || SwappedIn(t, r)), s, acts);
  }

  /** A new install that finds a half-done swap turns back: its process leaves, the staging lock is
      free again, the disk is as it was, nobody clears the directory and the swap is still there. */
  lemma InstallsNeverGiveUpAHalfSwap(s: State, r: Install, pid: Pid)
    requires Locks(s) && HalfSwapped(s, r) && DoNewCheck(s, pid).Some?
    ensures var t := DoNewCheck(s, pid).value;
            && pid !in t.procs && t.stagingLock.None? && t.disk == s.disk && HalfSwapped(t, r)
            && forall q :: q in t.procs ==> !Clearing(t.procs[q]) && t.procs[q] == s.procs[q]
  {
    hide Whole;
  }

  // ----- when the settings have their files -----

  /** The install the settings name is live, or is waiting or half swapped in under its record. */
  ghost predicate Backed(d: Disk) {
    d.settings.Some? ==>
      AllFrom(d.live, d.settings.value) || (d.record == d.settings && Whole(d, d.settings.value))
  }

  /** And nobody is about to delete what the settings still need. */
  ghost predicate BackedFor(s: State) {
    Backed(s.disk) && (Discarding(s) && s.disk.settings.Some? ==> AllFrom(s.disk.live, s.disk.settings.value))
  }

  /** A record that the settings name, and whose files are not yet all live. */
  ghost predicate Needed(d: Disk) {
    d.record.Some? && d.settings == d.record && !AllFrom(d.live, d.record.value)
  }

  /** The two ways for settings to lose their files: a record they need is given up, or a removal
      deletes a live file that is not also waiting under a record they name. */
  ghost predicate Unbacks(s: State, a: Action) {
    || (GivesUp(s, a) && Needed(s.disk))
    || (a.RemoveLive? && a.pid in s.procs && s.procs[a.pid].RemovingLive? && s.procs[a.pid].next < 3
        && var p := PARTS[s.procs[a.pid].next];
           s.disk.settings.Some? && p in s.disk.live
           && !(s.disk.record == s.disk.settings && p in s.disk.staged && !Discarding(s)))
  }

  lemma DeleteLiveBacks(s: State, pid: Pid)
    requires Inv(s) && BackedFor(s) && DoRemoveLive(s, pid).Some? && Safe(s, RemoveLive(pid))
    ensures BackedFor(DoRemoveLive(s, pid).value) <==> !Unbacks(s, RemoveLive(pid))
  {
    hide Consistent, EmmcOurs;
    PartNames();
    var n := s.procs[pid].next;
    var t := DoRemoveLive(s, pid).value;
    if n < 3 && PARTS[n] !in s.disk.live {
      assert s.disk.live - {PARTS[n]} == s.disk.live;
    }
  }

  lemma GiveUpBacks(s: State, a: Action)
    requires Inv(s) && BackedFor(s) && GivesUp(s, a) && Step(s, a).Some?
    ensures Step(s, a).value.disk == s.disk && Discarding(Step(s, a).value)
    ensures BackedFor(Step(s, a).value) <==> !Unbacks(s, a)
  {
    hide PhaseOk, LockEmmc, Whole;
  }

  /** A clear that deletes no record the settings need. */
  lemma ClearBacks(s: State, pid: Pid, e: DirEntry)
    requires Inv(s) && BackedFor(s) && DoClearOne(s, pid, e).Some?
    ensures BackedFor(DoClearOne(s, pid, e).value)
  {
    hide Whole;
  }

  /** An install writes only while there is no record. */
  lemma InstallBacks(s: State, a: Action)
    requires Inv(s) && BackedFor(s) && Step(s, a).Some? && (a.WriteFile? || a.FinishTmp? || a.FinishRename?)
    ensures BackedFor(Step(s, a).value)
  {
    hide Whole, AllFrom, DoLock, DoEmmcLock, DoNewCheck, DoNewCheckFails, DoReadFails, DoClearOne, DoClearDone,
         DoFinishCheck, DoDrop, DoReadRecord, DoApplyReadRecord, DoApplyLockEmmc, DoApplySettings, DoApplyRename,
         DoApplySkip, DoRemoveDiscard, DoRemoveLive, DoEnd, Consistent;
  }

  lemma ApplySettingsBacks(s: State, pid: Pid)
    requires Inv(s) && DoApplySettings(s, pid).Some?
    ensures BackedFor(DoApplySettings(s, pid).value)
  {
    hide AllFrom, Held, EmmcOurs, Consistent;
  }

  lemma ApplyRenameBacks(s: State, pid: Pid)
    requires Inv(s) && BackedFor(s) && DoApplyRename(s, pid).Some?
    ensures BackedFor(DoApplyRename(s, pid).value)
  {
    hide Whole, EmmcOurs, Consistent;
    PartNames();
    if s.procs[pid].done < 3 {
      RenameKeepsWhole(s.disk, s.procs[pid].record, PARTS[s.procs[pid].done]);
    }
  }

  /** Steps that leave the disk alone and do not turn on a record. */
  lemma QuietStepBacks(s: State, a: Action)
    requires Inv(s) && BackedFor(s) && Step(s, a).Some? && !TouchesDisk(a) && !GivesUp(s, a)
    ensures BackedFor(Step(s, a).value)
  {
    hide Step, Discarding, GivesUp, Kept, Whole;
    OtherStepsKeepDisk(s, a);
    GivesUpIff(s, a);
  }

  lemma OnlyTheseUnback(s: State, a: Action)
    requires !a.RemoveLive? && !GivesUp(s, a)
    ensures !Unbacks(s, a)
  {
  }

  /** Exactly the `Unbacks` steps break it. */
  lemma StepBacksIff(s: State, a: Action)
    requires Inv(s) && BackedFor(s) && Step(s, a).Some? && Safe(s, a)
    ensures BackedFor(Step(s, a).value) <==> !Unbacks(s, a)
  {
    hide Inv, BackedFor, DoRemoveLive, DoClearOne, DoApplySettings, DoApplyRename, Unbacks, Safe;
    if a.RemoveLive? {
      DeleteLiveBacks(s, a.pid);
    } else if GivesUp(s, a) {
      GiveUpBacks(s, a);
    } else if a.ClearOne? {
      OnlyTheseUnback(s, a);
      ClearBacks(s, a.pid, a.entry);
    } else if a.ApplySettings? {
      OnlyTheseUnback(s, a);
      ApplySettingsBacks(s, a.pid);
    } else if a.ApplyRename? {
      OnlyTheseUnback(s, a);
      ApplyRenameBacks(s, a.pid);
    } else if TouchesDisk(a) {
      OnlyTheseUnback(s, a);
      InstallBacks(s, a);
    } else {
      OnlyTheseUnback(s, a);
      QuietStepBacks(s, a);
    }
  }

  /** In every run of safe steps that gives up no record the settings need and deletes no live file
      they need, the settings name an install whose files are there. */
  lemma SettingsStayBacked(s: State, acts: seq<Action>)
    requires Init(s) && Backed(s.disk) && Exec(Step, s, acts).Some?
    requires Guarded(Step, (t: State, a: Action) => Safe(t, a) && !Unbacks(t, a), s, acts)
    ensures Backed(Exec(Step, s, acts).value.disk)
  {
    hide Step, Inv, Safe, Unbacks, Discarding;
    StartsBacked(s);
    forall t, a | Inv(t) && BackedFor(t) && Safe(t, a) && !Unbacks(t, a) && Step(t, a).Some?
      ensures Inv(Step(t, a).value) && BackedFor(Step(t, a).value)
    {
      StepKeepsInv(t, a);
      StepBacksIff(t, a);
    }
    RunKeeps(Step, (t: State, a: Action) => Safe(t, a) && !Unbacks(t, a), t => Inv(t) && BackedFor(t), s, acts);
  }

  lemma StartsBacked(s: State)
    requires Init(s) && Backed(s.disk)
    ensures Inv(s) && BackedFor(s)
  {
  }

  /** And where a needed record is given up, one more safe step, the deletion of the record, leaves
      the settings naming an install whose files are not there. */
  lemma GivingUpANeededRecordUnbacks(s: State, a: Action) returns (next: Action)
    requires Inv(s) && Step(s, a).Some? && GivesUp(s, a) && Needed(s.disk)
    ensures var t := Step(s, a).value;
            next.ClearOne? && Safe(t, next) && Step(t, next).Some? && !Backed(Step(t, next).value.disk)
  {
    hide Kept, Whole, Held, LockEmmc, Provisioned, DoLock, DoEmmcLock, DoClearDone, DoWriteFile, DoFinishCheck,
         DoFinishTmp, DoFinishRename, DoDrop, DoReadRecord, DoApplyReadRecord, DoApplyLockEmmc, DoApplySettings,
         DoApplyRename, DoApplySkip, DoRemoveLive, DoEnd, Consistent;
    next := ClearOne(a.pid, Complete);
  }

  // ----- runs -----

  /** Steps that can tear nothing, in any state. */
  predicate Quiet(acts: seq<Action>) {
    forall i :: 0 <= i < |acts| ==> !acts[i].End? && !acts[i].RemoveLive? && !acts[i].ApplySkip?
  }

  lemma QuietIsSafe(s: State, acts: seq<Action>)
    requires Quiet(acts)
    ensures Guarded(Step, Safe, s, acts)
  {
    hide Step, Exec;
  }

  /** Nothing stops `q` from applying: the locks are free and it holds the claim. */
  ghost predicate CanApply(s: State, q: Pid) {
    s.stagingLock.None? && s.claim == Some(q) && q !in s.procs && s.disk.tmp.None?
    && (Emmc in s.disk.live ==> s.disk.live[Emmc] !in s.emmcLocks)
  }

  lemma ReadWaitingInstall(s: State, q: Pid) returns (acts: seq<Action>, t: State)
    requires CanApply(s, q) && s.disk.record.Some?
    ensures Exec(Step, s, acts) == Some(t)
    ensures t == s.(procs := s.procs[q := ApplyRead(s.disk.record.value)], stagingLock := Some(q)) && Quiet(acts)
  {
    hide Exec, DoNewCheckFails, DoReadFails, DoApplySkip, DoEmmcLock, DoNewCheck, DoClearOne, DoClearDone,
         DoWriteFile, DoFinishCheck, DoFinishTmp, DoFinishRename, DoDrop, DoReadRecord, DoApplyLockEmmc,
         DoApplySettings, DoApplyRename, DoRemoveDiscard, DoRemoveLive, DoEnd;
    NoSteps<State, Action>(Step, s);
    acts, t := Then(Step, s, [], s, ApplyLock(q));
    acts, t := Then(Step, s, acts, t, ApplyReadRecord(q));
  }

  /** With the eMMC free, the lock is had and the settings are written. */
  lemma LockAndWriteSettings(s: State, q: Pid, r: Install) returns (acts: seq<Action>, t: State)
    requires At(s, q, ApplyRead(r)) && (Emmc in s.disk.live ==> s.disk.live[Emmc] !in s.emmcLocks)
    ensures Exec(Step, s, acts) == Some(t) && Quiet(acts)
    ensures t == Goto(s, q, Renaming(r, 0)).(disk := s.disk.(settings := Some(r)), emmcLocks := t.emmcLocks)
  {
    hide Exec, DoNewCheckFails, DoReadFails, DoApplySkip, DoLock, DoEmmcLock, DoNewCheck, DoClearOne, DoClearDone,
         DoWriteFile, DoFinishCheck, DoFinishTmp, DoFinishRename, DoDrop, DoReadRecord, DoApplyReadRecord,
         DoApplyRename, DoRemoveDiscard, DoRemoveLive, DoEnd, LockEmmc;
    EmmcIsFree(s, q);
    NoSteps<State, Action>(Step, s);
    acts, t := Then(Step, s, [], s, ApplyLockEmmc(q));
    acts, t := Then(Step, s, acts, t, ApplySettings(q));
  }

  lemma EmmcIsFree(s: State, q: Pid)
    requires Emmc in s.disk.live ==> s.disk.live[Emmc] !in s.emmcLocks
    ensures LockEmmc(s, q).Some?
  {
  }

  /** The first half of an apply: up to the settings, with no file moved. */
  lemma BeginApply(s: State, q: Pid) returns (acts: seq<Action>, t: State)
    requires CanApply(s, q) && s.disk.record.Some?
    ensures Exec(Step, s, acts) == Some(t) && At(t, q, Renaming(s.disk.record.value, 0)) && Quiet(acts)
    ensures t.disk == s.disk.(settings := s.disk.record) && t.procs.Keys == s.procs.Keys + {q}
    ensures t.stagingLock == Some(q) && t.claim == Some(q) && t.applied == s.applied
    ensures forall pid :: pid in s.procs ==> t.procs[pid] == s.procs[pid]
  {
    hide Exec, Step;
    var rest;
    acts, t := ReadWaitingInstall(s, q);
    rest, t := LockAndWriteSettings(t, q, s.disk.record.value);
    ExecConcat(Step, s, acts, rest);
    acts := acts + rest;
  }

  lemma RenameAll(s: State, q: Pid, r: Install) returns (acts: seq<Action>, t: State)
    requires At(s, q, Renaming(r, 0))
    ensures Exec(Step, s, acts) == Some(t) && Quiet(acts)
    ensures t == Goto(s, q, ApplyClearing(r)).(disk := Renamed(s.disk, 3))
  {
    hide Exec, Rename, Renamed, DoNewCheckFails, DoReadFails, DoApplySkip, DoLock, DoEmmcLock, DoNewCheck, DoClearOne,
         DoClearDone, DoWriteFile, DoFinishCheck, DoFinishTmp, DoFinishRename, DoDrop, DoReadRecord, DoApplyReadRecord,
         DoApplyLockEmmc, DoApplySettings, DoRemoveDiscard, DoRemoveLive, DoEnd;
    NotRenamed(s.disk);
    NoSteps<State, Action>(Step, s);
    acts, t := Then(Step, s, [], s, ApplyRename(q));
    RenamedAgain(s.disk, 0);
    acts, t := Then(Step, s, acts, t, ApplyRename(q));
    RenamedAgain(s.disk, 1);
    acts, t := Then(Step, s, acts, t, ApplyRename(q));
    RenamedAgain(s.disk, 2);
    acts, t := Then(Step, s, acts, t, ApplyRename(q));
  }

  /** The clear of an apply that moved every file, and its return. */
  lemma ReturnRecord(s: State, q: Pid, r: Install) returns (acts: seq<Action>, t: State)
    requires At(s, q, ApplyClearing(r)) && s.disk.staged == map[] && s.disk.tmp.None? && s.disk.record.Some?
    ensures Exec(Step, s, acts) == Some(t) && Quiet(acts)
    ensures t == Leave(s, q).(disk := s.disk.(record := None), applied := t.applied)
    ensures t.applied == s.applied + [Applied(r, s.disk.live, s.disk.settings)]
  {
    hide Exec, Rename, DoNewCheckFails, DoReadFails, DoApplySkip, DoLock, DoEmmcLock, DoNewCheck, DoWriteFile,
         DoFinishCheck, DoFinishTmp, DoFinishRename, DoDrop, DoReadRecord, DoApplyReadRecord, DoApplyLockEmmc,
         DoApplySettings, DoApplyRename, DoRemoveDiscard, DoRemoveLive, DoEnd;
    NoSteps<State, Action>(Step, s);
    acts, t := Then(Step, s, [], s, ClearOne(q, Complete));
    acts, t := Then(Step, s, acts, t, ClearDone(q));
  }

  lemma FinishApply(s: State, q: Pid, r: Install) returns (acts: seq<Action>, t: State)
    requires At(s, q, Renaming(r, 0)) && s.disk.tmp.None? && s.disk.record.Some? && s.disk.settings == Some(r)
    ensures Exec(Step, s, acts) == Some(t)
    ensures |t.applied| == |s.applied| + 1 && t.applied[|s.applied|].record == r
    ensures Consistent(t.applied[|s.applied|]) <==> Whole(s.disk, r)
  {
    hide Exec, Step, Renamed, Whole, AllFrom;
    var rest;
    RenameThrice(s.disk, r);
    acts, t := RenameAll(s, q, r);
    rest, t := ReturnRecord(t, q, r);
    ExecConcat(Step, s, acts, rest);
    acts := acts + rest;
  }

  /** A free slot owner can apply a waiting install to its end. */
  lemma WaitingInstallCanBeApplied(s: State, q: Pid) returns (acts: seq<Action>)
    requires CanApply(s, q) && s.disk.record.Some?
    ensures Exec(Step, s, acts).Some?
    ensures var t := Exec(Step, s, acts).value;
            |t.applied| == |s.applied| + 1 && t.applied[|s.applied|].record == s.disk.record.value
            && (Consistent(t.applied[|s.applied|]) <==> Whole(s.disk, s.disk.record.value))
  {
    hide Exec, Consistent, Step;
    var half, t := BeginApply(s, q);
    var rest, u := FinishApply(t, q, s.disk.record.value);
    ExecConcat(Step, s, half, rest);
    acts := half + rest;
  }

  lemma OpenInstall(s: State, pid: Pid) returns (acts: seq<Action>, t: State)
    requires DirEmpty(s.disk) && s.stagingLock.None? && pid !in s.procs
    ensures Exec(Step, s, acts) == Some(t) && Quiet(acts)
    ensures t == s.(procs := s.procs[pid := Writing(s.nextInstall)], stagingLock := Some(pid),
                    nextInstall := s.nextInstall + 1)
  {
    hide Exec, DoNewCheckFails, DoReadFails, DoApplySkip, DoEmmcLock, DoClearOne, DoWriteFile, DoFinishCheck,
         DoFinishTmp, DoFinishRename, DoDrop, DoReadRecord, DoApplyReadRecord, DoApplyLockEmmc, DoApplySettings,
         DoApplyRename, DoRemoveDiscard, DoRemoveLive, DoEnd;
    NoSteps<State, Action>(Step, s);
    acts, t := Then(Step, s, [], s, NewLock(pid));
    acts, t := Then(Step, s, acts, t, NewCheck(pid));
    acts, t := Then(Step, s, acts, t, ClearDone(pid));
  }

  lemma WriteFiles(s: State, pid: Pid, id: Install) returns (acts: seq<Action>, t: State)
    requires At(s, pid, Writing(id)) && s.disk.staged == map[]
    ensures Exec(Step, s, acts) == Some(t) && Quiet(acts)
    ensures t == Goto(s, pid, Finishing(id, 0)).(
                 disk := s.disk.(staged := map[Kernel := id, Initramfs := id, Emmc := id]))
  {
    hide Exec, DoNewCheckFails, DoReadFails, DoApplySkip, DoLock, DoEmmcLock, DoNewCheck, DoClearOne, DoClearDone,
         DoFinishTmp, DoFinishRename, DoDrop, DoReadRecord, DoApplyReadRecord, DoApplyLockEmmc, DoApplySettings,
         DoApplyRename, DoRemoveDiscard, DoRemoveLive, DoEnd;
    NoSteps<State, Action>(Step, s);
    acts, t := Then(Step, s, [], s, WriteFile(pid, Kernel));
    acts, t := Then(Step, s, acts, t, WriteFile(pid, Initramfs));
    acts, t := Then(Step, s, acts, t, WriteFile(pid, Emmc));
    acts, t := Then(Step, s, acts, t, FinishCheck(pid));
  }

  /** One whole install into an empty staging directory. */
  lemma BeginInstall(s: State, pid: Pid) returns (acts: seq<Action>, t: State)
    requires DirEmpty(s.disk) && s.stagingLock.None? && pid !in s.procs
    ensures Exec(Step, s, acts) == Some(t) && Quiet(acts)
    ensures var id := s.nextInstall;
            t == s.(procs := s.procs[pid := Finishing(id, 0)], stagingLock := Some(pid), nextInstall := id + 1,
                    disk := s.disk.(staged := map[Kernel := id, Initramfs := id, Emmc := id]))
  {
    hide Exec, Step;
    var rest;
    acts, t := OpenInstall(s, pid);
    rest, t := WriteFiles(t, pid, s.nextInstall);
    ExecConcat(Step, s, acts, rest);
    acts := acts + rest;
  }

  lemma CheckFiles(s: State, pid: Pid, id: Install) returns (acts: seq<Action>, t: State)
    requires At(s, pid, Finishing(id, 0)) && Provisioned(s.disk.staged)
    ensures Exec(Step, s, acts) == Some(t) && Quiet(acts) && t == Goto(s, pid, Finishing(id, 3))
  {
    hide Exec, DoNewCheckFails, DoReadFails, DoApplySkip, DoLock, DoEmmcLock, DoNewCheck, DoClearOne, DoClearDone,
         DoWriteFile, DoDrop, DoReadRecord, DoApplyReadRecord, DoApplyLockEmmc, DoApplySettings, DoApplyRename,
         DoRemoveDiscard, DoRemoveLive, DoEnd, DoFinishTmp, DoFinishRename;
    PartNames();
    NoSteps<State, Action>(Step, s);
    acts, t := Then(Step, s, [], s, FinishCheck(pid));
    acts, t := Then(Step, s, acts, t, FinishCheck(pid));
    acts, t := Then(Step, s, acts, t, FinishCheck(pid));
  }

  lemma WriteRecord(s: State, pid: Pid, id: Install) returns (acts: seq<Action>, t: State)
    requires At(s, pid, Finishing(id, 3))
    ensures Exec(Step, s, acts) == Some(t) && Quiet(acts)
    ensures t == Leave(s, pid).(disk := s.disk.(record := Some(id), tmp := None))
  {
    hide Exec, DoNewCheckFails, DoReadFails, DoApplySkip, DoLock, DoEmmcLock, DoNewCheck, DoClearOne, DoClearDone,
         DoWriteFile, DoDrop, DoReadRecord, DoApplyReadRecord, DoApplyLockEmmc, DoApplySettings, DoApplyRename,
         DoRemoveDiscard, DoRemoveLive, DoEnd, DoFinishCheck;
    NoSteps<State, Action>(Step, s);
    acts, t := Then(Step, s, [], s, FinishTmp(pid));
    acts, t := Then(Step, s, acts, t, FinishRename(pid));
  }

  lemma FinishInstall(s: State, pid: Pid, id: Install) returns (acts: seq<Action>, t: State)
    requires At(s, pid, Finishing(id, 0)) && Provisioned(s.disk.staged) && s.stagingLock == Some(pid)
    ensures Exec(Step, s, acts) == Some(t) && Quiet(acts)
    ensures t == Leave(s, pid).(disk := s.disk.(record := Some(id), tmp := None))
  {
    hide Exec, Step, Provisioned;
    var rest;
    acts, t := CheckFiles(s, pid, id);
    rest, t := WriteRecord(t, pid, id);
    ExecConcat(Step, s, acts, rest);
    acts := acts + rest;
  }

  /** A new install that dies inside its `clear`, after it deleted one file. */
  lemma DieInsideClear(s: State, pid: Pid, q: Pid) returns (acts: seq<Action>, t: State)
    requires s.stagingLock.None? && s.claim.None? && s.procs == map[] && s.emmcLocks == map[]
    requires s.disk.record.Some? && s.disk.tmp.None? && Provisioned(s.disk.staged)
    ensures Exec(Step, s, acts) == Some(t)
    ensures CanApply(t, q) && t.applied == s.applied && t.disk == s.disk.(staged := s.disk.staged - {Kernel})
  {
    hide Exec, DoNewCheckFails, DoReadFails, DoApplySkip, DoEmmcLock, DoClearDone, DoWriteFile, DoFinishCheck,
         DoFinishTmp, DoFinishRename, DoDrop, DoReadRecord, DoApplyReadRecord, DoApplyLockEmmc, DoApplySettings,
         DoApplyRename, DoRemoveDiscard, DoRemoveLive;
    NoSteps<State, Action>(Step, s);
    acts, t := Then(Step, s, [], s, NewLock(pid));
    acts, t := Then(Step, s, acts, t, NewCheck(pid));
    acts, t := Then(Step, s, acts, t, ClearOne(pid, Firmware(Kernel)));
    acts, t := Then(Step, s, acts, t, End(pid));
    acts, t := Then(Step, s, acts, t, TakeClaim(q));
  }

  /** A run that tears: a first install finishes, and a second one dies inside its
      `clear`, after it deleted one file and before it deleted the record. The next
      apply then returns a record although a live file is not from that install. */
  lemma DeathInsideClearBreaksTheNextApply(s: State) returns (acts: seq<Action>)
    requires Init(s)
    ensures Exec(Step, s, acts).Some?
    ensures var t := Exec(Step, s, acts).value; |t.applied| == 1 && !Consistent(t.applied[0])
  {
    hide Exec, DoNewCheckFails, DoReadFails, DoApplySkip, Consistent, Step;
    var a, t := BeginInstall(s, 1);
    var b, u := FinishInstall(t, 1, s.nextInstall);
    ExecConcat(Step, s, a, b);
    assert u.procs == map[] && u.emmcLocks == map[];
    var c, v := DieInsideClear(u, 2, 3);
    ExecConcat(Step, s, a + b, c);
    assert !Held(v.disk.staged, v.disk.live, s.nextInstall, Kernel);
    var d := WaitingInstallCanBeApplied(v, 3);
    ExecConcat(Step, s, a + b + c, d);
    acts := a + b + c + d;
  }

  lemma BeginInstallOver(s: State, n: Pid) returns (acts: seq<Action>, t: State)
    requires s.stagingLock.None? && n !in s.procs && Provisioned(s.disk.staged)
    ensures Exec(Step, s, acts) == Some(t) && Quiet(acts)
    ensures At(t, n, NewClearing) && t.disk == s.disk
  {
    hide Exec, DoNewCheckFails, DoReadFails, DoApplySkip, DoEmmcLock, DoClearOne, DoClearDone, DoWriteFile,
         DoFinishCheck, DoFinishTmp, DoFinishRename, DoDrop, DoReadRecord, DoApplyReadRecord, DoApplyLockEmmc,
         DoApplySettings, DoApplyRename, DoRemoveDiscard, DoRemoveLive, DoEnd;
    NoSteps<State, Action>(Step, s);
    acts, t := Then(Step, s, [], s, NewLock(n));
    acts, t := Then(Step, s, acts, t, NewCheck(n));
  }

  /** A clear, record first, of a finished install. */
  lemma ClearAll(s: State, n: Pid) returns (acts: seq<Action>, t: State)
    requires n in s.procs && Clearing(s.procs[n])
    requires s.disk.record.Some? && s.disk.tmp.None? && Provisioned(s.disk.staged)
    ensures Exec(Step, s, acts) == Some(t) && Quiet(acts)
    ensures DirEmpty(t.disk) && t.disk.live == s.disk.live && t.disk.settings == s.disk.settings
  {
    hide Exec, DoLock, DoNewCheck, DoNewCheckFails, DoReadFails, DoApplySkip, DoEmmcLock, DoClearDone, DoWriteFile,
         DoFinishCheck, DoFinishTmp, DoFinishRename, DoDrop, DoReadRecord, DoApplyReadRecord, DoApplyLockEmmc,
         DoApplySettings, DoApplyRename, DoRemoveDiscard, DoRemoveLive, DoEnd;
    NoSteps<State, Action>(Step, s);
    acts, t := Then(Step, s, [], s, ClearOne(n, Complete));
    acts, t := Then(Step, s, acts, t, ClearOne(n, Firmware(Kernel)));
    acts, t := Then(Step, s, acts, t, ClearOne(n, Firmware(Initramfs)));
    acts, t := Then(Step, s, acts, t, ClearOne(n, Firmware(Emmc)));
    forall p: Part ensures p !in t.disk.staged {
      match p case Kernel => case Initramfs => case Emmc =>
    }
    assert t.disk.staged == map[];
  }

  /** A new install over a waiting one, up to an empty directory. */
  lemma ClearWaitingInstall(s: State, n: Pid) returns (acts: seq<Action>, t: State)
    requires s.stagingLock.None? && n !in s.procs
    requires s.disk.record.Some? && s.disk.tmp.None? && Provisioned(s.disk.staged)
    ensures Exec(Step, s, acts) == Some(t)
    ensures DirEmpty(t.disk) && t.disk.live == s.disk.live && t.disk.settings == s.disk.settings && Quiet(acts)
  {
    hide Exec, Step, DirEmpty, Provisioned;
    var rest;
    acts, t := BeginInstallOver(s, n);
    rest, t := ClearAll(t, n);
    ExecConcat(Step, s, acts, rest);
    acts := acts + rest;
  }

  lemma FailRead(s: State, n: Pid) returns (acts: seq<Action>, t: State)
    requires s.stagingLock.None? && n !in s.procs
    ensures Exec(Step, s, acts) == Some(t) && Quiet(acts) && At(t, n, ReadClearing) && t.disk == s.disk
  {
    hide Exec, DoNewCheck, DoNewCheckFails, DoApplySkip, DoEmmcLock, DoClearOne, DoClearDone, DoWriteFile,
         DoFinishCheck, DoFinishTmp, DoFinishRename, DoDrop, DoReadRecord, DoApplyReadRecord, DoApplyLockEmmc,
         DoApplySettings, DoApplyRename, DoRemoveDiscard, DoRemoveLive, DoEnd;
    NoSteps<State, Action>(Step, s);
    acts, t := Then(Step, s, [], s, ReadLock(n));
    acts, t := Then(Step, s, acts, t, ReadFails(n));
  }

  /** From any finished install waiting to be applied, one look at it whose read of the record
      fails deletes it, by safe steps only. */
  lemma FailedReadClearsTheInstall(s: State, n: Pid) returns (acts: seq<Action>, t: State)
    requires s.stagingLock.None? && n !in s.procs
    requires s.disk.record.Some? && s.disk.tmp.None? && Provisioned(s.disk.staged)
    ensures Exec(Step, s, acts) == Some(t) && Guarded(Step, Safe, s, acts)
    ensures DirEmpty(t.disk) && t.disk.live == s.disk.live && t.disk.settings == s.disk.settings
  {
    hide Exec, Guarded, Step, DirEmpty, Provisioned;
    var rest;
    acts, t := FailRead(s, n);
    rest, t := ClearAll(t, n);
    ExecConcat(Step, s, acts, rest);
    acts := acts + rest;
    QuietIsSafe(s, acts);
  }

  /** The whole run: an install finishes, with its record and every file in place, and a reader
      whose read of the record fails then deletes it. */
  lemma FailedReadDeletesAnInstall(s: State) returns (install: seq<Action>, read: seq<Action>)
    requires Init(s)
    ensures Exec(Step, s, install).Some? && Exec(Step, s, install + read).Some?
    ensures var d := Exec(Step, s, install).value.disk;
            d.record == Some(s.nextInstall) && Provisioned(d.staged) && Whole(d, s.nextInstall)
    ensures var d := Exec(Step, s, install + read).value.disk;
            DirEmpty(d) && d.live == s.disk.live && d.settings == s.disk.settings
  {
    hide Exec, Step;
    var a, t := BeginInstall(s, 1);
    var b, u := FinishInstall(t, 1, s.nextInstall);
    ExecConcat(Step, s, a, b);
    install := a + b;
    var v;
    read, v := FailedReadClearsTheInstall(u, 2);
    ExecConcat(Step, s, install, read);
  }

  /** The settings are written before the first rename, and `new` only protects a swap
      from its first rename on. So from any finished install waiting to be applied there
      is a run of safe steps that leaves the slot's settings naming it, its files gone
      and the live files as they were. */
  lemma SettingsCanNameADiscardedInstall(s: State, q: Pid, n: Pid) returns (acts: seq<Action>)
    requires CanApply(s, q) && n !in s.procs && n != q
    requires s.disk.record.Some? && Provisioned(s.disk.staged) && Whole(s.disk, s.disk.record.value)
    ensures Exec(Step, s, acts).Some? && Guarded(Step, Safe, s, acts)
    ensures var d := Exec(Step, s, acts).value.disk;
            d.settings == s.disk.record && DirEmpty(d) && d.live == s.disk.live
  {
    hide Exec, Guarded, Step, DirEmpty;
    var a, t := BeginApply(s, q);
    QuietIsSafe(s, a);
    EndApply(t, q);
    var u := Step(t, End(q)).value;
    GuardedOne(Step, Safe, t, End(q));
    var c, v := ClearWaitingInstall(u, n);
    QuietIsSafe(u, c);
    GuardedConcat(Step, Safe, t, [End(q)], c);
    ExecConcat(Step, t, [End(q)], c);
    GuardedConcat(Step, Safe, s, a, [End(q)] + c);
    ExecConcat(Step, s, a, [End(q)] + c);
    acts := a + ([End(q)] + c);
  }

  /** An owner that ends with every file of its record in place tears nothing. */
  lemma EndApply(s: State, q: Pid)
    requires q in s.procs && s.stagingLock == Some(q) && s.disk.record.Some? && Whole(s.disk, s.disk.record.value)
    ensures Safe(s, End(q)) && Step(s, End(q)).Some?
    ensures var t := Step(s, End(q)).value;
            t.disk == s.disk && t.stagingLock.None? && t.procs == s.procs - {q}
  {
  }

  // ----- a removal that races a swap -----

  /** A removal of a slot that has no eMMC yet takes no lock. */
  lemma BeginRemoval(s: State, pid: Pid) returns (acts: seq<Action>, t: State)
    requires pid !in s.procs && Emmc !in s.disk.live
    ensures Exec(Step, s, acts) == Some(t) && Quiet(acts) && t == Goto(s, pid, RemoveLocked)
  {
    hide Exec, DoNewCheckFails, DoReadFails, DoApplySkip, DoLock, DoNewCheck, DoClearOne, DoClearDone, DoWriteFile,
         DoFinishCheck, DoFinishTmp, DoFinishRename, DoDrop, DoReadRecord, DoApplyReadRecord, DoApplyLockEmmc,
         DoApplySettings, DoApplyRename, DoRemoveDiscard, DoRemoveLive, DoEnd;
    NoSteps<State, Action>(Step, s);
    acts, t := Then(Step, s, [], s, RemoveLock(pid));
  }

  /** The removal's discard finds the staging lock taken, and it goes on to the kernel. */
  lemma DeleteKernel(s: State, pid: Pid) returns (acts: seq<Action>, t: State)
    requires At(s, pid, RemoveLocked) && s.stagingLock.Some?
    ensures Exec(Step, s, acts) == Some(t)
    ensures t == Goto(s, pid, RemovingLive(1)).(disk := s.disk.(live := s.disk.live - {Kernel}))
  {
    hide Exec, DoNewCheckFails, DoReadFails, DoApplySkip, DoLock, DoEmmcLock, DoNewCheck, DoClearOne, DoClearDone,
         DoWriteFile, DoFinishCheck, DoFinishTmp, DoFinishRename, DoDrop, DoReadRecord, DoApplyReadRecord,
         DoApplyLockEmmc, DoApplySettings, DoApplyRename, DoEnd;
    PartNames();
    NoSteps<State, Action>(Step, s);
    acts, t := Then(Step, s, [], s, RemoveDiscard(pid));
    acts, t := Then(Step, s, acts, t, RemoveLive(pid));
  }

  lemma MoveKernel(s: State, q: Pid, r: Install) returns (acts: seq<Action>, t: State)
    requires At(s, q, Renaming(r, 0)) && Kernel in s.disk.staged
    ensures Exec(Step, s, acts) == Some(t)
    ensures t == Goto(s, q, Renaming(r, 1)).(
                 disk := s.disk.(staged := s.disk.staged - {Kernel},
                                 live := s.disk.live[Kernel := s.disk.staged[Kernel]]))
  {
    hide Exec, DoNewCheckFails, DoReadFails, DoApplySkip, DoLock, DoEmmcLock, DoNewCheck, DoClearOne, DoClearDone,
         DoWriteFile, DoFinishCheck, DoFinishTmp, DoFinishRename, DoDrop, DoReadRecord, DoApplyReadRecord,
         DoApplyLockEmmc, DoApplySettings, DoRemoveDiscard, DoRemoveLive, DoEnd;
    PartNames();
    NoSteps<State, Action>(Step, s);
    acts, t := Then(Step, s, [], s, ApplyRename(q));
  }

  /** The apply moves the kernel, and the removal deletes it again. */
  lemma DeleteAfterFirstRename(s: State, q: Pid, pid: Pid, r: Install) returns (acts: seq<Action>, t: State)
    requires At(s, q, Renaming(r, 0)) && At(s, pid, RemoveLocked) && s.stagingLock == Some(q)
    requires Kernel in s.disk.staged
    ensures Exec(Step, s, acts) == Some(t) && At(t, q, Renaming(r, 1)) && t.applied == s.applied
    ensures t.disk == s.disk.(staged := s.disk.staged - {Kernel}, live := s.disk.live - {Kernel})
  {
    hide Exec, Step;
    var moved, rest;
    acts, moved := MoveKernel(s, q, r);
    rest, t := DeleteKernel(moved, pid);
    assert moved.disk.live - {Kernel} == s.disk.live - {Kernel};
    ExecConcat(Step, s, acts, rest);
    acts := acts + rest;
  }

  lemma FinishTornApply(s: State, q: Pid, r: Install) returns (acts: seq<Action>, t: State)
    requires At(s, q, Renaming(r, 1)) && Kernel !in s.disk.live && Kernel !in s.disk.staged
    requires s.disk.record.Some? && s.disk.tmp.None?
    ensures Exec(Step, s, acts) == Some(t) && |t.applied| == |s.applied| + 1 && !Consistent(t.applied[|s.applied|])
  {
    hide Exec, DoNewCheckFails, DoReadFails, DoApplySkip, DoLock, DoEmmcLock, DoNewCheck, DoClearOne, DoClearDone,
         DoWriteFile, DoFinishCheck, DoFinishTmp, DoFinishRename, DoDrop, DoReadRecord, DoApplyReadRecord,
         DoApplyLockEmmc, DoApplySettings, DoRemoveDiscard, DoRemoveLive, DoEnd;
    PartNames();
    NoSteps<State, Action>(Step, s);
    acts, t := Then(Step, s, [], s, ApplyRename(q));
    acts, t := Then(Step, s, acts, t, ApplyRename(q));
    acts, t := Then(Step, s, acts, t, ApplyRename(q));
    forall p: Part ensures p !in t.disk.staged {
      match p case Kernel => case Initramfs => case Emmc =>
    }
    assert t.disk.staged == map[];
    assert Kernel !in t.disk.live;
    var rest, u := ReturnRecord(t, q, r);
    ExecConcat(Step, s, acts, rest);
    acts, t := acts + rest, u;
  }

  /** From a finished first install in an empty slot. */
  lemma RaceRemoval(s: State) returns (acts: seq<Action>, t: State)
    requires s.disk.live == map[] && s.procs == map[] && s.claim.None? && s.stagingLock.None? && s.disk.tmp.None?
    requires s.disk.record.Some? && Kernel in s.disk.staged && s.applied == []
    ensures Exec(Step, s, acts) == Some(t) && |t.applied| == 1 && !Consistent(t.applied[0])
  {
    hide Exec, Consistent, Step;
    var id := s.disk.record.value;
    var a, u := BeginRemoval(s, 3);
    var b, v := ClaimSlot(u, 2);
    ExecConcat(Step, s, a, b);
    var c, w := BeginApply(v, 2);
    ExecConcat(Step, s, a + b, c);
    var d, x := DeleteAfterFirstRename(w, 2, 3, id);
    ExecConcat(Step, s, a + b + c, d);
    var e, y := FinishTornApply(x, 2, id);
    ExecConcat(Step, s, a + b + c + d, e);
    acts, t := a + b + c + d + e, y;
  }

  /** A first install into an empty slot is being applied while the slot is removed: the removal
      finds no eMMC to lock and no staging lock to take, and deletes a file the apply has just
      moved. The apply returns a record although the file is gone. */
  lemma RemovalCanTearASwap(s: State) returns (acts: seq<Action>)
    requires Init(s) && s.disk.live == map[]
    ensures Exec(Step, s, acts).Some?
    ensures var t := Exec(Step, s, acts).value; |t.applied| == 1 && !Consistent(t.applied[0])
  {
    hide Exec, Consistent, Step;
    var a, t := BeginInstall(s, 1);
    var b, u := FinishInstall(t, 1, s.nextInstall);
    ExecConcat(Step, s, a, b);
    assert u.procs == map[];
    var c, v := RaceRemoval(u);
    ExecConcat(Step, s, a + b, c);
    acts := a + b + c;
  }

  lemma ClaimSlot(s: State, q: Pid) returns (acts: seq<Action>, t: State)
    requires s.claim.None?
    ensures Exec(Step, s, acts) == Some(t) && Quiet(acts) && t == s.(claim := Some(q))
  {
    hide Exec;
    NoSteps<State, Action>(Step, s);
    acts, t := Then(Step, s, [], s, TakeClaim(q));
  }
}
