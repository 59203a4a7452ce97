/** A removal of a slot and a running QEMU (`FirmwarePaths::remove` and the eMMC's lock in
    `crates/cdj3k-emu-storage/src/lib.rs`): a removal that begins with an eMMC to lock deletes no image
    that is in use, and one that begins without can. */
module StagingRemovals {
  import opened Optional
  import opened Runs
  import opened Staging
  import opened StagingLaws

  /** A removal begins with the slot's eMMC there, so it takes its lock. */
  predicate FindsEmmc(s: State, a: Action) {
    a.RemoveLock? ==> Emmc in s.disk.live
  }

  ghost predicate SafeAndLocked(s: State, a: Action) {
    Safe(s, a) && FindsEmmc(s, a)
  }

  /** A removal that has not deleted the eMMC yet. */
  predicate Removes(p: Proc) {
    p.RemoveLocked? || p.DiscardClearing? || (p.RemovingLive? && p.next <= 2)
  }

  /** The live eMMC is there, and its lock is this process's. */
  predicate HoldsLive(live: Files, locks: map<Install, Pid>, pid: Pid) {
    Emmc in live && live[Emmc] in locks && locks[live[Emmc]] == pid
  }

  predicate GoneSoFar(live: Files, n: nat) {
    (n > 0 ==> Kernel !in live) && (n > 1 ==> Initramfs !in live) && (n > 2 ==> Emmc !in live)
  }

  /** Each removal holds the live eMMC until it deletes it, and what it has deleted stays deleted; each
      QEMU runs on the live eMMC. */
  ghost predicate Spared(s: State) {
    && (forall pid :: pid in s.procs && Removes(s.procs[pid]) ==> HoldsLive(s.disk.live, s.emmcLocks, pid))
    && (forall pid :: pid in s.procs && s.procs[pid].RemovingLive? && s.procs[pid].next <= 2 ==>
          GoneSoFar(s.disk.live, s.procs[pid].next))
    && (forall q :: q in s.procs && s.procs[q].Qemu? ==>
          HoldsLive(s.disk.live, s.emmcLocks, q) && s.disk.live[Emmc] == s.procs[q].emmc)
  }

  /** A step of another process, or one that does not turn into a removal or a QEMU. */
  ghost predicate Aside(s: State, t: State, pid: Pid) {
    && t.disk.live == s.disk.live
    && (forall q :: q in t.procs && q != pid ==> q in s.procs && t.procs[q] == s.procs[q])
    && (forall f :: f in s.emmcLocks && s.emmcLocks[f] != pid ==> f in t.emmcLocks && t.emmcLocks[f] == s.emmcLocks[f])
    && (pid in t.procs && (Removes(t.procs[pid]) || t.procs[pid].RemovingLive? || t.procs[pid].Qemu?) ==>
          pid in s.procs && t.procs[pid] == s.procs[pid] && t.emmcLocks == s.emmcLocks)
  }

  lemma AsideKeepsSpared(s: State, t: State, pid: Pid)
    requires Spared(s) && Aside(s, t, pid)
    ensures Spared(t)
  {
  }

  predicate Other(a: Action) {
    !a.ApplyRename? && !a.RemoveLive? && !a.RemoveLock? && !a.QemuStart? && !a.RemoveDiscard? && !a.ClearDone?
  }

  lemma InstallIsAside(s: State, a: Action)
    requires (InstallStep(a) || a.End?) && Other(a) && Step(s, a).Some?
    ensures Aside(s, Step(s, a).value, a.pid)
  {
    hide DirEmpty, InDir, Provisioned;
  }

  lemma CallIsAside(s: State, a: Action)
    requires !InstallStep(a) && !a.End? && Other(a) && Step(s, a).Some?
    ensures Aside(s, Step(s, a).value, a.pid)
  {
    hide Aside, DoLock, DoReadFails, DoReadRecord, DoApplyReadRecord, DoApplyLockEmmc, DoApplySettings, DoApplySkip,
         DoNewCheck, DoNewCheckFails;
    if a.TakeClaim? || a.NewLock? || a.ReadLock? || a.ApplyLock? {
      LockIsAside(s, a);
    } else if a.NewCheck? || a.NewCheckFails? || a.ReadRecord? || a.ReadFails? {
      LookIsAside(s, a);
    } else {
      ApplyIsAside(s, a);
    }
  }

  lemma LockIsAside(s: State, a: Action)
    requires (a.TakeClaim? || a.NewLock? || a.ReadLock? || a.ApplyLock?) && Step(s, a).Some?
    ensures Aside(s, Step(s, a).value, a.pid)
  {
  }

  lemma LookIsAside(s: State, a: Action)
    requires (a.NewCheck? || a.NewCheckFails? || a.ReadRecord? || a.ReadFails?) && Step(s, a).Some?
    ensures Aside(s, Step(s, a).value, a.pid)
  {
    hide Provisioned;
  }

  lemma ApplyIsAside(s: State, a: Action)
    requires a.ApplyReadRecord? || a.ApplyLockEmmc? || a.ApplySettings? || a.ApplySkip?
    requires Step(s, a).Some?
    ensures Aside(s, Step(s, a).value, a.pid)
  {
    hide Aside, DoApplyLockEmmc;
    if a.ApplyLockEmmc? {
      ApplyLockIsAside(s, a.pid);
    } else {
      ApplyTurnIsAside(s, a);
    }
  }

  lemma ApplyLockIsAside(s: State, pid: Pid)
    requires DoApplyLockEmmc(s, pid).Some?
    ensures Aside(s, DoApplyLockEmmc(s, pid).value, pid)
  {
  }

  lemma ApplyTurnIsAside(s: State, a: Action)
    requires (a.ApplyReadRecord? || a.ApplySettings? || a.ApplySkip?) && Step(s, a).Some?
    ensures Aside(s, Step(s, a).value, a.pid)
  {
  }

  /** A removal or a QEMU takes the lock of the live eMMC. */
  lemma EmmcLockKeepsSpared(s: State, pid: Pid, p: Proc)
    requires Spared(s) && DoEmmcLock(s, pid, p).Some? && Emmc in s.disk.live
    requires p.RemoveLocked? || p == Qemu(s.disk.live[Emmc])
    ensures Spared(DoEmmcLock(s, pid, p).value)
  {
  }

  lemma DiscardKeepsSpared(s: State, pid: Pid)
    requires Spared(s) && DoRemoveDiscard(s, pid).Some?
    ensures Spared(DoRemoveDiscard(s, pid).value)
  {
  }

  lemma ClearDoneKeepsSpared(s: State, pid: Pid)
    requires Spared(s) && DoClearDone(s, pid).Some?
    ensures Spared(DoClearDone(s, pid).value)
  {
    hide DirEmpty, Spared;
    if s.procs[pid].DiscardClearing? {
      DiscardedKeepsSpared(s, pid);
    } else {
      AsideKeepsSpared(s, DoClearDone(s, pid).value, pid);
    }
  }

  lemma DiscardedKeepsSpared(s: State, pid: Pid)
    requires Spared(s) && At(s, pid, DiscardClearing)
    ensures Spared(AfterClear(s, pid))
  {
  }

  /** An apply renames only while it holds the live eMMC, or there is none. */
  lemma RenameKeepsSpared(s: State, pid: Pid)
    requires Inv(s) && Spared(s) && DoApplyRename(s, pid).Some?
    ensures Spared(DoApplyRename(s, pid).value)
  {
    hide Whole, RecordWhole, Consistent;
    PartNames();
  }

  lemma RemoveLiveKeepsSpared(s: State, pid: Pid)
    requires Spared(s) && DoRemoveLive(s, pid).Some?
    ensures Spared(DoRemoveLive(s, pid).value)
  {
    PartNames();
  }

  lemma StepKeepsSpared(s: State, a: Action)
    requires Inv(s) && Spared(s) && FindsEmmc(s, a) && Step(s, a).Some?
    ensures Spared(Step(s, a).value)
  {
    hide Inv, Spared, Aside, DoLock, DoEmmcLock, DoNewCheck, DoNewCheckFails, DoReadFails, DoClearOne, DoClearDone,
         DoWriteFile, DoFinishCheck, DoFinishTmp, DoFinishRename, DoDrop, DoReadRecord, DoApplyReadRecord,
         DoApplyLockEmmc, DoApplySettings, DoApplyRename, DoApplySkip, DoRemoveDiscard, DoRemoveLive, DoEnd;
    match a
    case ApplyRename(pid) => RenameKeepsSpared(s, pid);
    case RemoveLive(pid) => RemoveLiveKeepsSpared(s, pid);
    case RemoveLock(pid) => EmmcLockKeepsSpared(s, pid, RemoveLocked);
    case QemuStart(pid) => EmmcLockKeepsSpared(s, pid, Qemu(s.disk.live[Emmc]));
    case RemoveDiscard(pid) => DiscardKeepsSpared(s, pid);
    case ClearDone(pid) => ClearDoneKeepsSpared(s, pid);
    case _ => OtherKeepsSpared(s, a);
  }

  lemma OtherKeepsSpared(s: State, a: Action)
    requires Spared(s) && Other(a) && Step(s, a).Some?
    ensures Spared(Step(s, a).value)
  {
    hide Spared, Aside, Step;
    if InstallStep(a) || a.End? {
      InstallIsAside(s, a);
    } else {
      CallIsAside(s, a);
    }
    AsideKeepsSpared(s, Step(s, a).value, a.pid);
  }

  lemma SafeRunSpares(s: State, acts: seq<Action>)
    requires Init(s) && Guarded(Step, SafeAndLocked, s, acts) && Exec(Step, s, acts).Some?
    ensures Inv(Exec(Step, s, acts).value) && Spared(Exec(Step, s, acts).value)
  {
    hide Step, Inv, Spared, Safe, FindsEmmc;
    StartsSpared(s);
    forall t, a | Inv(t) && Spared(t) && SafeAndLocked(t, a) && Step(t, a).Some?
      ensures Inv(Step(t, a).value) && Spared(Step(t, a).value)
    {
      StepKeepsInv(t, a);
      StepKeepsSpared(t, a);
    }
    RunKeeps(Step, SafeAndLocked, t => Inv(t) && Spared(t), s, acts);
  }

  lemma StartsSpared(s: State)
    requires Init(s)
    ensures Inv(s) && Spared(s)
  {
  }

  // ----- main results -----

  /** In every safe run whose removals each begin with an eMMC to lock, a running QEMU's image stays the
      slot's live eMMC: no apply replaces it and no removal deletes it. */
  lemma RunningEmmcStaysLive(s: State, acts: seq<Action>, t: State, q: Pid)
    requires Init(s) && Guarded(Step, SafeAndLocked, s, acts) && Exec(Step, s, acts) == Some(t)
    requires q in t.procs && t.procs[q].Qemu?
    ensures Emmc in t.disk.live && t.disk.live[Emmc] == t.procs[q].emmc
  {
    hide Step, Inv, Exec, Guarded;
    SafeRunSpares(s, acts);
  }

  /** A removal is refused while a QEMU runs on the slot. */
  lemma RemovalIsRefused(s: State, acts: seq<Action>, t: State, q: Pid, pid: Pid)
    requires Init(s) && Guarded(Step, SafeAndLocked, s, acts) && Exec(Step, s, acts) == Some(t)
    requires q in t.procs && t.procs[q].Qemu?
    ensures Step(t, RemoveLock(pid)).None?
  {
    hide Inv, Exec, Guarded, SafeAndLocked;
    SafeRunSpares(s, acts);
  }

  /** A removal that gets to its last deletion leaves none of the three live files. */
  lemma RemovalEmptiesTheSlot(s: State, acts: seq<Action>, t: State, pid: Pid)
    requires Init(s) && Guarded(Step, SafeAndLocked, s, acts) && Exec(Step, s, acts) == Some(t)
    requires At(t, pid, RemovingLive(2))
    ensures Step(t, RemoveLive(pid)).Some? && Step(t, RemoveLive(pid)).value.disk.live == map[]
  {
    hide Inv, Exec, Guarded, SafeAndLocked;
    SafeRunSpares(s, acts);
    PartNames();
    var u := Step(t, RemoveLive(pid)).value;
    forall p: Part ensures p !in u.disk.live {
      match p case Kernel => case Initramfs => case Emmc =>
    }
  }

  // ----- a removal that found no eMMC -----

  /** A whole install into an empty slot while removal `r` of that slot is under way. */
  lemma InstallBeside(s: State, r: Pid) returns (t: State)
    requires Init(s) && Emmc !in s.disk.live && r != 1
    ensures Leads(Step, Safe, s, t)
    ensures var id := s.nextInstall;
            t == s.(procs := map[r := RemoveLocked], nextInstall := id + 1,
                    disk := s.disk.(staged := map[Kernel := id, Initramfs := id, Emmc := id], record := Some(id)))
  {
    hide Exec, Step, Guarded, Leads;
    var id := s.nextInstall;
    var a, u := BeginRemoval(s, r);
    RunLeads(s, a, u);
    var b, v := BeginInstall(u, 1);
    RunLeads(u, b, v);
    var c, w := FinishInstall(v, 1, id);
    RunLeads(v, c, w);
    LeadsOnward(Step, Safe, s, u, v);
    LeadsOnward(Step, Safe, s, v, w);
    t := w;
    assert t.procs == map[r := RemoveLocked];
    assert t.emmcLocks == s.emmcLocks;
  }

  /** A run of quiet steps. */
  lemma RunLeads(s: State, acts: seq<Action>, t: State)
    requires Exec(Step, s, acts) == Some(t) && Quiet(acts)
    ensures Leads(Step, Safe, s, t)
  {
    hide Exec, Step;
    QuietIsSafe(s, acts);
  }

  /** That install is applied: there was no eMMC to lock. */
  lemma ApplyBeside(s: State, q: Pid) returns (t: State)
    requires s.stagingLock.None? && s.claim == Some(q) && q !in s.procs && Emmc !in s.disk.live
    requires s.disk.record.Some? && s.disk.tmp.None? && AllFrom(s.disk.staged, s.disk.record.value)
    ensures Leads(Step, Safe, s, t)
    ensures AllFrom(t.disk.live, s.disk.record.value)
    ensures t == s.(disk := t.disk, applied := t.applied, emmcLocks := t.emmcLocks) && DirEmpty(t.disk)
    ensures forall f :: f in t.emmcLocks ==> f in s.emmcLocks
  {
    hide Exec, Step, Guarded, Leads, Renamed, AllFrom, Whole, Safe;
    var id := s.disk.record.value;
    var v := SettingsRun(s, q);
    StagedIsWhole(v.disk, id);
    var x := RenamesRun(v, q, id);
    LeadsOnward(Step, Safe, s, v, x);
    t := x;
    assert t.procs == s.procs;
  }

  lemma SettingsRun(s: State, q: Pid) returns (t: State)
    requires s.stagingLock.None? && s.claim == Some(q) && q !in s.procs && Emmc !in s.disk.live && s.disk.tmp.None?
    requires s.disk.record.Some?
    ensures Leads(Step, Safe, s, t)
    ensures t == Goto(s, q, Renaming(s.disk.record.value, 0)).(
                 stagingLock := Some(q), disk := s.disk.(settings := s.disk.record))
  {
    hide Exec, Step, Leads, Safe;
    var a, u := ReadWaitingInstall(s, q);
    RunLeads(s, a, u);
    var b, v := SettingsBeside(u, q, s.disk.record.value);
    RunLeads(u, b, v);
    LeadsOnward(Step, Safe, s, u, v);
    t := v;
  }

  lemma RenamesRun(s: State, q: Pid, id: Install) returns (t: State)
    requires At(s, q, Renaming(id, 0)) && s.disk.tmp.None? && s.disk.record.Some? && s.stagingLock == Some(q)
    requires Whole(s.disk, id)
    ensures Leads(Step, Safe, s, t)
    ensures AllFrom(t.disk.live, id) && DirEmpty(t.disk)
    ensures t == Leave(s, q).(disk := t.disk, applied := t.applied)
  {
    hide Exec, Step, Leads, Renamed, AllFrom, Whole, Safe;
    var c, w := RenameAll(s, q, id);
    RunLeads(s, c, w);
    RenameThrice(s.disk, id);
    var d, x := ReturnRecord(w, q, id);
    RunLeads(w, d, x);
    LeadsOnward(Step, Safe, s, w, x);
    t := x;
  }

  lemma StagedIsWhole(d: Disk, id: Install)
    requires AllFrom(d.staged, id)
    ensures Whole(d, id)
  {
  }

  lemma SettingsBeside(s: State, q: Pid, r: Install) returns (acts: seq<Action>, t: State)
    requires At(s, q, ApplyRead(r)) && Emmc !in s.disk.live
    ensures Exec(Step, s, acts) == Some(t) && Quiet(acts)
    ensures t == Goto(s, q, Renaming(r, 0)).(disk := s.disk.(settings := Some(r)))
  {
    hide Exec;
    NoSteps<State, Action>(Step, s);
    acts, t := Then(Step, s, [], s, ApplyLockEmmc(q));
    acts, t := Then(Step, s, acts, t, ApplySettings(q));
  }

  /** The removal goes on with a QEMU running on what was installed meanwhile. */
  lemma RemoveBeside(s: State, r: Pid, q: Pid) returns (t: State)
    requires At(s, r, RemoveLocked) && q in s.procs && q != r && s.stagingLock.None? && DirEmpty(s.disk)
    ensures Leads(Step, Safe, s, t)
    ensures t.disk.live == map[] && t.emmcLocks == s.emmcLocks && q in t.procs && t.procs[q] == s.procs[q]
  {
    hide Leads;
    LeadsNowhere<State, Action>(Step, Safe, s);
    LeadsOn(Step, Safe, s, s, RemoveDiscard(r));
    var u := Goto(s, r, DiscardClearing).(stagingLock := Some(r));
    LeadsOn(Step, Safe, s, u, ClearDone(r));
    var v := Goto(u, r, RemovingLive(0)).(stagingLock := None);
    t := DeleteAll(v, r);
    LeadsOnward(Step, Safe, s, v, t);
  }

  lemma DeleteOne(s: State, r: Pid, n: nat) returns (t: State)
    requires At(s, r, RemovingLive(n)) && n < 3 && s.stagingLock.None? && s.disk.record.None?
    ensures Leads(Step, Safe, s, t)
    ensures t == Goto(s, r, RemovingLive(n + 1)).(disk := s.disk.(live := s.disk.live - {PARTS[n]}))
  {
    hide Leads;
    LeadsNowhere<State, Action>(Step, Safe, s);
    LeadsOn(Step, Safe, s, s, RemoveLive(r));
    t := Step(s, RemoveLive(r)).value;
  }

  lemma DeleteAll(s: State, r: Pid) returns (t: State)
    requires At(s, r, RemovingLive(0)) && s.stagingLock.None? && s.disk.record.None?
    ensures Leads(Step, Safe, s, t)
    ensures t == s.(procs := t.procs, disk := s.disk.(live := map[]))
    ensures forall q :: q in s.procs && q != r ==> q in t.procs && t.procs[q] == s.procs[q]
  {
    hide Leads, Step, Safe;
    PartNames();
    var u := DeleteOne(s, r, 0);
    var v := DeleteOne(u, r, 1);
    t := DeleteOne(v, r, 2);
    LeadsOnward(Step, Safe, s, u, v);
    LeadsOnward(Step, Safe, s, v, t);
    forall p: Part ensures p !in t.disk.live {
      match p case Kernel => case Initramfs => case Emmc =>
    }
    assert t.disk.live == map[];
  }

  /** The guard is needed: from every initial state without an eMMC, a run of safe steps lets a removal
      begin with nothing to lock, an install finish and be applied, a QEMU start on it, and the
      removal delete that QEMU's image, whose lock it still holds. */
  lemma RemovalDeletesARunningImage(s: State) returns (t: State, q: Pid)
    requires Init(s) && Emmc !in s.disk.live
    ensures Leads(Step, Safe, s, t)
    ensures var id := s.nextInstall;
            && q in t.procs && t.procs[q] == Qemu(id) && id in t.emmcLocks && t.emmcLocks[id] == q
            && Emmc !in t.disk.live
  {
    hide Leads, Init, Step, Safe, Leave;
    var id := s.nextInstall;
    var u := InstallBeside(s, 3);
    StartsUnclaimed(s);
    var v := Claimed(s, u, 2);
    var w := ApplyBeside(v, 2);
    LeadsOnward(Step, Safe, s, v, w);
    q := 4;
    var x := QemuBeside(s, w, q, id);
    t := RemoveBeside(x, 3, q);
    LeadsOnward(Step, Safe, s, x, t);
  }

  lemma Claimed(s: State, u: State, q: Pid) returns (v: State)
    requires Leads(Step, Safe, s, u) && u.claim.None?
    ensures Leads(Step, Safe, s, v) && v == u.(claim := Some(q))
  {
    hide Leads;
    LeadsOn(Step, Safe, s, u, TakeClaim(q));
    v := u.(claim := Some(q));
  }

  lemma QemuBeside(s: State, w: State, q: Pid, id: Install) returns (x: State)
    requires Leads(Step, Safe, s, w) && q !in w.procs && Emmc in w.disk.live && w.disk.live[Emmc] == id
    requires w.emmcLocks == map[]
    ensures Leads(Step, Safe, s, x) && x == Goto(w, q, Qemu(id)).(emmcLocks := map[id := q])
  {
    hide Leads;
    LeadsOn(Step, Safe, s, w, QemuStart(q));
    x := Step(w, QemuStart(q)).value;
  }

  lemma StartsUnclaimed(s: State)
    requires Init(s)
    ensures s.claim.None? && s.stagingLock.None? && s.emmcLocks == map[] && s.disk.tmp.None?
  {
  }
}
