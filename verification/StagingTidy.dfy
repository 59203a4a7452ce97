/** What the calls on the staging directory leave in it when no process dies inside one. */
module StagingTidy {
  import opened Optional
  import opened Runs
  import opened Staging
  import opened StagingLaws

  /** No process ends inside a call that holds the staging lock. */
  ghost predicate SafeAndAlive(s: State, a: Action) {
    Safe(s, a) && (a.End? ==> s.stagingLock != Some(a.pid))
  }

  /** Between two calls there is a finished install, or nothing at all. */
  predicate Tidy(s: State) {
    s.stagingLock.None? ==> s.disk.record.Some? || DirEmpty(s.disk)
  }

  lemma InstallKeepsTidy(s: State, a: Action)
    requires Inv(s) && Tidy(s) && SafeAndAlive(s, a) && Step(s, a).Some? && InstallStep(a)
    ensures Tidy(Step(s, a).value)
  {
    hide InDir, Provisioned, Delete, Consistent, Whole, EmmcOurs;
  }

  lemma EntryKeepsTidy(s: State, a: Action)
    requires Tidy(s) && Step(s, a).Some? && EntryStep(a)
    ensures Tidy(Step(s, a).value)
  {
    hide DirEmpty, Provisioned;
  }

  lemma ApplyKeepsTidy(s: State, a: Action)
    requires Inv(s) && Tidy(s) && Step(s, a).Some? && ApplyStep(a)
    ensures Tidy(Step(s, a).value)
  {
    hide DirEmpty, LockEmmc, Rename, Consistent, Whole, EmmcOurs;
  }

  lemma CallKeepsTidy(s: State, a: Action)
    requires Inv(s) && Tidy(s) && Step(s, a).Some? && !InstallStep(a) && !EntryStep(a) && !ApplyStep(a)
    ensures Tidy(Step(s, a).value)
  {
    hide Provisioned, Consistent, Whole, EmmcOurs;
  }

  /** An install given up before it finished leaves no file of itself behind, and neither does a reader or
      an apply that found no record: in every safe run in which no process dies inside a call, whenever
      the staging lock is free the directory holds a finished install's record or is empty. */
  lemma CallsLeaveNoRest(s: State, acts: seq<Action>, t: State)
    requires Init(s) && Guarded(Step, SafeAndAlive, s, acts) && Exec(Step, s, acts) == Some(t)
    requires t.stagingLock.None?
    ensures t.disk.record.Some? || DirEmpty(t.disk)
  {
    hide Step, Inv, Safe;
    StartsTidy(s);
    forall u, a | Inv(u) && Tidy(u) && SafeAndAlive(u, a) && Step(u, a).Some?
      ensures Inv(Step(u, a).value) && Tidy(Step(u, a).value)
    {
      StepKeepsInv(u, a);
      StepKeepsTidy(u, a);
    }
    RunKeeps(Step, SafeAndAlive, u => Inv(u) && Tidy(u), s, acts);
  }

  lemma StepKeepsTidy(s: State, a: Action)
    requires Inv(s) && Tidy(s) && SafeAndAlive(s, a) && Step(s, a).Some?
    ensures Tidy(Step(s, a).value)
  {
    hide Step, Inv, Tidy, SafeAndAlive;
    if InstallStep(a) {
      InstallKeepsTidy(s, a);
    } else if EntryStep(a) {
      EntryKeepsTidy(s, a);
    } else if ApplyStep(a) {
      ApplyKeepsTidy(s, a);
    } else {
      CallKeepsTidy(s, a);
    }
  }

  lemma StartsTidy(s: State)
    requires Init(s)
    ensures Inv(s) && Tidy(s)
  {
  }
}
