/** What wait and kill do, in every run of the process machine: whoever sleeps in wait has a
    child, and wait gives up, returns or sleeps exactly as its children say. */
module ProcWait {
  import opened Common
  import opened ProcMachine
  import opened ProcInv
  import opened ProcTheorems

  /** Whoever sleeps in wait, or is about to, has a child to wait for. */
  ghost predicate WaitersHaveKids(s: State) {
    forall p: nat | p < |s.procs| && WaitAsleep(s.procs[p], p) :: HasKids(s.procs, p)
  }

  ghost predicate KidsStay(s: State, s': State, p: nat)
    requires |s'.procs| == |s.procs|
  {
    forall z: nat | z < |s.procs| && s.procs[z].parent == Some(p) :: s'.procs[z].parent == Some(p)
  }

  lemma StillKids(s: State, s': State)
    requires WaitersHaveKids(s) && |s'.procs| == |s.procs|
    requires forall p: nat | p < |s'.procs| && WaitAsleep(s'.procs[p], p) ::
               (WaitAsleep(s.procs[p], p) || HasKids(s.procs, p)) && KidsStay(s, s', p)
    ensures WaitersHaveKids(s')
  {
    forall p: nat | p < |s'.procs| && WaitAsleep(s'.procs[p], p) ensures HasKids(s'.procs, p) {
      assert KidsStay(s, s', p);
      var z: nat :| z < |s.procs| && s.procs[z].parent == Some(p);
      assert s'.procs[z].parent == Some(p);
    }
  }

  /** Nobody's parent changes and nobody comes to wait. */
  ghost predicate Calm(s: State, s': State) {
    && |s'.procs| == |s.procs|
    && forall p: nat | p < |s.procs| ::
         s'.procs[p].parent == s.procs[p].parent && (WaitAsleep(s'.procs[p], p) ==> WaitAsleep(s.procs[p], p))
  }

  lemma CalmKids(s: State, s': State)
    requires WaitersHaveKids(s) && Calm(s, s')
    ensures WaitersHaveKids(s')
  {
    hide WaitAsleep;
    hide HasKids;
    StillKids(s, s');
  }

  lemma SchedCalm(s: State, c: nat, a: Action)
    requires c < |s.cpus| && s.cpus[c].ctx.Sched? && CanSched(s, c, a)
    ensures Calm(s, DoSched(s, c, a))
  {
  }

  lemma SpinCalm(s: State, c: nat, p: nat, a: Action)
    requires Shape(s) && Runs(s, c, p) && CanSpin(s, c, p, a)
    ensures Calm(s, DoSpin(s, c, p, a))
  {
    assert PcOk(|s.locks|, |s.procs|, s.procs[p].pc);
  }

  lemma CtlCalm(s: State, c: nat, p: nat, a: Action)
    requires Runs(s, c, p) && CanCtl(s, c, p, a)
    ensures Calm(s, DoCtl(s, c, p, a))
  {
  }

  lemma LockCalm(s: State, p: nat, a: Action)
    requires p < |s.procs| && CanLock(s, p, a)
    ensures Calm(s, DoLock(s, p, a))
  {
  }

  /** Who runs a body of wait or exit is not asleep. */
  lemma Awake(s: State, c: nat, p: nat)
    requires Scheduling(s) && Runs(s, c, p)
    ensures !InSched(s.procs[p].pc) ==> s.procs[p].state == RUNNING
  {
    assert ProcFits(s.procs[p], p);
    assert s.procs[p].on == Some(c) <==> Occupies(s, c, p);
  }

  lemma ReapKids(s: State, p: nat, z: nat)
    requires WaitersHaveKids(s) && p < |s.procs| && CanWait(s, p, WaitReap(z)) && s.procs[p].state == RUNNING
    ensures WaitersHaveKids(DoWait(s, p, WaitReap(z)))
  {
    var s' := DoWait(s, p, WaitReap(z));
    assert !WaitAsleep(s'.procs[p], p);
    hide HasKids;
    StillKids(s, s');
  }

  lemma ReparentKids(s: State, p: nat)
    requires WaitersHaveKids(s) && p < |s.procs| && CanWait(s, p, Reparent) && s.procs[p].state == RUNNING
    ensures WaitersHaveKids(DoWait(s, p, Reparent))
  {
    var s' := DoWait(s, p, Reparent);
    assert !WaitAsleep(s'.procs[p], p);
    hide HasKids;
    hide HasZombie;
    StillKids(s, s');
  }

  lemma WaitKids(s: State, p: nat, a: Action)
    requires WaitersHaveKids(s) && p < |s.procs| && CanWait(s, p, a) && s.procs[p].state == RUNNING
    ensures WaitersHaveKids(DoWait(s, p, a))
  {
    hide HasZombie;
    hide Reparented;
    if a.WaitReap? {
      ReapKids(s, p, a.z);
    } else if a.Reparent? {
      ReparentKids(s, p);
    } else if a.WaitNone? {
      hide HasKids;
      StillKids(s, DoWait(s, p, a));
    } else {
      hide HasKids;
      CalmKids(s, DoWait(s, p, a));
    }
  }

  lemma CopyKids(s: State, p: nat)
    requires WaitersHaveKids(s) && Building(s) && p < |s.procs| && CanFork(s, p, CopyOk) && s.procs[p].state == RUNNING
    ensures WaitersHaveKids(DoFork(s, p, CopyOk))
  {
    hide HasKids;
    var np, s' := s.procs[p].pc.np, DoFork(s, p, CopyOk);
    assert Child(s.procs[p].pc) == Some(np) && s.procs[np].parent == None;
    hide Building;
    StillKids(s, s');
  }

  lemma ForkCalm(s: State, p: nat, a: Action)
    requires p < |s.procs| && CanFork(s, p, a) && s.procs[p].state == RUNNING && !a.CopyOk?
    ensures Calm(s, DoFork(s, p, a))
  {
  }

  lemma ForkKids(s: State, p: nat, a: Action)
    requires WaitersHaveKids(s) && Building(s) && p < |s.procs| && CanFork(s, p, a) && s.procs[p].state == RUNNING
    ensures WaitersHaveKids(DoFork(s, p, a))
  {
    hide WaitersHaveKids;
    hide Building;
    hide Calm;
    if a.CopyOk? {
      CopyKids(s, p);
    } else {
      ForkCalm(s, p, a);
      CalmKids(s, DoFork(s, p, a));
    }
  }

  /** Every step of every CPU keeps a child for whoever waits. */
  lemma StepKids(s: State, c: nat, a: Action)
    requires Inv(s) && WaitersHaveKids(s) && Enabled(s, c, a)
    ensures WaitersHaveKids(Step(s, c, a))
  {
    hide Locking;
    hide Interrupting;
    hide Scheduling;
    hide NoLostWakeup;
    hide Owning;
    hide NoLostExit;
    hide Building;
    hide Tree;
    hide Pids;
    hide WaitersHaveKids;
    hide Calm;
    if s.cpus[c].ctx.Sched? {
      SchedCalm(s, c, a);
      CalmKids(s, DoSched(s, c, a));
    } else {
      var p := s.cpus[c].ctx.p;
      if IsSpin(a) {
        SpinCalm(s, c, p, a);
        CalmKids(s, DoSpin(s, c, p, a));
      } else if IsLock(a) {
        LockCalm(s, p, a);
        CalmKids(s, DoLock(s, p, a));
      } else if IsWait(a) {
        WaitStart(s, c, p, a);
        WaitKids(s, p, a);
      } else if IsFork(a) {
        ForkRuns(s, c, p, a);
        ForkKids(s, p, a);
      } else {
        CtlCalm(s, c, p, a);
        CalmKids(s, DoCtl(s, c, p, a));
      }
    }
  }

  lemma WaitStart(s: State, c: nat, p: nat, a: Action)
    requires Scheduling(s) && Runs(s, c, p) && CanWait(s, p, a)
    ensures s.procs[p].state == RUNNING
  {
    Awake(s, c, p);
  }

  lemma ForkRuns(s: State, c: nat, p: nat, a: Action)
    requires Scheduling(s) && Runs(s, c, p) && CanFork(s, p, a)
    ensures s.procs[p].state == RUNNING
  {
    Awake(s, c, p);
  }

  // ------------------------------------------------------------- what a step does

  /** Thread p comes out of wait's scan: with -1, only if it has no child or is killed, and no
      child of it has exited; or with the pid of a child that had exited, whose slot is then
      free; or it goes to sleep, only if it has a child and none has exited. */
  ghost predicate WaitAnswers(s: State, s': State, p: nat)
    requires p < |s.procs| && p < |s'.procs|
  {
    s.procs[p].pc.WaitScan? && !s'.procs[p].pc.WaitScan? ==>
      || (&& s'.procs[p].pc.DropPt? && s'.reaped == s.reaped
          && !HasZombie(s.procs, p) && (!HasKids(s.procs, p) || s.procs[p].killed))
      || (s'.procs[p].pc.DropPt? && exists z: nat :: Reaps(s, s', p, z))
      || (&& s'.procs[p].pc.WaitMark? && s'.reaped == s.reaped
          && !HasZombie(s.procs, p) && HasKids(s.procs, p) && !s.procs[p].killed)
  }

  ghost predicate Reaps(s: State, s': State, p: nat, z: nat) {
    && ZombieChild(s.procs, p, z) && s'.reaped == s.reaped + [s.procs[z].pid]
    && z < |s'.procs| && s'.procs[z].state == UNUSED && s'.procs[z].parent == None && s'.procs[z].pid == 0
    && !s'.procs[z].killed
  }

  /** A pid is returned only by its parent's wait. */
  ghost predicate OnlyWaitReaps(s: State, s': State) {
    s'.reaped == s.reaped || exists p: nat, z: nat :: p < |s.procs| && s.procs[p].pc.WaitScan? && Reaps(s, s', p, z)
  }

  /** A process that has just been killed is not asleep. */
  ghost predicate KillWakes(s: State, s': State) {
    forall q: nat | q < |s.procs| && q < |s'.procs| && s'.procs[q].killed && !s.procs[q].killed ::
      s'.procs[q].state != SLEEPING
  }

  /** What a kill that is under way comes to. */
  ghost predicate KillActs(s: State, s': State, p: nat)
    requires p < |s.procs| && p < |s'.procs|
  {
    s.procs[p].pc.KillAct? && !s'.procs[p].pc.KillAct? ==>
      && s.procs[p].pc.target < |s'.procs|
      && s'.procs[s.procs[p].pc.target].killed && s'.procs[s.procs[p].pc.target].state != SLEEPING
  }

  ghost predicate Answers(s: State, s': State) {
    && |s'.procs| == |s.procs| && OnlyWaitReaps(s, s') && KillWakes(s, s')
    && forall p: nat | p < |s.procs| :: WaitAnswers(s, s', p) && KillActs(s, s', p)
  }

  /** Nothing that concerns wait or kill happens. */
  ghost predicate Silent(s: State, s': State) {
    && |s'.procs| == |s.procs| && s'.reaped == s.reaped
    && forall p: nat | p < |s.procs| ::
         && s'.procs[p].killed == s.procs[p].killed
         && (s.procs[p].pc.WaitScan? || s.procs[p].pc.KillAct? ==> s'.procs[p].pc == s.procs[p].pc)
  }

  lemma SilentAnswers(s: State, s': State)
    requires Silent(s, s')
    ensures Answers(s, s')
  {
    hide HasZombie;
    hide HasKids;
    hide Reaps;
  }

  lemma SchedSilent(s: State, c: nat, a: Action)
    requires c < |s.cpus| && s.cpus[c].ctx.Sched? && CanSched(s, c, a)
    ensures Silent(s, DoSched(s, c, a))
  {
  }

  lemma SpinSilent(s: State, c: nat, p: nat, a: Action)
    requires Runs(s, c, p) && CanSpin(s, c, p, a)
    ensures Silent(s, DoSpin(s, c, p, a))
  {
  }

  lemma CtlSilent(s: State, c: nat, p: nat, a: Action)
    requires Runs(s, c, p) && CanCtl(s, c, p, a)
    ensures Silent(s, DoCtl(s, c, p, a))
  {
  }

  lemma LockSilent(s: State, p: nat, a: Action)
    requires p < |s.procs| && CanLock(s, p, a)
    ensures Silent(s, DoLock(s, p, a))
  {
  }

  lemma ReapAnswers(s: State, p: nat, z: nat)
    requires Fits(s) && p < |s.procs| && CanWait(s, p, WaitReap(z)) && s.procs[p].state == RUNNING
    ensures Answers(s, DoWait(s, p, WaitReap(z)))
  {
    var s' := DoWait(s, p, WaitReap(z));
    assert Reaps(s, s', p, z);
    assert !s.procs[z].pc.WaitScan? && !s.procs[z].pc.KillAct?;
    hide HasZombie;
    hide HasKids;
  }

  /** Every process's state fits its place in the code. */
  ghost predicate Fits(s: State) { forall p | 0 <= p < |s.procs| :: ProcFits(s.procs[p], p) }

  lemma WaitAnswersAll(s: State, p: nat, a: Action)
    requires Fits(s) && p < |s.procs| && CanWait(s, p, a) && s.procs[p].state == RUNNING
    ensures Answers(s, DoWait(s, p, a))
  {
    if a.WaitReap? {
      ReapAnswers(s, p, a.z);
    } else if a.WaitLeave? || a.WaitNone? {
      hide HasZombie;
      hide HasKids;
      hide Reaps;
    } else {
      hide Fits;
      hide HasZombie;
      SilentAnswers(s, DoWait(s, p, a));
    }
  }

  lemma KillAnswers(s: State, p: nat)
    requires p < |s.procs| && CanFork(s, p, Kill) && s.procs[p].state == RUNNING
    ensures Answers(s, DoFork(s, p, Kill))
  {
    hide HasZombie;
    hide HasKids;
    hide Reaps;
  }

  lemma ForkSilent(s: State, p: nat, a: Action)
    requires Fits(s) && p < |s.procs| && CanFork(s, p, a) && !a.Kill?
    requires a.CopyFail? ==> s.procs[s.procs[p].pc.np].state == EMBRYO
    ensures Silent(s, DoFork(s, p, a))
  {
    if a.CopyFail? { assert ProcFits(s.procs[s.procs[p].pc.np], s.procs[p].pc.np); }
    if a.AllocProc? { assert ProcFits(s.procs[a.np], a.np); }
  }

  lemma ForkAnswers(s: State, p: nat, a: Action)
    requires Fits(s) && Building(s) && p < |s.procs| && CanFork(s, p, a) && s.procs[p].state == RUNNING
    ensures Answers(s, DoFork(s, p, a))
  {
    hide Fits;
    hide Answers;
    hide Silent;
    if a.Kill? {
      KillAnswers(s, p);
    } else {
      if a.CopyFail? { assert Child(s.procs[p].pc) == Some(s.procs[p].pc.np); }
      hide Building;
      ForkSilent(s, p, a);
      SilentAnswers(s, DoFork(s, p, a));
    }
  }

  /** What every step of every CPU means for wait and kill. */
  lemma StepAnswers(s: State, c: nat, a: Action)
    requires Inv(s) && Enabled(s, c, a)
    ensures Answers(s, Step(s, c, a))
  {
    hide Locking;
    hide Interrupting;
    hide NoLostWakeup;
    hide Owning;
    hide NoLostExit;
    hide Building;
    hide Tree;
    hide Pids;
    hide Answers;
    hide Silent;
    assert Fits(s);
    hide Fits;
    hide ProcFits;
    hide Scheduling;
    if s.cpus[c].ctx.Sched? {
      SchedSilent(s, c, a);
      SilentAnswers(s, DoSched(s, c, a));
    } else {
      var p := s.cpus[c].ctx.p;
      if IsSpin(a) {
        SpinSilent(s, c, p, a);
        SilentAnswers(s, DoSpin(s, c, p, a));
      } else if IsLock(a) {
        LockSilent(s, p, a);
        SilentAnswers(s, DoLock(s, p, a));
      } else if IsWait(a) {
        WaitStart(s, c, p, a);
        WaitAnswersAll(s, p, a);
      } else if IsFork(a) {
        ForkRuns(s, c, p, a);
        ForkAnswers(s, p, a);
      } else {
        CtlSilent(s, c, p, a);
        SilentAnswers(s, DoCtl(s, c, p, a));
      }
    }
  }

  // ------------------------------------------------------------------ over runs

  lemma {:induction false} RunKids(nprocs: nat, ncpus: nat, nlocks: nat, es: Schedule)
    requires IsRun(nprocs, ncpus, nlocks, es)
    ensures WaitersHaveKids(After(Init(nprocs, ncpus, nlocks), es))
    decreases |es|
  {
    hide Inv;
    hide WaitersHaveKids;
    if es == [] {
      InitKids(nprocs, ncpus, nlocks);
    } else {
      hide Init;
      var n := |es| - 1;
      RunKids(nprocs, ncpus, nlocks, es[..n]);
      RunInv(nprocs, ncpus, nlocks, es[..n]);
      StepKids(After(Init(nprocs, ncpus, nlocks), es[..n]), es[n].0, es[n].1);
    }
  }

  lemma InitKids(nprocs: nat, ncpus: nat, nlocks: nat)
    requires nprocs > 0
    ensures WaitersHaveKids(Init(nprocs, ncpus, nlocks))
  {
    hide HasKids;
  }

  /** wait and kill, for any number of processes and CPUs and any schedule: nobody sleeps in
      wait without a child, and the last step, whatever it was, answered a wait as its children
      say, returned a pid only to the parent, and left nobody asleep whom it killed. */
  lemma WaitsAreRight(nprocs: nat, ncpus: nat, nlocks: nat, es: Schedule)
    requires IsRun(nprocs, ncpus, nlocks, es)
    ensures WaitersHaveKids(After(Init(nprocs, ncpus, nlocks), es))
    ensures |es| > 0 ==>
              var before := es[..|es| - 1];
              Answers(After(Init(nprocs, ncpus, nlocks), before), After(Init(nprocs, ncpus, nlocks), es))
  {
    hide Inv;
    hide Init;
    hide Answers;
    RunKids(nprocs, ncpus, nlocks, es);
    if |es| > 0 {
      var n := |es| - 1;
      RunInv(nprocs, ncpus, nlocks, es[..n]);
      StepAnswers(After(Init(nprocs, ncpus, nlocks), es[..n]), es[n].0, es[n].1);
    }
  }
}
