/** What fork, a timer interrupt, a wakeup and the sleep-lock calls do, in every run of the
    process machine. */
module ProcCalls {
  import opened Common
  import opened ProcMachine
  import opened ProcInv
  import opened ProcProofs
  import opened ProcTheorems
  import opened ProcWait

  ghost predicate Yields(pc: Pc) {
    pc.YieldWant? || pc.YieldMark? || pc.YieldSwtch? || pc.YieldBack? || pc.YieldDrop?
  }

  /** A preempted thread goes back to where the interrupt came. */
  ghost predicate PreemptReturns(q: Proc, q': Proc) {
    Yields(q.pc) || Yields(q'.pc) ==> Base(q'.pc) == Base(q.pc)
  }

  /** fork finds no slot only if there is none, and gives the one it finds a new pid; the child
      it starts is its own. */
  ghost predicate ForkMakes(s: State, s': State, p: nat)
    requires p < |s.procs| == |s'.procs|
  {
    var pc, pc' := s.procs[p].pc, s'.procs[p].pc;
    && (pc.ForkAlloc? && !pc'.ForkAlloc? ==>
          if pc'.ForkDrop? then
            && pc'.np < |s.procs| && s.procs[pc'.np].state == UNUSED && s'.procs[pc'.np].state == EMBRYO
            && s'.procs[pc'.np].pid == s.nextpid && s'.nextpid == s.nextpid + 1
          else pc'.DropPt? && forall np | 0 <= np < |s.procs| :: s.procs[np].state != UNUSED)
    && (pc.ForkRun? && !pc'.ForkRun? ==>
          && pc.np < |s.procs| && s'.procs[pc.np].state == RUNNABLE && s'.procs[pc.np].parent == Some(p)
          && s'.procs[pc.np].pid == s.procs[pc.np].pid)
  }

  /** Thread p is about to wake the sleepers on chan. */
  ghost predicate Rouses(s: State, p: nat, chan: Chan) {
    && p < |s.procs|
    && var q := s.procs[p];
       || (q.pc.RelWake? && chan == LockChan(q.pc.l))
       || (q.pc.ExitWake? && q.parent.Some? && chan == ProcChan(q.parent.value))
       || (q.pc.ExitReparent? && HasZombie(s.procs, p) && chan == ProcChan(INIT))
  }

  /** A sleeper is woken only on its channel, or by a kill. */
  ghost predicate WokenFor(s: State, s': State, q: nat)
    requires q < |s.procs| == |s'.procs|
  {
    s.procs[q].state == SLEEPING && s'.procs[q].state != SLEEPING ==>
      && s'.procs[q].state == RUNNABLE
      && exists p: nat :: Rouses(s, p, s.procs[q].chan) || (p < |s.procs| && s.procs[p].pc == KillAct(q))
  }

  ghost predicate CallsRight(s: State, s': State) {
    && |s'.procs| == |s.procs|
    && forall p: nat | p < |s.procs| ::
         PreemptReturns(s.procs[p], s'.procs[p]) && ForkMakes(s, s', p) && WokenFor(s, s', p)
  }

  /** Thread p moves, inside no call of fork's, and keeps asleep if it was. */
  ghost predicate Plainly(q: Proc, q': Proc) {
    && PreemptReturns(q, q') && (q.pc.ForkAlloc? || q.pc.ForkRun? ==> q'.pc == q.pc)
    && (q.state == SLEEPING ==> q'.state == SLEEPING)
  }

  lemma SamePlainly(q: Proc)
    ensures Plainly(q, q)
  {
  }

  lemma PlainCalls(s: State, s': State)
    requires |s'.procs| == |s.procs| && forall p: nat | p < |s.procs| :: Plainly(s.procs[p], s'.procs[p])
    ensures CallsRight(s, s')
  {
    hide Rouses;
    hide PreemptReturns;
    forall p: nat | p < |s.procs|
      ensures PreemptReturns(s.procs[p], s'.procs[p]) && ForkMakes(s, s', p) && WokenFor(s, s', p)
    {
      assert Plainly(s.procs[p], s'.procs[p]);
    }
  }

  lemma OneCalls(s: State, s': State, p: nat)
    requires p < |s.procs| == |s'.procs| && s'.procs == s.procs[p := s'.procs[p]]
    requires Plainly(s.procs[p], s'.procs[p])
    ensures CallsRight(s, s')
  {
    hide Plainly;
    forall q: nat | q < |s.procs| ensures Plainly(s.procs[q], s'.procs[q]) {
      SamePlainly(s.procs[q]);
    }
    PlainCalls(s, s');
  }

  lemma SchedCalls(s: State, c: nat, a: Action)
    requires c < |s.cpus| && s.cpus[c].ctx.Sched? && CanSched(s, c, a)
    ensures CallsRight(s, DoSched(s, c, a))
  {
    PlainCalls(s, DoSched(s, c, a));
  }

  lemma SpinPlainly(s: State, c: nat, p: nat, a: Action)
    requires Shape(s) && Runs(s, c, p) && CanSpin(s, c, p, a)
    ensures var s' := DoSpin(s, c, p, a); s'.procs == s.procs[p := s'.procs[p]] && Plainly(s.procs[p], s'.procs[p])
  {
    assert PcOk(|s.locks|, |s.procs|, s.procs[p].pc);
  }

  lemma SpinCalls(s: State, c: nat, p: nat, a: Action)
    requires Shape(s) && Runs(s, c, p) && CanSpin(s, c, p, a)
    ensures CallsRight(s, DoSpin(s, c, p, a))
  {
    hide CallsRight;
    hide Plainly;
    hide DoSpin;
    SpinPlainly(s, c, p, a);
    OneCalls(s, DoSpin(s, c, p, a), p);
  }

  lemma CtlCalls(s: State, c: nat, p: nat, a: Action)
    requires Runs(s, c, p) && CanCtl(s, c, p, a) && (s.procs[p].state == SLEEPING ==> InSched(s.procs[p].pc))
    ensures CallsRight(s, DoCtl(s, c, p, a))
  {
    var s' := DoCtl(s, c, p, a);
    assert s'.procs == s.procs[p := s'.procs[p]] && Plainly(s.procs[p], s'.procs[p]);
    hide CallsRight;
    hide Plainly;
    hide DoCtl;
    OneCalls(s, s', p);
  }

  /** Some sleepers wake because thread p rouses them, and p itself moves. */
  ghost predicate Roused(s: State, s': State, p: nat) {
    && |s'.procs| == |s.procs| && p < |s.procs| && s.procs[p].state == RUNNING
    && Plainly(s.procs[p], s'.procs[p])
    && forall q: nat | q < |s.procs| && q != p ::
         && s'.procs[q].pc == s.procs[q].pc
         && (s'.procs[q].state == s.procs[q].state
             || (s.procs[q].state == SLEEPING && s'.procs[q].state == RUNNABLE && Rouses(s, p, s.procs[q].chan)))
  }

  lemma RousedCalls(s: State, s': State, p: nat)
    requires Roused(s, s', p)
    ensures CallsRight(s, s')
  {
    hide Rouses;
    forall q: nat | q < |s.procs|
      ensures PreemptReturns(s.procs[q], s'.procs[q]) && ForkMakes(s, s', q) && WokenFor(s, s', q)
    {
      if q == p { hide Base; }
    }
  }

  lemma LockCalls(s: State, p: nat, a: Action)
    requires p < |s.procs| && CanLock(s, p, a) && s.procs[p].state == RUNNING
    ensures CallsRight(s, DoLock(s, p, a))
  {
    var s' := DoLock(s, p, a);
    if a.WakeLock? {
      assert Roused(s, s', p);
      hide Roused;
      RousedCalls(s, s', p);
    } else {
      assert s'.procs == s.procs[p := s'.procs[p]] && Plainly(s.procs[p], s'.procs[p]);
      hide Plainly;
      OneCalls(s, s', p);
    }
  }

  lemma ExitCalls(s: State, p: nat, a: Action)
    requires p < |s.procs| && CanWait(s, p, a) && s.procs[p].state == RUNNING && (a.WakeParent? || a.Reparent?)
    ensures CallsRight(s, DoWait(s, p, a))
  {
    var s' := DoWait(s, p, a);
    hide HasZombie;
    assert Roused(s, s', p);
    hide Roused;
    RousedCalls(s, s', p);
  }

  lemma ReapCalls(s: State, p: nat, z: nat)
    requires p < |s.procs| && CanWait(s, p, WaitReap(z)) && s.procs[p].state == RUNNING && ProcFits(s.procs[z], z)
    ensures CallsRight(s, DoWait(s, p, WaitReap(z)))
  {
    var s' := DoWait(s, p, WaitReap(z));
    assert Plainly(s.procs[z], s'.procs[z]) && Plainly(s.procs[p], s'.procs[p]);
    hide Plainly;
    forall q: nat | q < |s.procs| ensures Plainly(s.procs[q], s'.procs[q]) {
      if q != p && q != z { SamePlainly(s.procs[q]); }
    }
    PlainCalls(s, s');
  }

  lemma WaitCalls(s: State, p: nat, a: Action)
    requires Fits(s) && p < |s.procs| && CanWait(s, p, a) && s.procs[p].state == RUNNING
    ensures CallsRight(s, DoWait(s, p, a))
  {
    hide CallsRight;
    if a.WaitReap? {
      assert ProcFits(s.procs[a.z], a.z);
      ReapCalls(s, p, a.z);
    } else if a.WakeParent? || a.Reparent? {
      ExitCalls(s, p, a);
    } else {
      hide HasZombie;
      hide HasKids;
      var s' := DoWait(s, p, a);
      assert s'.procs == s.procs[p := s'.procs[p]] && Plainly(s.procs[p], s'.procs[p]);
      hide Plainly;
      OneCalls(s, s', p);
    }
  }

  lemma AllocCalls(s: State, p: nat, np: nat)
    requires p < |s.procs| && CanFork(s, p, AllocProc(np)) && s.procs[p].state == RUNNING
    requires s.procs[np].pc.NoThread?
    ensures CallsRight(s, DoFork(s, p, AllocProc(np)))
  {
    hide Rouses;
  }

  lemma RunCalls(s: State, p: nat)
    requires p < |s.procs| && CanFork(s, p, RunChild) && s.procs[p].state == RUNNING && s.procs[p].pc.np != p
    requires var q := s.procs[s.procs[p].pc.np]; q.state == EMBRYO && q.pc.Fresh? && q.parent == Some(p)
    ensures CallsRight(s, DoFork(s, p, RunChild))
  {
    hide Rouses;
  }

  lemma KillCalls(s: State, p: nat)
    requires p < |s.procs| && CanFork(s, p, Kill) && s.procs[p].state == RUNNING
    ensures CallsRight(s, DoFork(s, p, Kill))
  {
    hide Rouses;
    var t := s.procs[p].pc.target;
    assert s.procs[p].pc == KillAct(t);
  }

  lemma FillCalls(s: State, p: nat, a: Action)
    requires p < |s.procs| && CanFork(s, p, a) && s.procs[p].state == RUNNING
    requires a.CopyFail? || a.CopyOk? || a.AllocNone?
    requires !a.AllocNone? ==> var np := s.procs[p].pc.np; s.procs[np].state == EMBRYO && s.procs[np].pc.Fresh?
    ensures CallsRight(s, DoFork(s, p, a))
  {
    hide Rouses;
  }

  lemma ForkCalls(s: State, p: nat, a: Action)
    requires Fits(s) && Building(s) && p < |s.procs| && CanFork(s, p, a) && s.procs[p].state == RUNNING
    ensures CallsRight(s, DoFork(s, p, a))
  {
    hide CallsRight;
    if a.AllocProc? {
      assert ProcFits(s.procs[a.np], a.np);
      AllocCalls(s, p, a.np);
    } else if a.Kill? {
      KillCalls(s, p);
    } else if a.AllocNone? {
      FillCalls(s, p, a);
    } else {
      var np := s.procs[p].pc.np;
      assert Child(s.procs[p].pc) == Some(np) && ProcFits(s.procs[np], np);
      if a.RunChild? { RunCalls(s, p); } else { FillCalls(s, p, a); }
    }
  }

  lemma CtlAwake(s: State, c: nat, p: nat)
    requires Scheduling(s) && Runs(s, c, p)
    ensures s.procs[p].state == SLEEPING ==> InSched(s.procs[p].pc)
  {
    Awake(s, c, p);
  }

  lemma LockRuns(s: State, c: nat, p: nat, a: Action)
    requires Scheduling(s) && Runs(s, c, p) && CanLock(s, p, a)
    ensures s.procs[p].state == RUNNING
  {
    Awake(s, c, p);
  }

  /** What every step of every CPU means for fork, preemption and wakeup. */
  lemma StepCalls(s: State, c: nat, a: Action)
    requires Inv(s) && Enabled(s, c, a)
    ensures CallsRight(s, Step(s, c, a))
  {
    hide Locking;
    hide Interrupting;
    hide NoLostWakeup;
    hide Owning;
    hide NoLostExit;
    hide Building;
    hide Tree;
    hide Pids;
    hide CallsRight;
    assert Fits(s);
    hide Fits;
    hide ProcFits;
    hide Scheduling;
    if s.cpus[c].ctx.Sched? {
      SchedCalls(s, c, a);
    } else {
      var p := s.cpus[c].ctx.p;
      if IsSpin(a) {
        SpinCalls(s, c, p, a);
      } else if IsLock(a) {
        LockRuns(s, c, p, a);
        LockCalls(s, p, a);
      } else if IsWait(a) {
        WaitStart(s, c, p, a);
        WaitCalls(s, p, a);
      } else if IsFork(a) {
        ForkRuns(s, c, p, a);
        ForkCalls(s, p, a);
      } else {
        CtlAwake(s, c, p);
        CtlCalls(s, c, p, a);
      }
    }
  }

  // ----------------------------------------------------------------- sleep-locks

  ghost predicate RelEnds(pc: Pc) { pc.RelWantPt? || pc.RelWake? || pc.RelDropPt? || pc.RelExit? }

  /** acquiresleep comes to its end only with the lock, releasesleep only without; and a process
      has a channel only from falling asleep until sleep goes on. */
  ghost predicate HoldFits(q: Proc) {
    && (q.pc.AcqExit? ==> q.pc.l in q.held) && (RelEnds(q.pc) ==> q.pc.l !in q.held)
    && (q.chan.NoChan? || q.pc.SlpSwtch? || q.pc.SlpBack? || q.pc.WaitSwtch? || q.pc.WaitBack?)
  }

  ghost predicate HoldsFit(s: State) { forall p: nat | p < |s.procs| :: HoldFits(s.procs[p]) }

  lemma SchedHolds(s: State, c: nat, a: Action)
    requires HoldsFit(s) && c < |s.cpus| && s.cpus[c].ctx.Sched? && CanSched(s, c, a)
    ensures HoldsFit(DoSched(s, c, a))
  {
  }

  lemma SpinHoldFits(s: State, c: nat, p: nat, a: Action)
    requires Shape(s) && HoldsFit(s) && Runs(s, c, p) && CanSpin(s, c, p, a)
    ensures HoldsFit(DoSpin(s, c, p, a))
  {
    assert PcOk(|s.locks|, |s.procs|, s.procs[p].pc) && HoldFits(s.procs[p]);
  }

  lemma CtlHoldFits(s: State, c: nat, p: nat, a: Action)
    requires HoldsFit(s) && Runs(s, c, p) && CanCtl(s, c, p, a)
    ensures HoldsFit(DoCtl(s, c, p, a))
  {
  }

  lemma LockHoldFits(s: State, p: nat, a: Action)
    requires HoldsFit(s) && p < |s.procs| && CanLock(s, p, a)
    ensures HoldsFit(DoLock(s, p, a))
  {
    assert HoldFits(s.procs[p]);
  }

  lemma WaitHoldFits(s: State, p: nat, a: Action)
    requires HoldsFit(s) && p < |s.procs| && CanWait(s, p, a) && (a.WaitReap? ==> s.procs[a.z].pc.Dead?)
    ensures HoldsFit(DoWait(s, p, a))
  {
    hide HasZombie;
    hide HasKids;
  }

  lemma ForkHoldFits(s: State, p: nat, a: Action)
    requires HoldsFit(s) && p < |s.procs| && CanFork(s, p, a)
    requires Filled(s.procs[p], a).Some? ==>
               var np := Filled(s.procs[p], a).value;
               np < |s.procs| && (s.procs[np].pc.NoThread? || s.procs[np].pc.Fresh?)
    ensures HoldsFit(DoFork(s, p, a))
  {
  }

  lemma StepHoldFits(s: State, c: nat, a: Action)
    requires Inv(s) && HoldsFit(s) && Enabled(s, c, a)
    ensures HoldsFit(Step(s, c, a))
  {
    hide HoldsFit;
    hide NoLostWakeup;
    hide Owning;
    hide NoLostExit;
    hide Building;
    hide Tree;
    hide Pids;
    hide Locking;
    hide Interrupting;
    hide Scheduling;
    if s.cpus[c].ctx.Sched? {
      SchedHolds(s, c, a);
    } else {
      var p := s.cpus[c].ctx.p;
      if IsSpin(a) { SpinHoldFits(s, c, p, a); }
      else if IsLock(a) { LockHoldFits(s, p, a); }
      else if IsWait(a) {
        if a.WaitReap? { ReapedIsOff(s, c, p, a.z); }
        WaitHoldFits(s, p, a);
      }
      else if IsFork(a) {
        FilledRests(s, c, p, a);
        ForkHoldFits(s, p, a);
      }
      else { CtlHoldFits(s, c, p, a); }
    }
  }

  // ------------------------------------------------------------------ over runs

  lemma {:induction false} RunHolds(nprocs: nat, ncpus: nat, nlocks: nat, es: Schedule)
    requires IsRun(nprocs, ncpus, nlocks, es)
    ensures HoldsFit(After(Init(nprocs, ncpus, nlocks), es))
    decreases |es|
  {
    hide HoldsFit;
    hide Inv;
    if es == [] {
      InitHolds(nprocs, ncpus, nlocks);
    } else {
      hide Init;
      var n := |es| - 1;
      RunHolds(nprocs, ncpus, nlocks, es[..n]);
      RunInv(nprocs, ncpus, nlocks, es[..n]);
      StepHoldFits(After(Init(nprocs, ncpus, nlocks), es[..n]), es[n].0, es[n].1);
    }
  }

  lemma InitHolds(nprocs: nat, ncpus: nat, nlocks: nat)
    requires nprocs > 0
    ensures HoldsFit(Init(nprocs, ncpus, nlocks))
  {
  }

  /** The calls of proc.c and sleeplock.c, for any number of processes, CPUs and locks and any
      schedule: acquiresleep returns with the lock and releasesleep without it; and the last
      step, whatever it was, took a preempted thread back to its place, made fork's child
      fork's own, and woke sleepers only on their channel or by a kill. */
  lemma CallsAreRight(nprocs: nat, ncpus: nat, nlocks: nat, es: Schedule)
    requires IsRun(nprocs, ncpus, nlocks, es)
    ensures HoldsFit(After(Init(nprocs, ncpus, nlocks), es))
    ensures |es| > 0 ==>
              var before := es[..|es| - 1];
              CallsRight(After(Init(nprocs, ncpus, nlocks), before), After(Init(nprocs, ncpus, nlocks), es))
  {
    hide Inv;
    hide Init;
    hide CallsRight;
    RunHolds(nprocs, ncpus, nlocks, es);
    if |es| > 0 {
      var n := |es| - 1;
      RunInv(nprocs, ncpus, nlocks, es[..n]);
      StepCalls(After(Init(nprocs, ncpus, nlocks), es[..n]), es[n].0, es[n].1);
    }
  }
}
