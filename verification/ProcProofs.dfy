/** Every step of the process machine keeps the invariant. */
module ProcProofs {
  import opened Common
  import opened ProcMachine
  import opened ProcInv

  // -------------------------------------------------------- basic consequences

  /** A slot being filled, or free, is on no CPU. */
  lemma EmptyIsOff(s: State, q: nat)
    requires Scheduling(s) && q < |s.procs| && (s.procs[q].state == UNUSED || s.procs[q].state == EMBRYO)
    ensures s.procs[q].on == None
  {
  }

  /** While CPU c holds ptable.lock, no other thread is inside sched. */
  lemma OnlyOneInSched(s: State, c: nat, q: nat)
    requires Shape(s) && Locking(s) && Scheduling(s) && c < |s.cpus| && q < |s.procs|
    requires CpuHolds(s, s.cpus[c]).pt && InSched(s.procs[q].pc)
    ensures s.cpus[c].ctx == Thread(q)
  {
    hide PcOk;
    hide StateFits;
    var c' := s.procs[q].on.value;
    assert Occupies(s, c', q);
    assert CpuProc(s, s.cpus[c']);
    assert s.cpus[c'].ctx == Thread(q);
    assert CpuHolds(s, s.cpus[c']).pt;
  }

  /** An exited process that is waiting to be reaped has left its CPU. */
  lemma ZombieIsOff(s: State, c: nat, p: nat, z: nat)
    requires Shape(s) && Locking(s) && Scheduling(s) && Runs(s, c, p) && HoldsAt(s.procs[p].pc).pt
    requires z < |s.procs| && z != p && s.procs[z].state == ZOMBIE
    ensures s.procs[z].on == None && s.procs[z].pc == Dead
  {
    hide PcOk;
    hide HoldsAt;
    if InSched(s.procs[z].pc) {
      OnlyOneInSched(s, c, z);
    }
  }

  // ---------------------------------------------------------------- frames

  /** A step that takes and leaves no spinlock: no CPU changes, and only this thread and
      slots that are on no CPU change their pc. */
  ghost predicate Framed(s: State, s': State, p: nat) {
    && s'.cpus == s.cpus && s'.pt == s.pt
    && |s'.procs| == |s.procs| && |s'.locks| == |s.locks|
    && p < |s.procs|
    && (forall l | 0 <= l < |s.locks| :: s'.locks[l].spin == s.locks[l].spin)
    && (forall q | 0 <= q < |s.procs| :: s'.procs[q].on == s.procs[q].on)
    && (forall q | 0 <= q < |s.procs| && q != p && s.procs[q].on.Some? :: s'.procs[q].pc == s.procs[q].pc)
    && (forall q | 0 <= q < |s.procs| && q != p && s.procs[q].state == RUNNING :: s'.procs[q].state == RUNNING)
    && HoldsAt(s'.procs[p].pc) == HoldsAt(s.procs[p].pc)
  }

  lemma LockFramed(s: State, p: nat, a: Action)
    requires p < |s.procs| && CanLock(s, p, a)
    ensures Framed(s, DoLock(s, p, a), p)
  {
    LockHolds(s, p, a);
    hide HoldsAt;
  }

  lemma LockHolds(s: State, p: nat, a: Action)
    requires p < |s.procs| && CanLock(s, p, a)
    ensures HoldsAt(DoLock(s, p, a).procs[p].pc) == HoldsAt(s.procs[p].pc)
  {
  }

  lemma ReapedIsOff(s: State, c: nat, p: nat, z: nat)
    requires Shape(s) && Locking(s) && Scheduling(s) && Runs(s, c, p) && CanWait(s, p, WaitReap(z))
    ensures z != p && s.procs[z].on == None && s.procs[z].pc == Dead
  {
    RunsRunning(s, c, p);
    ZombieIsOff(s, c, p, z);
  }

  lemma WaitFramed(s: State, p: nat, a: Action)
    requires p < |s.procs| && CanWait(s, p, a)
    requires a.WaitReap? ==> a.z != p && s.procs[a.z].on == None
    ensures Framed(s, DoWait(s, p, a), p)
  {
    WaitHolds(s, p, a);
    hide HoldsAt;
  }

  lemma RunsRunning(s: State, c: nat, p: nat)
    requires Scheduling(s) && Runs(s, c, p)
    ensures s.procs[p].on == Some(c)
    ensures !InSched(s.procs[p].pc) ==> s.procs[p].state == RUNNING
  {
    hide StateFits;
    assert Occupies(s, c, p);
  }

  lemma WaitHolds(s: State, p: nat, a: Action)
    requires p < |s.procs| && CanWait(s, p, a)
    ensures HoldsAt(s.procs[p].pc) == Holds(true, None) && !InSched(s.procs[p].pc)
    ensures HoldsAt(DoWait(s, p, a).procs[p].pc) == Holds(true, None)
  {
  }

  /** The slot that a step of fork fills. */
  ghost function Filled(me: Proc, a: Action): Option<nat> {
    if a.AllocProc? then Some(a.np)
    else if (a.CopyFail? || a.CopyOk?) && me.pc.ForkCopy? then Some(me.pc.np)
    else if a.RunChild? && me.pc.ForkRun? then Some(me.pc.np)
    else None
  }

  lemma FilledIsOff(s: State, c: nat, p: nat, a: Action)
    requires Scheduling(s) && Building(s) && Runs(s, c, p) && CanFork(s, p, a) && Filled(s.procs[p], a).Some?
    ensures var np := Filled(s.procs[p], a).value;
            np < |s.procs| && np != p && s.procs[np].on == None
            && s.procs[np].state == if a.AllocProc? then UNUSED else EMBRYO
  {
    RunsRunning(s, c, p);
    var np := Filled(s.procs[p], a).value;
    if !a.AllocProc? {
      assert Child(s.procs[p].pc) == Some(np);
    }
    EmptyIsOff(s, np);
  }

  lemma FilledRests(s: State, c: nat, p: nat, a: Action)
    requires Scheduling(s) && Building(s) && Runs(s, c, p) && CanFork(s, p, a)
    ensures Filled(s.procs[p], a).Some? ==>
              var np := Filled(s.procs[p], a).value;
              np < |s.procs| && np != p && (s.procs[np].pc.NoThread? || s.procs[np].pc.Fresh?)
  {
    if Filled(s.procs[p], a).Some? {
      FilledIsOff(s, c, p, a);
      var np := Filled(s.procs[p], a).value;
      assert ProcFits(s.procs[np], np);
    }
  }

  lemma ForkFramed(s: State, p: nat, a: Action)
    requires p < |s.procs| && CanFork(s, p, a)
    requires Filled(s.procs[p], a).Some? ==>
               var np := s.procs[Filled(s.procs[p], a).value]; np.on == None && np.state != RUNNING
    ensures Framed(s, DoFork(s, p, a), p)
  {
    ForkHolds(s, p, a);
    hide HoldsAt;
  }

  lemma ForkHolds(s: State, p: nat, a: Action)
    requires p < |s.procs| && CanFork(s, p, a)
    ensures HoldsAt(DoFork(s, p, a).procs[p].pc) == HoldsAt(s.procs[p].pc)
  {
  }

  // ------------------------------------------------------- locks and interrupts

  lemma FramedLocking(s: State, s': State, c: nat, p: nat)
    requires Shape(s) && Locking(s) && Interrupting(s) && Scheduling(s) && Runs(s, c, p) && Framed(s, s', p)
    ensures Locking(s') && Interrupting(s')
  {
    hide HoldsAt;
    hide PcOk;
    hide StateFits;
    forall x | 0 <= x < |s.cpus| ensures CpuHolds(s', s.cpus[x]) == CpuHolds(s, s.cpus[x]) {
      if s.cpus[x].ctx.Thread? {
        RunsRunning(s, x, s.cpus[x].ctx.p);
      }
    }
  }

  /** The threads of two CPUs are different processes. */
  lemma OtherCpu(s: State, c: nat, p: nat, x: nat)
    requires Scheduling(s) && Runs(s, c, p) && x < |s.cpus| && x != c
    ensures s.cpus[x].ctx != Thread(p)
  {
    hide StateFits;
    if s.cpus[x].ctx == Thread(p) {
      RunsRunning(s, c, p);
      RunsRunning(s, x, p);
    }
  }

  /** What taking and leaving a spinlock does to the locks a thread holds. */
  lemma SpinHolds(s: State, c: nat, p: nat, a: Action)
    requires Runs(s, c, p) && CanSpin(s, c, p, a)
    requires a.LeavePt? && s.procs[p].pc.YieldDrop? ==> LockFree(s.procs[p].pc.ret)
    ensures var h, h' := HoldsAt(s.procs[p].pc), HoldsAt(DoSpin(s, c, p, a).procs[p].pc);
            match a
            case TakePt => !h.pt && h' == h.(pt := true)
            case LeavePt => h.pt && h' == h.(pt := false)
            case TakeSpin => h == Holds(false, None) && h' == h.(spin := Some(s.procs[p].pc.l))
            case LeaveSpin => h.spin == Some(s.procs[p].pc.l) && h' == h.(spin := None)
  {
  }

  /** Only CPU c's locks, ncli and interrupt flag may differ. */
  ghost predicate OthersKeep(s: State, s': State, c: nat) {
    && c < |s.cpus| == |s'.cpus| && |s'.locks| == |s.locks|
    && forall x | 0 <= x < |s.cpus| && x != c ::
         CpuHolds(s', s'.cpus[x]) == CpuHolds(s, s.cpus[x])
         && s'.cpus[x].ncli == s.cpus[x].ncli && s'.cpus[x].iflag == s.cpus[x].iflag
  }

  ghost predicate SameSpins(s: State, s': State) {
    |s'.locks| == |s.locks| && forall l | 0 <= l < |s.locks| :: s'.locks[l].spin == s.locks[l].spin
  }

  lemma KeepLocking(s: State, s': State, c: nat)
    requires Locking(s) && Interrupting(s) && OthersKeep(s, s', c) && SameSpins(s, s') && s'.pt == s.pt
    requires CpuHolds(s', s'.cpus[c]) == CpuHolds(s, s.cpus[c])
    requires s'.cpus[c].ncli == s.cpus[c].ncli
    requires s.cpus[c].ncli > 0 ==> s'.cpus[c].iflag == s.cpus[c].iflag
    ensures Locking(s') && Interrupting(s')
  {
    hide CpuHolds;
  }

  lemma TakePtLocking(s: State, s': State, c: nat)
    requires Locking(s) && Interrupting(s) && OthersKeep(s, s', c) && SameSpins(s, s')
    requires s.pt == None && s'.pt == Some(c)
    requires CpuHolds(s', s'.cpus[c]) == CpuHolds(s, s.cpus[c]).(pt := true)
    requires s'.cpus[c].ncli == s.cpus[c].ncli + 1 && !s'.cpus[c].iflag
    ensures Locking(s') && Interrupting(s')
  {
    hide CpuHolds;
  }

  lemma LeavePtLocking(s: State, s': State, c: nat)
    requires Locking(s) && Interrupting(s) && OthersKeep(s, s', c) && SameSpins(s, s')
    requires CpuHolds(s, s.cpus[c]).pt && s'.pt == None
    requires CpuHolds(s', s'.cpus[c]) == CpuHolds(s, s.cpus[c]).(pt := false)
    requires s.cpus[c].ncli > 0 && s'.cpus[c].ncli == s.cpus[c].ncli - 1 && (s'.cpus[c].ncli > 0 ==> !s'.cpus[c].iflag)
    ensures Locking(s') && Interrupting(s')
  {
    hide CpuHolds;
  }

  lemma TakeSpinLocking(s: State, s': State, c: nat, l: nat)
    requires Locking(s) && Interrupting(s) && OthersKeep(s, s', c) && s'.pt == s.pt
    requires l < |s.locks| && s.locks[l].spin == None && s'.locks[l].spin == Some(c)
    requires forall m | 0 <= m < |s.locks| && m != l :: s'.locks[m].spin == s.locks[m].spin
    requires CpuHolds(s, s.cpus[c]).spin == None && CpuHolds(s', s'.cpus[c]) == CpuHolds(s, s.cpus[c]).(spin := Some(l))
    requires s'.cpus[c].ncli == s.cpus[c].ncli + 1 && !s'.cpus[c].iflag
    ensures Locking(s') && Interrupting(s')
  {
    hide CpuHolds;
  }

  lemma LeaveSpinLocking(s: State, s': State, c: nat, l: nat)
    requires Locking(s) && Interrupting(s) && OthersKeep(s, s', c) && s'.pt == s.pt
    requires l < |s.locks| && CpuHolds(s, s.cpus[c]).spin == Some(l) && s'.locks[l].spin == None
    requires forall m | 0 <= m < |s.locks| && m != l :: s'.locks[m].spin == s.locks[m].spin
    requires CpuHolds(s', s'.cpus[c]) == CpuHolds(s, s.cpus[c]).(spin := None)
    requires s.cpus[c].ncli > 0 && s'.cpus[c].ncli == s.cpus[c].ncli - 1 && (s'.cpus[c].ncli > 0 ==> !s'.cpus[c].iflag)
    ensures Locking(s') && Interrupting(s')
  {
    hide CpuHolds;
  }

  lemma SpinOthers(s: State, c: nat, p: nat, a: Action)
    requires Scheduling(s) && Runs(s, c, p) && CanSpin(s, c, p, a)
    ensures OthersKeep(s, DoSpin(s, c, p, a), c)
    ensures CpuHolds(s, s.cpus[c]) == HoldsAt(s.procs[p].pc)
    ensures CpuHolds(DoSpin(s, c, p, a), DoSpin(s, c, p, a).cpus[c]) == HoldsAt(DoSpin(s, c, p, a).procs[p].pc)
  {
    hide HoldsAt;
    hide GotPt;
    hide LeftPt;
    hide GotSpin;
    hide LeftSpin;
    hide WantsPt;
    hide DropsPt;
    var s' := DoSpin(s, c, p, a);
    forall x | 0 <= x < |s.cpus| && x != c ensures CpuHolds(s', s'.cpus[x]) == CpuHolds(s, s.cpus[x]) {
      OtherCpu(s, c, p, x);
    }
  }

  lemma SpinLocking(s: State, c: nat, p: nat, a: Action)
    requires Shape(s) && Locking(s) && Interrupting(s) && Scheduling(s) && Runs(s, c, p) && CanSpin(s, c, p, a)
    ensures Locking(DoSpin(s, c, p, a)) && Interrupting(DoSpin(s, c, p, a))
  {
    assert PcOk(|s.locks|, |s.procs|, s.procs[p].pc);
    SpinHolds(s, c, p, a);
    SpinOthers(s, c, p, a);
    hide PcOk;
    hide HoldsAt;
    hide CpuHolds;
    hide Locking;
    hide Interrupting;
    hide Scheduling;
    hide GotPt;
    hide LeftPt;
    hide GotSpin;
    hide LeftSpin;
    hide WantsPt;
    hide DropsPt;
    var s' := DoSpin(s, c, p, a);
    match a
    case TakePt => TakePtLocking(s, s', c);
    case LeavePt => LeavePtLocking(s, s', c);
    case TakeSpin => TakeSpinLocking(s, s', c, s.procs[p].pc.l);
    case LeaveSpin => LeaveSpinLocking(s, s', c, s.procs[p].pc.l);
  }

  lemma CtlHolds(s: State, c: nat, p: nat, a: Action)
    requires Runs(s, c, p) && CanCtl(s, c, p, a)
    ensures CpuHolds(DoCtl(s, c, p, a), DoCtl(s, c, p, a).cpus[c]) == CpuHolds(s, s.cpus[c])
  {
  }

  lemma CtlLocking(s: State, c: nat, p: nat, a: Action)
    requires Locking(s) && Interrupting(s) && Scheduling(s) && Runs(s, c, p) && CanCtl(s, c, p, a)
    ensures Locking(DoCtl(s, c, p, a)) && Interrupting(DoCtl(s, c, p, a))
  {
    CtlHolds(s, c, p, a);
    CtlOthers(s, c, p, a);
    hide CpuHolds;
    hide Locking;
    hide Interrupting;
    hide Scheduling;
    hide LockFree;
    hide InSched;
    hide Parked;
    hide Resumes;
    hide Resumed;
    KeepLocking(s, DoCtl(s, c, p, a), c);
  }

  lemma CtlOthers(s: State, c: nat, p: nat, a: Action)
    requires Scheduling(s) && Runs(s, c, p) && CanCtl(s, c, p, a)
    ensures OthersKeep(s, DoCtl(s, c, p, a), c)
  {
    hide HoldsAt;
    hide LockFree;
    hide InSched;
    hide Parked;
    hide Resumes;
    hide Resumed;
    var s' := DoCtl(s, c, p, a);
    forall x | 0 <= x < |s.cpus| && x != c ensures CpuHolds(s', s'.cpus[x]) == CpuHolds(s, s.cpus[x]) {
      OtherCpu(s, c, p, x);
    }
  }

  lemma SchedLocking(s: State, c: nat, a: Action)
    requires Locking(s) && Interrupting(s) && Scheduling(s) && c < |s.cpus| && s.cpus[c].ctx.Sched? && CanSched(s, c, a)
    ensures Locking(DoSched(s, c, a)) && Interrupting(DoSched(s, c, a))
  {
    hide StateFits;
    hide HoldsAt;
    var s' := DoSched(s, c, a);
    assert forall x | 0 <= x < |s.cpus| && x != c :: CpuHolds(s', s'.cpus[x]) == CpuHolds(s, s.cpus[x]);
    assert a.SchedSwtch? ==> CpuProc(s, s.cpus[c]);
    assert a.SchedSwtch? ==> CpuHolds(s', s'.cpus[c]) == CpuHolds(s, s.cpus[c]) by {
      if a.SchedSwtch? { ResumeHolds(s.procs[s.cpus[c].ctx.spc.p].pc); }
    }
    hide Scheduling;
    hide Locking;
    hide Interrupting;
    if a.SchedAcquire? {
      TakePtLocking(s, s', c);
    } else if a.SchedRelease? {
      LeavePtLocking(s, s', c);
    } else {
      assert s.cpus[c].ncli > 0 ==> s'.cpus[c].iflag == s.cpus[c].iflag by { StiOff(s, c); }
      KeepLocking(s, s', c);
    }
  }

  lemma StiOff(s: State, c: nat)
    requires Interrupting(s) && c < |s.cpus| && s.cpus[c].ctx.Sched?
    ensures s.cpus[c].ctx.spc == Sti ==> s.cpus[c].ncli == 0
  {
  }

  lemma ResumeHolds(pc: Pc)
    requires ResumePc(pc)
    ensures HoldsAt(pc) == Holds(true, None)
  {
  }
}
