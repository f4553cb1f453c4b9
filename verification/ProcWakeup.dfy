/** No wakeup on a sleep-lock is lost, in any interleaving. */
module ProcWakeup {
  import opened Common
  import opened ProcMachine
  import opened ProcInv
  import opened ProcProofs

  ghost predicate NoNewWaiter(s: State, s': State) {
    && |s'.procs| == |s.procs| && |s'.locks| == |s.locks|
    && forall q, l: nat | 0 <= q < |s.procs| && WaitsFor(s'.procs[q], l) :: WaitsFor(s.procs[q], l)
  }

  /** CPUs other than c keep their threads, and those threads their pcs. */
  ghost predicate OthersStay(s: State, s': State, c: nat) {
    && |s'.cpus| == |s.cpus| && |s'.procs| == |s.procs|
    && forall x | 0 <= x < |s.cpus| && x != c && s.cpus[x].ctx.Thread? && s.cpus[x].ctx.p < |s.procs| ::
         s'.cpus[x].ctx == s.cpus[x].ctx && s'.procs[s.cpus[x].ctx.p].pc == s.procs[s.cpus[x].ctx.p].pc
  }

  lemma WakingKept(s: State, s': State, c: nat, l: nat)
    requires l < |s.locks| && l < |s'.locks| && OthersStay(s, s', c) && Waking(s, l)
    requires s'.locks[l].spin == s.locks[l].spin && s.locks[l].spin != Some(c)
    ensures Waking(s', l)
  {
  }

  /** Nobody starts to wait, no lock is cleared, and no wakeup in progress goes away. */
  lemma KeepWakeup(s: State, s': State)
    requires NoLostWakeup(s) && NoNewWaiter(s, s')
    requires forall l | 0 <= l < |s.locks| && s.locks[l].locked :: s'.locks[l].locked
    requires forall l: nat | l < |s.locks| && Waking(s, l) :: Waking(s', l)
    ensures NoLostWakeup(s')
  {
    hide WaitsFor;
    hide Waking;
    forall p, l | 0 <= p < |s'.procs| && 0 <= l < |s'.locks| && WaitsFor(s'.procs[p], l)
      ensures s'.locks[l].locked || Waking(s', l)
    {
      assert WaitsFor(s.procs[p], l);
    }
  }

  /** Where the thread of CPU c stands when it is the one that is waking l. */
  lemma WakerIsHere(s: State, c: nat, p: nat, l: nat)
    requires Locking(s) && Runs(s, c, p) && l < |s.locks| && Waking(s, l) && s.locks[l].spin == Some(c)
    ensures s.procs[p].pc == RelWantPt(l) || s.procs[p].pc == RelWake(l)
  {
  }

  lemma FramedOthersStay(s: State, s': State, c: nat, p: nat)
    requires Scheduling(s) && Runs(s, c, p) && Framed(s, s', p)
    ensures OthersStay(s, s', c)
  {
    hide HoldsAt;
    hide ProcFits;
    forall x | 0 <= x < |s.cpus| && x != c && s.cpus[x].ctx.Thread? && s.cpus[x].ctx.p < |s.procs|
      ensures s'.cpus[x].ctx == s.cpus[x].ctx && s'.procs[s.cpus[x].ctx.p].pc == s.procs[s.cpus[x].ctx.p].pc
    {
      RunsRunning(s, x, s.cpus[x].ctx.p);
      OtherCpu(s, c, p, x);
    }
  }

  lemma WaitForkWakeup(s: State, s': State, c: nat, p: nat)
    requires Locking(s) && Scheduling(s) && NoLostWakeup(s) && Runs(s, c, p) && Framed(s, s', p)
    requires NoNewWaiter(s, s') && s'.locks == s.locks && !s.procs[p].pc.RelWantPt? && !s.procs[p].pc.RelWake?
    ensures NoLostWakeup(s')
  {
    hide HoldsAt;
    hide ProcFits;
    hide NoLostWakeup;
    FramedOthersStay(s, s', c, p);
    forall l: nat | l < |s.locks| && Waking(s, l) ensures Waking(s', l) {
      if s.locks[l].spin == Some(c) {
        WakerIsHere(s, c, p, l);
      }
      WakingKept(s, s', c, l);
    }
    KeepWakeup(s, s');
  }

  lemma WaitNoNew(s: State, p: nat, a: Action)
    requires p < |s.procs| && CanWait(s, p, a)
    ensures NoNewWaiter(s, DoWait(s, p, a)) && DoWait(s, p, a).locks == s.locks
  {
  }

  lemma ForkNoNew(s: State, p: nat, a: Action)
    requires p < |s.procs| && CanFork(s, p, a)
    ensures NoNewWaiter(s, DoFork(s, p, a)) && DoFork(s, p, a).locks == s.locks
  {
  }

  // ------------------------------------------------- acquiresleep, releasesleep

  lemma TestWakeup(s: State, c: nat, p: nat)
    requires Locking(s) && Scheduling(s) && NoLostWakeup(s) && Runs(s, c, p) && CanLock(s, p, TestLock)
    ensures NoLostWakeup(DoLock(s, p, TestLock))
  {
    var s' := DoLock(s, p, TestLock);
    LockFramed(s, p, TestLock);
    FramedOthersStay(s, s', c, p);
    forall l: nat | l < |s.locks| && Waking(s, l) ensures Waking(s', l) {
      if s.locks[l].spin == Some(c) {
        WakerIsHere(s, c, p, l);
      }
      WakingKept(s, s', c, l);
    }
    hide HoldsAt;
    hide ProcFits;
    hide Waking;
    forall q, l | 0 <= q < |s'.procs| && 0 <= l < |s'.locks| && WaitsFor(s'.procs[q], l)
      ensures s'.locks[l].locked || Waking(s', l)
    {
      if q != p {
        assert WaitsFor(s.procs[q], l);
      } else if l != s.procs[p].pc.l {
        assert WaitsFor(s.procs[p], l);
      }
    }
  }

  lemma MarkWakeup(s: State, c: nat, p: nat)
    requires Locking(s) && Scheduling(s) && NoLostWakeup(s) && Runs(s, c, p) && CanLock(s, p, MarkSleep)
    ensures NoLostWakeup(DoLock(s, p, MarkSleep))
  {
    LockFramed(s, p, MarkSleep);
    WaitForkWakeup(s, DoLock(s, p, MarkSleep), c, p);
  }

  /** Wakeups of locks other than m go on while p works on m. */
  lemma OthersWaking(s: State, s': State, c: nat, p: nat, m: nat)
    requires Locking(s) && Scheduling(s) && Runs(s, c, p) && Framed(s, s', p) && |s'.locks| == |s.locks|
    requires s.procs[p].pc != RelWantPt(m) ==> !s.procs[p].pc.RelWantPt?
    requires s.procs[p].pc != RelWake(m) ==> !s.procs[p].pc.RelWake?
    requires forall l: nat | l < |s.locks| && l != m :: s'.locks[l].spin == s.locks[l].spin
    ensures forall l: nat | l < |s.locks| && l != m && Waking(s, l) :: Waking(s', l)
  {
    hide HoldsAt;
    hide ProcFits;
    FramedOthersStay(s, s', c, p);
    forall l: nat | l < |s.locks| && l != m && Waking(s, l) ensures Waking(s', l) {
      if s.locks[l].spin == Some(c) {
        WakerIsHere(s, c, p, l);
      }
      WakingKept(s, s', c, l);
    }
  }

  lemma ClearStarts(s: State, c: nat, p: nat)
    requires Shape(s) && Locking(s) && Runs(s, c, p) && CanLock(s, p, ClearLock)
    ensures Waking(DoLock(s, p, ClearLock), s.procs[p].pc.l)
    ensures CpuHolds(s, s.cpus[c]).spin == Some(s.procs[p].pc.l)
  {
    hide ProcFits;
    var s' := DoLock(s, p, ClearLock);
    assert s'.procs[p].pc == RelWantPt(s.procs[p].pc.l);
  }

  lemma ClearWakeup(s: State, c: nat, p: nat)
    requires Shape(s) && Locking(s) && Scheduling(s) && NoLostWakeup(s) && Runs(s, c, p) && CanLock(s, p, ClearLock)
    ensures NoLostWakeup(DoLock(s, p, ClearLock))
  {
    hide HoldsAt;
    hide ProcFits;
    var s' := DoLock(s, p, ClearLock);
    var m := s.procs[p].pc.l;
    LockFramed(s, p, ClearLock);
    ClearStarts(s, c, p);
    OthersWaking(s, s', c, p, m);
    hide Waking;
    forall q, l | 0 <= q < |s'.procs| && 0 <= l < |s'.locks| && WaitsFor(s'.procs[q], l)
      ensures s'.locks[l].locked || Waking(s', l)
    {
      assert WaitsFor(s.procs[q], l);
    }
  }

  /** A thread that is on its way to sleep is on a CPU. */
  lemma GoingToSleep(s: State, q: nat)
    requires Scheduling(s) && q < |s.procs|
    requires s.procs[q].pc.SlpWantPt? || s.procs[q].pc.SlpRelease? || s.procs[q].pc.SlpMark?
    ensures s.procs[q].on.Some? && Runs(s, s.procs[q].on.value, q)
  {
    assert ProcFits(s.procs[q], q);
    var x := s.procs[q].on.value;
    assert Occupies(s, x, q);
    assert CpuProc(s, s.cpus[x]);
  }

  /** When wakeup1 runs, nobody is between testing the lock and sleeping on it: such a
      thread would hold the lock's spinlock or ptable.lock. */
  lemma NobodyBetween(s: State, c: nat, p: nat, l: nat, q: nat)
    requires Locking(s) && Scheduling(s) && Runs(s, c, p) && s.procs[p].pc == RelWake(l) && l < |s.locks|
    requires q < |s.procs|
    ensures s.procs[q].pc != SlpWantPt(l) && s.procs[q].pc != SlpRelease(l) && s.procs[q].pc != SlpMark(l)
  {
    assert CpuHolds(s, s.cpus[c]) == Holds(true, Some(l));
    if s.procs[q].pc == SlpWantPt(l) || s.procs[q].pc == SlpRelease(l) || s.procs[q].pc == SlpMark(l) {
      GoingToSleep(s, q);
      assert false;
    }
  }

  lemma NobodyLeft(s: State, c: nat, p: nat, q: nat)
    requires Shape(s) && Locking(s) && Scheduling(s) && Runs(s, c, p) && CanLock(s, p, WakeLock) && q < |s.procs|
    ensures !WaitsFor(DoLock(s, p, WakeLock).procs[q], s.procs[p].pc.l)
  {
    assert PcOk(|s.locks|, |s.procs|, s.procs[p].pc);
    NobodyBetween(s, c, p, s.procs[p].pc.l, q);
  }

  lemma WakeWakeup(s: State, c: nat, p: nat)
    requires Shape(s) && Locking(s) && Scheduling(s) && NoLostWakeup(s) && Runs(s, c, p) && CanLock(s, p, WakeLock)
    ensures NoLostWakeup(DoLock(s, p, WakeLock))
    ensures var s' := DoLock(s, p, WakeLock); forall q | 0 <= q < |s'.procs| :: !WaitsFor(s'.procs[q], s.procs[p].pc.l)
  {
    hide HoldsAt;
    hide ProcFits;
    var s' := DoLock(s, p, WakeLock);
    var m := s.procs[p].pc.l;
    assert m < |s.locks| by { assert PcOk(|s.locks|, |s.procs|, s.procs[p].pc); }
    LockFramed(s, p, WakeLock);
    OthersWaking(s, s', c, p, m);
    forall q: nat | q < |s.procs| ensures !WaitsFor(s'.procs[q], m) {
      NobodyLeft(s, c, p, q);
    }
    hide Waking;
    forall q, l | 0 <= q < |s'.procs| && 0 <= l < |s'.locks| && WaitsFor(s'.procs[q], l)
      ensures s'.locks[l].locked || Waking(s', l)
    {
      assert WaitsFor(s.procs[q], l);
    }
  }

  // ----------------------------------------------------- spinlocks, swtch, scheduler

  lemma SpinNoNew(s: State, c: nat, p: nat, a: Action)
    requires Runs(s, c, p) && CanSpin(s, c, p, a)
    requires a.LeavePt? && s.procs[p].pc.YieldDrop? ==> LockFree(s.procs[p].pc.ret)
    ensures NoNewWaiter(s, DoSpin(s, c, p, a))
    ensures forall l | 0 <= l < |s.locks| :: DoSpin(s, c, p, a).locks[l].locked == s.locks[l].locked
  {
  }

  lemma SpinStay(s: State, c: nat, p: nat, a: Action)
    requires Scheduling(s) && Runs(s, c, p) && CanSpin(s, c, p, a)
    ensures OthersStay(s, DoSpin(s, c, p, a), c)
  {
    hide GotPt;
    hide LeftPt;
    hide GotSpin;
    hide LeftSpin;
    hide WantsPt;
    hide DropsPt;
    var s' := DoSpin(s, c, p, a);
    forall x | 0 <= x < |s.cpus| && x != c && s.cpus[x].ctx.Thread? && s.cpus[x].ctx.p < |s.procs|
      ensures s'.cpus[x].ctx == s.cpus[x].ctx && s'.procs[s.cpus[x].ctx.p].pc == s.procs[s.cpus[x].ctx.p].pc
    {
      OtherCpu(s, c, p, x);
    }
  }

  /** The waker itself goes from RelWantPt to RelWake, and only then. */
  lemma WakerTakes(s: State, c: nat, p: nat, a: Action, l: nat)
    requires Runs(s, c, p) && CanSpin(s, c, p, a) && (s.procs[p].pc == RelWantPt(l) || s.procs[p].pc == RelWake(l))
    ensures a.TakePt? && DoSpin(s, c, p, a).procs[p].pc == RelWake(l)
  {
  }

  lemma DropsHold(pc: Pc)
    requires DropsSpin(pc)
    ensures HoldsAt(pc).spin == Some(pc.l)
  {
  }

  /** A spinlock step changes the spinlock of l only if it is free or held here. */
  lemma SpinElsewhere(s: State, c: nat, p: nat, a: Action, l: nat)
    requires Locking(s) && Runs(s, c, p) && CanSpin(s, c, p, a) && l < |s.locks|
    requires s.locks[l].spin.Some? && s.locks[l].spin != Some(c)
    ensures DoSpin(s, c, p, a).locks[l].spin == s.locks[l].spin
  {
    if a.LeaveSpin? {
      DropsHold(s.procs[p].pc);
      assert CpuHolds(s, s.cpus[c]) == HoldsAt(s.procs[p].pc);
    }
    hide HoldsAt;
    hide GotPt;
    hide LeftPt;
    hide GotSpin;
    hide LeftSpin;
    hide WantsPt;
    hide DropsPt;
  }

  lemma SpinWaking(s: State, c: nat, p: nat, a: Action, l: nat)
    requires Locking(s) && Scheduling(s) && Runs(s, c, p) && CanSpin(s, c, p, a) && l < |s.locks| && Waking(s, l)
    ensures Waking(DoSpin(s, c, p, a), l)
  {
    hide HoldsAt;
    hide ProcFits;
    var s' := DoSpin(s, c, p, a);
    if s.locks[l].spin == Some(c) {
      WakerIsHere(s, c, p, l);
      WakerTakes(s, c, p, a, l);
    } else {
      SpinStay(s, c, p, a);
      SpinElsewhere(s, c, p, a, l);
      hide DoSpin;
      WakingKept(s, s', c, l);
    }
  }

  lemma SpinWakeup(s: State, c: nat, p: nat, a: Action)
    requires Shape(s) && Locking(s) && Scheduling(s) && NoLostWakeup(s) && Runs(s, c, p) && CanSpin(s, c, p, a)
    ensures NoLostWakeup(DoSpin(s, c, p, a))
  {
    assert PcOk(|s.locks|, |s.procs|, s.procs[p].pc);
    var s' := DoSpin(s, c, p, a);
    SpinNoNew(s, c, p, a);
    forall l: nat | l < |s.locks| && Waking(s, l) ensures Waking(s', l) {
      SpinWaking(s, c, p, a, l);
    }
    hide CanSpin;
    hide DoSpin;
    KeepWakeup(s, s');
  }

  lemma CtlNoNew(s: State, c: nat, p: nat, a: Action)
    requires Runs(s, c, p) && CanCtl(s, c, p, a)
    ensures NoNewWaiter(s, DoCtl(s, c, p, a)) && DoCtl(s, c, p, a).locks == s.locks
    ensures !a.Interrupts? ==> !s.procs[p].pc.RelWantPt? && !s.procs[p].pc.RelWake?
  {
  }

  lemma CtlWakeup(s: State, c: nat, p: nat, a: Action)
    requires Locking(s) && Scheduling(s) && NoLostWakeup(s) && Runs(s, c, p) && CanCtl(s, c, p, a)
    ensures NoLostWakeup(DoCtl(s, c, p, a))
  {
    var s' := DoCtl(s, c, p, a);
    CtlNoNew(s, c, p, a);
    CtlStay(s, c, p, a);
    hide LockFree;
    hide InSched;
    hide Parked;
    hide Resumes;
    hide Resumed;
    hide HoldsAt;
    hide ProcFits;
    forall l: nat | l < |s.locks| && Waking(s, l) ensures Waking(s', l) {
      if s.locks[l].spin == Some(c) {
        WakerIsHere(s, c, p, l);
      } else {
        WakingKept(s, s', c, l);
      }
    }
    KeepWakeup(s, s');
  }

  lemma CtlStay(s: State, c: nat, p: nat, a: Action)
    requires Scheduling(s) && Runs(s, c, p) && CanCtl(s, c, p, a)
    ensures OthersStay(s, DoCtl(s, c, p, a), c)
  {
    hide LockFree;
    hide InSched;
    hide Parked;
    hide Resumes;
    hide Resumed;
    var s' := DoCtl(s, c, p, a);
    forall x | 0 <= x < |s.cpus| && x != c && s.cpus[x].ctx.Thread? && s.cpus[x].ctx.p < |s.procs|
      ensures s'.cpus[x].ctx == s.cpus[x].ctx && s'.procs[s.cpus[x].ctx.p].pc == s.procs[s.cpus[x].ctx.p].pc
    {
      OtherCpu(s, c, p, x);
    }
  }

  lemma SchedWakeup(s: State, c: nat, a: Action)
    requires NoLostWakeup(s) && c < |s.cpus| && s.cpus[c].ctx.Sched? && CanSched(s, c, a)
    ensures NoLostWakeup(DoSched(s, c, a))
  {
    var s' := DoSched(s, c, a);
    forall l: nat | l < |s.locks| && Waking(s, l) ensures Waking(s', l) {
      WakingKept(s, s', c, l);
    }
    KeepWakeup(s, s');
  }
}
