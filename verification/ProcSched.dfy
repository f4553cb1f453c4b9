/** A process is RUNNING exactly while one CPU has picked it: kept by every step. */
module ProcSched {
  import opened Common
  import opened ProcMachine
  import opened ProcInv
  import opened ProcProofs

  ghost predicate Fit(s: State) {
    forall q | 0 <= q < |s.procs| :: ProcFits(s.procs[q], q)
  }

  /** Every CPU keeps its thread and its proc, every process its CPU, and those that are
      on a CPU, except p, their pc. */
  ghost predicate SameSeats(s: State, s': State, p: nat) {
    && |s'.cpus| == |s.cpus| && |s'.procs| == |s.procs|
    && (forall x | 0 <= x < |s.cpus| :: s'.cpus[x].ctx == s.cpus[x].ctx && s'.cpus[x].proc == s.cpus[x].proc)
    && (forall q | 0 <= q < |s.procs| :: s'.procs[q].on == s.procs[q].on)
    && (forall q | 0 <= q < |s.procs| && q != p && s.procs[q].on.Some? :: s'.procs[q].pc == s.procs[q].pc)
    && (forall q | 0 <= q < |s.procs| && q != p && s.procs[q].state == RUNNING :: s'.procs[q].state == RUNNING)
  }

  lemma SeatsScheduling(s: State, s': State, c: nat, p: nat)
    requires Scheduling(s) && Runs(s, c, p) && SameSeats(s, s', p) && Fit(s')
    ensures Scheduling(s')
  {
    hide ProcFits;
    forall x | 0 <= x < |s.cpus| ensures CpuProc(s', s'.cpus[x]) {
      assert CpuProc(s, s.cpus[x]);
      if s.cpus[x].ctx.Sched? && s.cpus[x].ctx.spc.Switch? {
        var q := s.cpus[x].ctx.spc.p;
        assert Occupies(s, x, q);
        assert s.procs[q].on == Some(x);
        assert q != p by {
          assert Occupies(s, c, p);
        }
      }
    }
  }

  lemma WokenFits(q: Proc, i: nat, chan: Chan)
    requires ProcFits(q, i) && !InSched(q.pc)
    ensures ProcFits(Woken(q, chan), i)
  {
  }

  /** While p's CPU holds ptable.lock no other thread is inside sched. */
  ghost predicate AloneInSched(s: State, p: nat) {
    forall q | 0 <= q < |s.procs| && q != p :: !InSched(s.procs[q].pc)
  }

  lemma HoldsPtAlone(s: State, c: nat, p: nat)
    requires Shape(s) && Locking(s) && Scheduling(s) && Runs(s, c, p) && HoldsAt(s.procs[p].pc).pt
    ensures AloneInSched(s, p)
  {
    forall q | 0 <= q < |s.procs| && q != p ensures !InSched(s.procs[q].pc) {
      if InSched(s.procs[q].pc) {
        OnlyOneInSched(s, c, q);
      }
    }
  }

  lemma LockFit(s: State, p: nat, a: Action)
    requires Fit(s) && p < |s.procs| && CanLock(s, p, a) && s.procs[p].on.Some?
    requires a.WakeLock? ==> AloneInSched(s, p)
    ensures Fit(DoLock(s, p, a))
  {
    var s' := DoLock(s, p, a);
    assert ProcFits(s.procs[p], p);
    assert ProcFits(s'.procs[p], p);
    forall q | 0 <= q < |s.procs| && q != p ensures ProcFits(s'.procs[q], q) {
      assert ProcFits(s.procs[q], q);
      if a.WakeLock? {
        WokenFits(s.procs[q], q, LockChan(s.procs[p].pc.l));
      }
    }
  }

  lemma WaitFit(s: State, p: nat, a: Action)
    requires Fit(s) && p < |s.procs| && CanWait(s, p, a) && s.procs[p].on.Some? && AloneInSched(s, p)
    requires a.WaitReap? ==> a.z != p && s.procs[a.z].on == None
    ensures Fit(DoWait(s, p, a))
  {
    var s' := DoWait(s, p, a);
    assert ProcFits(s.procs[p], p);
    assert ProcFits(s'.procs[p], p);
    forall q | 0 <= q < |s.procs| && q != p ensures ProcFits(s'.procs[q], q) {
      assert ProcFits(s.procs[q], q);
      if a.WakeParent? && s.procs[p].parent.Some? {
        WokenFits(s.procs[q], q, ProcChan(s.procs[p].parent.value));
      } else if a.Reparent? {
        AdoptedFits(s.procs[q], q, p);
        WokenFits(Adopted(s.procs[q], p), q, ProcChan(INIT));
      }
    }
  }

  lemma AdoptedFits(q: Proc, i: nat, p: nat)
    requires ProcFits(q, i)
    ensures ProcFits(Adopted(q, p), i)
  {
  }

  lemma ForkFit(s: State, p: nat, a: Action)
    requires Fit(s) && p < |s.procs| && CanFork(s, p, a) && s.procs[p].on.Some?
    requires a.Kill? ==> AloneInSched(s, p)
    requires Filled(s.procs[p], a).Some? ==>
               var np := Filled(s.procs[p], a).value;
               np != p && s.procs[np].on == None && s.procs[np].state == if a.AllocProc? then UNUSED else EMBRYO
    ensures Fit(DoFork(s, p, a))
  {
    var s' := DoFork(s, p, a);
    assert ProcFits(s.procs[p], p);
    assert ProcFits(s'.procs[p], p);
    forall q | 0 <= q < |s.procs| && q != p ensures ProcFits(s'.procs[q], q) {
      assert ProcFits(s.procs[q], q);
    }
  }

  lemma SpinScheduling(s: State, c: nat, p: nat, a: Action)
    requires Shape(s) && Scheduling(s) && Runs(s, c, p) && CanSpin(s, c, p, a)
    ensures Scheduling(DoSpin(s, c, p, a))
  {
    assert PcOk(|s.locks|, |s.procs|, s.procs[p].pc);
    assert ProcFits(s.procs[p], p);
    RunsRunning(s, c, p);
    SpinPcs(s, c, p, a);
    hide PcOk;
    hide GotPt;
    hide LeftPt;
    hide GotSpin;
    hide LeftSpin;
    hide WantsPt;
    hide DropsPt;
    hide InSched;
    var s' := DoSpin(s, c, p, a);
    assert ProcFits(s'.procs[p], p);
    assert Fit(s');
    SeatsScheduling(s, s', c, p);
  }

  lemma SpinPcs(s: State, c: nat, p: nat, a: Action)
    requires Runs(s, c, p) && CanSpin(s, c, p, a)
    requires a.LeavePt? && s.procs[p].pc.YieldDrop? ==> LockFree(s.procs[p].pc.ret)
    ensures !InSched(s.procs[p].pc)
    ensures var pc := DoSpin(s, c, p, a).procs[p].pc; !InSched(pc) && !OffCpuPc(pc)
  {
  }

  lemma CtlScheduling(s: State, c: nat, p: nat, a: Action)
    requires Scheduling(s) && Runs(s, c, p) && CanCtl(s, c, p, a) && !a.Swtch?
    ensures Scheduling(DoCtl(s, c, p, a))
  {
    var s' := DoCtl(s, c, p, a);
    assert ProcFits(s.procs[p], p);
    RunsRunning(s, c, p);
    assert ProcFits(s'.procs[p], p);
    hide ProcFits;
    hide LockFree;
    hide Resumes;
    hide Resumed;
    assert Fit(s');
    SeatsScheduling(s, s', c, p);
  }

  lemma SwtchScheduling(s: State, c: nat, p: nat)
    requires Scheduling(s) && Runs(s, c, p) && CanCtl(s, c, p, Swtch)
    ensures Scheduling(DoCtl(s, c, p, Swtch))
  {
    var s' := DoCtl(s, c, p, Swtch);
    assert ProcFits(s.procs[p], p);
    RunsRunning(s, c, p);
    assert CpuProc(s, s.cpus[c]);
    assert ProcFits(s'.procs[p], p);
    hide ProcFits;
    hide InSched;
    hide Parked;
    forall x | 0 <= x < |s.cpus| ensures CpuProc(s', s'.cpus[x]) {
      assert CpuProc(s, s.cpus[x]);
      if s.cpus[x].ctx.Sched? && s.cpus[x].ctx.spc.Switch? {
        assert Occupies(s, x, s.cpus[x].ctx.spc.p);
      }
    }
  }

  lemma SchedScheduling(s: State, c: nat, a: Action)
    requires Shape(s) && Locking(s) && Scheduling(s) && c < |s.cpus| && s.cpus[c].ctx.Sched? && CanSched(s, c, a)
    requires !a.SchedPick?
    ensures Scheduling(DoSched(s, c, a))
  {
    hide ProcFits;
    hide PcOk;
    hide Locking;
    var s' := DoSched(s, c, a);
    assert CpuProc(s, s.cpus[c]);
    forall x | 0 <= x < |s.cpus| ensures CpuProc(s', s'.cpus[x]) {
      assert CpuProc(s, s.cpus[x]);
    }
  }

  lemma PickScheduling(s: State, c: nat, p: nat)
    requires Shape(s) && Locking(s) && Scheduling(s) && c < |s.cpus| && s.cpus[c].ctx.Sched?
             && CanSched(s, c, SchedPick(p))
    ensures Scheduling(DoSched(s, c, SchedPick(p)))
  {
    var s' := DoSched(s, c, SchedPick(p));
    assert ProcFits(s.procs[p], p);
    if InSched(s.procs[p].pc) {
      OnlyOneInSched(s, c, p);
    }
    assert ProcFits(s'.procs[p], p) && ResumePc(s.procs[p].pc);
    hide ProcFits;
    hide PcOk;
    hide Locking;
    hide ResumePc;
    hide InSched;
    forall x | 0 <= x < |s.cpus| ensures CpuProc(s', s'.cpus[x]) {
      assert CpuProc(s, s.cpus[x]);
    }
    forall x, q | 0 <= x < |s.cpus| && 0 <= q < |s.procs| ensures s'.procs[q].on == Some(x) <==> Occupies(s', x, q) {
      assert s.procs[q].on == Some(x) <==> Occupies(s, x, q);
    }
  }
}
