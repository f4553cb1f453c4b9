/** pushcli, popcli and sched's copy of intena: a thread that leaves its critical section has
    interrupts as they were when it came in, also if it slept in between and woke up on
    another CPU. */
module ProcFlags {
  import opened Common
  import opened ProcMachine
  import opened ProcInv
  import opened ProcProofs
  import opened ProcTheorems

  /** A thread here holds a spinlock that it took itself. */
  ghost predicate Inside(pc: Pc) { HoldsAt(pc) != Holds(false, None) && !pc.Fresh? }

  /** The interrupt flag to go back to: the CPU's while the thread runs, and the thread's own
      copy from swtch until sched returns. */
  ghost function Saved(s: State, p: nat): bool
    requires p < |s.procs|
  {
    var q := s.procs[p];
    if Resumes(q.pc) then q.intena
    else q.on.Some? && q.on.value < |s.cpus| && s.cpus[q.on.value].intena
  }

  ghost predicate Flag(s: State, q: Proc) { q.on.Some? && q.on.value < |s.cpus| && s.cpus[q.on.value].iflag }

  /** Coming in saves the flag, going out restores it, and nothing in between changes it. */
  ghost predicate FlagKept(s: State, s': State, p: nat)
    requires p < |s.procs| == |s'.procs|
  {
    var q, q' := s.procs[p], s'.procs[p];
    && (Inside(q.pc) && Inside(q'.pc) ==> Saved(s', p) == Saved(s, p))
    && (!Inside(q.pc) && Inside(q'.pc) ==> Saved(s', p) == Flag(s, q))
    && (Inside(q.pc) && !Inside(q'.pc) && !q'.pc.Dead? ==> Flag(s', q') == Saved(s, p))
  }

  ghost predicate FlagsKept(s: State, s': State) {
    |s'.procs| == |s.procs| && forall p: nat | p < |s.procs| :: FlagKept(s, s', p)
  }

  /** Nothing about flags changes for q. */
  ghost predicate Untouched(s: State, s': State, q: nat)
    requires q < |s.procs| == |s'.procs|
  {
    && s'.procs[q].on == s.procs[q].on && s'.procs[q].intena == s.procs[q].intena
    && (s.procs[q].on.Some? ==>
          s.procs[q].on.value < |s.cpus| == |s'.cpus| && s'.cpus[s.procs[q].on.value] == s.cpus[s.procs[q].on.value])
    && (s'.procs[q].pc == s.procs[q].pc || (!Inside(s.procs[q].pc) && !Inside(s'.procs[q].pc)))
  }

  lemma UntouchedKept(s: State, s': State, q: nat)
    requires q < |s.procs| == |s'.procs| && Untouched(s, s', q)
    ensures FlagKept(s, s', q)
  {
    hide HoldsAt;
  }

  /** A body of a call: no CPU changes, and the thread keeps its locks. */
  ghost predicate BodyStep(s: State, s': State, p: nat) {
    && |s'.procs| == |s.procs| && p < |s.procs| && s'.cpus == s.cpus
    && (forall q: nat | q < |s.procs| && q != p :: Untouched(s, s', q))
    && s'.procs[p].on == s.procs[p].on && !Resumes(s.procs[p].pc) && !Resumes(s'.procs[p].pc)
    && Inside(s'.procs[p].pc) == Inside(s.procs[p].pc)
  }

  lemma BodyKept(s: State, s': State, p: nat)
    requires BodyStep(s, s', p)
    ensures FlagsKept(s, s')
  {
    hide HoldsAt;
    hide Untouched;
    forall q: nat | q < |s.procs| ensures FlagKept(s, s', q) {
      if q != p { UntouchedKept(s, s', q); }
    }
  }

  ghost predicate OnRange(s: State) {
    forall q: nat | q < |s.procs| && s.procs[q].on.Some? :: s.procs[q].on.value < |s.cpus|
  }

  lemma InsidePcs(pc: Pc)
    ensures pc.NoThread? || pc.Dead? || pc.Fresh? ==> !Inside(pc)
    ensures Resumes(pc) || InSched(pc) || (DropsPt(pc) && !pc.Fresh?) || DropsSpin(pc) ==> Inside(pc)
    ensures WantsSpin(pc) || LockFree(pc) ==> !Inside(pc)
  {
  }

  lemma LockKept(s: State, p: nat, a: Action)
    requires OnRange(s) && p < |s.procs| && CanLock(s, p, a)
    ensures FlagsKept(s, DoLock(s, p, a))
  {
    var s' := DoLock(s, p, a);
    LockHolds(s, p, a);
    assert !s.procs[p].pc.Fresh? && !s'.procs[p].pc.Fresh?;
    hide HoldsAt;
    assert BodyStep(s, s', p);
    BodyKept(s, s', p);
  }

  lemma WaitKept(s: State, p: nat, a: Action)
    requires OnRange(s) && p < |s.procs| && CanWait(s, p, a) && (a.WaitReap? ==> a.z != p && s.procs[a.z].pc.Dead?)
    ensures FlagsKept(s, DoWait(s, p, a))
  {
    var s' := DoWait(s, p, a);
    WaitHolds(s, p, a);
    InsidePcs(Dead);
    InsidePcs(NoThread);
    assert !s.procs[p].pc.Fresh? && !s'.procs[p].pc.Fresh?;
    hide HoldsAt;
    hide HasZombie;
    hide HasKids;
    assert BodyStep(s, s', p);
    BodyKept(s, s', p);
  }

  lemma ForkKept(s: State, p: nat, a: Action)
    requires OnRange(s) && p < |s.procs| && CanFork(s, p, a)
    requires Filled(s.procs[p], a).Some? ==>
               var np := Filled(s.procs[p], a).value;
               np < |s.procs| && np != p && (s.procs[np].pc.NoThread? || s.procs[np].pc.Fresh?)
    ensures FlagsKept(s, DoFork(s, p, a))
  {
    var s' := DoFork(s, p, a);
    ForkHolds(s, p, a);
    InsidePcs(NoThread);
    InsidePcs(Fresh);
    assert !s.procs[p].pc.Fresh? && !s'.procs[p].pc.Fresh?;
    hide HoldsAt;
    assert BodyStep(s, s', p);
    BodyKept(s, s', p);
  }

  /** Only thread p and its CPU change. */
  ghost predicate OwnStep(s: State, s': State, c: nat, p: nat) {
    && p < |s.procs| == |s'.procs| && c < |s.cpus| == |s'.cpus|
    && s'.procs == s.procs[p := s'.procs[p]] && s'.cpus == s.cpus[c := s'.cpus[c]]
    && s.procs[p].on == Some(c)
    && forall q: nat | q < |s.procs| && q != p :: s.procs[q].on != Some(c)
  }

  lemma OwnKept(s: State, s': State, c: nat, p: nat)
    requires OnRange(s) && OwnStep(s, s', c, p) && FlagKept(s, s', p)
    ensures FlagsKept(s, s')
  {
    hide HoldsAt;
    hide FlagKept;
    forall q: nat | q < |s.procs| ensures FlagKept(s, s', q) {
      if q != p { UntouchedKept(s, s', q); }
    }
  }

  /** A CPU's ncli counts the spinlocks of its thread, and interrupts are off while it has any. */
  lemma Ncli(s: State, c: nat, p: nat)
    requires Interrupting(s) && Runs(s, c, p)
    ensures var h := HoldsAt(s.procs[p].pc); s.cpus[c].ncli == Bit(h.pt) + Bit(h.spin.Some?)
    ensures s.cpus[c].ncli > 0 ==> !s.cpus[c].iflag
  {
    hide HoldsAt;
    assert CpuHolds(s, s.cpus[c]) == HoldsAt(s.procs[p].pc);
  }

  lemma SpinOwn(s: State, c: nat, p: nat, a: Action)
    requires Shape(s) && Runs(s, c, p) && CanSpin(s, c, p, a) && s.procs[p].on == Some(c)
    requires var h := HoldsAt(s.procs[p].pc); s.cpus[c].ncli == Bit(h.pt) + Bit(h.spin.Some?)
    ensures FlagKept(s, DoSpin(s, c, p, a), p)
  {
    assert PcOk(|s.locks|, |s.procs|, s.procs[p].pc);
    PcHolds(s.procs[p].pc);
  }

  lemma Seats(s: State, c: nat, p: nat)
    requires Scheduling(s) && Runs(s, c, p)
    ensures OnRange(s) && s.procs[p].on == Some(c)
    ensures forall q: nat | q < |s.procs| && q != p :: s.procs[q].on != Some(c)
  {
    hide ProcFits;
    assert s.procs[p].on == Some(c) <==> Occupies(s, c, p);
    forall q: nat | q < |s.procs| && q != p ensures s.procs[q].on != Some(c) {
      assert s.procs[q].on == Some(c) <==> Occupies(s, c, q);
    }
  }

  lemma SpinKept(s: State, c: nat, p: nat, a: Action)
    requires Shape(s) && Interrupting(s) && Scheduling(s) && Runs(s, c, p) && CanSpin(s, c, p, a)
    ensures FlagsKept(s, DoSpin(s, c, p, a))
  {
    Seats(s, c, p);
    Ncli(s, c, p);
    hide Scheduling;
    hide Interrupting;
    SpinOwn(s, c, p, a);
    hide HoldsAt;
    hide FlagKept;
    assert OwnStep(s, DoSpin(s, c, p, a), c, p);
    OwnKept(s, DoSpin(s, c, p, a), c, p);
  }

  lemma CtlOwn(s: State, c: nat, p: nat, a: Action)
    requires Runs(s, c, p) && CanCtl(s, c, p, a) && s.procs[p].on == Some(c)
    requires var h := HoldsAt(s.procs[p].pc); s.cpus[c].ncli == Bit(h.pt) + Bit(h.spin.Some?)
    ensures FlagKept(s, DoCtl(s, c, p, a), p)
  {
    PcHolds(s.procs[p].pc);
    InsidePcs(s.procs[p].pc);
  }

  lemma CtlKept(s: State, c: nat, p: nat, a: Action)
    requires Interrupting(s) && Scheduling(s) && Runs(s, c, p) && CanCtl(s, c, p, a)
    ensures FlagsKept(s, DoCtl(s, c, p, a))
  {
    Seats(s, c, p);
    Ncli(s, c, p);
    hide Scheduling;
    hide Interrupting;
    CtlOwn(s, c, p, a);
    hide HoldsAt;
    hide FlagKept;
    assert OwnStep(s, DoCtl(s, c, p, a), c, p);
    OwnKept(s, DoCtl(s, c, p, a), c, p);
  }

  lemma SchedKept(s: State, c: nat, a: Action)
    requires Shape(s) && Locking(s) && Scheduling(s) && c < |s.cpus| && s.cpus[c].ctx.Sched? && CanSched(s, c, a)
    ensures FlagsKept(s, DoSched(s, c, a))
  {
    var s' := DoSched(s, c, a);
    if a.SchedPick? { PickRests(s, c, a.p); }
    forall q: nat | q < |s.procs| ensures FlagKept(s, s', q) {
      assert s.procs[q].on == Some(c) <==> Occupies(s, c, q);
      hide ProcFits;
      hide HoldsAt;
      hide PcOk;
      hide Locking;
      if !(a.SchedPick? && q == a.p) && !(a.SchedSwtch? && s.procs[q].on == Some(c)) {
        UntouchedKept(s, s', q);
      }
    }
  }

  /** The scheduler picks a thread that waits to resume, or a new one. */
  lemma PickRests(s: State, c: nat, p: nat)
    requires Shape(s) && Locking(s) && Scheduling(s) && c < |s.cpus| && s.cpus[c].ctx.Sched?
             && CanSched(s, c, SchedPick(p))
    ensures Resumes(s.procs[p].pc) || s.procs[p].pc.Fresh?
  {
    assert ProcFits(s.procs[p], p);
    if InSched(s.procs[p].pc) {
      OnlyOneInSched(s, c, p);
    }
  }

  /** Every step of every CPU keeps the flags of every thread. */
  lemma StepFlags(s: State, c: nat, a: Action)
    requires Inv(s) && Enabled(s, c, a)
    ensures FlagsKept(s, Step(s, c, a))
  {
    hide NoLostWakeup;
    hide Owning;
    hide NoLostExit;
    hide Building;
    hide Tree;
    hide Pids;
    hide FlagsKept;
    hide Locking;
    hide Interrupting;
    hide Scheduling;
    if s.cpus[c].ctx.Sched? {
      SchedKept(s, c, a);
    } else {
      var p := s.cpus[c].ctx.p;
      Seats(s, c, p);
      if IsSpin(a) {
        SpinKept(s, c, p, a);
      } else if IsLock(a) {
        LockKept(s, p, a);
      } else if IsWait(a) {
        if a.WaitReap? { ReapedIsOff(s, c, p, a.z); }
        WaitKept(s, p, a);
      } else if IsFork(a) {
        FilledRests(s, c, p, a);
        ForkKept(s, p, a);
      } else {
        CtlKept(s, c, p, a);
      }
    }
  }

  /** Interrupts, for any number of processes, CPUs and locks and any schedule: the last step,
      whatever it was, kept the flag that each thread inside a critical section goes back to,
      or saved it, or restored it. */
  lemma FlagsAreRestored(nprocs: nat, ncpus: nat, nlocks: nat, es: Schedule)
    requires IsRun(nprocs, ncpus, nlocks, es) && |es| > 0
    ensures var before := es[..|es| - 1];
            FlagsKept(After(Init(nprocs, ncpus, nlocks), before), After(Init(nprocs, ncpus, nlocks), es))
  {
    hide Inv;
    hide Init;
    hide FlagsKept;
    var n := |es| - 1;
    RunInv(nprocs, ncpus, nlocks, es[..n]);
    StepFlags(After(Init(nprocs, ncpus, nlocks), es[..n]), es[n].0, es[n].1);
  }
}
