/** The invariant holds in every reachable state, and what follows from it. */
module ProcTheorems {
  import opened Common
  import opened ProcMachine
  import opened ProcInv
  import opened ProcProofs
  import opened ProcSched
  import opened ProcWakeup
  import opened ProcTree
  import opened ProcExit
  import opened ProcFork

  // -------------------------------------------------------------------- shape

  lemma ShapeSched(s: State, c: nat, a: Action)
    requires Shape(s) && c < |s.cpus| && s.cpus[c].ctx.Sched? && CanSched(s, c, a)
    ensures Shape(DoSched(s, c, a))
  {
    hide PcOk;
  }

  lemma ShapeSpin(s: State, c: nat, p: nat, a: Action)
    requires Shape(s) && Runs(s, c, p) && CanSpin(s, c, p, a)
    ensures Shape(DoSpin(s, c, p, a))
  {
    assert PcOk(|s.locks|, |s.procs|, s.procs[p].pc);
    var s' := DoSpin(s, c, p, a);
    assert PcOk(|s.locks|, |s.procs|, s'.procs[p].pc);
    hide PcOk;
    hide GotPt;
    hide LeftPt;
    hide GotSpin;
    hide LeftSpin;
    hide WantsPt;
    hide DropsPt;
  }

  lemma ShapeCtl(s: State, c: nat, p: nat, a: Action)
    requires Shape(s) && Runs(s, c, p) && CanCtl(s, c, p, a)
    ensures Shape(DoCtl(s, c, p, a))
  {
    assert PcOk(|s.locks|, |s.procs|, s.procs[p].pc);
    var s' := DoCtl(s, c, p, a);
    assert PcOk(|s.locks|, |s.procs|, s'.procs[p].pc);
    hide PcOk;
    hide LockFree;
    hide InSched;
    hide Parked;
    hide Resumes;
    hide Resumed;
  }

  lemma ShapeLock(s: State, p: nat, a: Action)
    requires Shape(s) && p < |s.procs| && CanLock(s, p, a)
    ensures Shape(DoLock(s, p, a))
  {
    assert PcOk(|s.locks|, |s.procs|, s.procs[p].pc);
    var s' := DoLock(s, p, a);
    assert PcOk(|s.locks|, |s.procs|, s'.procs[p].pc);
    hide PcOk;
  }

  lemma ShapeWait(s: State, p: nat, a: Action)
    requires Shape(s) && p < |s.procs| && CanWait(s, p, a)
    ensures Shape(DoWait(s, p, a))
  {
    hide DoWait;
    hide CanWait;
    hide InExit;
    hide Base;
    var s' := DoWait(s, p, a);
    WaitOwnPc(s, p, a);
    WaitSeats(s, p, a);
    forall q | 0 <= q < |s.procs|
      ensures PcOk(|s.locks|, |s.procs|, s'.procs[q].pc) && s'.procs[q].held == s.procs[q].held
    {
      WaitPcs(s, p, a, q);
      WaitHeld(s, p, a, q);
    }
    hide PcOk;
  }

  lemma WaitOwnPc(s: State, p: nat, a: Action)
    requires p < |s.procs| && CanWait(s, p, a)
    ensures PcOk(|s.locks|, |s.procs|, DoWait(s, p, a).procs[p].pc)
  {
  }

  lemma WaitSeats(s: State, p: nat, a: Action)
    requires p < |s.procs| && CanWait(s, p, a)
    ensures SameSize(s, DoWait(s, p, a)) && DoWait(s, p, a).cpus == s.cpus
  {
  }

  lemma ShapeFork(s: State, p: nat, a: Action)
    requires Shape(s) && p < |s.procs| && CanFork(s, p, a)
    ensures Shape(DoFork(s, p, a))
  {
    hide DoFork;
    hide CanFork;
    hide InExit;
    hide Base;
    var s' := DoFork(s, p, a);
    ForkOwnPc(s, p, a);
    ForkSeats(s, p, a);
    forall q | 0 <= q < |s.procs|
      ensures PcOk(|s.locks|, |s.procs|, s'.procs[q].pc) && s'.procs[q].held == s.procs[q].held
    {
      ForkPcs(s, p, a, q);
    }
    hide PcOk;
  }

  lemma ForkOwnPc(s: State, p: nat, a: Action)
    requires p < |s.procs| && CanFork(s, p, a)
    ensures PcOk(|s.locks|, |s.procs|, DoFork(s, p, a).procs[p].pc)
  {
  }

  lemma ForkSeats(s: State, p: nat, a: Action)
    requires p < |s.procs| && CanFork(s, p, a)
    ensures SameSize(s, DoFork(s, p, a)) && DoFork(s, p, a).cpus == s.cpus
  {
  }

  // ------------------------------------------------------------------- steps

  lemma SchedInv(s: State, c: nat, a: Action)
    requires Inv(s) && c < |s.cpus| && s.cpus[c].ctx.Sched? && CanSched(s, c, a)
    ensures Inv(DoSched(s, c, a))
  {
    hide Shape;
    hide Locking;
    hide Interrupting;
    hide Scheduling;
    hide NoLostWakeup;
    hide Owning;
    hide NoLostExit;
    hide Building;
    hide Tree;
    hide Pids;
    ShapeSched(s, c, a);
    SchedLocking(s, c, a);
    if a.SchedPick? { PickScheduling(s, c, a.p); } else { SchedScheduling(s, c, a); }
    SchedWakeup(s, c, a);
    SchedRest(s, c, a);
  }

  lemma SpinInv(s: State, c: nat, p: nat, a: Action)
    requires Inv(s) && Runs(s, c, p) && CanSpin(s, c, p, a)
    ensures Inv(DoSpin(s, c, p, a))
  {
    hide Shape;
    hide Locking;
    hide Interrupting;
    hide Scheduling;
    hide NoLostWakeup;
    hide Owning;
    hide NoLostExit;
    hide Building;
    hide Tree;
    hide Pids;
    hide CanSpin;
    hide DoSpin;
    ShapeSpin(s, c, p, a);
    SpinLocking(s, c, p, a);
    SpinScheduling(s, c, p, a);
    SpinWakeup(s, c, p, a);
    SpinRest(s, c, p, a);
  }

  lemma CtlInv(s: State, c: nat, p: nat, a: Action)
    requires Inv(s) && Runs(s, c, p) && CanCtl(s, c, p, a)
    ensures Inv(DoCtl(s, c, p, a))
  {
    hide Shape;
    hide Locking;
    hide Interrupting;
    hide Scheduling;
    hide NoLostWakeup;
    hide Owning;
    hide NoLostExit;
    hide Building;
    hide Tree;
    hide Pids;
    ShapeCtl(s, c, p, a);
    CtlLocking(s, c, p, a);
    CtlWakeup(s, c, p, a);
    if a.Swtch? { SwtchScheduling(s, c, p); } else { CtlScheduling(s, c, p, a); }
    if a.Start? { StartRest(s, p, a.op); } else { CtlRest(s, c, p, a); }
  }

  lemma LockInv(s: State, c: nat, p: nat, a: Action)
    requires Inv(s) && Runs(s, c, p) && CanLock(s, p, a)
    ensures Inv(DoLock(s, p, a))
  {
    hide Shape;
    hide Locking;
    hide Interrupting;
    hide Scheduling;
    hide NoLostWakeup;
    hide Owning;
    hide NoLostExit;
    hide Building;
    hide Tree;
    hide Pids;
    hide Fit;
    hide Framed;
    var s' := DoLock(s, p, a);
    RunsRunning(s, c, p);
    LockStart(s, p, a);
    FitOf(s);
    if a.WakeLock? { HoldsPtAlone(s, c, p); }
    ShapeLock(s, p, a);
    LockFramed(s, p, a);
    LockFit(s, p, a);
    FramedLocking(s, s', c, p);
    FramedSeats(s, s', c, p);
    LockRest(s, p, a);
    match a
    case TestLock => TestWakeup(s, c, p);
    case MarkSleep => MarkWakeup(s, c, p);
    case ClearLock => ClearWakeup(s, c, p);
    case WakeLock => WakeWakeup(s, c, p);
  }

  lemma LockStart(s: State, p: nat, a: Action)
    requires p < |s.procs| && CanLock(s, p, a)
    ensures !InSched(s.procs[p].pc) && (a.WakeLock? ==> HoldsAt(s.procs[p].pc).pt)
  {
  }

  lemma FitOf(s: State)
    requires Scheduling(s)
    ensures Fit(s)
  {
  }

  lemma FramedSeats(s: State, s': State, c: nat, p: nat)
    requires Scheduling(s) && Runs(s, c, p) && Framed(s, s', p) && Fit(s')
    ensures Scheduling(s')
  {
    hide HoldsAt;
    hide ProcFits;
    SeatsScheduling(s, s', c, p);
  }

  lemma WaitInv(s: State, c: nat, p: nat, a: Action)
    requires Inv(s) && Runs(s, c, p) && CanWait(s, p, a)
    ensures Inv(DoWait(s, p, a))
  {
    hide Shape;
    hide Locking;
    hide Interrupting;
    hide Scheduling;
    hide NoLostWakeup;
    hide Owning;
    hide NoLostExit;
    hide Building;
    hide Tree;
    hide Pids;
    hide Fit;
    hide Framed;
    hide AloneLeaving;
    hide AloneInSched;
    WaitHolds(s, p, a);
    RunsRunning(s, c, p);
    HoldsPtAlone(s, c, p);
    NobodyLeaves(s, c, p);
    FitOf(s);
    if a.WaitReap? { ReapedIsOff(s, c, p, a.z); }
    var s' := DoWait(s, p, a);
    ShapeWait(s, p, a);
    WaitFramed(s, p, a);
    WaitFit(s, p, a);
    FramedLocking(s, s', c, p);
    FramedSeats(s, s', c, p);
    WaitNoNew(s, p, a);
    WaitForkWakeup(s, s', c, p);
    WaitRest(s, p, a);
  }

  lemma WaitRest(s: State, p: nat, a: Action)
    requires Rest(s) && p < |s.procs| && CanWait(s, p, a) && s.procs[p].state == RUNNING && AloneLeaving(s, p)
    requires a.WaitReap? ==> a.z != p && s.procs[a.z].pc == Dead
    ensures Rest(DoWait(s, p, a))
  {
    assert a.Reparent? ==> p != INIT by {
      if a.Reparent? { ExitIsNotInit(s, p); }
    }
    hide Rest;
    hide AloneLeaving;
    match a
    case WaitReap(z) => ReapRest(s, p, z);
    case WaitLeave => WaitLeaveRest(s, p, a);
    case WaitNone => WaitNoneRest(s, p);
    case MarkWait => WaitLeaveRest(s, p, a);
    case WakeParent => WakeParentRest(s, p);
    case Reparent => ReparentRest(s, p);
    case MarkZombie => ZombieRest(s, p);
  }

  lemma ExitIsNotInit(s: State, p: nat)
    requires Tree(s) && p < |s.procs| && s.procs[p].pc.ExitReparent?
    ensures p != INIT
  {
    assert TreeAt(s, p) && InExit(s.procs[p].pc);
  }

  lemma ForkInv(s: State, c: nat, p: nat, a: Action)
    requires Inv(s) && Runs(s, c, p) && CanFork(s, p, a)
    ensures Inv(DoFork(s, p, a))
  {
    hide Shape;
    hide Locking;
    hide Interrupting;
    hide Scheduling;
    hide NoLostWakeup;
    hide Owning;
    hide NoLostExit;
    hide Building;
    hide Tree;
    hide Pids;
    hide Fit;
    hide Framed;
    hide AloneInSched;
    RunsRunning(s, c, p);
    ForkStart(s, p, a);
    FitOf(s);
    if a.Kill? { HoldsPtAlone(s, c, p); }
    if Filled(s.procs[p], a).Some? {
      FilledIsOff(s, c, p, a);
      EmptyPc(s, Filled(s.procs[p], a).value);
    }
    var s' := DoFork(s, p, a);
    ShapeFork(s, p, a);
    ForkFramed(s, p, a);
    ForkFit(s, p, a);
    FramedLocking(s, s', c, p);
    FramedSeats(s, s', c, p);
    ForkNoNew(s, p, a);
    WaitForkWakeup(s, s', c, p);
    ForkRest(s, p, a);
  }

  lemma ForkStart(s: State, p: nat, a: Action)
    requires p < |s.procs| && CanFork(s, p, a)
    ensures !InSched(s.procs[p].pc) && (a.Kill? ==> HoldsAt(s.procs[p].pc).pt)
    ensures !s.procs[p].pc.RelWantPt? && !s.procs[p].pc.RelWake?
  {
  }

  lemma EmptyPc(s: State, q: nat)
    requires Scheduling(s) && q < |s.procs|
    ensures s.procs[q].state == UNUSED ==> s.procs[q].pc.NoThread?
    ensures s.procs[q].state == EMBRYO ==> s.procs[q].pc.Fresh?
  {
    assert ProcFits(s.procs[q], q);
  }

  lemma ForkRest(s: State, p: nat, a: Action)
    requires Rest(s) && p < |s.procs| && CanFork(s, p, a) && s.procs[p].state == RUNNING
    requires Filled(s.procs[p], a).Some? ==>
               var np := Filled(s.procs[p], a).value;
               np < |s.procs| && np != p && (if a.AllocProc? then s.procs[np].pc.NoThread? else s.procs[np].pc.Fresh?)
    ensures Rest(DoFork(s, p, a))
  {
    hide Rest;
    match a
    case AllocProc(np) => AllocRest(s, p, np);
    case AllocNone => KillRest(s, p, a);
    case CopyFail => FillRest(s, p, a);
    case CopyOk => FillRest(s, p, a);
    case RunChild => FillRest(s, p, a);
    case Kill => KillRest(s, p, a);
  }

  /** Every step of every CPU keeps the invariant. */
  lemma StepInv(s: State, c: nat, a: Action)
    requires Inv(s) && Enabled(s, c, a)
    ensures Inv(Step(s, c, a))
  {
    hide Inv;
    if s.cpus[c].ctx.Sched? {
      SchedInv(s, c, a);
    } else {
      var p := s.cpus[c].ctx.p;
      if IsSpin(a) { SpinInv(s, c, p, a); }
      else if IsLock(a) { LockInv(s, c, p, a); }
      else if IsWait(a) { WaitInv(s, c, p, a); }
      else if IsFork(a) { ForkInv(s, c, p, a); }
      else { CtlInv(s, c, p, a); }
    }
  }

  // --------------------------------------------------------------------- runs

  const FREE_SLOT := Proc(UNUSED, NoChan, None, 0, false, NoThread, false, {}, None)

  /** After userinit: init is runnable, every CPU enters its scheduler. */
  ghost function Init(nprocs: nat, ncpus: nat, nlocks: nat): State
    requires nprocs > 0
  {
    State(seq(nprocs, i => if i == INIT then FREE_SLOT.(state := RUNNABLE, pid := 1, pc := Fresh) else FREE_SLOT),
          seq(ncpus, i => Cpu(None, Sched(Sti), 0, false, false)),
          None,
          seq(nlocks, i => SLock(None, false, None)),
          2,
          [])
  }

  lemma InitLocks(nprocs: nat, ncpus: nat, nlocks: nat)
    requires nprocs > 0
    ensures var s := Init(nprocs, ncpus, nlocks); Shape(s) && Locking(s) && Interrupting(s)
  {
  }

  lemma InitScheduling(nprocs: nat, ncpus: nat, nlocks: nat)
    requires nprocs > 0
    ensures var s := Init(nprocs, ncpus, nlocks); Scheduling(s) && NoLostWakeup(s) && Owning(s)
  {
  }

  lemma InitQuiet(nprocs: nat, ncpus: nat, nlocks: nat)
    requires nprocs > 0
    ensures var s := Init(nprocs, ncpus, nlocks);
            && NoLostExit(s) && Building(s) && Pids(s)
            && forall p | 0 <= p < |s.procs| :: !InExit(s.procs[p].pc)
  {
    var s := Init(nprocs, ncpus, nlocks);
    assert forall p | 0 <= p < |s.procs| :: Child(s.procs[p].pc) == None && !InExit(s.procs[p].pc);
  }

  lemma InitTree(nprocs: nat, ncpus: nat, nlocks: nat)
    requires nprocs > 0
    ensures var s := Init(nprocs, ncpus, nlocks); NoLostExit(s) && Building(s) && Tree(s) && Pids(s)
  {
    hide NoLostExit;
    hide Building;
    hide Pids;
    InitQuiet(nprocs, ncpus, nlocks);
    var s := Init(nprocs, ncpus, nlocks);
    forall p | 0 <= p < |s.procs| ensures TreeAt(s, p) {
    }
  }

  lemma InitInv(nprocs: nat, ncpus: nat, nlocks: nat)
    requires nprocs > 0
    ensures Inv(Init(nprocs, ncpus, nlocks))
  {
    hide Init;
    hide Shape;
    hide Locking;
    hide Interrupting;
    hide Scheduling;
    hide NoLostWakeup;
    hide Owning;
    hide NoLostExit;
    hide Building;
    hide Tree;
    hide Pids;
    InitLocks(nprocs, ncpus, nlocks);
    InitScheduling(nprocs, ncpus, nlocks);
    InitTree(nprocs, ncpus, nlocks);
  }

  /** A schedule: which CPU moves, and how, at each step. */
  type Schedule = seq<(nat, Action)>

  ghost predicate CanRun(s: State, es: Schedule)
    decreases |es|, 0
  {
    es == [] ||
    var n := |es| - 1;
    CanRun(s, es[..n]) && Enabled(After(s, es[..n]), es[n].0, es[n].1)
  }

  ghost function After(s: State, es: Schedule): State
    requires CanRun(s, es)
    decreases |es|, 1
  {
    if es == [] then s
    else var n := |es| - 1; Step(After(s, es[..n]), es[n].0, es[n].1)
  }

  ghost predicate IsRun(nprocs: nat, ncpus: nat, nlocks: nat, es: Schedule) {
    nprocs > 0 && CanRun(Init(nprocs, ncpus, nlocks), es)
  }

  /** Safety: every state of every run, for any number of processes, CPUs and sleep-locks
      and any interleaving, satisfies the invariant. */
  lemma {:induction false} RunInv(nprocs: nat, ncpus: nat, nlocks: nat, es: Schedule)
    requires IsRun(nprocs, ncpus, nlocks, es)
    ensures Inv(After(Init(nprocs, ncpus, nlocks), es))
    decreases |es|
  {
    hide Inv;
    hide Init;
    if es == [] {
      InitInv(nprocs, ncpus, nlocks);
    } else {
      var n := |es| - 1;
      RunInv(nprocs, ncpus, nlocks, es[..n]);
      StepInv(After(Init(nprocs, ncpus, nlocks), es[..n]), es[n].0, es[n].1);
    }
  }

  // ---------------------------------------------------------------- theorems

  /** No lost wakeup: when nobody is between unlocking l and finishing wakeup, whoever
      sleeps on l sleeps because l is locked. */
  lemma SleeperImpliesLocked(s: State, p: nat, l: nat)
    requires Inv(s) && p < |s.procs| && l < |s.locks|
    requires s.procs[p].state == SLEEPING && s.procs[p].chan == LockChan(l)
    requires forall q | 0 <= q < |s.procs| :: s.procs[q].pc != RelWantPt(l) && s.procs[q].pc != RelWake(l)
    ensures s.locks[l].locked
  {
    hide Locking;
    hide Interrupting;
    hide Scheduling;
    hide Owning;
    hide NoLostExit;
    hide Building;
    hide Tree;
    hide Pids;
    assert WaitsFor(s.procs[p], l);
  }

  /** No parent sleeps in wait while it has an exited child. */
  lemma NoSleepingParentOfZombie(s: State, p: nat, z: nat)
    requires Inv(s) && p < |s.procs| && ZombieChild(s.procs, p, z)
    ensures !(s.procs[p].state == SLEEPING && s.procs[p].chan == ProcChan(p))
  {
    hide Shape;
    hide Locking;
    hide Interrupting;
    hide Scheduling;
    hide NoLostWakeup;
    hide Owning;
    hide Building;
    hide Tree;
    hide Pids;
    assert !WaitAsleep(s.procs[p], p);
  }

  /** While ptable.lock is free, a process is RUNNING exactly when one CPU has it as its
      current process, and that CPU is unique. */
  lemma RunningIffOneCpu(s: State, p: nat)
    requires Inv(s) && p < |s.procs| && s.pt == None
    ensures s.procs[p].state == RUNNING <==> exists c: nat :: c < |s.cpus| && s.cpus[c].proc == Some(p)
    ensures forall c, d
              | 0 <= c < |s.cpus| && 0 <= d < |s.cpus| && s.cpus[c].proc == Some(p) && s.cpus[d].proc == Some(p) ::
              c == d
  {
    hide Shape;
    hide Interrupting;
    hide NoLostWakeup;
    hide Owning;
    hide NoLostExit;
    hide Building;
    hide Tree;
    hide Pids;
    hide ProcFits;
    hide HoldsAt;
    forall c: nat | c < |s.cpus| ensures s.cpus[c].proc == Some(p) <==> s.procs[p].on == Some(c) {
      assert CpuProc(s, s.cpus[c]);
      assert !CpuHolds(s, s.cpus[c]).pt;
      assert s.procs[p].on == Some(c) <==> Occupies(s, c, p);
    }
    if s.procs[p].on.Some? {
      RunningWhenFree(s, p);
    }
    assert s.procs[p].state == RUNNING ==> s.procs[p].on.Some? by {
      assert ProcFits(s.procs[p], p);
      OnIfRunning(s.procs[p], p);
    }
    if s.procs[p].state == RUNNING {
      assert s.cpus[s.procs[p].on.value].proc == Some(p);
    }
  }

  lemma OnIfRunning(q: Proc, p: nat)
    requires ProcFits(q, p)
    ensures q.state == RUNNING ==> q.on.Some?
  {
  }

  lemma RunningWhenFree(s: State, p: nat)
    requires Inv(s) && p < |s.procs| && s.pt == None && s.procs[p].on.Some?
    ensures s.procs[p].state == RUNNING
  {
    assert ProcFits(s.procs[p], p);
    var c := s.procs[p].on.value;
    assert Occupies(s, c, p);
    if InSched(s.procs[p].pc) {
      OnlyInSchedHolds(s, p);
    }
  }

  lemma OnlyInSchedHolds(s: State, p: nat)
    requires Shape(s) && Locking(s) && Scheduling(s) && p < |s.procs| && InSched(s.procs[p].pc)
    ensures s.pt.Some?
  {
    assert ProcFits(s.procs[p], p);
    var c := s.procs[p].on.value;
    assert Occupies(s, c, p);
    assert CpuProc(s, s.cpus[c]);
    assert CpuHolds(s, s.cpus[c]).pt;
  }

  /** Every process past EMBRYO, except init, has a parent that has not exited. */
  lemma LiveParent(s: State, p: nat)
    requires Inv(s) && p < |s.procs| && p != INIT && s.procs[p].state != UNUSED && s.procs[p].state != EMBRYO
    ensures s.procs[p].parent.Some? && s.procs[p].parent.value < |s.procs|
    ensures var v := s.procs[s.procs[p].parent.value].state; v != UNUSED && v != EMBRYO && v != ZOMBIE
  {
    hide Shape;
    hide Locking;
    hide Interrupting;
    hide Scheduling;
    hide NoLostWakeup;
    hide Owning;
    hide NoLostExit;
    hide Building;
    hide Pids;
    assert TreeAt(s, p);
  }

  /** No pid is reaped twice, nor while its process is in the table. */
  lemma ReapedOnce(s: State)
    requires Inv(s)
    ensures forall i, j | 0 <= i < j < |s.reaped| :: s.reaped[i] != s.reaped[j]
    ensures forall p | 0 <= p < |s.procs| && s.procs[p].state != UNUSED :: s.procs[p].pid !in s.reaped
  {
    hide Shape;
    hide Locking;
    hide Interrupting;
    hide Scheduling;
    hide NoLostWakeup;
    hide Owning;
    hide NoLostExit;
    hide Building;
    hide Tree;
  }

  /** A CPU that holds a spinlock has ncli > 0 and interrupts off, across swtch too. */
  lemma HoldersAreUninterruptible(s: State, c: nat)
    requires Inv(s) && c < |s.cpus|
    requires s.pt == Some(c) || exists l: nat :: l < |s.locks| && s.locks[l].spin == Some(c)
    ensures s.cpus[c].ncli > 0 && !s.cpus[c].iflag
  {
    hide Shape;
    hide Scheduling;
    hide NoLostWakeup;
    hide Owning;
    hide NoLostExit;
    hide Building;
    hide Tree;
    hide Pids;
  }

  lemma PcHolds(pc: Pc)
    ensures InSched(pc) ==> HoldsAt(pc) == Holds(true, None)
    ensures WantsPt(pc) ==> !HoldsAt(pc).pt
    ensures DropsPt(pc) ==> HoldsAt(pc).pt
    ensures WantsSpin(pc) ==> HoldsAt(pc) == Holds(false, None)
    ensures DropsSpin(pc) ==> HoldsAt(pc).spin == Some(pc.l)
  {
  }

  lemma PcRange(nlocks: nat, nprocs: nat, pc: Pc)
    requires PcOk(nlocks, nprocs, pc)
    ensures WantsSpin(pc) || DropsSpin(pc) ==> pc.l < nlocks
  {
  }

  /** None of sched's four checks and none of the checks in acquire and release can fail. */
  lemma NoLockPanics(s: State, c: nat, p: nat)
    requires Inv(s) && Runs(s, c, p)
    ensures InSched(s.procs[p].pc) ==>
              s.pt == Some(c) && s.cpus[c].ncli == 1 && s.procs[p].state != RUNNING && !s.cpus[c].iflag
    ensures WantsPt(s.procs[p].pc) ==> s.pt != Some(c)
    ensures DropsPt(s.procs[p].pc) ==> s.pt == Some(c) && s.cpus[c].ncli > 0
    ensures WantsSpin(s.procs[p].pc) ==> s.procs[p].pc.l < |s.locks| && s.locks[s.procs[p].pc.l].spin != Some(c)
    ensures DropsSpin(s.procs[p].pc) ==> s.procs[p].pc.l < |s.locks| && s.locks[s.procs[p].pc.l].spin == Some(c)
                                         && s.cpus[c].ncli > 0
  {
    hide Shape;
    hide Scheduling;
    hide NoLostWakeup;
    hide Owning;
    hide NoLostExit;
    hide Building;
    hide Tree;
    hide Pids;
    PcHolds(s.procs[p].pc);
    InSchedState(s, p);
    PcRangeAt(s, p);
    assert CpuHolds(s, s.cpus[c]) == HoldsAt(s.procs[p].pc);
    hide HoldsAt;
    hide InSched;
    hide WantsPt;
    hide DropsPt;
  }

  lemma InSchedState(s: State, p: nat)
    requires Scheduling(s) && p < |s.procs|
    ensures InSched(s.procs[p].pc) ==> s.procs[p].state != RUNNING
  {
    assert ProcFits(s.procs[p], p);
  }

  lemma PcRangeAt(s: State, p: nat)
    requires Shape(s) && p < |s.procs|
    ensures var pc := s.procs[p].pc; WantsSpin(pc) || DropsSpin(pc) ==> pc.l < |s.locks|
  {
    PcRange(|s.locks|, |s.procs|, s.procs[p].pc);
  }

  // ------------------------------------------------------- theorems over runs

  /** When nobody is between clearing l's flag and finishing its wakeup, every process
      asleep on l finds it locked. */
  ghost predicate NoSleeperOnFreeLock(s: State) {
    forall p, l | 0 <= p < |s.procs| && 0 <= l < |s.locks| && s.procs[p].state == SLEEPING
        && s.procs[p].chan == LockChan(l)
                  && (forall q | 0 <= q < |s.procs| :: s.procs[q].pc != RelWantPt(l) && s.procs[q].pc != RelWake(l)) ::
      s.locks[l].locked
  }

  ghost predicate NoParentMissesExit(s: State) {
    forall p: nat, z: nat | p < |s.procs| && ZombieChild(s.procs, p, z) ::
      !(s.procs[p].state == SLEEPING && s.procs[p].chan == ProcChan(p))
  }

  /** No sleep-lock is held by two processes, and one that is held is locked. */
  ghost predicate SleepLocksExclude(s: State) {
    && (forall p, q | 0 <= p < q < |s.procs| :: s.procs[p].held !! s.procs[q].held)
    && (forall p, l | 0 <= p < |s.procs| && l in s.procs[p].held :: l < |s.locks| && s.locks[l].locked)
  }

  ghost predicate RunsOnOneCpu(s: State, p: nat)
    requires p < |s.procs|
  {
    && (s.procs[p].state == RUNNING <==> exists c: nat :: c < |s.cpus| && s.cpus[c].proc == Some(p))
    && (forall c, d
          | 0 <= c < |s.cpus| && 0 <= d < |s.cpus| && s.cpus[c].proc == Some(p) && s.cpus[d].proc == Some(p) ::
          c == d)
  }

  ghost predicate ParentsLive(s: State) {
    forall p | 0 <= p < |s.procs| && p != INIT && s.procs[p].state != UNUSED && s.procs[p].state != EMBRYO ::
      && s.procs[p].parent.Some? && s.procs[p].parent.value < |s.procs|
      && var v := s.procs[s.procs[p].parent.value].state; v != UNUSED && v != EMBRYO && v != ZOMBIE
  }

  ghost predicate ReapsOnce(s: State) {
    && (forall i, j | 0 <= i < j < |s.reaped| :: s.reaped[i] != s.reaped[j])
    && (forall p | 0 <= p < |s.procs| && s.procs[p].state != UNUSED :: s.procs[p].pid !in s.reaped)
  }

  ghost predicate HoldersUninterruptible(s: State) {
    forall c: nat | c < |s.cpus| && (s.pt == Some(c) || exists l: nat :: l < |s.locks| && s.locks[l].spin == Some(c)) ::
      s.cpus[c].ncli > 0 && !s.cpus[c].iflag
  }

  /** sched finds ptable.lock held, ncli 1, the state changed and interrupts off; acquire
      never finds its lock already held by the CPU, and release always does. */
  ghost predicate NoLockPanic(s: State, c: nat, p: nat)
    requires Runs(s, c, p)
  {
    var pc := s.procs[p].pc;
    && (InSched(pc) ==> s.pt == Some(c) && s.cpus[c].ncli == 1 && s.procs[p].state != RUNNING && !s.cpus[c].iflag)
    && (WantsPt(pc) ==> s.pt != Some(c))
    && (DropsPt(pc) ==> s.pt == Some(c) && s.cpus[c].ncli > 0)
    && (WantsSpin(pc) ==> pc.l < |s.locks| && s.locks[pc.l].spin != Some(c))
    && (DropsSpin(pc) ==> pc.l < |s.locks| && s.locks[pc.l].spin == Some(c) && s.cpus[c].ncli > 0)
  }

  lemma OwnersExclude(s: State)
    requires Inv(s)
    ensures SleepLocksExclude(s)
  {
    hide PcOk;
    hide Locking;
    hide Interrupting;
    hide Scheduling;
    hide NoLostWakeup;
    hide NoLostExit;
    hide Building;
    hide Tree;
    hide Pids;
    forall p, q | 0 <= p < q < |s.procs| ensures s.procs[p].held !! s.procs[q].held {
      forall l | l in s.procs[p].held ensures l !in s.procs[q].held {
        assert s.locks[l].owner == Some(p);
      }
    }
  }

  lemma WakeupsIn(s: State)
    requires Inv(s)
    ensures NoSleeperOnFreeLock(s) && NoParentMissesExit(s) && SleepLocksExclude(s)
  {
    hide Inv;
    forall p, l | 0 <= p < |s.procs| && 0 <= l < |s.locks| && s.procs[p].state == SLEEPING
        && s.procs[p].chan == LockChan(l)
                  && (forall q | 0 <= q < |s.procs| :: s.procs[q].pc != RelWantPt(l) && s.procs[q].pc != RelWake(l))
      ensures s.locks[l].locked
    {
      SleeperImpliesLocked(s, p, l);
    }
    forall p: nat, z: nat | p < |s.procs| && ZombieChild(s.procs, p, z)
      ensures !(s.procs[p].state == SLEEPING && s.procs[p].chan == ProcChan(p))
    {
      NoSleepingParentOfZombie(s, p, z);
    }
    OwnersExclude(s);
  }

  /** Sleep and wakeup, for any number of processes, CPUs and locks and any schedule. */
  lemma WakeupsAreNotLost(nprocs: nat, ncpus: nat, nlocks: nat, es: Schedule)
    requires IsRun(nprocs, ncpus, nlocks, es)
    ensures var s := After(Init(nprocs, ncpus, nlocks), es);
            NoSleeperOnFreeLock(s) && NoParentMissesExit(s) && SleepLocksExclude(s)
  {
    hide Inv;
    RunInv(nprocs, ncpus, nlocks, es);
    WakeupsIn(After(Init(nprocs, ncpus, nlocks), es));
  }

  lemma ProcessesIn(s: State)
    requires Inv(s)
    ensures (s.pt == None ==> forall p: nat | p < |s.procs| :: RunsOnOneCpu(s, p)) && ParentsLive(s) && ReapsOnce(s)
  {
    hide Inv;
    if s.pt == None {
      forall p: nat | p < |s.procs| ensures RunsOnOneCpu(s, p) {
        RunningIffOneCpu(s, p);
      }
    }
    forall p | 0 <= p < |s.procs| && p != INIT && s.procs[p].state != UNUSED && s.procs[p].state != EMBRYO
      ensures s.procs[p].parent.Some? && s.procs[p].parent.value < |s.procs|
      ensures var v := s.procs[s.procs[p].parent.value].state; v != UNUSED && v != EMBRYO && v != ZOMBIE
    {
      LiveParent(s, p);
    }
    ReapedOnce(s);
  }

  /** Scheduling and the process tree, for any schedule. */
  lemma ProcessesAreSound(nprocs: nat, ncpus: nat, nlocks: nat, es: Schedule)
    requires IsRun(nprocs, ncpus, nlocks, es)
    ensures var s := After(Init(nprocs, ncpus, nlocks), es);
            (s.pt == None ==> forall p: nat | p < |s.procs| :: RunsOnOneCpu(s, p)) && ParentsLive(s) && ReapsOnce(s)
  {
    hide Inv;
    RunInv(nprocs, ncpus, nlocks, es);
    ProcessesIn(After(Init(nprocs, ncpus, nlocks), es));
  }

  lemma LocksIn(s: State)
    requires Inv(s)
    ensures HoldersUninterruptible(s) && forall c: nat, p: nat | Runs(s, c, p) :: NoLockPanic(s, c, p)
  {
    hide Inv;
    forall c: nat | c < |s.cpus| && (s.pt == Some(c) || exists l: nat :: l < |s.locks| && s.locks[l].spin == Some(c))
      ensures s.cpus[c].ncli > 0 && !s.cpus[c].iflag
    {
      HoldersAreUninterruptible(s, c);
    }
    forall c: nat, p: nat | Runs(s, c, p) ensures NoLockPanic(s, c, p) {
      NoLockPanics(s, c, p);
    }
  }

  /** Spinlocks, interrupts and the handover of ptable.lock across swtch, for any schedule. */
  lemma LocksAreSound(nprocs: nat, ncpus: nat, nlocks: nat, es: Schedule)
    requires IsRun(nprocs, ncpus, nlocks, es)
    ensures var s := After(Init(nprocs, ncpus, nlocks), es);
            HoldersUninterruptible(s) && forall c: nat, p: nat | Runs(s, c, p) :: NoLockPanic(s, c, p)
  {
    hide Inv;
    RunInv(nprocs, ncpus, nlocks, es);
    LocksIn(After(Init(nprocs, ncpus, nlocks), es));
  }
}
