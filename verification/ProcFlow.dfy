/** How threads get into the calls of proc.c and sleeplock.c and out of them, and that no CPU
    is ever stuck, in every run of the process machine. */
module ProcFlow {
  import opened Common
  import opened ProcMachine
  import opened ProcInv
  import opened ProcProofs
  import opened ProcTheorems
  import opened ProcCalls

  datatype Call = NoCall | Acquire(l: nat) | Release(l: nat) | Wait | Exit | Fork | Signal | Returning

  /** The call that a thread is in; one that has been preempted is still in it. */
  ghost function CallOf(pc: Pc): Call {
    match Base(pc)
    case AcqWant(l) => Acquire(l)
    case AcqTest(l) => Acquire(l)
    case AcqExit(l) => Acquire(l)
    case SlpWantPt(l) => Acquire(l)
    case SlpRelease(l) => Acquire(l)
    case SlpMark(l) => Acquire(l)
    case SlpSwtch(l) => Acquire(l)
    case SlpBack(l) => Acquire(l)
    case SlpDropPt(l) => Acquire(l)
    case RelWant(l) => Release(l)
    case RelClear(l) => Release(l)
    case RelWantPt(l) => Release(l)
    case RelWake(l) => Release(l)
    case RelDropPt(l) => Release(l)
    case RelExit(l) => Release(l)
    case WaitWant => Wait
    case WaitScan => Wait
    case WaitMark => Wait
    case WaitSwtch => Wait
    case WaitBack => Wait
    case ExitWant => Exit
    case ExitWake => Exit
    case ExitReparent => Exit
    case ExitMark => Exit
    case ExitSwtch => Exit
    case Dead => Exit
    case ForkWant => Fork
    case ForkAlloc => Fork
    case ForkDrop(_) => Fork
    case ForkCopy(_) => Fork
    case ForkWant2(_) => Fork
    case ForkRun(_) => Fork
    case KillWant(_) => Signal
    case KillAct(_) => Signal
    case DropPt => Returning
    case _ => NoCall
  }

  /** A thread comes out of acquiresleep only with the lock and out of releasesleep only without
      it, out of wait only from its scan, out of fork only where fork fails or its child runs,
      out of kill only when that is done, and out of exit never: its slot is cleared. */
  ghost predicate Flows(q: Proc, q': Proc) {
    CallOf(q'.pc) != CallOf(q.pc) ==>
      match CallOf(q.pc)
      case NoCall => q.pc.Idle?
      case Acquire(l) => q.pc == AcqExit(l) && q'.pc.Idle? && l in q'.held
      case Release(l) => q.pc == RelExit(l) && q'.pc.Idle? && l !in q'.held
      case Wait => q.pc.WaitScan? && q'.pc.DropPt?
      case Exit => q.pc.Dead? && q'.pc.NoThread?
      case Fork => if q.pc.ForkCopy? then q'.pc.Idle? else (q.pc.ForkAlloc? || q.pc.ForkRun?) && q'.pc.DropPt?
      case Signal => q.pc.KillAct? && q'.pc.DropPt?
      case Returning => q.pc.DropPt? && q'.pc.Idle?
  }

  ghost predicate AllFlow(s: State, s': State) {
    |s'.procs| == |s.procs| && forall p: nat | p < |s.procs| :: Flows(s.procs[p], s'.procs[p])
  }

  lemma SameFlows(q: Proc, q': Proc)
    requires q'.pc == q.pc
    ensures Flows(q, q')
  {
    hide CallOf;
  }

  lemma OneFlows(s: State, s': State, p: nat)
    requires p < |s.procs| == |s'.procs| && Flows(s.procs[p], s'.procs[p])
    requires forall q: nat | q < |s.procs| && q != p :: s'.procs[q].pc == s.procs[q].pc
    ensures AllFlow(s, s')
  {
    hide Flows;
    forall q: nat | q < |s.procs| ensures Flows(s.procs[q], s'.procs[q]) {
      if q != p { SameFlows(s.procs[q], s'.procs[q]); }
    }
  }

  lemma SchedFlows(s: State, c: nat, a: Action)
    requires c < |s.cpus| && s.cpus[c].ctx.Sched? && CanSched(s, c, a)
    ensures AllFlow(s, DoSched(s, c, a))
  {
    hide Flows;
    var s' := DoSched(s, c, a);
    forall q: nat | q < |s.procs| ensures Flows(s.procs[q], s'.procs[q]) {
      SameFlows(s.procs[q], s'.procs[q]);
    }
  }

  // Taking and leaving spinlocks, seen from the calls.

  lemma GotPtCall(pc: Pc)
    requires WantsPt(pc)
    ensures CallOf(GotPt(pc)) == CallOf(pc)
  {
  }

  lemma LeftPtCall(nlocks: nat, nprocs: nat, pc: Pc)
    requires PcOk(nlocks, nprocs, pc) && DropsPt(pc)
    ensures CallOf(LeftPt(pc)) == CallOf(pc) || (pc.DropPt? && LeftPt(pc).Idle? && CallOf(pc) == Returning)
  {
  }

  lemma GotSpinCall(pc: Pc)
    requires WantsSpin(pc)
    ensures CallOf(GotSpin(pc)) == CallOf(pc)
  {
  }

  lemma LeftSpinCall(pc: Pc)
    requires DropsSpin(pc)
    ensures if pc.AcqExit? then LeftSpin(pc).Idle? && CallOf(pc) == Acquire(pc.l)
            else if pc.RelExit? then LeftSpin(pc).Idle? && CallOf(pc) == Release(pc.l)
            else CallOf(LeftSpin(pc)) == CallOf(pc)
  {
  }

  lemma SpinFlows(s: State, c: nat, p: nat, a: Action)
    requires Shape(s) && HoldsFit(s) && Runs(s, c, p) && CanSpin(s, c, p, a)
    ensures AllFlow(s, DoSpin(s, c, p, a))
  {
    hide CallOf;
    hide GotPt;
    hide LeftPt;
    hide GotSpin;
    hide LeftSpin;
    hide WantsPt;
    hide DropsPt;
    hide PcOk;
    var pc := s.procs[p].pc;
    assert HoldFits(s.procs[p]) && PcOk(|s.locks|, |s.procs|, pc);
    match a {
      case TakePt => GotPtCall(pc);
      case LeavePt => LeftPtCall(|s.locks|, |s.procs|, pc);
      case TakeSpin => GotSpinCall(pc);
      case LeaveSpin => LeftSpinCall(pc);
    }
    OneFlows(s, DoSpin(s, c, p, a), p);
  }

  lemma PreemptCall(pc: Pc)
    ensures LockFree(pc) ==> CallOf(YieldWant(pc)) == CallOf(pc)
    ensures pc.YieldMark? ==> CallOf(YieldSwtch(pc.ret)) == CallOf(pc)
    ensures pc.Idle? ==> CallOf(pc) == NoCall
  {
    hide CallOf;
    assert LockFree(pc) ==> Base(YieldWant(pc)) == Base(pc);
    assert pc.YieldMark? ==> Base(YieldSwtch(pc.ret)) == Base(pc);
    SameCall(YieldWant(pc), pc);
    if pc.YieldMark? { SameCall(YieldSwtch(pc.ret), pc); }
    if pc.Idle? { IdleCall(); }
  }

  lemma SameCall(a: Pc, b: Pc)
    ensures Base(a) == Base(b) ==> CallOf(a) == CallOf(b)
  {
  }

  lemma IdleCall()
    ensures CallOf(Idle) == NoCall
  {
  }

  lemma SwtchCall(pc: Pc)
    requires InSched(pc)
    ensures CallOf(Parked(pc)) == CallOf(pc)
  {
  }

  lemma ResumeCall(pc: Pc)
    requires Resumes(pc)
    ensures CallOf(Resumed(pc)) == CallOf(pc)
  {
  }

  lemma CtlFlows(s: State, c: nat, p: nat, a: Action)
    requires Runs(s, c, p) && CanCtl(s, c, p, a)
    ensures AllFlow(s, DoCtl(s, c, p, a))
  {
    PreemptCall(s.procs[p].pc);
    if InSched(s.procs[p].pc) { SwtchCall(s.procs[p].pc); }
    if Resumes(s.procs[p].pc) { ResumeCall(s.procs[p].pc); }
    hide CallOf;
    hide Parked;
    hide Resumed;
    hide LockFree;
    hide InSched;
    hide Resumes;
    OneFlows(s, DoCtl(s, c, p, a), p);
  }

  lemma LockFlows(s: State, p: nat, a: Action)
    requires p < |s.procs| && CanLock(s, p, a)
    ensures AllFlow(s, DoLock(s, p, a))
  {
    var s' := DoLock(s, p, a);
    assert Flows(s.procs[p], s'.procs[p]);
    hide Flows;
    OneFlows(s, s', p);
  }

  lemma WaitFlows(s: State, p: nat, a: Action)
    requires p < |s.procs| && CanWait(s, p, a) && (a.WaitReap? ==> a.z != p)
    ensures Flows(s.procs[p], DoWait(s, p, a).procs[p])
  {
    WaitPcIs(s, p, a);
    hide DoWait;
    hide CanWait;
    WaitPcCall(s.procs[p].pc, DoWait(s, p, a).procs[p].pc);
    hide CallOf;
  }

  lemma WaitPcCall(pc: Pc, pc': Pc)
    ensures pc.WaitScan? || pc.WaitMark? ==> CallOf(pc) == Wait
    ensures pc'.WaitMark? || pc'.WaitSwtch? ==> CallOf(pc') == Wait
    ensures pc.ExitWake? || pc.ExitReparent? || pc.ExitMark? ==> CallOf(pc) == Exit
    ensures pc'.ExitReparent? || pc'.ExitMark? || pc'.ExitSwtch? ==> CallOf(pc') == Exit
  {
  }

  /** Where a step of wait or exit leaves its thread. */
  lemma WaitPcIs(s: State, p: nat, a: Action)
    requires p < |s.procs| && CanWait(s, p, a) && (a.WaitReap? ==> a.z != p)
    ensures var pc, pc' := s.procs[p].pc, DoWait(s, p, a).procs[p].pc;
            || (pc.WaitScan? && (pc'.DropPt? || pc'.WaitMark?)) || (pc.WaitMark? && pc'.WaitSwtch?)
            || (pc.ExitWake? && pc'.ExitReparent?) || (pc.ExitReparent? && pc'.ExitMark?)
            || (pc.ExitMark? && pc'.ExitSwtch?)
  {
    hide HasZombie;
    hide HasKids;
  }

  lemma OtherFlows(s: State, p: nat, a: Action)
    requires p < |s.procs| && CanWait(s, p, a) && !a.WaitReap?
    ensures AllFlow(s, DoWait(s, p, a))
  {
    WaitFlows(s, p, a);
    hide Flows;
    hide HasZombie;
    hide HasKids;
    OneFlows(s, DoWait(s, p, a), p);
  }

  /** Where a step of fork or kill leaves its thread. */
  lemma ForkPcIs(s: State, p: nat, a: Action)
    requires p < |s.procs| && CanFork(s, p, a)
    ensures var pc, pc' := s.procs[p].pc, DoFork(s, p, a).procs[p].pc;
            || (pc.ForkAlloc? && (pc'.ForkDrop? || pc'.DropPt?)) || (pc.ForkCopy? && (pc'.Idle? || pc'.ForkWant2?))
            || (pc.ForkRun? && pc'.DropPt?) || (pc.KillAct? && pc'.DropPt?)
  {
  }

  lemma ForkFlows(s: State, p: nat, a: Action)
    requires p < |s.procs| && CanFork(s, p, a)
    ensures Flows(s.procs[p], DoFork(s, p, a).procs[p])
  {
    ForkPcIs(s, p, a);
    hide DoFork;
    hide CanFork;
  }

  /** A slot without a thread, or whose thread has not run yet, is in no call. */
  lemma EmptyFlows(q: Proc, q': Proc)
    requires (q.pc.NoThread? || q.pc.Fresh?) && (q'.pc.NoThread? || q'.pc.Fresh?)
    ensures Flows(q, q')
  {
  }

  lemma ReapFlows(s: State, p: nat, z: nat)
    requires p < |s.procs| && CanWait(s, p, WaitReap(z)) && z != p && s.procs[z].pc.Dead?
    ensures AllFlow(s, DoWait(s, p, WaitReap(z)))
  {
    var s' := DoWait(s, p, WaitReap(z));
    WaitFlows(s, p, WaitReap(z));
    assert Flows(s.procs[z], s'.procs[z]);
    hide Flows;
    forall q: nat | q < |s.procs| ensures Flows(s.procs[q], s'.procs[q]) {
      if q != p && q != z { SameFlows(s.procs[q], s'.procs[q]); }
    }
  }

  lemma FillFlows(s: State, p: nat, a: Action)
    requires p < |s.procs| && CanFork(s, p, a)
    requires Filled(s.procs[p], a).Some? ==>
               var np := Filled(s.procs[p], a).value;
               np < |s.procs| && np != p && (s.procs[np].pc.NoThread? || s.procs[np].pc.Fresh?)
    ensures AllFlow(s, DoFork(s, p, a))
  {
    var s' := DoFork(s, p, a);
    ForkFlows(s, p, a);
    hide Flows;
    if Filled(s.procs[p], a).Some? {
      var np := Filled(s.procs[p], a).value;
      EmptyFlows(s.procs[np], s'.procs[np]);
    }
    forall q: nat | q < |s.procs| ensures Flows(s.procs[q], s'.procs[q]) {
      if q != p && Some(q) != Filled(s.procs[p], a) { SameFlows(s.procs[q], s'.procs[q]); }
    }
  }

  lemma StepFlows(s: State, c: nat, a: Action)
    requires Inv(s) && HoldsFit(s) && Enabled(s, c, a)
    ensures AllFlow(s, Step(s, c, a))
  {
    hide NoLostWakeup;
    hide Owning;
    hide NoLostExit;
    hide Building;
    hide Tree;
    hide Pids;
    hide Locking;
    hide Interrupting;
    hide Scheduling;
    hide HoldsFit;
    hide AllFlow;
    if s.cpus[c].ctx.Sched? {
      SchedFlows(s, c, a);
    } else {
      var p := s.cpus[c].ctx.p;
      if IsSpin(a) {
        SpinFlows(s, c, p, a);
      } else if IsLock(a) {
        LockFlows(s, p, a);
      } else if IsWait(a) {
        if a.WaitReap? {
          ReapedIsOff(s, c, p, a.z);
          ReapFlows(s, p, a.z);
        } else {
          OtherFlows(s, p, a);
        }
      } else if IsFork(a) {
        FilledRests(s, c, p, a);
        FillFlows(s, p, a);
      } else {
        CtlFlows(s, c, p, a);
      }
    }
  }

  // ----------------------------------------------------------- nobody is stuck

  /** A CPU waits in acquire for a spinlock that is held. */
  ghost predicate Spins(s: State, c: nat)
    requires c < |s.cpus|
  {
    match s.cpus[c].ctx
    case Sched(spc) => spc.Want? && s.pt.Some?
    case Thread(p) =>
      && p < |s.procs|
      && (|| (WantsPt(s.procs[p].pc) && s.pt.Some?)
          || (WantsSpin(s.procs[p].pc) && s.procs[p].pc.l < |s.locks| && s.locks[s.procs[p].pc.l].spin.Some?))
  }

  lemma SchedGoesOn(s: State, c: nat) returns (a: Action)
    requires Interrupting(s) && c < |s.cpus| && s.cpus[c].ctx.Sched? && !Spins(s, c)
    ensures CanSched(s, c, a)
  {
    match s.cpus[c].ctx.spc {
      case Sti => a := SchedSti;
      case Want => a := SchedAcquire;
      case Scan =>
        assert CpuHolds(s, s.cpus[c]).pt;
        a := SchedRelease;
      case Switch(_) => a := SchedSwtch;
      case Back => a := SchedClear;
    }
  }

  /** Inside a call: the next step of its body, or of a spinlock or swtch. */
  ghost predicate InBody(pc: Pc) {
    !WantsPt(pc) && !DropsPt(pc) && !WantsSpin(pc) && !DropsSpin(pc) && !InSched(pc) && !Resumes(pc)
  }

  lemma LockGoesOn(s: State, c: nat, p: nat) returns (a: Action)
    requires Inv(s) && Runs(s, c, p) && !Spins(s, c) && !InBody(s.procs[p].pc)
    ensures if IsSpin(a) then CanSpin(s, c, p, a) else (a.Swtch? || a.Resume?) && CanCtl(s, c, p, a)
  {
    hide Inv;
    hide WantsPt;
    hide DropsPt;
    hide InSched;
    hide Resumes;
    NoLockPanics(s, c, p);
    var pc := s.procs[p].pc;
    if WantsPt(pc) { a := TakePt; }
    else if DropsPt(pc) { a := LeavePt; }
    else if WantsSpin(pc) { a := TakeSpin; }
    else if DropsSpin(pc) { a := LeaveSpin; }
    else if InSched(pc) { a := Swtch; }
    else { a := Resume; }
  }

  lemma WaitGoesOn(s: State, p: nat) returns (a: Action)
    requires p < |s.procs| && s.procs[p].pc.WaitScan?
    ensures IsWait(a) && CanWait(s, p, a)
  {
    if HasZombie(s.procs, p) {
      var z :| ZombieChild(s.procs, p, z);
      a := WaitReap(z);
    } else if HasKids(s.procs, p) && !s.procs[p].killed {
      a := WaitNone;
    } else {
      a := WaitLeave;
    }
  }

  lemma AllocGoesOn(s: State, p: nat) returns (a: Action)
    requires p < |s.procs| && s.procs[p].pc.ForkAlloc?
    ensures IsFork(a) && CanFork(s, p, a)
  {
    if np: nat :| np < |s.procs| && s.procs[np].state == UNUSED {
      a := AllocProc(np);
    } else {
      a := AllocNone;
    }
  }

  /** The pcs whose next step is in the body of a call. */
  lemma BodyPcs(pc: Pc)
    requires InBody(pc)
    ensures || OffCpuPc(pc) || pc.Idle? || pc.AcqTest? || pc.SlpMark? || pc.RelClear? || pc.RelWake? || pc.WaitScan?
            || pc.WaitMark? || pc.ExitWake? || pc.ExitReparent? || pc.ExitMark? || pc.YieldMark? || pc.ForkAlloc?
            || pc.ForkCopy? || pc.ForkRun? || pc.KillAct?
  {
  }

  lemma BodyRange(nlocks: nat, nprocs: nat, pc: Pc)
    requires PcOk(nlocks, nprocs, pc)
    ensures (pc.AcqTest? || pc.RelClear? ==> pc.l < nlocks) && (pc.KillAct? ==> pc.target < nprocs)
    ensures pc.ForkCopy? || pc.ForkRun? ==> Child(pc) == Some(pc.np)
  {
  }

  lemma SleepBody(s: State, p: nat) returns (a: Action)
    requires p < |s.procs| && PcOk(|s.locks|, |s.procs|, s.procs[p].pc)
    requires var pc := s.procs[p].pc; pc.AcqTest? || pc.SlpMark? || pc.RelClear? || pc.RelWake?
    ensures IsLock(a) && CanLock(s, p, a)
  {
    var pc := s.procs[p].pc;
    a := if pc.AcqTest? then TestLock else if pc.SlpMark? then MarkSleep
         else if pc.RelClear? then ClearLock else WakeLock;
  }

  lemma ExitBody(s: State, p: nat) returns (a: Action)
    requires p < |s.procs|
    requires var pc := s.procs[p].pc; pc.WaitMark? || pc.ExitWake? || pc.ExitReparent? || pc.ExitMark?
    ensures IsWait(a) && CanWait(s, p, a)
  {
    var pc := s.procs[p].pc;
    a := if pc.WaitMark? then MarkWait else if pc.ExitWake? then WakeParent
         else if pc.ExitReparent? then Reparent else MarkZombie;
  }

  lemma ForkBody(s: State, p: nat) returns (a: Action)
    requires p < |s.procs| && PcOk(|s.locks|, |s.procs|, s.procs[p].pc)
    requires Child(s.procs[p].pc).Some? ==> Child(s.procs[p].pc).value < |s.procs|
    requires var pc := s.procs[p].pc; pc.ForkCopy? || pc.ForkRun? || pc.KillAct?
    ensures IsFork(a) && CanFork(s, p, a)
  {
    var pc := s.procs[p].pc;
    BodyRange(|s.locks|, |s.procs|, pc);
    a := if pc.ForkCopy? then CopyOk else if pc.ForkRun? then RunChild else Kill;
  }

  lemma BodyGoesOn(s: State, c: nat, p: nat) returns (a: Action)
    requires Runs(s, c, p) && PcOk(|s.locks|, |s.procs|, s.procs[p].pc) && InBody(s.procs[p].pc)
    requires !OffCpuPc(s.procs[p].pc)
    requires Child(s.procs[p].pc).Some? ==> Child(s.procs[p].pc).value < |s.procs|
    ensures CanMove(s, c, a)
  {
    var pc := s.procs[p].pc;
    BodyPcs(pc);
    hide InBody;
    hide PcOk;
    hide Child;
    hide CanLock;
    hide CanWait;
    hide CanFork;
    if pc.WaitScan? { a := WaitGoesOn(s, p); }
    else if pc.ForkAlloc? { a := AllocGoesOn(s, p); }
    else if pc.Idle? { a := Start(ForkWant); }
    else if pc.YieldMark? { a := MarkYield; }
    else if pc.AcqTest? || pc.SlpMark? || pc.RelClear? || pc.RelWake? { a := SleepBody(s, p); }
    else if pc.WaitMark? || pc.ExitWake? || pc.ExitReparent? || pc.ExitMark? { a := ExitBody(s, p); }
    else { a := ForkBody(s, p); }
  }

  lemma OnCpuPc(s: State, c: nat, p: nat)
    requires Scheduling(s) && Runs(s, c, p)
    ensures !OffCpuPc(s.procs[p].pc)
  {
    assert ProcFits(s.procs[p], p);
    assert s.procs[p].on == Some(c) <==> Occupies(s, c, p);
  }

  lemma BodyFacts(s: State, c: nat, p: nat)
    requires Inv(s) && Runs(s, c, p)
    ensures PcOk(|s.locks|, |s.procs|, s.procs[p].pc) && !OffCpuPc(s.procs[p].pc)
    ensures Child(s.procs[p].pc).Some? ==> Child(s.procs[p].pc).value < |s.procs|
  {
    hide Locking;
    hide Interrupting;
    hide NoLostWakeup;
    hide Owning;
    hide NoLostExit;
    hide Tree;
    hide Pids;
    hide Child;
    hide PcOk;
    OnCpuPc(s, c, p);
    hide Scheduling;
  }

  /** A CPU that does not wait for a spinlock has a step to take. */
  lemma CpuGoesOn(s: State, c: nat) returns (a: Action)
    requires Inv(s) && c < |s.cpus| && !Spins(s, c)
    ensures Enabled(s, c, a)
  {
    hide Locking;
    hide Interrupting;
    hide Scheduling;
    hide NoLostWakeup;
    hide Owning;
    hide NoLostExit;
    hide Building;
    hide Tree;
    hide Pids;
    hide PcOk;
    hide CanSched;
    hide Spins;
    if s.cpus[c].ctx.Sched? {
      a := SchedGoesOn(s, c);
    } else {
      var p := s.cpus[c].ctx.p;
      BodyFacts(s, c, p);
      hide Inv;
      hide InBody;
      if InBody(s.procs[p].pc) { a := BodyGoesOn(s, c, p); } else { a := LockGoesOn(s, c, p); }
    }
  }

  /** A thread outside any call may start each of them; exit, unless it is init's or still holds
      a sleep-lock. */
  lemma IdleMayStart(s: State, c: nat, p: nat, op: Pc)
    requires Runs(s, c, p) && s.procs[p].pc.Idle?
    requires || op.WaitWant? || op.ForkWant? || (op.AcqWant? && op.l < |s.locks|)
             || (op.RelWant? && op.l in s.procs[p].held) || (op.KillWant? && op.target < |s.procs|)
             || (op.ExitWant? && p != INIT && s.procs[p].held == {})
    ensures Enabled(s, c, Start(op))
  {
    assert Startable(s, p, op);
    hide Startable;
  }

  /** Who holds ptable.lock does not wait for a spinlock. */
  lemma PtHolderGoesOn(s: State, c: nat)
    requires Locking(s) && c < |s.cpus| && s.pt == Some(c)
    ensures !Spins(s, c)
  {
    assert CpuHolds(s, s.cpus[c]).pt;
    if s.cpus[c].ctx.Thread? && s.cpus[c].ctx.p < |s.procs| { PcHolds(s.procs[s.cpus[c].ctx.p].pc); }
    hide HoldsAt;
  }

  /** Who holds the spinlock of a sleep-lock waits at most for ptable.lock. */
  lemma SpinHolderWaits(s: State, c: nat, l: nat)
    requires Locking(s) && c < |s.cpus| && l < |s.locks| && s.locks[l].spin == Some(c) && Spins(s, c)
    ensures s.pt.Some?
  {
    assert CpuHolds(s, s.cpus[c]).spin == Some(l);
    if s.cpus[c].ctx.Thread? && s.cpus[c].ctx.p < |s.procs| { PcHolds(s.procs[s.cpus[c].ctx.p].pc); }
    hide HoldsAt;
  }

  /** There is no deadlock over spinlocks: in every reachable state some CPU has a step. */
  lemma SomeCpuGoesOn(s: State) returns (c: nat, a: Action)
    requires Inv(s) && |s.cpus| > 0
    ensures Enabled(s, c, a)
  {
    c := 0;
    if Spins(s, c) {
      if s.pt.Some? {
        c := s.pt.value;
        PtHolderGoesOn(s, c);
      } else {
        var l := s.procs[s.cpus[c].ctx.p].pc.l;
        c := s.locks[l].spin.value;
        if Spins(s, c) { SpinHolderWaits(s, c, l); }
      }
    }
    hide Spins;
    a := CpuGoesOn(s, c);
  }

  /** The calls and the CPUs, for any number of processes, CPUs and locks and any schedule: no
      deadlock over spinlocks, and the last step, whatever it was, took no thread out of a call
      but at the call's end. */
  lemma CallsFlow(nprocs: nat, ncpus: nat, nlocks: nat, es: Schedule)
    requires IsRun(nprocs, ncpus, nlocks, es) && ncpus > 0
    ensures exists c, a :: Enabled(After(Init(nprocs, ncpus, nlocks), es), c, a)
    ensures |es| > 0 ==>
              var before := es[..|es| - 1];
              AllFlow(After(Init(nprocs, ncpus, nlocks), before), After(Init(nprocs, ncpus, nlocks), es))
  {
    RunCpus(nprocs, ncpus, nlocks, es);
    hide Inv;
    hide Init;
    hide AllFlow;
    hide HoldsFit;
    hide Enabled;
    RunInv(nprocs, ncpus, nlocks, es);
    var c, a := SomeCpuGoesOn(After(Init(nprocs, ncpus, nlocks), es));
    if |es| > 0 {
      var n := |es| - 1;
      RunInv(nprocs, ncpus, nlocks, es[..n]);
      RunHolds(nprocs, ncpus, nlocks, es[..n]);
      StepFlows(After(Init(nprocs, ncpus, nlocks), es[..n]), es[n].0, es[n].1);
    }
  }

  lemma {:induction false} RunCpus(nprocs: nat, ncpus: nat, nlocks: nat, es: Schedule)
    requires IsRun(nprocs, ncpus, nlocks, es)
    ensures |After(Init(nprocs, ncpus, nlocks), es).cpus| == ncpus
    decreases |es|
  {
    if es != [] {
      var n := |es| - 1;
      RunCpus(nprocs, ncpus, nlocks, es[..n]);
      hide Init;
      StepCpus(After(Init(nprocs, ncpus, nlocks), es[..n]), es[n].0, es[n].1);
    }
  }

  lemma StepCpus(s: State, c: nat, a: Action)
    requires Enabled(s, c, a)
    ensures |Step(s, c, a).cpus| == |s.cpus|
  {
    hide HasZombie;
    hide HasKids;
  }
}
