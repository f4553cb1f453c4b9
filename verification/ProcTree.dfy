/** Lock owners, exits and waits, the process tree and pids: kept by every step. */
module ProcTree {
  import opened Common
  import opened ProcMachine
  import opened ProcInv
  import opened ProcProofs

  // ----------------------------------------------------- steps that disturb nothing

  /** Two points of a thread that do not differ in what fork, exit, wait and releasesleep
      are doing. */
  ghost predicate PcQuiet(pc: Pc, pc': Pc) {
    && Child(pc') == Child(pc) && (Linked(pc') <==> Linked(pc))
    && (InExit(pc') ==> InExit(pc))
    && (pc'.ExitMark? ==> pc.ExitMark?) && (pc'.ExitReparent? ==> pc.ExitReparent?)
    && (pc'.WaitMark? ==> pc.WaitMark?)
    && (forall l: nat | Releasing(pc', l) :: Releasing(pc, l))
  }

  /** What most steps leave alone: sleep-lock owners, parents and pids, which slots are
      free, being filled or exited, and who waits for a child. */
  ghost predicate Quiet(q: Proc, q': Proc, i: nat) {
    && q'.held == q.held && q'.parent == q.parent && q'.pid == q.pid
    && (q'.state == UNUSED <==> q.state == UNUSED)
    && (q'.state == EMBRYO <==> q.state == EMBRYO)
    && (q'.state == ZOMBIE <==> q.state == ZOMBIE)
    && PcQuiet(q.pc, q'.pc)
    && (WaitAsleep(q', i) ==> WaitAsleep(q, i))
  }

  lemma PcQuietSame(pc: Pc)
    ensures PcQuiet(pc, pc)
  {
  }

  /** Only slot p changes, and quietly. */
  lemma OneQuiet(s: State, s': State, p: nat)
    requires p < |s.procs| == |s'.procs| && |s'.locks| == |s.locks|
    requires s'.nextpid == s.nextpid && s'.reaped == s.reaped
    requires forall l | 0 <= l < |s.locks| ::
             s'.locks[l].locked == s.locks[l].locked && s'.locks[l].owner == s.locks[l].owner
    requires forall q | 0 <= q < |s.procs| && q != p :: s'.procs[q] == s.procs[q]
    requires Quiet(s.procs[p], s'.procs[p], p)
    ensures AllQuiet(s, s')
  {
    hide PcQuiet;
    forall q | 0 <= q < |s.procs| ensures Quiet(s.procs[q], s'.procs[q], q) {
      PcQuietSame(s.procs[q].pc);
    }
  }

  ghost predicate AllQuiet(s: State, s': State) {
    && |s'.procs| == |s.procs| && |s'.locks| == |s.locks|
    && s'.nextpid == s.nextpid && s'.reaped == s.reaped
    && (forall l | 0 <= l < |s.locks| ::
        s'.locks[l].locked == s.locks[l].locked && s'.locks[l].owner == s.locks[l].owner)
    && (forall q | 0 <= q < |s.procs| :: Quiet(s.procs[q], s'.procs[q], q))
  }

  ghost predicate Rest(s: State) {
    Owning(s) && NoLostExit(s) && Building(s) && Tree(s) && Pids(s)
  }

  // Each part of the invariant, and what is enough to keep it.

  ghost predicate SameSize(s: State, s': State) {
    |s'.procs| == |s.procs| && |s'.locks| == |s.locks|
  }

  lemma KeepOwning(s: State, s': State)
    requires Owning(s) && SameSize(s, s')
    requires forall l | 0 <= l < |s.locks| ::
             s'.locks[l].locked == s.locks[l].locked && s'.locks[l].owner == s.locks[l].owner
    requires forall q | 0 <= q < |s.procs| :: s'.procs[q].held == s.procs[q].held
    requires forall q, l: nat | 0 <= q < |s.procs| && Releasing(s'.procs[q].pc, l) :: l in s.procs[q].held
    ensures Owning(s')
  {
    hide Releasing;
  }

  ghost predicate Leaving(pc: Pc) { pc.ExitReparent? || pc.ExitMark? }

  ghost predicate KeepsExit(q: Proc, q': Proc, i: nat) {
    && (q'.state == ZOMBIE ==> q.state == ZOMBIE && q'.parent == q.parent)
    && (Leaving(q'.pc) ==> Leaving(q.pc) && q'.parent == q.parent)
    && (WaitAsleep(q', i) ==> WaitAsleep(q, i))
  }

  lemma KeepExit(s: State, s': State)
    requires NoLostExit(s) && SameSize(s, s')
    requires forall q | 0 <= q < |s.procs| :: KeepsExit(s.procs[q], s'.procs[q], q)
    ensures NoLostExit(s')
  {
    hide WaitAsleep;
    forall z: nat, p: nat | p < |s'.procs| && ZombieChild(s'.procs, p, z) ensures !WaitAsleep(s'.procs[p], p) {
      assert KeepsExit(s.procs[p], s'.procs[p], p) && KeepsExit(s.procs[z], s'.procs[z], z);
      assert ZombieChild(s.procs, p, z);
    }
    forall q, p | 0 <= q < |s.procs| && 0 <= p < |s.procs| && s'.procs[q].parent == Some(p) && Leaving(s'.procs[q].pc)
      ensures !WaitAsleep(s'.procs[p], p)
    {
      assert KeepsExit(s.procs[p], s'.procs[p], p) && KeepsExit(s.procs[q], s'.procs[q], q);
    }
  }

  ghost predicate KeepsBuilding(q: Proc, q': Proc) {
    && Child(q'.pc) == Child(q.pc) && (Linked(q'.pc) <==> Linked(q.pc))
    && (q'.state == EMBRYO <==> q.state == EMBRYO)
    && (q.state == EMBRYO ==> q'.parent == q.parent)
  }

  lemma KeepBuilding(s: State, s': State)
    requires Building(s) && SameSize(s, s')
    requires forall q | 0 <= q < |s.procs| :: KeepsBuilding(s.procs[q], s'.procs[q])
    ensures Building(s')
  {
    hide Child;
    hide Linked;
  }

  ghost predicate Started(q: Proc) { q.state != UNUSED && q.state != EMBRYO }

  ghost predicate KeepsTree(q: Proc, q': Proc) {
    && q'.parent == q.parent
    && (q'.state == UNUSED ==> q.state == UNUSED) && (Started(q') ==> Started(q)) && (Alive(q) ==> Alive(q'))
    && (InExit(q'.pc) ==> InExit(q.pc)) && (q'.pc.ExitMark? ==> q.pc.ExitMark?)
  }

  lemma KeepTree(s: State, s': State)
    requires Tree(s) && SameSize(s, s')
    requires forall q | 0 <= q < |s.procs| :: KeepsTree(s.procs[q], s'.procs[q])
    ensures Tree(s')
  {
    hide InExit;
    hide Alive;
    assert KeepsTree(s.procs[INIT], s'.procs[INIT]);
    forall q | 0 <= q < |s.procs| ensures TreeAt(s', q) {
      assert TreeAt(s, q) && KeepsTree(s.procs[q], s'.procs[q]);
      var v := s.procs[q].parent;
      assert v.Some? && v.value < |s.procs| ==> KeepsTree(s.procs[v.value], s'.procs[v.value]);
    }
  }

  lemma KeepPids(s: State, s': State)
    requires Pids(s) && SameSize(s, s') && s'.nextpid == s.nextpid && s'.reaped == s.reaped
    requires forall q | 0 <= q < |s.procs| && s'.procs[q].state != UNUSED ::
             s.procs[q].state != UNUSED && s'.procs[q].pid == s.procs[q].pid
    ensures Pids(s')
  {
  }

  lemma QuietKeeps(q: Proc, q': Proc, i: nat)
    requires Quiet(q, q', i)
    ensures KeepsExit(q, q', i) && KeepsBuilding(q, q') && KeepsTree(q, q')
  {
    hide Child;
    hide Linked;
    hide InExit;
    hide Releasing;
    hide WaitAsleep;
  }

  lemma QuietRest(s: State, s': State)
    requires Rest(s) && AllQuiet(s, s')
    ensures Rest(s')
  {
    forall q | 0 <= q < |s.procs|
      ensures KeepsExit(s.procs[q], s'.procs[q], q) && KeepsBuilding(s.procs[q], s'.procs[q])
              && KeepsTree(s.procs[q], s'.procs[q])
    {
      QuietKeeps(s.procs[q], s'.procs[q], q);
    }
    forall q, l: nat | 0 <= q < |s.procs| && Releasing(s'.procs[q].pc, l) ensures l in s.procs[q].held {
      assert Quiet(s.procs[q], s'.procs[q], q);
    }
    hide Releasing;
    hide PcQuiet;
    hide KeepsExit;
    hide KeepsBuilding;
    hide KeepsTree;
    hide Owning;
    hide NoLostExit;
    hide Building;
    hide Tree;
    hide Pids;
    KeepOwning(s, s');
    KeepExit(s, s');
    KeepBuilding(s, s');
    KeepTree(s, s');
    KeepPids(s, s');
  }

  lemma SchedRest(s: State, c: nat, a: Action)
    requires Rest(s) && c < |s.cpus| && s.cpus[c].ctx.Sched? && CanSched(s, c, a)
    ensures Rest(DoSched(s, c, a))
  {
    hide Rest;
    hide PcQuiet;
    var s' := DoSched(s, c, a);
    forall q | 0 <= q < |s.procs| ensures Quiet(s.procs[q], s'.procs[q], q) {
      PcQuietSame(s.procs[q].pc);
    }
    QuietRest(s, s');
  }

  // ------------------------------------------------------- spinlocks and control

  lemma GotPtQuiet(pc: Pc)
    requires WantsPt(pc)
    ensures PcQuiet(pc, GotPt(pc))
  {
  }

  lemma LeftPtQuiet(pc: Pc)
    requires DropsPt(pc) && (pc.YieldDrop? ==> LockFree(pc.ret))
    ensures PcQuiet(pc, LeftPt(pc))
  {
  }

  lemma SpinPcQuiet(pc: Pc)
    ensures WantsSpin(pc) ==> PcQuiet(pc, GotSpin(pc))
    ensures DropsSpin(pc) ==> PcQuiet(pc, LeftSpin(pc))
  {
  }

  /** Moving a thread's pc quietly. */
  lemma MovedQuiet(q: Proc, pc: Pc, i: nat)
    requires PcQuiet(q.pc, pc)
    ensures Quiet(q, q.(pc := pc), i)
  {
    hide Child;
    hide Linked;
    hide InExit;
    hide Releasing;
  }

  lemma SpinQuiet(s: State, c: nat, p: nat, a: Action)
    requires Runs(s, c, p) && CanSpin(s, c, p, a)
    requires s.procs[p].pc.YieldDrop? ==> LockFree(s.procs[p].pc.ret)
    ensures AllQuiet(s, DoSpin(s, c, p, a))
  {
    hide PcQuiet;
    var s' := DoSpin(s, c, p, a);
    var pc := s.procs[p].pc;
    if a.TakePt? {
      GotPtQuiet(pc);
    } else if a.LeavePt? {
      LeftPtQuiet(pc);
    } else {
      SpinPcQuiet(pc);
    }
    hide GotPt;
    hide LeftPt;
    hide GotSpin;
    hide LeftSpin;
    hide WantsPt;
    hide DropsPt;
    MovedQuiet(s.procs[p], s'.procs[p].pc, p);
    hide Quiet;
    OneQuiet(s, s', p);
  }

  lemma SpinRest(s: State, c: nat, p: nat, a: Action)
    requires Shape(s) && Rest(s) && Runs(s, c, p) && CanSpin(s, c, p, a)
    ensures Rest(DoSpin(s, c, p, a))
  {
    hide Rest;
    assert PcOk(|s.locks|, |s.procs|, s.procs[p].pc);
    SpinQuiet(s, c, p, a);
    hide DoSpin;
    QuietRest(s, DoSpin(s, c, p, a));
  }

  lemma PreemptQuiet(pc: Pc)
    requires LockFree(pc)
    ensures PcQuiet(pc, YieldWant(pc))
  {
  }

  lemma SchedQuiet(pc: Pc)
    requires InSched(pc)
    ensures PcQuiet(pc, Parked(pc))
  {
  }

  lemma ResumeQuiet(pc: Pc)
    requires Resumes(pc)
    ensures PcQuiet(pc, Resumed(pc))
  {
  }

  lemma ParkedQuiet(pc: Pc)
    ensures InSched(pc) ==> PcQuiet(pc, Parked(pc))
    ensures Resumes(pc) ==> PcQuiet(pc, Resumed(pc))
    ensures pc.YieldMark? ==> PcQuiet(pc, YieldSwtch(pc.ret))
  {
    hide InSched;
    hide Resumes;
    hide Parked;
    hide Resumed;
    if InSched(pc) { SchedQuiet(pc); }
    if Resumes(pc) { ResumeQuiet(pc); }
  }

  lemma CtlQuiet(s: State, c: nat, p: nat, a: Action)
    requires Runs(s, c, p) && CanCtl(s, c, p, a) && !a.Start?
    requires !InSched(s.procs[p].pc) ==> s.procs[p].state == RUNNING
    ensures AllQuiet(s, DoCtl(s, c, p, a))
  {
    hide PcQuiet;
    var s' := DoCtl(s, c, p, a);
    var pc := s.procs[p].pc;
    PcQuietSame(pc);
    if a.Preempt? {
      PreemptQuiet(pc);
    }
    ParkedQuiet(pc);
    assert a.Resume? || a.MarkYield? ==> s.procs[p].state == RUNNING;
    hide LockFree;
    hide InSched;
    hide Resumes;
    assert a.Resume? ==> !Resumed(pc).WaitMark?;
    assert a.Swtch? ==> !Parked(pc).WaitMark?;
    hide Parked;
    hide Resumed;
    assert Quiet(s.procs[p], s'.procs[p], p);
    hide Quiet;
    OneQuiet(s, s', p);
  }

  lemma CtlRest(s: State, c: nat, p: nat, a: Action)
    requires Scheduling(s) && Rest(s) && Runs(s, c, p) && CanCtl(s, c, p, a) && !a.Start?
    ensures Rest(DoCtl(s, c, p, a))
  {
    hide Rest;
    RunsRunning(s, c, p);
    CtlQuiet(s, c, p, a);
    hide DoCtl;
    QuietRest(s, DoCtl(s, c, p, a));
  }

  // An operation that starts inside fork, exit or releasesleep is not quiet.

  lemma StartQuiet(s: State, p: nat, op: Pc)
    requires p < |s.procs| && s.procs[p].pc == Idle && Startable(s, p, op) && !op.RelWant? && !op.ExitWant?
    ensures AllQuiet(s, SetPc(s, p, op))
  {
    hide Quiet;
    assert PcQuiet(s.procs[p].pc, op);
    MovedQuiet(s.procs[p], op, p);
    hide PcQuiet;
    OneQuiet(s, SetPc(s, p, op), p);
  }
}
