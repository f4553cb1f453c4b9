/** What every state of the process machine satisfies. */
module ProcInv {
  import opened Common
  import opened ProcMachine

  // ------------------------------------------------------------ who holds what

  /** The spinlocks a CPU holds, by where its scheduler or process thread stands. */
  ghost function CpuHolds(s: State, k: Cpu): Holds {
    match k.ctx
    case Sched(spc) => Holds(spc.Scan? || spc.Switch? || spc.Back?, None)
    case Thread(p) => if p < |s.procs| then HoldsAt(s.procs[p].pc) else Holds(false, None)
  }

  /** The pc's arguments are in range. */
  ghost predicate PcOk(nlocks: nat, nprocs: nat, pc: Pc)
    decreases pc
  {
    match pc
    case AcqWant(l) => l < nlocks
    case AcqTest(l) => l < nlocks
    case AcqExit(l) => l < nlocks
    case SlpWantPt(l) => l < nlocks
    case SlpRelease(l) => l < nlocks
    case SlpMark(l) => l < nlocks
    case SlpSwtch(l) => l < nlocks
    case SlpBack(l) => l < nlocks
    case SlpDropPt(l) => l < nlocks
    case RelWant(l) => l < nlocks
    case RelClear(l) => l < nlocks
    case RelWantPt(l) => l < nlocks
    case RelWake(l) => l < nlocks
    case RelDropPt(l) => l < nlocks
    case RelExit(l) => l < nlocks
    case KillWant(t) => t < nprocs
    case KillAct(t) => t < nprocs
    case YieldWant(ret) => LockFree(ret) && PcOk(nlocks, nprocs, ret)
    case YieldMark(ret) => LockFree(ret) && PcOk(nlocks, nprocs, ret)
    case YieldSwtch(ret) => LockFree(ret) && PcOk(nlocks, nprocs, ret)
    case YieldBack(ret) => LockFree(ret) && PcOk(nlocks, nprocs, ret)
    case YieldDrop(ret) => LockFree(ret) && PcOk(nlocks, nprocs, ret)
    case _ => true
  }

  ghost predicate Shape(s: State) {
    && INIT < |s.procs|
    && (forall c | 0 <= c < |s.cpus| :: s.cpus[c].ctx.Thread? ==> s.cpus[c].ctx.p < |s.procs|)
    && (forall c | 0 <= c < |s.cpus| ::
        s.cpus[c].ctx.Sched? && s.cpus[c].ctx.spc.Switch? ==> s.cpus[c].ctx.spc.p < |s.procs|)
    && (forall p | 0 <= p < |s.procs| :: PcOk(|s.locks|, |s.procs|, s.procs[p].pc))
    && (forall p, l | 0 <= p < |s.procs| && l in s.procs[p].held :: l < |s.locks|)
  }

  /** Each spinlock is held by the CPU whose thread is inside its critical section, also
      while ptable.lock is handed from a process to the scheduler and back. */
  ghost predicate Locking(s: State) {
    && (s.pt.Some? ==> s.pt.value < |s.cpus|)
    && (forall c | 0 <= c < |s.cpus| :: CpuHolds(s, s.cpus[c]).pt <==> s.pt == Some(c))
    && (forall l | 0 <= l < |s.locks| :: s.locks[l].spin.Some? ==> s.locks[l].spin.value < |s.cpus|)
    && (forall c, l | 0 <= c < |s.cpus| && 0 <= l < |s.locks| ::
          CpuHolds(s, s.cpus[c]).spin == Some(l) <==> s.locks[l].spin == Some(c))
  }

  ghost function Bit(b: bool): nat { if b then 1 else 0 }

  /** ncli counts the spinlocks the CPU holds, and interrupts are off while it holds any. */
  ghost predicate Interrupting(s: State) {
    forall c | 0 <= c < |s.cpus| ::
      && s.cpus[c].ncli == Bit(CpuHolds(s, s.cpus[c]).pt) + Bit(CpuHolds(s, s.cpus[c]).spin.Some?)
      && (s.cpus[c].ncli > 0 ==> !s.cpus[c].iflag)
  }

  // ------------------------------------------------------------- who runs where

  /** The process a CPU has picked: running, or about to be switched to. */
  ghost predicate Occupies(s: State, c: nat, p: nat)
    requires c < |s.cpus|
  {
    s.cpus[c].ctx == Thread(p) || s.cpus[c].ctx == Sched(Switch(p))
  }

  ghost predicate ResumePc(pc: Pc) {
    pc.SlpBack? || pc.WaitBack? || pc.YieldBack? || pc.Fresh?
  }

  ghost predicate OffCpuPc(pc: Pc) { pc.NoThread? || pc.Dead? }

  /** The state a process has at each point of its kernel thread. */
  ghost predicate StateFits(q: Proc, p: nat) {
    match q.state
    case UNUSED => q.pc.NoThread?
    case EMBRYO => q.pc.Fresh?
    case SLEEPING =>
      || ((q.pc.SlpSwtch? || q.pc.SlpBack?) && q.chan == LockChan(q.pc.l))
      || ((q.pc.WaitSwtch? || q.pc.WaitBack?) && q.chan == ProcChan(p))
    case RUNNABLE => q.pc.YieldSwtch? || ResumePc(q.pc)
    case RUNNING => !InSched(q.pc) && !OffCpuPc(q.pc)
    case ZOMBIE => q.pc.ExitSwtch? || q.pc.Dead?
  }

  /** A process is on a CPU exactly while it is RUNNING or inside sched on its way out. */
  ghost predicate ProcFits(q: Proc, p: nat) {
    && StateFits(q, p)
    && (q.on.Some? <==> q.state == RUNNING || InSched(q.pc))
  }

  ghost predicate Scheduling(s: State) {
    && (forall p | 0 <= p < |s.procs| :: ProcFits(s.procs[p], p))
    && (forall p | 0 <= p < |s.procs| :: s.procs[p].on.Some? ==> s.procs[p].on.value < |s.cpus|)
    && (forall c, p | 0 <= c < |s.cpus| && 0 <= p < |s.procs| :: s.procs[p].on == Some(c) <==> Occupies(s, c, p))
    && (forall c | 0 <= c < |s.cpus| :: CpuProc(s, s.cpus[c]))
  }

  /** c->proc, and the program counter of a process that is about to be switched to. */
  ghost predicate CpuProc(s: State, k: Cpu) {
    match k.ctx
    case Thread(p) => k.proc == Some(p)
    case Sched(Switch(p)) => k.proc == Some(p) && p < |s.procs| && ResumePc(s.procs[p].pc)
        && s.procs[p].state == RUNNING
    case Sched(Back) => k.proc.Some?
    case Sched(_) => k.proc == None
  }

  // --------------------------------------------------------- sleep and wakeup

  ghost predicate WaitsFor(q: Proc, l: nat) {
    || (q.state == SLEEPING && q.chan == LockChan(l))
    || q.pc == SlpWantPt(l) || q.pc == SlpRelease(l) || q.pc == SlpMark(l)
  }

  /** The holder of l's spinlock has cleared `locked` and not yet finished wakeup. */
  ghost predicate Waking(s: State, l: nat)
    requires l < |s.locks|
  {
    && s.locks[l].spin.Some? && s.locks[l].spin.value < |s.cpus|
    && var k := s.cpus[s.locks[l].spin.value];
    && k.ctx.Thread? && k.ctx.p < |s.procs|
    && (s.procs[k.ctx.p].pc == RelWantPt(l) || s.procs[k.ctx.p].pc == RelWake(l))
  }

  /** No lost wakeup on sleep-locks: whoever sleeps, or is on the way to sleep, on a lock
      either finds it locked or has a wakeup coming. */
  ghost predicate NoLostWakeup(s: State) {
    forall p, l | 0 <= p < |s.procs| && 0 <= l < |s.locks| && WaitsFor(s.procs[p], l) ::
      s.locks[l].locked || Waking(s, l)
  }

  /** Each sleep-lock that is locked has one owner, and only its owner holds it. */
  ghost predicate Owning(s: State) {
    && (forall l | 0 <= l < |s.locks| :: s.locks[l].locked <==> s.locks[l].owner.Some?)
    && (forall p, l | 0 <= p < |s.procs| && 0 <= l < |s.locks| ::
          l in s.procs[p].held <==> s.locks[l].owner == Some(p))
    && (forall p, l: nat | 0 <= p < |s.procs| && Releasing(s.procs[p].pc, l) :: l in s.procs[p].held)
  }

  /** The point a preempted thread goes back to. */
  ghost function Base(pc: Pc): Pc {
    if pc.YieldWant? || pc.YieldMark? || pc.YieldSwtch? || pc.YieldBack? || pc.YieldDrop? then pc.ret else pc
  }

  ghost predicate Releasing(pc: Pc, l: nat) {
    Base(pc) == RelWant(l) || pc == RelClear(l)
  }

  ghost predicate WaitAsleep(q: Proc, p: nat) {
    (q.state == SLEEPING && q.chan == ProcChan(p)) || q.pc == WaitMark
  }

  /** No parent sleeps in wait while it has an exited child. */
  ghost predicate NoLostExit(s: State) {
    && (forall z: nat, p: nat | p < |s.procs| && ZombieChild(s.procs, p, z) :: !WaitAsleep(s.procs[p], p))
    && (forall q, p | 0 <= q < |s.procs| && 0 <= p < |s.procs| && s.procs[q].parent == Some(p)
                      && (s.procs[q].pc.ExitReparent? || s.procs[q].pc.ExitMark?) ::
          !WaitAsleep(s.procs[p], p))
  }

  // ------------------------------------------------------------ process tree

  ghost predicate Alive(q: Proc) {
    q.state == SLEEPING || q.state == RUNNABLE || q.state == RUNNING
  }

  /** The new process a thread inside fork is building. */
  ghost function Child(pc: Pc): Option<nat> {
    match Base(pc)
    case ForkDrop(np) => Some(np)
    case ForkCopy(np) => Some(np)
    case ForkWant2(np) => Some(np)
    case ForkRun(np) => Some(np)
    case _ => None
  }

  ghost predicate Linked(pc: Pc) { Base(pc).ForkWant2? || Base(pc).ForkRun? }

  ghost predicate InExit(pc: Pc) {
    Base(pc).ExitWant? || pc.ExitWake? || pc.ExitReparent? || pc.ExitMark? || pc.ExitSwtch? || pc.Dead?
  }

  /** fork's private hold on the slot it is filling. */
  ghost predicate Building(s: State) {
    && (forall p | 0 <= p < |s.procs| && Child(s.procs[p].pc).Some? ::
          var np := Child(s.procs[p].pc).value;
          && np < |s.procs| && np != p && s.procs[np].state == EMBRYO
          && s.procs[np].parent == if Linked(s.procs[p].pc) then Some(p) else None)
    && (forall p, q | 0 <= p < |s.procs| && 0 <= q < |s.procs| && p != q && Child(s.procs[p].pc).Some? ::
          Child(s.procs[p].pc) != Child(s.procs[q].pc))
    && (forall p | 0 <= p < |s.procs| && s.procs[p].state == EMBRYO && s.procs[p].parent.Some? ::
          var v := s.procs[p].parent.value;
          v < |s.procs| && Child(s.procs[v].pc) == Some(p) && Linked(s.procs[v].pc))
  }

  /** Every process past EMBRYO except init has a parent that has not exited. */
  ghost predicate Tree(s: State) {
    && INIT < |s.procs| && Alive(s.procs[INIT]) && s.procs[INIT].parent == None
    && forall p | 0 <= p < |s.procs| :: TreeAt(s, p)
  }

  ghost predicate TreeAt(s: State, p: int)
    requires 0 <= p < |s.procs|
  {
    var q := s.procs[p];
    && q.parent != Some(p)
    && (InExit(q.pc) ==> p != INIT)
    && (q.state == UNUSED ==> q.parent == None)
    && (p != INIT && q.state != UNUSED && q.state != EMBRYO ==>
          q.parent.Some? && q.parent.value < |s.procs| && Alive(s.procs[q.parent.value]))
    && (q.parent.Some? && q.parent.value < |s.procs| ==> !s.procs[q.parent.value].pc.ExitMark?)
  }

  /** Live pids are distinct, and wait never returns a pid twice. */
  ghost predicate Pids(s: State) {
    && (forall p | 0 <= p < |s.procs| && s.procs[p].state != UNUSED ::
        s.procs[p].pid < s.nextpid && s.procs[p].pid !in s.reaped)
    && (forall p, q | 0 <= p < q < |s.procs| && s.procs[p].state != UNUSED && s.procs[q].state != UNUSED ::
        s.procs[p].pid != s.procs[q].pid)
    && (forall r <- s.reaped :: r < s.nextpid)
    && (forall i, j | 0 <= i < j < |s.reaped| :: s.reaped[i] != s.reaped[j])
  }

  ghost predicate Inv(s: State) {
    && Shape(s)
    && Locking(s)
    && Interrupting(s)
    && Scheduling(s)
    && NoLostWakeup(s)
    && Owning(s)
    && NoLostExit(s)
    && Building(s)
    && Tree(s)
    && Pids(s)
  }
}
