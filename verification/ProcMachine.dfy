/** proc.c, sleeplock.c and spinlock.c as a step machine: any number of processes and
    CPUs, interleaved at every acquire, release, test, wakeup and swtch. */
module ProcMachine {
  import opened Common

  datatype PState = UNUSED | EMBRYO | SLEEPING | RUNNABLE | RUNNING | ZOMBIE

  datatype Chan = NoChan | LockChan(l: nat) | ProcChan(p: nat)

  /** Where the kernel thread of a process stands. */
  datatype Pc =
    | NoThread              // the slot holds no process
    | Idle                  // holds no spinlock
    | AcqWant(l: nat)       // acquiresleep: acquire(&lk->lk)
    | AcqTest(l: nat)       //   while(lk->locked)
    | AcqExit(l: nat)       //   release(&lk->lk)
    | SlpWantPt(l: nat)     // sleep(lk, &lk->lk): acquire(&ptable.lock)
    | SlpRelease(l: nat)    //   release(lk)
    | SlpMark(l: nat)       //   p->chan = chan; p->state = SLEEPING
    | SlpSwtch(l: nat)      //   sched
    | SlpBack(l: nat)       //   p->chan = 0
    | SlpDropPt(l: nat)     //   release(&ptable.lock)
    | RelWant(l: nat)       // releasesleep: acquire(&lk->lk)
    | RelClear(l: nat)      //   lk->locked = 0
    | RelWantPt(l: nat)     //   wakeup(lk): acquire(&ptable.lock)
    | RelWake(l: nat)       //     wakeup1(lk)
    | RelDropPt(l: nat)     //     release(&ptable.lock)
    | RelExit(l: nat)       //   release(&lk->lk)
    | WaitWant              // wait: acquire(&ptable.lock)
    | WaitScan              //   scan for an exited child
    | WaitMark              //   sleep(curproc, &ptable.lock)
    | WaitSwtch
    | WaitBack
    | ExitWant              // exit: acquire(&ptable.lock)
    | ExitWake              //   wakeup1(curproc->parent)
    | ExitReparent          //   pass abandoned children to init
    | ExitMark              //   curproc->state = ZOMBIE
    | ExitSwtch
    | Dead
    | YieldWant(ret: Pc)    // yield, from a timer interrupt that came at `ret`
    | YieldMark(ret: Pc)
    | YieldSwtch(ret: Pc)
    | YieldBack(ret: Pc)
    | YieldDrop(ret: Pc)
    | ForkWant              // fork: allocproc's acquire(&ptable.lock)
    | ForkAlloc
    | ForkDrop(np: nat)
    | ForkCopy(np: nat)     //   copy the parent, holding no lock
    | ForkWant2(np: nat)
    | ForkRun(np: nat)      //   np->state = RUNNABLE
    | KillWant(target: nat) // kill
    | KillAct(target: nat)
    | Fresh                 // forkret: release(&ptable.lock)
    | DropPt                // release(&ptable.lock) and return

  datatype Proc = Proc(
    state: PState,
    chan: Chan,
    parent: Option<nat>,
    pid: nat,
    killed: bool,
    pc: Pc,
    intena: bool,      // sched's saved copy of the CPU's intena
    held: set<nat>,    // sleep-locks this process has acquired
    on: Option<nat>)   // the CPU whose scheduler picked this process, until it parks

  /** Where the scheduler thread of a CPU stands. */
  datatype SPc =
    | Sti              // sti()
    | Want             // acquire(&ptable.lock)
    | Scan             // look for a RUNNABLE process
    | Switch(p: nat)   // swtch into p
    | Back             // c->proc = 0

  datatype Ctx = Sched(spc: SPc) | Thread(p: nat)

  datatype Cpu = Cpu(proc: Option<nat>, ctx: Ctx, ncli: nat, intena: bool, iflag: bool)

  /** A sleep-lock: its spinlock's holder, the locked flag, and the owner's slot. */
  datatype SLock = SLock(spin: Option<nat>, locked: bool, owner: Option<nat>)

  datatype State = State(
    procs: seq<Proc>,
    cpus: seq<Cpu>,
    pt: Option<nat>,       // CPU that holds ptable.lock
    locks: seq<SLock>,
    nextpid: nat,
    reaped: seq<nat>)      // every pid wait() has returned

  const INIT := 0          // initproc's slot

  // ---------------------------------------------------------------- spinlocks

  /** acquire's pushcli. */
  ghost function Push(k: Cpu): Cpu {
    k.(intena := if k.ncli == 0 then k.iflag else k.intena, iflag := false, ncli := k.ncli + 1)
  }

  /** release's popcli. */
  ghost function Pop(k: Cpu): Cpu
    requires k.ncli > 0
  {
    k.(ncli := k.ncli - 1, iflag := k.ncli == 1 && k.intena)
  }

  // ------------------------------------------------- program-counter classes

  ghost predicate WantsPt(pc: Pc) {
    pc.SlpWantPt? || pc.RelWantPt? || pc.WaitWant? || pc.ExitWant? || pc.YieldWant? || pc.ForkWant? || pc.ForkWant2?
      || pc.KillWant?
  }

  ghost function GotPt(pc: Pc): Pc
    requires WantsPt(pc)
  {
    match pc
    case SlpWantPt(l) => SlpRelease(l)
    case RelWantPt(l) => RelWake(l)
    case WaitWant => WaitScan
    case ExitWant => ExitWake
    case YieldWant(ret) => YieldMark(ret)
    case ForkWant => ForkAlloc
    case ForkWant2(np) => ForkRun(np)
    case KillWant(t) => KillAct(t)
  }

  ghost predicate DropsPt(pc: Pc) {
    pc.SlpDropPt? || pc.RelDropPt? || pc.DropPt? || pc.ForkDrop? || pc.Fresh? || pc.YieldDrop?
  }

  ghost function LeftPt(pc: Pc): Pc
    requires DropsPt(pc)
  {
    match pc
    case SlpDropPt(l) => AcqWant(l)
    case RelDropPt(l) => RelExit(l)
    case DropPt => Idle
    case Fresh => Idle
    case ForkDrop(np) => ForkCopy(np)
    case YieldDrop(ret) => ret
  }

  ghost predicate WantsSpin(pc: Pc) { pc.AcqWant? || pc.RelWant? }

  ghost function GotSpin(pc: Pc): Pc
    requires WantsSpin(pc)
  {
    if pc.AcqWant? then AcqTest(pc.l) else RelClear(pc.l)
  }

  ghost predicate DropsSpin(pc: Pc) { pc.AcqExit? || pc.SlpRelease? || pc.RelExit? }

  ghost function LeftSpin(pc: Pc): Pc
    requires DropsSpin(pc)
  {
    if pc.SlpRelease? then SlpMark(pc.l) else Idle
  }

  ghost predicate InSched(pc: Pc) { pc.SlpSwtch? || pc.WaitSwtch? || pc.YieldSwtch? || pc.ExitSwtch? }

  ghost function Parked(pc: Pc): Pc
    requires InSched(pc)
  {
    match pc
    case SlpSwtch(l) => SlpBack(l)
    case WaitSwtch => WaitBack
    case YieldSwtch(ret) => YieldBack(ret)
    case ExitSwtch => Dead
  }

  ghost predicate Resumes(pc: Pc) { pc.SlpBack? || pc.WaitBack? || pc.YieldBack? }

  ghost function Resumed(pc: Pc): Pc
    requires Resumes(pc)
  {
    match pc
    case SlpBack(l) => SlpDropPt(l)
    case WaitBack => WaitScan
    case YieldBack(ret) => YieldDrop(ret)
  }

  /** The spinlocks that the CPU holds while it runs a thread at a given pc: ptable.lock,
      and the spinlock of a sleep-lock. */
  datatype Holds = Holds(pt: bool, spin: Option<nat>)

  ghost function HoldsAt(pc: Pc): Holds {
    match pc
    case AcqTest(l) => Holds(false, Some(l))
    case AcqExit(l) => Holds(false, Some(l))
    case SlpWantPt(l) => Holds(false, Some(l))
    case SlpRelease(l) => Holds(true, Some(l))
    case SlpMark(_) => Holds(true, None)
    case SlpSwtch(_) => Holds(true, None)
    case SlpBack(_) => Holds(true, None)
    case SlpDropPt(_) => Holds(true, None)
    case RelClear(l) => Holds(false, Some(l))
    case RelWantPt(l) => Holds(false, Some(l))
    case RelWake(l) => Holds(true, Some(l))
    case RelDropPt(l) => Holds(true, Some(l))
    case RelExit(l) => Holds(false, Some(l))
    case WaitScan => Holds(true, None)
    case WaitMark => Holds(true, None)
    case WaitSwtch => Holds(true, None)
    case WaitBack => Holds(true, None)
    case ExitWake => Holds(true, None)
    case ExitReparent => Holds(true, None)
    case ExitMark => Holds(true, None)
    case ExitSwtch => Holds(true, None)
    case YieldMark(_) => Holds(true, None)
    case YieldSwtch(_) => Holds(true, None)
    case YieldBack(_) => Holds(true, None)
    case YieldDrop(_) => Holds(true, None)
    case ForkAlloc => Holds(true, None)
    case ForkDrop(_) => Holds(true, None)
    case ForkRun(_) => Holds(true, None)
    case KillAct(_) => Holds(true, None)
    case Fresh => Holds(true, None)
    case DropPt => Holds(true, None)
    case _ => Holds(false, None)
  }

  /** A running thread here holds no spinlock, so a timer interrupt may come. */
  ghost predicate LockFree(pc: Pc) {
    || pc.Idle? || pc.AcqWant? || pc.RelWant? || pc.WaitWant? || pc.ExitWant?
    || pc.ForkWant? || pc.ForkCopy? || pc.ForkWant2? || pc.KillWant?
  }

  // --------------------------------------------------------- state updates

  ghost predicate Runs(s: State, c: nat, p: nat) {
    c < |s.cpus| && p < |s.procs| && s.cpus[c].ctx == Thread(p)
  }

  ghost function SetPc(s: State, p: nat, pc: Pc): State
    requires p < |s.procs|
  {
    s.(procs := s.procs[p := s.procs[p].(pc := pc)])
  }

  ghost function SetCpu(s: State, c: nat, k: Cpu): State
    requires c < |s.cpus|
  {
    s.(cpus := s.cpus[c := k])
  }

  ghost function SetLock(s: State, l: nat, lk: SLock): State
    requires l < |s.locks|
  {
    s.(locks := s.locks[l := lk])
  }

  /** wakeup1: every process sleeping on chan becomes runnable. */
  ghost function Woken(q: Proc, chan: Chan): Proc {
    if q.state == SLEEPING && q.chan == chan then q.(state := RUNNABLE) else q
  }

  ghost function Wakeup1(procs: seq<Proc>, chan: Chan): (r: seq<Proc>)
    ensures |r| == |procs|
    ensures forall i | 0 <= i < |r| :: r[i] == Woken(procs[i], chan)
  {
    seq(|procs|, i requires 0 <= i < |procs| => Woken(procs[i], chan))
  }

  ghost predicate ZombieChild(procs: seq<Proc>, p: nat, z: nat) {
    z < |procs| && procs[z].parent == Some(p) && procs[z].state == ZOMBIE
  }

  ghost predicate HasZombie(procs: seq<Proc>, p: nat) {
    exists z :: ZombieChild(procs, p, z)
  }

  ghost predicate HasKids(procs: seq<Proc>, p: nat) {
    exists z: nat :: z < |procs| && procs[z].parent == Some(p)
  }

  /** exit's loop: the children of p go to init, which is woken if one is a zombie. */
  ghost function Adopted(q: Proc, p: nat): Proc {
    if q.parent == Some(p) then q.(parent := Some(INIT)) else q
  }

  ghost function Reparented(procs: seq<Proc>, p: nat): (r: seq<Proc>)
    ensures |r| == |procs|
  {
    var r := seq(|procs|, i requires 0 <= i < |procs| => Adopted(procs[i], p));
    if HasZombie(procs, p) then Wakeup1(r, ProcChan(INIT)) else r
  }

  /** What wait leaves in the slot of a reaped child. */
  ghost function Reaped(q: Proc): Proc {
    q.(state := UNUSED, parent := None, pid := 0, killed := false, pc := NoThread)
  }

  // ------------------------------------------------------------------ steps

  /** One step of one CPU.  The arguments resolve what the code leaves open: which
      operation a thread starts, which process the scheduler finds, and so on. */
  datatype Action =
    // the scheduler thread of a CPU
    | SchedSti | SchedAcquire | SchedPick(p: nat) | SchedSwtch | SchedClear | SchedRelease
    // spinlock and swtch steps of a process thread
    | Interrupts(enable: bool) | Preempt | Start(op: Pc) | TakePt | LeavePt | TakeSpin | LeaveSpin | Swtch | Resume
    // steps inside a critical section
    | TestLock | MarkSleep | ClearLock | WakeLock
    | WaitReap(z: nat) | WaitLeave | WaitNone | MarkWait
    | WakeParent | Reparent | MarkZombie
    | MarkYield
    | AllocProc(np: nat) | AllocNone | CopyFail | CopyOk | RunChild
    | Kill

  /** What a thread may start while it holds no spinlock. */
  ghost predicate Startable(s: State, p: nat, op: Pc)
    requires p < |s.procs|
  {
    match op
    case AcqWant(l) => l < |s.locks|
    case RelWant(l) => l in s.procs[p].held
    case ExitWant => p != INIT && s.procs[p].held == {}
    case KillWant(t) => t < |s.procs|
    case WaitWant => true
    case ForkWant => true
    case _ => false
  }

  ghost predicate CanSched(s: State, c: nat, a: Action)
    requires c < |s.cpus| && s.cpus[c].ctx.Sched?
  {
    var spc := s.cpus[c].ctx.spc;
    match a
    case SchedSti => spc == Sti
    case SchedAcquire => spc == Want && s.pt == None
    case SchedPick(p) => spc == Scan && p < |s.procs| && s.procs[p].state == RUNNABLE
    case SchedSwtch => spc.Switch?
    case SchedClear => spc == Back
    case SchedRelease => spc == Scan && s.cpus[c].ncli > 0
    case _ => false
  }

  ghost function DoSched(s: State, c: nat, a: Action): State
    requires c < |s.cpus| && s.cpus[c].ctx.Sched? && CanSched(s, c, a)
  {
    var k := s.cpus[c];
    match a
    case SchedSti => SetCpu(s, c, k.(iflag := true, ctx := Sched(Want)))
    case SchedAcquire => SetCpu(s, c, Push(k).(ctx := Sched(Scan))).(pt := Some(c))
    case SchedPick(p) =>
      SetCpu(s, c, k.(proc := Some(p),
                      ctx := Sched(Switch(p)))).(procs := s.procs[p := s.procs[p].(state := RUNNING, on := Some(c))])
    case SchedSwtch => SetCpu(s, c, k.(ctx := Thread(k.ctx.spc.p)))
    case SchedClear => SetCpu(s, c, k.(proc := None, ctx := Sched(Scan)))
    case SchedRelease => SetCpu(s, c, Pop(k).(ctx := Sched(Sti))).(pt := None)
  }

  // The steps of a process thread, by family.  p is the process CPU c runs.

  ghost predicate CanCtl(s: State, c: nat, p: nat, a: Action)
    requires Runs(s, c, p)
  {
    var me := s.procs[p];
    match a
    case Interrupts(_) => s.cpus[c].ncli == 0
    case Preempt => LockFree(me.pc) && s.cpus[c].iflag
    case Start(op) => me.pc == Idle && Startable(s, p, op)
    case Swtch => InSched(me.pc) && s.cpus[c].ncli == 1 && !s.cpus[c].iflag && me.state != RUNNING
    case Resume => Resumes(me.pc)
    case MarkYield => me.pc.YieldMark?
    case _ => false
  }

  ghost function DoCtl(s: State, c: nat, p: nat, a: Action): State
    requires Runs(s, c, p) && CanCtl(s, c, p, a)
  {
    var me, k := s.procs[p], s.cpus[c];
    match a
    case Interrupts(enable) => SetCpu(s, c, k.(iflag := enable))
    case Preempt => SetPc(s, p, YieldWant(me.pc))
    case Start(op) => SetPc(s, p, op)
    case Swtch =>
      SetCpu(s, c, k.(ctx := Sched(Back))).(procs := s.procs[p := me.(pc := Parked(me.pc), intena := k.intena,
                                                                      on := None)])
    case Resume =>
      SetCpu(s, c, k.(intena := me.intena)).(procs := s.procs[p := me.(pc := Resumed(me.pc), chan := NoChan)])
    case MarkYield => s.(procs := s.procs[p := me.(pc := YieldSwtch(me.pc.ret), state := RUNNABLE)])
  }

  ghost predicate CanSpin(s: State, c: nat, p: nat, a: Action)
    requires Runs(s, c, p)
  {
    var me := s.procs[p];
    match a
    case TakePt => WantsPt(me.pc) && s.pt == None
    case LeavePt => DropsPt(me.pc) && s.cpus[c].ncli > 0
    case TakeSpin => WantsSpin(me.pc) && me.pc.l < |s.locks| && s.locks[me.pc.l].spin == None
    case LeaveSpin => DropsSpin(me.pc) && me.pc.l < |s.locks| && s.cpus[c].ncli > 0
    case _ => false
  }

  ghost function DoSpin(s: State, c: nat, p: nat, a: Action): State
    requires Runs(s, c, p) && CanSpin(s, c, p, a)
  {
    var me, k := s.procs[p], s.cpus[c];
    match a
    case TakePt => SetCpu(SetPc(s, p, GotPt(me.pc)), c, Push(k)).(pt := Some(c))
    case LeavePt => SetCpu(SetPc(s, p, LeftPt(me.pc)), c, Pop(k)).(pt := None)
    case TakeSpin =>
      SetLock(SetCpu(SetPc(s, p, GotSpin(me.pc)), c, Push(k)), me.pc.l, s.locks[me.pc.l].(spin := Some(c)))
    case LeaveSpin =>
      SetLock(SetCpu(SetPc(s, p, LeftSpin(me.pc)), c, Pop(k)), me.pc.l, s.locks[me.pc.l].(spin := None))
  }

  /** The bodies of acquiresleep, sleep and releasesleep. */
  ghost predicate CanLock(s: State, p: nat, a: Action)
    requires p < |s.procs|
  {
    var me := s.procs[p];
    match a
    case TestLock => me.pc.AcqTest? && me.pc.l < |s.locks|
    case MarkSleep => me.pc.SlpMark?
    case ClearLock => me.pc.RelClear? && me.pc.l < |s.locks|
    case WakeLock => me.pc.RelWake?
    case _ => false
  }

  ghost function DoLock(s: State, p: nat, a: Action): State
    requires p < |s.procs| && CanLock(s, p, a)
  {
    var me := s.procs[p];
    match a
    case TestLock =>
      var lk := s.locks[me.pc.l];
      if lk.locked then SetPc(s, p, SlpWantPt(me.pc.l))
      else
        SetLock(s, me.pc.l, lk.(locked := true, owner := Some(p)))
        .(procs := s.procs[p := me.(pc := AcqExit(me.pc.l), held := me.held + {me.pc.l})])
    case MarkSleep =>
      s.(procs := s.procs[p := me.(pc := SlpSwtch(me.pc.l), state := SLEEPING, chan := LockChan(me.pc.l))])
    case ClearLock =>
      SetLock(s, me.pc.l, s.locks[me.pc.l].(locked := false, owner := None))
      .(procs := s.procs[p := me.(pc := RelWantPt(me.pc.l), held := me.held - {me.pc.l})])
    case WakeLock => SetPc(s.(procs := Wakeup1(s.procs, LockChan(me.pc.l))), p, RelDropPt(me.pc.l))
  }

  /** The bodies of wait and exit. */
  ghost predicate CanWait(s: State, p: nat, a: Action)
    requires p < |s.procs|
  {
    var me := s.procs[p];
    match a
    case WaitReap(z) => me.pc.WaitScan? && ZombieChild(s.procs, p, z)
    case WaitLeave => me.pc.WaitScan? && !HasZombie(s.procs, p) && (!HasKids(s.procs, p) || me.killed)
    case WaitNone => me.pc.WaitScan? && !HasZombie(s.procs, p) && HasKids(s.procs, p) && !me.killed
    case MarkWait => me.pc.WaitMark?
    case WakeParent => me.pc.ExitWake?
    case Reparent => me.pc.ExitReparent?
    case MarkZombie => me.pc.ExitMark?
    case _ => false
  }

  ghost function DoWait(s: State, p: nat, a: Action): State
    requires p < |s.procs| && CanWait(s, p, a)
  {
    var me := s.procs[p];
    match a
    case WaitReap(z) =>
      SetPc(s.(procs := s.procs[z := Reaped(s.procs[z])], reaped := s.reaped + [s.procs[z].pid]), p, DropPt)
    case WaitLeave => SetPc(s, p, DropPt)
    case WaitNone => SetPc(s, p, WaitMark)
    case MarkWait => s.(procs := s.procs[p := me.(pc := WaitSwtch, state := SLEEPING, chan := ProcChan(p))])
    case WakeParent =>
      SetPc(if me.parent.Some? then s.(procs := Wakeup1(s.procs, ProcChan(me.parent.value))) else s, p, ExitReparent)
    case Reparent => SetPc(s.(procs := Reparented(s.procs, p)), p, ExitMark)
    case MarkZombie => s.(procs := s.procs[p := me.(pc := ExitSwtch, state := ZOMBIE)])
  }

  /** The bodies of fork and kill. */
  ghost predicate CanFork(s: State, p: nat, a: Action)
    requires p < |s.procs|
  {
    var me := s.procs[p];
    match a
    case AllocProc(np) => me.pc.ForkAlloc? && np < |s.procs| && s.procs[np].state == UNUSED
    case AllocNone => me.pc.ForkAlloc? && forall np | 0 <= np < |s.procs| :: s.procs[np].state != UNUSED
    case CopyFail => me.pc.ForkCopy? && me.pc.np < |s.procs|
    case CopyOk => me.pc.ForkCopy? && me.pc.np < |s.procs|
    case RunChild => me.pc.ForkRun? && me.pc.np < |s.procs|
    case Kill => me.pc.KillAct? && me.pc.target < |s.procs|
    case _ => false
  }

  ghost function DoFork(s: State, p: nat, a: Action): State
    requires p < |s.procs| && CanFork(s, p, a)
  {
    var me := s.procs[p];
    match a
    case AllocProc(np) =>
      SetPc(s.(procs := s.procs[np := s.procs[np].(state := EMBRYO, pid := s.nextpid, pc := Fresh)],
               nextpid := s.nextpid + 1),
            p, ForkDrop(np))
    case AllocNone => SetPc(s, p, DropPt)
    case CopyFail =>
      SetPc(s.(procs := s.procs[me.pc.np := s.procs[me.pc.np].(state := UNUSED, pc := NoThread)]), p, Idle)
    case CopyOk =>
      SetPc(s.(procs := s.procs[me.pc.np := s.procs[me.pc.np].(parent := Some(p))]), p, ForkWant2(me.pc.np))
    case RunChild =>
      SetPc(s.(procs := s.procs[me.pc.np := s.procs[me.pc.np].(state := RUNNABLE)]), p, DropPt)
    case Kill =>
      var t := s.procs[me.pc.target];
      SetPc(s.(procs := s.procs[me.pc.target := t.(killed := true,
                                                   state := if t.state == SLEEPING then RUNNABLE else t.state)]),
            p, DropPt)
  }

  ghost predicate IsSpin(a: Action) { a.TakePt? || a.LeavePt? || a.TakeSpin? || a.LeaveSpin? }

  ghost predicate IsLock(a: Action) { a.TestLock? || a.MarkSleep? || a.ClearLock? || a.WakeLock? }

  ghost predicate IsWait(a: Action) {
    a.WaitReap? || a.WaitLeave? || a.WaitNone? || a.MarkWait? || a.WakeParent? || a.Reparent? || a.MarkZombie?
  }

  ghost predicate IsFork(a: Action) {
    a.AllocProc? || a.AllocNone? || a.CopyFail? || a.CopyOk? || a.RunChild? || a.Kill?
  }

  ghost predicate CanMove(s: State, c: nat, a: Action)
    requires c < |s.cpus| && s.cpus[c].ctx.Thread?
  {
    var p := s.cpus[c].ctx.p;
    p < |s.procs| &&
    if IsSpin(a) then CanSpin(s, c, p, a)
    else if IsLock(a) then CanLock(s, p, a)
    else if IsWait(a) then CanWait(s, p, a)
    else if IsFork(a) then CanFork(s, p, a)
    else CanCtl(s, c, p, a)
  }

  ghost function DoMove(s: State, c: nat, a: Action): State
    requires c < |s.cpus| && s.cpus[c].ctx.Thread? && CanMove(s, c, a)
  {
    var p := s.cpus[c].ctx.p;
    if IsSpin(a) then DoSpin(s, c, p, a)
    else if IsLock(a) then DoLock(s, p, a)
    else if IsWait(a) then DoWait(s, p, a)
    else if IsFork(a) then DoFork(s, p, a)
    else DoCtl(s, c, p, a)
  }

  ghost predicate Enabled(s: State, c: nat, a: Action) {
    c < |s.cpus| && if s.cpus[c].ctx.Sched? then CanSched(s, c, a) else CanMove(s, c, a)
  }

  ghost function Step(s: State, c: nat, a: Action): State
    requires Enabled(s, c, a)
  {
    if s.cpus[c].ctx.Sched? then DoSched(s, c, a) else DoMove(s, c, a)
  }
}
