/** The waiting of begin_op and end_op (log.c:125-174) as a step machine: any number of
    threads take log.lock and ptable.lock, sleep on &log and wake each other up,
    interleaved at every acquire, release, test and wakeup. */
module LogSleep {
  import opened Common
  import opened Log

  /** Where a thread stands. */
  datatype Pc =
    | Out              // outside any operation
    | BeginWant        // begin_op: acquire(&log.lock), also at the end of sleep
    | BeginTest        //   the tests of the while loop
    | BeginExit        //   outstanding += 1 is done; release(&log.lock)
    | SlpWantPt        // sleep(&log, &log.lock): acquire(&ptable.lock)
    | SlpRelease       //   release(&log.lock)
    | SlpMark          //   p->chan = &log; p->state = SLEEPING
    | SlpSwtch         //   sched; the scheduler releases ptable.lock
    | Asleep
    | Ready            // RUNNABLE again; the scheduler takes ptable.lock
    | SlpDropPt        //   p->chan = 0; release(&ptable.lock)
    | InOp(left: nat)  // inside an operation that may still log `left` new blocks
    | EndWant          // end_op: acquire(&log.lock)
    | EndDec           //   outstanding -= 1 and the tests
    | CommitExit       //   release(&log.lock) with do_commit set
    | Commit           // commit(), holding no lock
    | DoneWant         //   acquire(&log.lock)
    | DoneClear        //   committing = 0
    | WakeWantPt       // wakeup(&log): acquire(&ptable.lock)
    | WakeAll          //   wakeup1(&log)
    | WakeDropPt       //   release(&ptable.lock)
    | WakeExit         // release(&log.lock) and return
    | PtOnly           // other code that holds ptable.lock

  datatype Shared = Shared(
    log: Option<nat>,   // the thread that holds log.lock
    pt: Option<nat>,    // the thread that holds ptable.lock
    outstanding: int,
    committing: bool,
    n: nat)             // log.lh.n

  datatype State = State(threads: seq<Pc>, g: Shared)

  /** A thread calls begin_op, takes its next step, logs a new block, is killed while it
      sleeps, or takes ptable.lock for something else. */
  datatype Event = Start(t: nat) | Go(t: nat) | LogWrite(t: nat) | Kill(t: nat) | Other(t: nat)

  ghost function Init(threads: nat): State {
    State(seq(threads, _ => Out), Shared(None, None, 0, false, 0))
  }

  /** What begin_op waits for to become false. */
  ghost predicate Blocked(g: Shared) {
    g.committing || g.n + (g.outstanding + 1) * MAXOPBLOCKS > LOGSIZE
  }

  ghost predicate WantsLog(pc: Pc) { pc.BeginWant? || pc.EndWant? || pc.DoneWant? }

  ghost predicate WantsPt(pc: Pc) { pc.SlpWantPt? || pc.Ready? || pc.WakeWantPt? }

  ghost predicate HoldsLog(pc: Pc) {
    || pc.BeginTest? || pc.BeginExit? || pc.SlpWantPt? || pc.SlpRelease? || pc.EndDec? || pc.CommitExit?
    || pc.DoneClear? || pc.WakeWantPt? || pc.WakeAll? || pc.WakeDropPt? || pc.WakeExit?
  }

  ghost predicate HoldsPt(pc: Pc) {
    || pc.SlpRelease? || pc.SlpMark? || pc.SlpSwtch? || pc.SlpDropPt? || pc.WakeAll? || pc.WakeDropPt?
    || pc.PtOnly?
  }

  // ------------------------------------------------------------------ steps

  ghost predicate CanGo(g: Shared, pc: Pc) {
    && !pc.Out? && !pc.Asleep?
    && (WantsLog(pc) ==> g.log == None)
    && (WantsPt(pc) ==> g.pt == None)
  }

  ghost predicate CanMove(g: Shared, pc: Pc, e: Event) {
    match e
    case Start(_) => pc.Out?
    case Go(_) => CanGo(g, pc)
    case LogWrite(_) => pc.InOp? && pc.left > 0 && g.log == None
    case Kill(_) => pc.Asleep? && g.pt == None
    case Other(_) => pc.Out? && g.pt == None
  }

  datatype Moved = Moved(pc: Pc, g: Shared)

  /** Where a thread's next step takes it, and what the step does to the shared fields. */
  ghost function GoOn(g: Shared, t: nat, pc: Pc): Moved
    requires CanGo(g, pc)
  {
    match pc
    case BeginWant => Moved(BeginTest, g.(log := Some(t)))
    case BeginTest =>
      if Blocked(g) then Moved(SlpWantPt, g)
      else Moved(BeginExit, g.(outstanding := g.outstanding + 1))
    case BeginExit => Moved(InOp(MAXOPBLOCKS), g.(log := None))
    case SlpWantPt => Moved(SlpRelease, g.(pt := Some(t)))
    case SlpRelease => Moved(SlpMark, g.(log := None))
    case SlpMark => Moved(SlpSwtch, g)
    case SlpSwtch => Moved(Asleep, g.(pt := None))
    case Ready => Moved(SlpDropPt, g.(pt := Some(t)))
    case SlpDropPt => Moved(BeginWant, g.(pt := None))
    case InOp(_) => Moved(EndWant, g)
    case EndWant => Moved(EndDec, g.(log := Some(t)))
    case EndDec =>
      if g.outstanding == 1 then Moved(CommitExit, g.(outstanding := 0, committing := true))
      else Moved(WakeWantPt, g.(outstanding := g.outstanding - 1))
    case CommitExit => Moved(Commit, g.(log := None))
    case Commit => Moved(DoneWant, g.(n := 0))
    case DoneWant => Moved(DoneClear, g.(log := Some(t)))
    case DoneClear => Moved(WakeWantPt, g.(committing := false))
    case WakeWantPt => Moved(WakeAll, g.(pt := Some(t)))
    case WakeAll => Moved(WakeDropPt, g)
    case WakeDropPt => Moved(WakeExit, g.(pt := None))
    case WakeExit => Moved(Out, g.(log := None))
    case PtOnly => Moved(Out, g.(pt := None))
  }

  ghost function Move(g: Shared, pc: Pc, e: Event): Moved
    requires CanMove(g, pc, e)
  {
    match e
    case Start(_) => Moved(BeginWant, g)
    case Go(t) => GoOn(g, t, pc)
    case LogWrite(_) => Moved(InOp(pc.left - 1), g.(n := g.n + 1))
    case Kill(_) => Moved(Ready, g)
    case Other(t) => Moved(PtOnly, g.(pt := Some(t)))
  }

  /** wakeup1(&log). */
  ghost function Woken(threads: seq<Pc>): (r: seq<Pc>)
    ensures |r| == |threads|
    ensures forall i | 0 <= i < |r| :: r[i] == if threads[i].Asleep? then Ready else threads[i]
  {
    seq(|threads|, i requires 0 <= i < |threads| => if threads[i].Asleep? then Ready else threads[i])
  }

  ghost predicate Enabled(s: State, e: Event) {
    e.t < |s.threads| && CanMove(s.g, s.threads[e.t], e)
  }

  ghost predicate Wakes(s: State, e: Event)
    requires Enabled(s, e)
  {
    e.Go? && s.threads[e.t].WakeAll?
  }

  ghost function Step(s: State, e: Event): State
    requires Enabled(s, e)
  {
    var m := Move(s.g, s.threads[e.t], e);
    var threads := if Wakes(s, e) then Woken(s.threads) else s.threads;
    State(threads[e.t := m.pc], m.g)
  }

  // -------------------------------------------------------------- invariant

  ghost predicate LockFits(g: Shared, t: nat, pc: Pc) {
    (HoldsLog(pc) <==> g.log == Some(t)) && (HoldsPt(pc) <==> g.pt == Some(t))
  }

  /** Each lock is held by exactly the thread whose place in the code says so. */
  ghost predicate Locking(s: State) {
    && (forall t: nat | t < |s.threads| :: LockFits(s.g, t, s.threads[t]))
    && (s.g.log.Some? ==> s.g.log.value < |s.threads|)
    && (s.g.pt.Some? ==> s.g.pt.value < |s.threads|)
  }

  /** Counts in outstanding. */
  ghost predicate Open(pc: Pc) { pc.BeginExit? || pc.InOp? || pc.EndWant? || pc.EndDec? }

  ghost function Ops(threads: seq<Pc>): set<nat> {
    set t: nat | t < |threads| && Open(threads[t])
  }

  ghost predicate Commits(pc: Pc) { pc.CommitExit? || pc.Commit? || pc.DoneWant? || pc.DoneClear? }

  ghost predicate Committer(threads: seq<Pc>, t: nat) { t < |threads| && Commits(threads[t]) }

  /** outstanding counts the open operations; exactly one thread commits while committing is
      set, and then no operation is open; an idle log is empty. */
  ghost predicate Counting(s: State) {
    && s.g.outstanding == |Ops(s.threads)|
    && (s.g.committing <==> exists t :: Committer(s.threads, t))
    && (forall t, u :: Committer(s.threads, t) && Committer(s.threads, u) ==> t == u)
    && (s.g.committing ==> s.g.outstanding == 0)
    && (!s.g.committing && s.g.outstanding == 0 ==> s.g.n == 0)
    && (forall t | 0 <= t < |s.threads| && (s.threads[t].DoneWant? || s.threads[t].DoneClear?) :: s.g.n == 0)
  }

  /** About to wake the sleepers on &log. */
  ghost predicate Notifies(pc: Pc) { pc.WakeWantPt? || pc.WakeAll? }

  ghost predicate Waking(threads: seq<Pc>) {
    exists t :: 0 <= t < |threads| && Notifies(threads[t])
  }

  /** Decided to sleep, and still holds log.lock. */
  ghost predicate Deciding(pc: Pc) { pc.SlpWantPt? || pc.SlpRelease? }

  ghost predicate Sleeping(pc: Pc) { pc.SlpMark? || pc.SlpSwtch? || pc.Asleep? }

  ghost predicate NoLostWakeup(s: State) {
    && (forall t | 0 <= t < |s.threads| && Deciding(s.threads[t]) :: Blocked(s.g))
    && (forall t | 0 <= t < |s.threads| && Sleeping(s.threads[t]) :: Blocked(s.g) || Waking(s.threads))
  }

  ghost predicate Inv(s: State) {
    Locking(s) && Counting(s) && NoLostWakeup(s)
  }

  // One thread moves.

  lemma MoveLocks(g: Shared, pc: Pc, e: Event)
    requires CanMove(g, pc, e) && LockFits(g, e.t, pc)
    ensures var m := Move(g, pc, e);
            && LockFits(m.g, e.t, m.pc)
            && (m.g.log == g.log || m.g.log == (if HoldsLog(pc) then None else Some(e.t)))
            && (m.g.log != g.log && !HoldsLog(pc) ==> g.log == None)
            && (m.g.pt == g.pt || m.g.pt == (if HoldsPt(pc) then None else Some(e.t)))
            && (m.g.pt != g.pt && !HoldsPt(pc) ==> g.pt == None)
  {
    hide Blocked;
  }

  lemma OtherThreads(s: State, e: Event)
    requires Enabled(s, e)
    ensures var s' := Step(s, e);
            && |s'.threads| == |s.threads| && s'.threads[e.t] == Move(s.g, s.threads[e.t], e).pc
            && forall u: nat | u < |s.threads| && u != e.t ::
                 s'.threads[u] == if Wakes(s, e) && s.threads[u].Asleep? then Ready else s.threads[u]
  {
    hide Move;
  }

  lemma LockingStep(s: State, e: Event)
    requires Locking(s) && Enabled(s, e)
    ensures Locking(Step(s, e))
  {
    hide Move;
    MoveLocks(s.g, s.threads[e.t], e);
    OtherThreads(s, e);
    var s' := Step(s, e);

    forall u: nat | u < |s.threads| ensures LockFits(s'.g, u, s'.threads[u]) {
      assert LockFits(s.g, u, s.threads[u]);
    }
  }

  ghost predicate CountFits(g: Shared, pc: Pc) {
    && g.outstanding >= 0
    && (Open(pc) ==> !g.committing && g.outstanding > 0)
    && (Commits(pc) ==> g.committing)
    && (g.committing ==> g.outstanding == 0)
    && (!g.committing && g.outstanding == 0 ==> g.n == 0)
    && (pc.DoneWant? || pc.DoneClear? ==> g.n == 0)
  }

  lemma MoveCounts(g: Shared, pc: Pc, e: Event)
    requires CanMove(g, pc, e) && CountFits(g, pc)
    ensures var m := Move(g, pc, e);
            && m.g.outstanding == g.outstanding + (if Open(m.pc) then 1 else 0) - (if Open(pc) then 1 else 0)
            && (m.g.committing <==> if Commits(pc) then Commits(m.pc) else Commits(m.pc) || g.committing)
            && (Commits(m.pc) && !Commits(pc) ==> !g.committing)
            && (m.g.committing ==> m.g.outstanding == 0)
            && (!m.g.committing && m.g.outstanding == 0 ==> m.g.n == 0)
            && (m.pc.DoneWant? || m.pc.DoneClear? || (g.n == 0 && !Open(pc)) ==> m.g.n == 0)
  {
  }

  lemma OpsMove(a: seq<Pc>, b: seq<Pc>, t: nat)
    requires t < |a| == |b|
    requires forall u: nat | u < |a| && u != t :: Open(b[u]) == Open(a[u])
    ensures |Ops(b)| == |Ops(a)| + (if Open(b[t]) then 1 else 0) - (if Open(a[t]) then 1 else 0)
  {
    var rest := Ops(a) - {t};
    assert Ops(a) == if Open(a[t]) then rest + {t} else rest;
    assert Ops(b) == if Open(b[t]) then rest + {t} else rest;
  }

  lemma ThreadCounts(s: State, t: nat)
    requires Counting(s) && t < |s.threads|
    ensures CountFits(s.g, s.threads[t])
  {
    if Open(s.threads[t]) {
      assert t in Ops(s.threads);
    }
    assert Committer(s.threads, t) <==> Commits(s.threads[t]);
  }

  lemma CountingStep(s: State, e: Event)
    requires Counting(s) && Enabled(s, e)
    ensures Counting(Step(s, e))
  {
    hide Move;
    hide CanMove;
    hide Ops;
    var s', t := Step(s, e), e.t;
    ThreadCounts(s, t);
    MoveCounts(s.g, s.threads[t], e);
    OtherThreads(s, e);
    OpsMove(s.threads, s'.threads, t);
    assert forall u: nat | u != t :: Committer(s'.threads, u) <==> Committer(s.threads, u);
    if s'.g.committing && !Commits(s'.threads[t]) {
      var u :| Committer(s.threads, u);
      assert Committer(s'.threads, u);
    }
    assert Committer(s'.threads, t) <==> Commits(s'.threads[t]);
    assert Committer(s.threads, t) <==> Commits(s.threads[t]);
    forall u | 0 <= u < |s'.threads| && (s'.threads[u].DoneWant? || s'.threads[u].DoneClear?)
      ensures s'.g.n == 0
    {
      if u != t {
        assert Committer(s.threads, u);
      }
    }
  }

  /** end_op's panic is never reached: no commit is under way while an operation is open. */
  lemma NoCommitWhileOpen(s: State, t: nat)
    requires Counting(s) && t < |s.threads| && Open(s.threads[t])
    ensures !s.g.committing
  {
    ThreadCounts(s, t);
  }

  lemma MoveSleeps(g: Shared, pc: Pc, e: Event)
    requires CanMove(g, pc, e) && CountFits(g, pc) && LockFits(g, e.t, pc)
    ensures var m := Move(g, pc, e);
            && (Deciding(m.pc) && !Deciding(pc) ==> Blocked(m.g))
            && (Sleeping(m.pc) ==> Deciding(pc) || Sleeping(pc))
            && (Blocked(g) && !Blocked(m.g) ==> Notifies(m.pc) && HoldsLog(pc) && !Deciding(m.pc))
            && (Notifies(pc) && !Notifies(m.pc) ==> e.Go? && pc.WakeAll? && m.pc.WakeDropPt?)
  {
  }

  /** Only one thread holds a lock. */
  lemma OneHolder(s: State, t: nat, u: nat)
    requires Locking(s) && t < |s.threads| && u < |s.threads| && t != u
    ensures !(HoldsLog(s.threads[t]) && HoldsLog(s.threads[u]))
    ensures !(HoldsPt(s.threads[t]) && HoldsPt(s.threads[u]))
  {
    assert LockFits(s.g, t, s.threads[t]) && LockFits(s.g, u, s.threads[u]);
  }

  lemma LostStep(s: State, e: Event)
    requires Inv(s) && Enabled(s, e)
    ensures NoLostWakeup(Step(s, e))
  {
    hide Move;
    hide CanMove;
    hide Blocked;
    hide Counting;
    var s', t := Step(s, e), e.t;
    ThreadCounts(s, t);
    assert LockFits(s.g, t, s.threads[t]);
    MoveSleeps(s.g, s.threads[t], e);
    OtherThreads(s, e);
    forall u | 0 <= u < |s'.threads| && Deciding(s'.threads[u]) ensures Blocked(s'.g) {
      if u != t { OneHolder(s, t, u); }
    }
    forall u | 0 <= u < |s'.threads| && Sleeping(s'.threads[u]) ensures Blocked(s'.g) || Waking(s'.threads) {
      if Wakes(s, e) {
        OneHolder(s, t, u);
      } else if Waking(s.threads) {
        var w :| 0 <= w < |s.threads| && Notifies(s.threads[w]);
        assert Notifies(s'.threads[w]);
      } else {
        assert Blocked(s.g);
      }
    }
  }

  lemma InvStep(s: State, e: Event)
    requires Inv(s) && Enabled(s, e)
    ensures Inv(Step(s, e))
  {
    LockingStep(s, e);
    CountingStep(s, e);
    LostStep(s, e);
  }

  lemma InitInv(threads: nat)
    ensures Inv(Init(threads))
  {
    assert Ops(Init(threads).threads) == {};
  }

  // ------------------------------------------------------------------- runs

  ghost predicate CanRun(s: State, es: seq<Event>)
    decreases |es|
  {
    es == [] || (Enabled(s, es[0]) && CanRun(Step(s, es[0]), es[1..]))
  }

  ghost function After(s: State, es: seq<Event>): State
    requires CanRun(s, es)
    decreases |es|
  {
    if es == [] then s else After(Step(s, es[0]), es[1..])
  }

  lemma {:induction false} InvRun(s: State, es: seq<Event>)
    requires Inv(s) && CanRun(s, es)
    ensures Inv(After(s, es))
    decreases |es|
  {
    if es != [] {
      InvStep(s, es[0]);
      InvRun(Step(s, es[0]), es[1..]);
    }
  }

  /** No wakeup of &log is lost.  However begin_op, end_op, log_write and kill interleave, a
      thread that sleeps in begin_op still has something to wait for, or a wakeup is on its
      way; and while a thread is in end_op before its decrement, no commit is under way, so
      the panic there is never reached. */
  lemma LogWakeups(threads: nat, es: seq<Event>)
    requires CanRun(Init(threads), es)
    ensures var s := After(Init(threads), es);
            && (forall t | 0 <= t < |s.threads| && Sleeping(s.threads[t]) :: Blocked(s.g) || Waking(s.threads))
            && (forall t | 0 <= t < |s.threads| && s.threads[t].EndDec? :: !s.g.committing)
            && s.g.outstanding == |Ops(s.threads)|
  {
    InitInv(threads);
    InvRun(Init(threads), es);
    var s := After(Init(threads), es);
    forall t | 0 <= t < |s.threads| && s.threads[t].EndDec? ensures !s.g.committing {
      NoCommitWhileOpen(s, t);
    }
  }

  // --------------------------------------------------------------- progress

  /** While a thread sleeps on &log, some other thread can take its next step. */
  lemma SomeoneMoves(s: State, q: nat) returns (t: nat)
    requires Inv(s) && Sleeps(s, q)
    ensures Enabled(s, Go(t))
  {
    if s.g.pt.Some? {
      t := s.g.pt.value;
      assert LockFits(s.g, t, s.threads[t]);
    } else if s.g.log.Some? {
      t := s.g.log.value;
      assert LockFits(s.g, t, s.threads[t]);
    } else {
      forall w: nat | w < |s.threads| ensures !Notifies(s.threads[w]) {
        assert LockFits(s.g, w, s.threads[w]);
      }
      if s.g.committing {
        var u :| Committer(s.threads, u);
        t := u;
      } else {
        assert Ops(s.threads) != {};
        t :| t in Ops(s.threads);
      }
      assert LockFits(s.g, t, s.threads[t]);
    }
  }

  /** How many steps a thread can take before it is asleep or outside. */
  ghost function Steps(pc: Pc): nat {
    match pc
    case Out => 0
    case Asleep => 0
    case PtOnly => 1
    case WakeExit => 1
    case WakeDropPt => 2
    case WakeAll => 3
    case WakeWantPt => 4
    case DoneClear => 5
    case DoneWant => 6
    case Commit => 7
    case CommitExit => 8
    case EndDec => 9
    case EndWant => 10
    case InOp(left) => 11 + left
    case BeginExit => 12 + MAXOPBLOCKS
    case SlpSwtch => 1
    case SlpMark => 2
    case SlpRelease => 3
    case SlpWantPt => 4
    case BeginTest => 13 + MAXOPBLOCKS
    case BeginWant => 14 + MAXOPBLOCKS
    case SlpDropPt => 15 + MAXOPBLOCKS
    case Ready => 16 + MAXOPBLOCKS
  }

  ghost function Rank(threads: seq<Pc>): nat {
    if threads == [] then 0 else Steps(threads[0]) + Rank(threads[1..])
  }

  lemma {:induction false} RankUpdate(threads: seq<Pc>, t: nat, pc: Pc)
    requires t < |threads|
    ensures Rank(threads[t := pc]) == Rank(threads) + Steps(pc) - Steps(threads[t])
  {
    hide Steps;
    if t == 0 {
      assert threads[0 := pc][1..] == threads[1..];
    } else {
      RankUpdate(threads[1..], t - 1, pc);
      assert threads[t := pc][1..] == threads[1..][t - 1 := pc];
    }
  }

  lemma MoveSteps(g: Shared, pc: Pc, e: Event)
    requires CanMove(g, pc, e) && (e.Go? || e.LogWrite?)
    ensures Steps(Move(g, pc, e).pc) < Steps(pc)
  {
    hide Blocked;
  }

  /** Steps of operations already begun: no begin_op, kill or other user of ptable.lock. */
  ghost predicate Begun(es: seq<Event>) {
    forall i | 0 <= i < |es| :: es[i].Go? || es[i].LogWrite?
  }

  ghost predicate Sleeps(s: State, q: nat) { q < |s.threads| && s.threads[q].Asleep? }

  ghost predicate SleepsThrough(s: State, es: seq<Event>, q: nat)
    requires CanRun(s, es)
    decreases |es|
  {
    Sleeps(s, q) && (es == [] || SleepsThrough(Step(s, es[0]), es[1..], q))
  }

  lemma RankStep(s: State, e: Event, q: nat)
    requires Enabled(s, e) && (e.Go? || e.LogWrite?) && Sleeps(s, q) && Sleeps(Step(s, e), q)
    ensures Rank(Step(s, e).threads) < Rank(s.threads)
  {
    hide Move;
    hide Steps;
    MoveSteps(s.g, s.threads[e.t], e);
    OtherThreads(s, e);
    RankUpdate(s.threads, e.t, Move(s.g, s.threads[e.t], e).pc);
  }

  /** No thread sleeps on &log for ever once operations stop coming: as long as it sleeps,
      the threads already under way take no more than Rank steps between them. */
  lemma {:induction false} SleepIsBounded(s: State, es: seq<Event>, q: nat)
    requires CanRun(s, es) && Begun(es) && SleepsThrough(s, es, q)
    ensures |es| <= Rank(s.threads)
    decreases |es|
  {
    hide Step;
    hide Rank;
    if es != [] {
      RankStep(s, es[0], q);
      SleepIsBounded(Step(s, es[0]), es[1..], q);
    }
  }

  /** And they never get stuck before they wake it: from every reachable state they can go on
      until they do. */
  lemma {:induction false} SleeperIsWoken(s: State, q: nat) returns (es: seq<Event>)
    requires Inv(s) && Sleeps(s, q)
    ensures CanRun(s, es) && Begun(es) && !Sleeps(After(s, es), q)
    decreases Rank(s.threads)
  {
    hide Step;
    hide Enabled;
    hide Inv;
    hide Rank;
    hide Sleeps;
    var t := SomeoneMoves(s, q);
    var e := Go(t);
    InvStep(s, e);
    if Sleeps(Step(s, e), q) {
      RankStep(s, e, q);
      var rest := SleeperIsWoken(Step(s, e), q);
      es := [e] + rest;
      assert es[1..] == rest;
    } else {
      es := [e];
    }
  }
}
