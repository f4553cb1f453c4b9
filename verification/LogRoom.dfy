/** begin_op's reservation in the machine with its sleeping and waking: what is logged and what
    the open operations may still log fits the log, in every run. */
module LogRoom {
  import opened Log
  import opened LogSleep

  /** The blocks that a thread may still add to the log. */
  ghost function Left(pc: Pc): nat {
    match pc
    case BeginExit => MAXOPBLOCKS
    case InOp(left) => left
    case _ => 0
  }

  ghost function Total(threads: seq<Pc>, n: nat): nat
    requires n <= |threads|
  {
    if n == 0 then 0 else Total(threads, n - 1) + Left(threads[n - 1])
  }

  ghost predicate Room(s: State) {
    && s.g.n + Total(s.threads, |s.threads|) <= LOGSIZE
    && forall t | 0 <= t < |s.threads| :: Left(s.threads[t]) <= MAXOPBLOCKS
  }

  /** Open operations among the first n threads. */
  ghost function Count(threads: seq<Pc>, n: nat): nat
    requires n <= |threads|
  {
    if n == 0 then 0 else Count(threads, n - 1) + if Open(threads[n - 1]) then 1 else 0
  }

  ghost function OpenIn(threads: seq<Pc>, n: nat): set<nat>
    requires n <= |threads|
  {
    set t: nat | t < n && Open(threads[t])
  }

  lemma {:induction false} CountIs(threads: seq<Pc>, n: nat)
    requires n <= |threads|
    ensures |OpenIn(threads, n)| == Count(threads, n)
  {
    if n == 0 {
      assert OpenIn(threads, n) == {};
    } else {
      CountIs(threads, n - 1);
      hide Open;
      if Open(threads[n - 1]) {
        assert OpenIn(threads, n) == OpenIn(threads, n - 1) + {n - 1};
      } else {
        assert OpenIn(threads, n) == OpenIn(threads, n - 1);
      }
    }
  }

  lemma {:induction false} TotalBound(threads: seq<Pc>, n: nat)
    requires n <= |threads| && forall t | 0 <= t < |threads| :: Left(threads[t]) <= MAXOPBLOCKS
    ensures Total(threads, n) <= Count(threads, n) * MAXOPBLOCKS
  {
    if n > 0 { TotalBound(threads, n - 1); }
  }

  lemma {:induction false} TotalSame(a: seq<Pc>, b: seq<Pc>, n: nat)
    requires n <= |a| && n <= |b| && forall t | 0 <= t < n :: Left(a[t]) == Left(b[t])
    ensures Total(a, n) == Total(b, n)
  {
    if n > 0 { TotalSame(a, b, n - 1); }
  }

  lemma {:induction false} TotalMove(a: seq<Pc>, b: seq<Pc>, t: nat, n: nat)
    requires t < n <= |a| == |b| && forall u | 0 <= u < |a| && u != t :: Left(b[u]) == Left(a[u])
    ensures Total(b, n) == Total(a, n) + Left(b[t]) - Left(a[t])
  {
    if t == n - 1 { TotalSame(a, b, t); } else { TotalMove(a, b, t, n - 1); }
  }

  /** One thread moves: it comes in with its whole reservation, spends it block by block, and
      gives back the rest. */
  lemma MoveRoom(g: Shared, pc: Pc, e: Event)
    requires CanMove(g, pc, e)
    ensures var m := Move(g, pc, e);
            if e.Go? && pc.BeginTest? && !Blocked(g)
            then m.g.n == g.n && Left(m.pc) == MAXOPBLOCKS && Left(pc) == 0
            else m.g.n + Left(m.pc) <= g.n + Left(pc) && Left(m.pc) <= (if pc.BeginExit? then MAXOPBLOCKS else Left(pc))
  {
  }

  lemma RoomStep(s: State, e: Event)
    requires Counting(s) && Room(s) && Enabled(s, e)
    ensures Room(Step(s, e))
  {
    hide Move;
    hide CanMove;
    var s', t := Step(s, e), e.t;
    OtherThreads(s, e);
    MoveRoom(s.g, s.threads[t], e);
    TotalMove(s.threads, s'.threads, t, |s.threads|);
    TotalBound(s.threads, |s.threads|);
    CountIs(s.threads, |s.threads|);
    assert Ops(s.threads) == OpenIn(s.threads, |s.threads|);
    assert s.g.outstanding == Count(s.threads, |s.threads|);
  }

  /** begin_op lets a thread in exactly if no thread commits and the log has room for every
      open operation and this one. */
  ghost predicate Admits(s: State, s': State, t: nat)
    requires t < |s.threads| == |s'.threads|
  {
    s.threads[t].BeginTest? && !s'.threads[t].BeginTest? ==>
      if (forall u :: !Committer(s.threads, u)) && s.g.n + (|Ops(s.threads)| + 1) * MAXOPBLOCKS <= LOGSIZE
      then s'.threads[t].BeginExit?
      else s'.threads[t].SlpWantPt?
  }

  ghost predicate InBegin(pc: Pc) {
    || pc.BeginWant? || pc.BeginTest? || pc.BeginExit? || pc.SlpWantPt? || pc.SlpRelease? || pc.SlpMark? || pc.SlpSwtch?
    || pc.Asleep? || pc.Ready? || pc.SlpDropPt?
  }

  ghost predicate InEnd(pc: Pc) {
    || pc.EndWant? || pc.EndDec? || pc.CommitExit? || pc.Commit? || pc.DoneWant? || pc.DoneClear? || pc.WakeWantPt?
    || pc.WakeAll? || pc.WakeDropPt? || pc.WakeExit?
  }

  /** A thread comes out of begin_op only into an operation with its whole reservation, out of an
      operation only into end_op, and out of end_op only when that has woken the sleepers. */
  ghost predicate Flows(pc: Pc, pc': Pc) {
    && (InBegin(pc) && !InBegin(pc') ==> pc.BeginExit? && pc' == InOp(MAXOPBLOCKS))
    && (pc.InOp? && !pc'.InOp? ==> pc'.EndWant?)
    && (InEnd(pc) && !InEnd(pc') ==> pc.WakeExit? && pc'.Out?)
  }

  /** The log is emptied only by a thread in commit, which then holds no lock. */
  ghost predicate Empties(s: State, s': State) {
    s'.g.n < s.g.n ==>
      exists t :: 0 <= t < |s.threads| && s.threads[t].Commit? && !HoldsLog(s.threads[t]) && !HoldsPt(s.threads[t])
  }

  lemma StepFlowsOn(s: State, e: Event)
    requires Enabled(s, e)
    ensures var s' := Step(s, e);
            && |s'.threads| == |s.threads| && Empties(s, s')
            && forall t | 0 <= t < |s.threads| :: Flows(s.threads[t], s'.threads[t])
  {
    OtherThreads(s, e);
    hide Blocked;
    assert Flows(s.threads[e.t], Move(s.g, s.threads[e.t], e).pc);
    hide Move;
  }

  lemma StepAdmits(s: State, e: Event)
    requires Counting(s) && Enabled(s, e)
    ensures |Step(s, e).threads| == |s.threads| && forall t: nat | t < |s.threads| :: Admits(s, Step(s, e), t)
  {
    OtherThreads(s, e);
    assert s.g.committing <==> exists u :: Committer(s.threads, u);
    hide Committer;
    hide Ops;
  }

  lemma {:induction false} RunRoom(s: State, es: seq<Event>)
    requires Inv(s) && Room(s) && CanRun(s, es)
    ensures Room(After(s, es)) && Inv(After(s, es))
    decreases |es|
  {
    if es != [] {
      assert Counting(s);
      hide Room;
      RoomStep(s, es[0]);
      InvRun(s, es[..1]);
      assert es[..1][1..] == [] && After(s, es[..1]) == Step(s, es[0]);
      hide Inv;
      RunRoom(Step(s, es[0]), es[1..]);
    }
  }

  /** For any number of threads and any schedule: the log has room for what is in it and for all
      that the open operations may still log; and the next step, whatever it is, lets a thread
      through begin_op exactly if that stays so and no commit is under way, takes no thread out
      of begin_op or end_op but at its end, and empties the log only by a commit. */
  lemma LogHasRoom(threads: nat, es: seq<Event>)
    requires CanRun(Init(threads), es)
    ensures var s := After(Init(threads), es);
            && s.g.n + Total(s.threads, |s.threads|) <= LOGSIZE
            && forall e | Enabled(s, e) ::
                 && |Step(s, e).threads| == |s.threads| && Empties(s, Step(s, e))
                 && forall t: nat | t < |s.threads| ::
                      Admits(s, Step(s, e), t) && Flows(s.threads[t], Step(s, e).threads[t])
  {
    InitInv(threads);
    InitRoom(threads);
    RunRoom(Init(threads), es);
    var s := After(Init(threads), es);
    hide Empties;
    hide Admits;
    hide Flows;
    forall e | Enabled(s, e)
      ensures |Step(s, e).threads| == |s.threads| && Empties(s, Step(s, e))
      ensures forall t: nat | t < |s.threads| ::
                Admits(s, Step(s, e), t) && Flows(s.threads[t], Step(s, e).threads[t])
    {
      StepAdmits(s, e);
      StepFlowsOn(s, e);
    }
  }

  lemma InitRoom(threads: nat)
    ensures Room(Init(threads))
  {
    TotalZero(Init(threads).threads, threads);
  }

  lemma {:induction false} TotalZero(threads: seq<Pc>, n: nat)
    requires n <= |threads| && forall t | 0 <= t < |threads| :: Left(threads[t]) == 0
    ensures Total(threads, n) == 0
  {
    if n > 0 { TotalZero(threads, n - 1); }
  }
}
