/** Theorems about whole runs of the log machine, and the exact condition on the
    size of the log area under which they hold for every run. */
module LogRuns {
  import opened Log
  import opened LogMachine
  import opened LogRefinement

  ghost predicate IsRun(c: Config, d: Disk, es: seq<Event>) {
    DiskOk(c, d) && CanRun(c, Init(d), es)
  }

  /** The state after the first i events. */
  ghost function At(c: Config, d: Disk, es: seq<Event>, i: nat): State
    requires IsRun(c, d, es) && i <= |es|
  {
    CanRunPrefix(c, Init(d), es, i);
    After(c, Init(d), es[..i])
  }

  lemma AtStep(c: Config, d: Disk, es: seq<Event>, i: nat)
    requires IsRun(c, d, es) && i < |es|
    ensures Enabled(c, At(c, d, es, i), es[i])
    ensures At(c, d, es, i + 1) == Step(c, At(c, d, es, i), es[i])
  {
    CanRunPrefix(c, Init(d), es, i + 1);
    assert es[..i + 1][..i] == es[..i];
  }

  ghost predicate FitsThroughout(c: Config, d: Disk, es: seq<Event>)
    requires IsRun(c, d, es)
  {
    forall i | 0 <= i <= |es| :: Fits(c, At(c, d, es, i))
  }

  lemma InitGood(c: Config, d: Disk)
    requires DiskOk(c, d)
    ensures Good(c, Init(d))
  {
    assert Total(map[]) == 0;
  }

  /** One event of the log machine together with the atomic move that answers it. */
  ghost predicate Answered(c: Config, s: State, e: Event, s': State) {
    && Good(c, s) && Good(c, s')
    && Enabled(c, s, e)
    && s' == Step(c, s, e)
    && Moves(Abs(c, s), MoveOf(c, s, e), Abs(c, s'))
  }

  /** Safety over whole runs: as long as the log area is not overrun, every state
      is well formed and every event is a move of the atomic disk. */
  lemma {:induction false} RunRefines(c: Config, d: Disk, es: seq<Event>, n: nat)
    requires IsRun(c, d, es) && n <= |es|
    requires forall i | 0 <= i <= n :: Fits(c, At(c, d, es, i))
    ensures Good(c, At(c, d, es, n))
    ensures forall i | 0 <= i < n :: Answered(c, At(c, d, es, i), es[i], At(c, d, es, i + 1))
  {
    hide Good;
    hide Moves;
    hide Enabled;
    hide Step;
    hide Abs;
    if n == 0 {
      InitGood(c, d);
    } else {
      RunRefines(c, d, es, n - 1);
      AtStep(c, d, es, n - 1);
      StepRefines(c, At(c, d, es, n - 1), es[n - 1]);
    }
  }

  /** With a log area of more than LOGSIZE blocks no run ever overruns it. */
  lemma {:induction false} BigLogFits(c: Config, d: Disk, es: seq<Event>, n: nat)
    requires IsRun(c, d, es) && n <= |es| && c.size > LOGSIZE
    ensures forall i | 0 <= i <= n :: Fits(c, At(c, d, es, i))
    ensures Good(c, At(c, d, es, n))
  {
    hide Good;
    hide Enabled;
    hide Step;
    if n == 0 {
      InitGood(c, d);
    } else {
      BigLogFits(c, d, es, n - 1);
      AtStep(c, d, es, n - 1);
      var s, e := At(c, d, es, n - 1), es[n - 1];
      ReservedFits(c, s, e);
      StepRefines(c, s, e);
    }
  }

  lemma ReservedFits(c: Config, s: State, e: Event)
    requires Good(c, s) && Enabled(c, s, e) && c.size > LOGSIZE
    ensures Fits(c, Step(c, s, e))
  {
    ReservedStep(c, s, e);
  }

  /** A committed image is always one that readers saw when no operation was open: a crash
      brings back whole transactions, never part of one.  None is lost that had ended when
      the log was last at rest: the image is not older than that. */
  lemma {:induction false} DurableIsACommitPoint(c: Config, d: Disk, es: seq<Event>, n: nat) returns (j: nat)
    requires IsRun(c, d, es) && n <= |es|
    requires forall i | 0 <= i <= n :: Fits(c, At(c, d, es, i))
    ensures Good(c, At(c, d, es, n))
    ensures j <= n && Good(c, At(c, d, es, j))
    ensures Abs(c, At(c, d, es, j)).open == 0
    ensures Abs(c, At(c, d, es, n)).committed == Abs(c, At(c, d, es, j)).current
    ensures forall i | j < i <= n :: !Quiet(At(c, d, es, i))
  {
    hide Good;
    hide Enabled;
    hide Step;
    hide Abs;
    hide Quiet;
    RunRefines(c, d, es, n);
    if Quiet(At(c, d, es, n)) {
      j := n;
      QuietIsDurable(c, At(c, d, es, n));
    } else if n == 0 {
      j := 0;
      InitCommitted(c, d);
    } else {
      var i := n - 1;
      assert Answered(c, At(c, d, es, i), es[i], At(c, d, es, i + 1));
      if MoveOf(c, At(c, d, es, i), es[i]).Commit? {
        j := i;
      } else {
        j := DurableIsACommitPoint(c, d, es, i);
      }
    }
  }

  /** Whatever happens to the machine afterwards, what readers saw when the log was at rest is
      there until later operations replace it: a crash goes back to that point or a later one. */
  lemma EndedIsDurable(c: Config, d: Disk, es: seq<Event>, i: nat, n: nat) returns (j: nat)
    requires IsRun(c, d, es) && i <= n <= |es| && Quiet(At(c, d, es, i))
    requires forall k | 0 <= k <= n :: Fits(c, At(c, d, es, k))
    ensures Good(c, At(c, d, es, i)) && Good(c, At(c, d, es, n))
    ensures Abs(c, At(c, d, es, i)).committed == Abs(c, At(c, d, es, i)).current
    ensures i <= j <= n && Good(c, At(c, d, es, j)) && Abs(c, At(c, d, es, j)).open == 0
    ensures Abs(c, At(c, d, es, n)).committed == Abs(c, At(c, d, es, j)).current
  {
    hide Good;
    hide Abs;
    hide Quiet;
    RunRefines(c, d, es, i);
    QuietIsDurable(c, At(c, d, es, i));
    j := DurableIsACommitPoint(c, d, es, n);
  }

  lemma InitCommitted(c: Config, d: Disk)
    requires DiskOk(c, d)
    ensures Good(c, Init(d)) && Abs(c, Init(d)).open == 0
    ensures Abs(c, Init(d)).committed == Abs(c, Init(d)).current
  {
    InitGood(c, d);
  }

  /** log_write's append is in bounds although its size test was not under the lock. */
  lemma AppendInBounds(c: Config, s: State, id: nat)
    requires Good(c, s) && CanAppend(s, id) && s.ops[id].blockno !in s.lh
    ensures |s.lh| < LOGSIZE
  {
    TotalRemove(s.ops, id);
  }

  /** With a big enough log area the size test never stops an operation that still
      has unspent reservation. */
  lemma ReservedCheckPasses(c: Config, s: State, id: nat)
    requires Good(c, s) && id in s.ops && s.ops[id].left > 0 && c.size > LOGSIZE
    ensures !LooksFull(c, s)
  {
    TotalRemove(s.ops, id);
  }
}
