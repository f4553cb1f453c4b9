/** The log machine refines an atomic transactional disk, in every run. */
module LogRefinement {
  import opened Blocks
  import opened Log
  import opened LogCrash
  import opened LogMachine

  // ------------------------------------------------------ the atomic disk

  /** A disk with a committed image, a current image that operations update, and
      a count of open operations. */
  datatype Atomic = Atomic(committed: map<int, Block>, current: map<int, Block>, open: nat)

  datatype Move =
    | Stutter
    | OpenOp
    | CloseOp
    | Put(b: int, data: Block)   // only inside an operation
    | Commit                     // only when no operation is open
    | Lose                       // crash: memory contents are lost

  ghost predicate Moves(a: Atomic, m: Move, a': Atomic) {
    match m
    case Stutter => a' == a
    case OpenOp => a' == a.(open := a.open + 1)
    case CloseOp => a.open > 0 && a' == a.(open := a.open - 1)
    case Put(b, data) => a.open > 0 && b in a.current && a' == a.(current := a.current[b := data])
    case Commit => a.open == 0 && a' == a.(committed := a.current)
    case Lose => a' == Atomic(a.committed, a.committed, 0)
  }

  // -------------------------------------------------------- the invariant

  ghost function Total(ops: map<nat, Op>): nat
    decreases |ops|
  {
    if ops == map[] then 0
    else
      var id :| id in ops;
      ops[id].left + Total(ops - {id})
  }

  lemma {:induction false} TotalRemove(ops: map<nat, Op>, id: nat)
    requires id in ops
    ensures Total(ops) == ops[id].left + Total(ops - {id})
    decreases |ops|
  {
    var x :| x in ops && Total(ops) == ops[x].left + Total(ops - {x});
    if x != id {
      TotalRemove(ops - {x}, id);
      TotalRemove(ops - {id}, x);
      assert ops - {x} - {id} == ops - {id} - {x};
    }
  }

  lemma TotalUpdate(ops: map<nat, Op>, id: nat, op: Op)
    requires id in ops
    ensures Total(ops[id := op]) == Total(ops) - ops[id].left + op.left
  {
    TotalRemove(ops, id);
    TotalRemove(ops[id := op], id);
    assert ops[id := op] - {id} == ops - {id};
  }

  lemma TotalInsert(ops: map<nat, Op>, id: nat, op: Op)
    requires id !in ops
    ensures Total(ops[id := op]) == Total(ops) + op.left
  {
    TotalRemove(ops[id := op], id);
    assert ops[id := op] - {id} == ops;
  }

  ghost predicate Capped(ops: map<nat, Op>) {
    forall id | id in ops :: ops[id].left <= MAXOPBLOCKS
  }

  lemma {:induction false} TotalBound(ops: map<nat, Op>)
    requires Capped(ops)
    ensures Total(ops) <= |ops| * MAXOPBLOCKS
    decreases |ops|
  {
    if ops != map[] {
      var id :| id in ops && Total(ops) == ops[id].left + Total(ops - {id});
      TotalBound(ops - {id});
    }
  }

  /** The log reservation: what is logged and what the open operations may still
      log fits, and no block number is listed twice. */
  ghost predicate Reserved(s: State) {
    && NoDup(s.lh)
    && Capped(s.ops)
    && |s.lh| + Total(s.ops) <= LOGSIZE
    && (s.ops != map[] ==> s.phase.Idle? || s.phase.Halted?)
  }

  ghost predicate CleanAgree(s: State) {
    forall b | b in s.bufs :: b < |s.disk| && (!s.bufs[b].dirty ==> s.bufs[b].data == s.disk[b])
  }

  /** The image that a reader of the home blocks sees. */
  ghost function View(c: Config, s: State): map<int, Block>
    requires c.Valid() && |s.disk| == c.nblocks
  {
    map b | b in c.Homes() :: Bread(s, b)
  }

  ghost predicate IdleOk(c: Config, s: State)
    requires DiskOk(c, s.disk)
  {
    && Decode(s.disk[c.start]) == []
    && CleanAgree(s)
    && (forall b | b in s.bufs :: s.bufs[b].dirty <==> b in s.lh)
    && (forall b <- s.lh :: b in s.bufs)
    && (forall id | id in s.ops && s.ops[id].Checked? :: c.Home(s.ops[id].blockno))
    && (s.ops == map[] ==> s.lh == [])  // the last end_op has committed
  }

  ghost predicate CommittingOk(c: Config, s: State)
    requires DiskOk(c, s.disk) && LoggableList(c, s.lh)
    requires s.phase.Committing?
  {
    var from, data, k := s.phase.from, s.phase.data, s.phase.k;
    && DiskOk(c, from) && Decode(from[c.start]) == []
    && |data| == |s.lh|
    && s.ops == map[]
    && var plan := CommitWrites(c, from, s.lh, data);
    && k <= |plan|
    && InRange(plan[..k], |from|)
    && s.disk == Apply(from, plan[..k])
    && CleanAgree(s)
    && (forall b | b in s.bufs && s.bufs[b].dirty :: b in s.lh && k <= |s.lh| + 1 + IndexOf(s.lh, b))
    && View(c, s) == Overlay(HomeImage(c, from), s.lh, data)
  }

  ghost predicate RecoveringOk(c: Config, s: State)
    requires DiskOk(c, s.disk) && s.phase.Recovering?
  {
    var from, k := s.phase.from, s.phase.k;
    && DiskOk(c, from)
    && s.ops == map[]
    && k <= |RecoverWrites(c, from)|
    && InRange(RecoverWrites(c, from)[..k], |from|)
    && s.disk == Apply(from, RecoverWrites(c, from)[..k])
    && CleanAgree(s)
    && (forall b | b in s.bufs :: !s.bufs[b].dirty)
  }

  ghost predicate Inv(c: Config, s: State) {
    && DiskOk(c, s.disk)
    && LoggableList(c, s.lh)
    && match s.phase
       case Boot => s == Init(s.disk)
       case Halted => true
       case Idle => IdleOk(c, s)
       case Committing(_, _, _) => CommittingOk(c, s)
       case Recovering(_, _) => RecoveringOk(c, s)
  }

  ghost function Abs(c: Config, s: State): Atomic
    requires DiskOk(c, s.disk)
  {
    var committed := Durable(c, s.disk);
    match s.phase
    case Idle => Atomic(committed, View(c, s), |s.ops|)
    case Committing(_, _, _) => Atomic(committed, View(c, s), 0)
    case _ => Atomic(committed, committed, 0)
  }

  // ------------------------------------------------------ reservation steps

  lemma LastOp(ops: map<nat, Op>, id: nat)
    requires id in ops
    ensures |ops - {id}| == |ops| - 1
    ensures |ops| == 1 ==> ops - {id} == map[]
  {
    assert ops.Keys == (ops - {id}).Keys + {id};
    assert |ops.Keys| == |(ops - {id}).Keys| + 1;
  }

  lemma SizeUpdate(ops: map<nat, Op>, id: nat, op: Op)
    requires id in ops
    ensures |ops[id := op]| == |ops|
  {
    assert ops[id := op].Keys == ops.Keys;
  }

  lemma ReservedOp(c: Config, s: State, e: Event)
    requires Reserved(s) && Enabled(c, s, e) && (e.Begin? || e.Check? || e.Append? || e.End?)
    ensures Reserved(Step(c, s, e))
  {
    hide Total;
    hide Reserved;
    match e
    case Begin(id) => ReservedBegin(c, s, id);
    case Check(id, b, data) => ReservedCheck(c, s, id, b, data);
    case Append(id) => ReservedAppend(c, s, id);
    case End(id) => ReservedEnd(c, s, id);
  }

  lemma ReservedBegin(c: Config, s: State, id: nat)
    requires Reserved(s) && Enabled(c, s, Begin(id))
    ensures Reserved(Step(c, s, Begin(id)))
  {
    hide Total;
    TotalBound(s.ops);
    TotalInsert(s.ops, id, Running(MAXOPBLOCKS));
  }

  lemma ReservedCheck(c: Config, s: State, id: nat, b: word, data: Block)
    requires Reserved(s) && Enabled(c, s, Check(id, b, data))
    ensures Reserved(Step(c, s, Check(id, b, data)))
  {
    hide Total;
    TotalUpdate(s.ops, id, Checked(s.ops[id].left, b, data));
  }

  lemma ReservedAppend(c: Config, s: State, id: nat)
    requires Reserved(s) && Enabled(c, s, Append(id))
    ensures Reserved(Step(c, s, Append(id)))
  {
    hide Total;
    TotalUpdate(s.ops, id, DoAppend(s, id).ops[id]);
  }

  lemma ReservedEnd(c: Config, s: State, id: nat)
    requires Reserved(s) && Enabled(c, s, End(id))
    ensures Reserved(Step(c, s, End(id)))
  {
    hide Total;
    TotalRemove(s.ops, id);
    LastOp(s.ops, id);
  }

  /** The reservation holds after every event of every interleaving. */
  lemma ReservedStep(c: Config, s: State, e: Event)
    requires Inv(c, s) && Reserved(s) && Enabled(c, s, e)
    ensures Reserved(Step(c, s, e))
  {
    hide Decode;
    hide HeaderFits;
    hide CommitWrites;
    hide Apply;
    if e.Begin? || e.Check? || e.Append? || e.End? {
      ReservedOp(c, s, e);
    } else if e.ReadHead? {
      assert LoggableList(c, Decode(s.disk[c.start]));
      assert Total(map[]) == 0;
    } else {
      assert Total(map[]) == 0;
    }
  }

  // ------------------------------------------------------- refinement steps

  /** The atomic disk's move that answers an event of the log machine. */
  ghost function MoveOf(c: Config, s: State, e: Event): Move
    requires Enabled(c, s, e)
  {
    match e
    case Begin(_) => OpenOp
    case Check(_, _, _) => if LooksFull(c, s) then Lose else Stutter
    case Append(id) => Put(s.ops[id].blockno, s.ops[id].data)
    case End(_) => CloseOp
    case DiskWrite => if s.phase.Committing? && s.phase.k == |s.lh| then Commit else Stutter
    case Crash => Lose
    case _ => Stutter
  }

  ghost predicate Fits(c: Config, s: State) {
    |s.lh| <= c.size - 1
  }

  ghost predicate IdleInv(c: Config, s: State) {
    s.phase.Idle? && DiskOk(c, s.disk) && LoggableList(c, s.lh) && IdleOk(c, s)
  }

  lemma BeginRefines(c: Config, s: State, id: nat)
    requires IdleInv(c, s) && CanBegin(s, id)
    ensures var s' := DoBegin(s, id); IdleInv(c, s') && Moves(Abs(c, s), OpenOp, Abs(c, s'))
  {
    hide Decode;
    hide HeaderFits;
    hide Durable;
    assert View(c, DoBegin(s, id)) == View(c, s);
  }

  lemma CheckRefines(c: Config, s: State, id: nat, b: word, data: Block)
    requires IdleInv(c, s) && CanCheck(c, s, id, b)
    ensures var s' := DoCheck(c, s, id, b, data);
            if LooksFull(c, s) then s' == s.(phase := Halted)
            else IdleInv(c, s') && Moves(Abs(c, s), Stutter, Abs(c, s'))
  {
    hide Decode;
    hide HeaderFits;
    hide Durable;
    var s' := DoCheck(c, s, id, b, data);
    if !LooksFull(c, s) {
      assert View(c, s') == View(c, s);
      SizeUpdate(s.ops, id, s'.ops[id]);
    }
  }

  lemma AppendRefines(c: Config, s: State, id: nat)
    requires IdleInv(c, s) && CanAppend(s, id)
    requires NoDup(DoAppend(s, id).lh) && |DoAppend(s, id).lh| <= LOGSIZE && Fits(c, DoAppend(s, id))
    ensures var s' := DoAppend(s, id);
            IdleInv(c, s') && Moves(Abs(c, s), Put(s.ops[id].blockno, s.ops[id].data), Abs(c, s'))
  {
    hide Decode;
    hide HeaderFits;
    hide Durable;
    var s' := DoAppend(s, id);
    var op := s.ops[id];
    assert op.blockno in c.Homes();
    assert View(c, s') == View(c, s)[op.blockno as int := op.data];
    SizeUpdate(s.ops, id, s'.ops[id]);
  }

  lemma EndRefines(c: Config, s: State, id: nat)
    requires IdleInv(c, s) && CanEnd(c, s, id)
    ensures var s' := DoEnd(c, s, id); Inv(c, s') && Moves(Abs(c, s), CloseOp, Abs(c, s'))
  {
    if |s.ops| > 1 || s.lh == [] {
      EndIdle(c, s, id);
    } else {
      EndCommits(c, s, id);
    }
  }

  lemma EndIdle(c: Config, s: State, id: nat)
    requires IdleInv(c, s) && CanEnd(c, s, id) && (|s.ops| > 1 || s.lh == [])
    ensures var s' := DoEnd(c, s, id); IdleInv(c, s') && Moves(Abs(c, s), CloseOp, Abs(c, s'))
  {
    hide Decode;
    hide HeaderFits;
    hide Durable;
    assert View(c, DoEnd(c, s, id)) == View(c, s);
    LastOp(s.ops, id);
  }

  lemma EndCommits(c: Config, s: State, id: nat)
    requires IdleInv(c, s) && CanEnd(c, s, id) && |s.ops| <= 1 && s.lh != []
    ensures var s' := DoEnd(c, s, id); Inv(c, s') && Moves(Abs(c, s), CloseOp, Abs(c, s'))
  {
    hide Decode;
    hide HeaderFits;
    hide Durable;
    hide CommitWrites;
    hide Overlay;
    hide Apply;
    hide CommittingOk;
    var s' := DoEnd(c, s, id);
    assert View(c, s') == View(c, s);
    LastOp(s.ops, id);
    CommitStarts(c, s);
    CommitBegins(c, s, s');
  }

  lemma CommitBegins(c: Config, s: State, s': State)
    requires IdleInv(c, s)
    requires forall t | 0 <= t < |s.lh| :: s.lh[t] < |s.disk|
    requires s' == s.(ops := map[], phase := Committing(s.disk, Cached(s), 0))
    requires View(c, s) == Overlay(HomeImage(c, s.disk), s.lh, Cached(s))
    ensures CommittingOk(c, s')
  {
    hide Decode;
    hide HeaderFits;
    hide CommitWrites;
    hide Overlay;
    assert CommitWrites(c, s.disk, s.lh, Cached(s))[..0] == [];
    assert View(c, s') == View(c, s);
  }

  /** When commit starts, the cached image is the disk with the logged blocks applied. */
  lemma CommitStarts(c: Config, s: State)
    requires IdleInv(c, s)
    requires forall t | 0 <= t < |s.lh| :: s.lh[t] < |s.disk|
    ensures View(c, s) == Overlay(HomeImage(c, s.disk), s.lh, Cached(s))
  {
    hide Decode;
    hide HeaderFits;
    forall b | b in c.Homes() ensures View(c, s)[b] == Overlay(HomeImage(c, s.disk), s.lh, Cached(s))[b] {
      var w: word := b;
    }
  }

  lemma LoadRefines(c: Config, s: State, b: nat)
    requires Inv(c, s) && CanLoad(s, b)
    ensures Inv(c, DoLoad(s, b)) && Abs(c, DoLoad(s, b)) == Abs(c, s)
  {
    hide Decode;
    hide HeaderFits;
    hide Durable;
    hide CommitWrites;
    hide Overlay;
    hide Apply;
    assert View(c, DoLoad(s, b)) == View(c, s);
  }

  lemma EvictRefines(c: Config, s: State, b: nat)
    requires Inv(c, s) && CanEvict(s, b)
    ensures Inv(c, DoEvict(s, b)) && Abs(c, DoEvict(s, b)) == Abs(c, s)
  {
    hide Decode;
    hide HeaderFits;
    hide Durable;
    hide CommitWrites;
    hide Overlay;
    hide Apply;
    if !s.phase.Boot? {
      assert View(c, DoEvict(s, b)) == View(c, s);
    }
  }

  lemma ReadHeadRefines(c: Config, s: State)
    requires Inv(c, s) && CanReadHead(c, s)
    ensures Inv(c, DoReadHead(c, s)) && Abs(c, DoReadHead(c, s)) == Abs(c, s)
  {
    hide Decode;
    hide HeaderFits;
    hide Durable;
    assert RecoverWrites(c, s.disk)[..0] == [];
  }

  // The disk writes.  CommitPrefix and RecoverPrefix say what the disk stands for.

  lemma CommitWriteRefines(c: Config, s: State)
    requires Inv(c, s) && s.phase.Committing? && CanWrite(c, s)
    ensures var s' := DoWrite(s, Plan(c, s)[s.phase.k]);
            && Inv(c, s')
            && Moves(Abs(c, s), if s.phase.k == |s.lh| then Commit else Stutter, Abs(c, s'))
  {
    hide Decode;
    hide HeaderFits;
    hide Durable;
    hide Overlay;
    hide HomeImage;
    hide CommitWrites;
    hide Apply;
    var from, data, k := s.phase.from, s.phase.data, s.phase.k;
    var plan := CommitWrites(c, from, s.lh, data);
    var s' := DoWrite(s, plan[k]);
    CommitPrefix(c, from, s.lh, data, k);
    CommitPrefix(c, from, s.lh, data, k + 1);
    assert plan[..k + 1] == plan[..k] + [plan[k]];
    ApplySnoc(from, plan[..k], plan[k]);
    CommitWriteView(c, s);
  }

  /** Where the k-th write of commit goes: the log area, or home k - n - 1. */
  lemma PlanEntry(c: Config, d: Disk, lh: seq<word>, data: seq<Block>, k: nat)
    requires c.start < |d| && |lh| == |data| <= LOGSIZE && k < 2 * |lh| + 2
    ensures var n, w := |lh|, CommitWrites(c, d, lh, data)[k];
            if n + 1 <= k < 2 * n + 1 then w == Write(lh[k - n - 1], data[k - n - 1])
            else c.start <= w.blockno <= c.start + n
  {
    hide EncodeOver;
  }

  /** A buffer write that carries what readers already see, or that is outside the
      home blocks, changes no reader's view. */
  lemma SameView(c: Config, s: State, w: Write)
    requires c.Valid() && |s.disk| == c.nblocks && CleanAgree(s) && w.blockno < |s.disk|
    requires s.phase.Committing? || s.phase.Recovering?
    requires c.Home(w.blockno) ==> Bread(s, w.blockno) == w.data
    ensures View(c, DoWrite(s, w)) == View(c, s)
    ensures CleanAgree(DoWrite(s, w))
  {
  }

  /** No write of commit changes what readers see. */
  lemma CommitWriteView(c: Config, s: State)
    requires Inv(c, s) && s.phase.Committing? && CanWrite(c, s)
    ensures var s' := DoWrite(s, Plan(c, s)[s.phase.k]);
            && View(c, s') == View(c, s)
            && CleanAgree(s')
            && forall b | b in s'.bufs && s'.bufs[b].dirty ::
                 b in s.lh && s.phase.k + 1 <= |s.lh| + 1 + IndexOf(s.lh, b)
  {
    hide Decode;
    hide HeaderFits;
    hide Apply;
    hide CommitWrites;
    hide CleanAgree;
    var data, k, n := s.phase.data, s.phase.k, |s.lh|;
    PlanEntry(c, s.phase.from, s.lh, data, k);
    var w := CommitWrites(c, s.phase.from, s.lh, data)[k];
    if n + 1 <= k < 2 * n + 1 {
      var b := s.lh[k - n - 1];
      IndexOfUnique(s.lh, k - n - 1);
      assert b in c.Homes();
      assert View(c, s)[b] == Overlay(HomeImage(c, s.phase.from), s.lh, data)[b] == data[k - n - 1];
      NoOtherDirty(s, w, k - n - 1);
    }
    SameView(c, s, w);
  }

  lemma NoOtherDirty(s: State, w: Write, t: nat)
    requires t < |s.lh| && NoDup(s.lh) && w.blockno == s.lh[t]
    requires forall b | b in s.bufs && s.bufs[b].dirty :: b in s.lh && t <= IndexOf(s.lh, b)
    ensures forall b | b in s.bufs && s.bufs[b].dirty && b != w.blockno :: t + 1 <= IndexOf(s.lh, b)
  {
  }

  lemma RecoverWriteRefines(c: Config, s: State)
    requires Inv(c, s) && s.phase.Recovering? && CanWrite(c, s)
    ensures var s' := DoWrite(s, Plan(c, s)[s.phase.k]);
            Inv(c, s') && Abs(c, s') == Abs(c, s)
  {
    hide Decode;
    hide HeaderFits;
    hide Durable;
    hide HomeImage;
    hide RecoverWrites;
    hide Apply;
    var from, k := s.phase.from, s.phase.k;
    var plan := RecoverWrites(c, from);
    RecoverPrefix(c, from, k);
    RecoverPrefix(c, from, k + 1);
    assert plan[..k + 1] == plan[..k] + [plan[k]];
    ApplySnoc(from, plan[..k], plan[k]);
  }

  lemma FinishRefines(c: Config, s: State)
    requires Inv(c, s) && CanFinish(c, s)
    ensures Inv(c, DoFinish(s)) && Abs(c, DoFinish(s)) == Abs(c, s)
  {
    hide Decode;
    hide HeaderFits;
    hide Durable;
    hide RecoverWrites;
    hide CommitWrites;
    hide Overlay;
    hide Apply;
    var s' := DoFinish(s);
    if s.phase.Committing? {
      CommitPrefix(c, s.phase.from, s.lh, s.phase.data, s.phase.k);
    } else {
      RecoverPrefix(c, s.phase.from, s.phase.k);
      assert View(c, s') == HomeImage(c, s.disk);
    }
    assert View(c, s') == View(c, s);
  }

  ghost predicate Good(c: Config, s: State) {
    Inv(c, s) && Reserved(s)
  }

  /** No operation is open and no commit or recovery under way. */
  ghost predicate Quiet(s: State) { s.phase.Idle? && s.ops == map[] }

  /** When nothing is open, all that readers see is on the disk for good. */
  lemma QuietIsDurable(c: Config, s: State)
    requires Good(c, s) && Quiet(s)
    ensures Abs(c, s).open == 0 && Abs(c, s).committed == Abs(c, s).current
  {
    hide Decode;
    hide HeaderFits;
    assert View(c, s) == HomeImage(c, s.disk);
  }

  /** A log at rest lets an operation begin. */
  lemma QuietLetsIn(c: Config, s: State, id: nat)
    requires Good(c, s) && Quiet(s)
    ensures Enabled(c, s, Begin(id))
  {
    hide Decode;
    hide HeaderFits;
  }

  /** No operation is stopped: it may write any home block, unless the log looks full, and end;
      its log_write goes on if the block is known or its reservation is not spent. */
  lemma OpsGoOn(c: Config, s: State, id: nat, b: word, data: Block)
    requires Good(c, s) && s.phase.Idle? && id in s.ops && c.Home(b)
    ensures s.ops[id].Running? ==> Enabled(c, s, Check(id, b, data)) && Enabled(c, s, End(id))
    ensures s.ops[id].Checked? && (s.ops[id].blockno in s.lh || s.ops[id].left > 0) ==> Enabled(c, s, Append(id))
  {
    hide Decode;
    hide HeaderFits;
    hide IdleOk;
    forall t | 0 <= t < |s.lh| ensures s.lh[t] < |s.disk| {
      assert c.Home(s.lh[t]);
    }
  }

  /** A commit or recovery under way has its next write at hand, or is done. */
  lemma WritesGoOn(c: Config, s: State)
    requires Good(c, s) && (s.phase.Committing? || s.phase.Recovering?)
    ensures CanPlan(c, s) && s.phase.k <= |Plan(c, s)|
    ensures if s.phase.k < |Plan(c, s)| then Enabled(c, s, DiskWrite) else Enabled(c, s, Finish)
  {
    hide Decode;
    hide HeaderFits;
    hide Apply;
    hide CommitWrites;
    hide RecoverWrites;
    hide Durable;
    hide Overlay;
    hide HomeImage;
    var k, plan := s.phase.k, Plan(c, s);
    if k < |plan| {
      if s.phase.Committing? {
        CommitPrefix(c, s.phase.from, s.lh, s.phase.data, k + 1);
      } else {
        RecoverPrefix(c, s.phase.from, k + 1);
      }
      assert plan[..k + 1][k] == plan[k];
    }
  }

  /** Every event of the log machine is answered by a move of the atomic disk. */
  lemma StepRefines(c: Config, s: State, e: Event)
    requires Good(c, s) && Enabled(c, s, e) && Fits(c, Step(c, s, e))
    ensures Good(c, Step(c, s, e))
    ensures Moves(Abs(c, s), MoveOf(c, s, e), Abs(c, Step(c, s, e)))
  {
    hide Decode;
    hide HeaderFits;
    hide Durable;
    hide View;
    hide IdleOk;
    hide CommittingOk;
    hide RecoveringOk;
    hide DiskOk;
    hide Plan;
    hide CanPlan;
    ReservedStep(c, s, e);
    match e
    case Begin(id) => BeginRefines(c, s, id);
    case Check(id, b, data) => CheckRefines(c, s, id, b, data);
    case Append(id) => AppendRefines(c, s, id);
    case End(id) => EndRefines(c, s, id);
    case DiskWrite =>
      if s.phase.Committing? { CommitWriteRefines(c, s); } else { RecoverWriteRefines(c, s); }
    case Finish => FinishRefines(c, s);
    case Load(b) => LoadRefines(c, s, b);
    case Evict(b) => EvictRefines(c, s, b);
    case Crash =>
    case ReadHead => ReadHeadRefines(c, s);
  }
}
