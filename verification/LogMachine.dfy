/** Group commit as a state machine: any number of file-system operations run
    begin_op / log_write / end_op in any interleaving, the last end_op commits
    one disk write at a time, clean buffers come and go, and the machine may
    crash at any point.  The machine refines an atomic transactional disk. */
module LogMachine {
  import opened Blocks
  import opened Log

  datatype Buf = Buf(data: Block, dirty: bool)

  /** An operation between begin_op and end_op.  `left` is how many new block
      numbers it may still add to the log; `Checked` is inside log_write, after
      the unlocked size test and before the lock is taken. */
  datatype Op = Running(left: nat) | Checked(left: nat, blockno: word, data: Block)

  datatype Phase =
    | Boot                                              // initlog has not read the header yet
    | Recovering(from: Disk, k: nat)                    // k writes of recover_from_log done
    | Idle
    | Committing(from: Disk, data: seq<Block>, k: nat)  // k writes of commit done
    | Halted                                            // panic

  datatype State = State(
    disk: Disk,
    bufs: map<nat, Buf>,
    lh: seq<word>,
    ops: map<nat, Op>,
    phase: Phase)

  datatype Event =
    | Begin(id: nat)
    | Check(id: nat, blockno: word, data: Block)
    | Append(id: nat)
    | End(id: nat)
    | DiskWrite
    | Finish
    | Load(b: nat)
    | Evict(b: nat)
    | Crash
    | ReadHead

  ghost function Init(d: Disk): State {
    State(d, map[], [], map[], Boot)
  }

  /** The contents bread would return. */
  ghost function Bread(s: State, b: nat): Block
    requires b < |s.disk|
  {
    if b in s.bufs then s.bufs[b].data else s.disk[b]
  }

  ghost function Cached(s: State): (data: seq<Block>)
    requires forall t | 0 <= t < |s.lh| :: s.lh[t] < |s.disk|
    ensures |data| == |s.lh|
  {
    seq(|s.lh|, t requires 0 <= t < |s.lh| => Bread(s, s.lh[t]))
  }

  /** The writes of the commit or recovery in progress. */
  ghost function Plan(c: Config, s: State): seq<Write>
    requires s.phase.Recovering? ==> HeaderReadable(c, s.phase.from)
    requires s.phase.Committing? ==> c.start < |s.phase.from| && |s.phase.data| == |s.lh| <= LOGSIZE
  {
    match s.phase
    case Recovering(from, k) => RecoverWrites(c, from)
    case Committing(from, data, k) => CommitWrites(c, from, s.lh, data)
    case _ => []
  }

  ghost predicate CanPlan(c: Config, s: State) {
    && (s.phase.Recovering? ==> HeaderReadable(c, s.phase.from))
    && (s.phase.Committing? ==> c.start < |s.phase.from| && |s.phase.data| == |s.lh| <= LOGSIZE)
  }

  /** log_write's unlocked test (log.c:218): the log looks full. */
  ghost predicate LooksFull(c: Config, s: State) {
    |s.lh| >= LOGSIZE || |s.lh| >= c.size - 1
  }

  // begin_op (log.c:126-141): the wait loop lets an operation in when no commit
  // runs and the log has room for every open operation and this one.

  ghost predicate CanBegin(s: State, id: nat) {
    s.phase.Idle? && id !in s.ops && |s.lh| + (|s.ops| + 1) * MAXOPBLOCKS <= LOGSIZE
  }

  ghost function DoBegin(s: State, id: nat): State {
    s.(ops := s.ops[id := Running(MAXOPBLOCKS)])
  }

  // log_write (log.c:214-233): the size test runs before the lock is taken.

  ghost predicate CanCheck(c: Config, s: State, id: nat, b: word) {
    s.phase.Idle? && id in s.ops && s.ops[id].Running? && c.Home(b)
  }

  ghost function DoCheck(c: Config, s: State, id: nat, b: word, data: Block): State
    requires id in s.ops
  {
    if LooksFull(c, s) then s.(phase := Halted)
    else s.(ops := s.ops[id := Checked(s.ops[id].left, b, data)])
  }

  ghost predicate CanAppend(s: State, id: nat) {
    && s.phase.Idle? && id in s.ops && s.ops[id].Checked?
    && (s.ops[id].blockno !in s.lh ==> s.ops[id].left > 0)  // an operation keeps to its reservation
  }

  ghost function DoAppend(s: State, id: nat): State
    requires CanAppend(s, id)
  {
    var op := s.ops[id];
    var isNew := op.blockno !in s.lh;
    s.(lh := if isNew then s.lh + [op.blockno] else s.lh,
       bufs := s.bufs[op.blockno := Buf(op.data, true)],
       ops := s.ops[id := Running(if isNew then op.left - 1 else op.left)])
  }

  // end_op (log.c:146-174): the last operation out starts the commit.

  ghost predicate CanEnd(c: Config, s: State, id: nat) {
    && s.phase.Idle? && id in s.ops && s.ops[id].Running?
    && c.start < |s.disk| && |s.lh| <= LOGSIZE
    && (forall t | 0 <= t < |s.lh| :: s.lh[t] < |s.disk|)
  }

  ghost function DoEnd(c: Config, s: State, id: nat): State
    requires CanEnd(c, s, id)
  {
    if |s.ops| > 1 || s.lh == [] then s.(ops := s.ops - {id})
    else s.(ops := s.ops - {id}, phase := Committing(s.disk, Cached(s), 0))
  }

  // One bwrite of commit or of recover_from_log.

  ghost predicate CanWrite(c: Config, s: State) {
    && (s.phase.Recovering? || s.phase.Committing?) && CanPlan(c, s)
    && s.phase.k < |Plan(c, s)| && Plan(c, s)[s.phase.k].blockno < |s.disk|
  }

  ghost function DoWrite(s: State, w: Write): State
    requires (s.phase.Recovering? || s.phase.Committing?) && w.blockno < |s.disk|
  {
    s.(disk := s.disk[w.blockno := w.data],
       bufs := s.bufs[w.blockno := Buf(w.data, false)],
       phase := s.phase.(k := s.phase.k + 1))
  }

  ghost predicate CanFinish(c: Config, s: State) {
    (s.phase.Recovering? || s.phase.Committing?) && CanPlan(c, s) && s.phase.k == |Plan(c, s)|
  }

  ghost function DoFinish(s: State): State {
    s.(lh := [], phase := Idle)
  }

  // The buffer cache loads any block and evicts any buffer that is not dirty.

  ghost predicate CanLoad(s: State, b: nat) {
    !s.phase.Halted? && !s.phase.Boot? && b < |s.disk| && b !in s.bufs
  }

  ghost function DoLoad(s: State, b: nat): State
    requires b < |s.disk|
  {
    s.(bufs := s.bufs[b := Buf(s.disk[b], false)])
  }

  ghost predicate CanEvict(s: State, b: nat) {
    !s.phase.Halted? && b in s.bufs && !s.bufs[b].dirty
  }

  ghost function DoEvict(s: State, b: nat): State {
    s.(bufs := s.bufs - {b})
  }

  ghost predicate CanReadHead(c: Config, s: State) {
    s.phase.Boot? && HeaderReadable(c, s.disk)
  }

  ghost function DoReadHead(c: Config, s: State): State
    requires HeaderReadable(c, s.disk)
  {
    s.(lh := Decode(s.disk[c.start]), phase := Recovering(s.disk, 0))
  }

  ghost predicate Enabled(c: Config, s: State, e: Event) {
    match e
    case Begin(id) => CanBegin(s, id)
    case Check(id, b, data) => CanCheck(c, s, id, b)
    case Append(id) => CanAppend(s, id)
    case End(id) => CanEnd(c, s, id)
    case DiskWrite => CanWrite(c, s)
    case Finish => CanFinish(c, s)
    case Load(b) => CanLoad(s, b)
    case Evict(b) => CanEvict(s, b)
    case Crash => true
    case ReadHead => CanReadHead(c, s)
  }

  ghost function Step(c: Config, s: State, e: Event): State
    requires Enabled(c, s, e)
  {
    match e
    case Begin(id) => DoBegin(s, id)
    case Check(id, b, data) => DoCheck(c, s, id, b, data)
    case Append(id) => DoAppend(s, id)
    case End(id) => DoEnd(c, s, id)
    case DiskWrite => DoWrite(s, Plan(c, s)[s.phase.k])
    case Finish => DoFinish(s)
    case Load(b) => DoLoad(s, b)
    case Evict(b) => DoEvict(s, b)
    case Crash => Init(s.disk)
    case ReadHead => DoReadHead(c, s)
  }

  // ------------------------------------------------------------------ runs

  ghost predicate CanRun(c: Config, s: State, es: seq<Event>)
    decreases |es|, 0
  {
    es == [] ||
    var n := |es| - 1;
    CanRun(c, s, es[..n]) && Enabled(c, After(c, s, es[..n]), es[n])
  }

  ghost function After(c: Config, s: State, es: seq<Event>): State
    requires CanRun(c, s, es)
    decreases |es|, 1
  {
    if es == [] then s
    else var n := |es| - 1; Step(c, After(c, s, es[..n]), es[n])
  }

  lemma {:induction false} CanRunPrefix(c: Config, s: State, es: seq<Event>, i: nat)
    requires CanRun(c, s, es) && i <= |es|
    ensures CanRun(c, s, es[..i])
    decreases |es|
  {
    if i == |es| {
      assert es[..i] == es;
    } else {
      var n := |es| - 1;
      CanRunPrefix(c, s, es[..n], i);
      assert es[..n][..i] == es[..i];
    }
  }
}
