/** mkfs gives the log area LOGSIZE blocks, one of which is the header.  With an
    area that small the unlocked size test of log_write lets two operations pass
    together, and the log list outgrows its slots. */
module LogOverrun {
  import opened Common
  import opened Blocks
  import opened Log
  import opened LogMachine
  import opened LogRefinement
  import opened LogRuns

  /** The i-th home block: from the end of the disk down, then from its start up, and last of
      all the first block after the log area. */
  ghost function HomeNo(c: Config, i: nat): int {
    var up := Max(c.nblocks - c.start - c.size - 1, 0);
    if i < up then c.nblocks - 1 - i else if i - up < c.start then i - up else c.start + c.size
  }

  ghost function Max(a: int, b: int): int {
    if a < b then b else a
  }

  /** Three operations that between them have logged n home blocks. */
  ghost predicate Filled(c: Config, s: State, n: nat) {
    && s.phase.Idle? && |s.disk| == c.nblocks
    && |s.lh| == n
    && (forall i | 0 <= i < n :: s.lh[i] == HomeNo(c, i))
    && s.ops.Keys == {0, 1, 2}
    && s.ops[0] == Running(10 - Min(n, 9))
    && s.ops[1] == Running(10 - Min(Max(n - 9, 0), 9))
    && s.ops[2] == Running(10 - Min(Max(n - 18, 0), 10))
  }

  ghost predicate Roomy(c: Config) {
    c.Valid() && c.size + LOGSIZE <= c.nblocks
  }

  lemma Extend(c: Config, d: Disk, es: seq<Event>, e: Event)
    requires IsRun(c, d, es) && Enabled(c, After(c, Init(d), es), e)
    ensures IsRun(c, d, es + [e])
    ensures After(c, Init(d), es + [e]) == Step(c, After(c, Init(d), es), e)
  {
    assert (es + [e])[..|es|] == es;
  }

  lemma ZeroOk(c: Config, d: Disk)
    requires c.Valid() && |d| == c.nblocks && d[c.start] == ZeroBlock()
    ensures DiskOk(c, d) && Decode(d[c.start]) == []
  {
  }

  /** Boot on an empty log, then let three operations in. */
  lemma Open(c: Config, d: Disk) returns (es: seq<Event>)
    requires c.Valid() && DiskOk(c, d) && Decode(d[c.start]) == []
    ensures IsRun(c, d, es) && Filled(c, After(c, Init(d), es), 0)
  {
    hide Decode;
    hide HeaderFits;
    hide EncodeOver;
    es := [];
    Extend(c, d, es, ReadHead);
    es := es + [ReadHead];
    assert |RecoverWrites(c, d)| == 1;
    assert RecoverWrites(c, d)[0].blockno == c.start;
    Extend(c, d, es, DiskWrite);
    es := es + [DiskWrite];
    Extend(c, d, es, Finish);
    es := es + [Finish];
    var s := After(c, Init(d), es);
    assert s.ops == map[] && s.lh == [];
    es := LetIn(c, d, es);
  }

  lemma LetIn(c: Config, d: Disk, es0: seq<Event>) returns (es: seq<Event>)
    requires IsRun(c, d, es0)
    requires var s := After(c, Init(d), es0); s.phase.Idle? && s.ops == map[] && s.lh == [] && |s.disk| == c.nblocks
    ensures IsRun(c, d, es) && Filled(c, After(c, Init(d), es), 0)
  {
    hide After;
    hide CanRun;
    hide IsRun;
    Extend(c, d, es0, Begin(0));
    es := es0 + [Begin(0)];
    Extend(c, d, es, Begin(1));
    es := es + [Begin(1)];
    Extend(c, d, es, Begin(2));
    es := es + [Begin(2)];
  }

  /** One more log_write by operation id that passes the test and appends. */
  lemma LogOne(c: Config, d: Disk, es0: seq<Event>, id: nat, b: word) returns (es: seq<Event>)
    requires IsRun(c, d, es0) && c.Home(b)
    requires var s := After(c, Init(d), es0);
             && s.phase.Idle? && id in s.ops && s.ops[id].Running? && s.ops[id].left > 0
             && !LooksFull(c, s) && b !in s.lh
    ensures IsRun(c, d, es)
    ensures var s, s' := After(c, Init(d), es0), After(c, Init(d), es);
            && s'.phase.Idle? && s'.lh == s.lh + [b] && s'.disk == s.disk
            && s'.ops == s.ops[id := Running(s.ops[id].left - 1)]
  {
    var s := After(c, Init(d), es0);
    Extend(c, d, es0, Check(id, b, ZeroBlock()));
    es := es0 + [Check(id, b, ZeroBlock())];
    Extend(c, d, es, Append(id));
    es := es + [Append(id)];
    assert s.ops[id := Checked(s.ops[id].left, b, ZeroBlock())][id := Running(s.ops[id].left - 1)]
        == s.ops[id := Running(s.ops[id].left - 1)];
  }

  lemma HomeNoHome(c: Config, i: nat)
    requires Roomy(c) && i < LOGSIZE
    ensures c.Home(HomeNo(c, i)) && 0 <= HomeNo(c, i) < 0x1_0000_0000
    ensures forall j: nat | j != i && j < LOGSIZE :: HomeNo(c, j) != HomeNo(c, i)
    ensures i < c.nblocks - c.size - 1 ==> HomeNo(c, i) != c.start + c.size
  {
  }

  lemma {:induction false} Fill(c: Config, d: Disk, n: nat) returns (es: seq<Event>)
    requires Roomy(c) && DiskOk(c, d) && Decode(d[c.start]) == []
    requires n <= c.size - 2 && n + 2 <= LOGSIZE
    ensures IsRun(c, d, es) && Filled(c, After(c, Init(d), es), n)
    decreases n
  {
    hide After;
    hide CanRun;
    if n == 0 {
      es := Open(c, d);
    } else {
      es := Fill(c, d, n - 1);
      HomeNoHome(c, n - 1);
      var id := if n - 1 < 9 then 0 else if n - 1 < 18 then 1 else 2;
      es := LogOne(c, d, es, id, HomeNo(c, n - 1));
    }
  }

  /** A block that differs from the blocks of an empty disk. */
  ghost function Mark(): Block { ZeroBlock()[0 := 1] }

  /** Three operations have logged as many blocks as the log area has, header and all. */
  ghost predicate Overrun(c: Config, s: State) {
    && s.phase.Idle? && |s.disk| == c.nblocks && |s.lh| == c.size > 0
    && (forall i | 0 <= i < c.size :: s.lh[i] == HomeNo(c, i))
    && s.ops.Keys == {0, 1, 2} && (forall id | id in s.ops :: s.ops[id].Running?)
    && s.lh[c.size - 1] in s.bufs && s.bufs[s.lh[c.size - 1]].data == Mark()
  }

  /** Two operations pass the test one after the other, then both append. */
  lemma Race(c: Config, d: Disk, es0: seq<Event>) returns (es: seq<Event>)
    requires Roomy(c) && c.size <= LOGSIZE
    requires IsRun(c, d, es0) && Filled(c, After(c, Init(d), es0), c.size - 2)
    ensures IsRun(c, d, es) && Overrun(c, After(c, Init(d), es))
  {
    hide After;
    hide CanRun;
    hide HomeNo;
    var n := c.size - 2;
    var s := After(c, Init(d), es0);
    HomeNoHome(c, n);
    HomeNoHome(c, n + 1);
    var e0, e1 := Check(0, HomeNo(c, n), ZeroBlock()), Check(1, HomeNo(c, n + 1), Mark());
    BothChecked(c, s);
    BothAppended(c, s, Step(c, Step(c, s, e0), e1));
    hide Enabled;
    hide Step;
    hide Overrun;
    hide Mark;
    Extend(c, d, es0, e0);
    es := es0 + [e0];
    Extend(c, d, es, e1);
    es := es + [e1];
    Extend(c, d, es, Append(0));
    es := es + [Append(0)];
    Extend(c, d, es, Append(1));
    es := es + [Append(1)];
  }

  lemma BothChecked(c: Config, s: State)
    requires Roomy(c) && c.size <= LOGSIZE && Filled(c, s, c.size - 2)
    requires c.Home(HomeNo(c, c.size - 2)) && c.Home(HomeNo(c, c.size - 1))
    ensures var e0, e1 := Check(0, HomeNo(c, c.size - 2), ZeroBlock()), Check(1, HomeNo(c, c.size - 1), Mark());
            && Enabled(c, s, e0) && Enabled(c, Step(c, s, e0), e1)
            && BothIn(c, s, Step(c, Step(c, s, e0), e1))
  {
    hide HomeNo;
    hide Mark;
  }

  /** Operations 0 and 1 have passed the test with a new block each. */
  ghost predicate BothIn(c: Config, s: State, s2: State)
    requires c.Valid() && c.size <= LOGSIZE
  {
    && s2 == s.(ops := s2.ops) && s2.ops.Keys == {0, 1, 2} && s2.ops[2].Running?
    && c.Home(HomeNo(c, c.size - 2)) && c.Home(HomeNo(c, c.size - 1))
    && s2.ops[0].Checked? && s2.ops[0].left > 0 && s2.ops[0].blockno == HomeNo(c, c.size - 2)
    && s2.ops[1].Checked? && s2.ops[1].left > 0 && s2.ops[1].blockno == HomeNo(c, c.size - 1)
       && s2.ops[1].data == Mark()
  }

  lemma BothAppended(c: Config, s: State, s2: State)
    requires Roomy(c) && c.size <= LOGSIZE && Filled(c, s, c.size - 2) && BothIn(c, s, s2)
    ensures Enabled(c, s2, Append(0)) && Enabled(c, Step(c, s2, Append(0)), Append(1))
    ensures Overrun(c, Step(c, Step(c, s2, Append(0)), Append(1)))
  {
    HomeNoHome(c, c.size - 2);
    HomeNoHome(c, c.size - 1);
    hide HomeNo;
    hide Mark;
    var n := c.size - 2;
    assert forall i | 0 <= i < n :: s.lh[i] != HomeNo(c, n) && s.lh[i] != HomeNo(c, n + 1);
    assert s2.ops[0].blockno !in s2.lh && s2.ops[1].blockno !in s2.lh;
  }

  /** Some run, in which every operation keeps to its reservation, overruns a log
      area of LOGSIZE blocks or fewer. */
  lemma SmallLogOverruns(c: Config) returns (d: Disk, es: seq<Event>)
    requires Roomy(c) && c.size <= LOGSIZE
    ensures IsRun(c, d, es)
    ensures !Fits(c, At(c, d, es, |es|))
    ensures forall data: seq<Block> | |data| == |At(c, d, es, |es|).lh| ::
              LogWrites(c, data)[c.size - 1].blockno == c.start + c.size
  {
    d := seq(c.nblocks, _ => ZeroBlock());
    ZeroOk(c, d);
    es := Fill(c, d, c.size - 2);
    es := Race(c, d, es);
    assert es[..|es|] == es;
  }

  /** The three operations end, and the last one starts the commit. */
  lemma EndAll(c: Config, d: Disk, es0: seq<Event>) returns (es: seq<Event>)
    requires Roomy(c) && c.size <= LOGSIZE && IsRun(c, d, es0) && Overrun(c, After(c, Init(d), es0))
    ensures IsRun(c, d, es)
    ensures var s, s' := After(c, Init(d), es0), After(c, Init(d), es); WritingLog(c, s', s.lh, 0)
  {
    hide After;
    hide CanRun;
    hide Enabled;
    hide Step;
    hide HomeNo;
    var s := After(c, Init(d), es0);
    assert s.ops.Keys == {1, 2} + {0};
    EndOne(c, s, s, 0, {1, 2});
    Extend(c, d, es0, End(0));
    es := es0 + [End(0)];
    EndOne(c, s, After(c, Init(d), es), 1, {2});
    Extend(c, d, es, End(1));
    es := es + [End(1)];
    EndOne(c, s, After(c, Init(d), es), 2, {});
    Extend(c, d, es, End(2));
    es := es + [End(2)];
  }

  /** One of the operations ends, and those in `left` go on. */
  lemma EndOne(c: Config, s0: State, s: State, id: nat, left: set<nat>)
    requires Roomy(c) && c.size <= LOGSIZE && Overrun(c, s0)
    requires s == s0.(ops := s.ops) && s.ops.Keys == left + {id} && id !in left
    requires forall x | x in s.ops :: s.ops[x].Running?
    ensures Enabled(c, s, End(id))
    ensures var s' := Step(c, s, End(id));
            if left == {} then WritingLog(c, s', s0.lh, 0)
            else s' == s0.(ops := s'.ops) && s'.ops.Keys == left && forall x | x in s'.ops :: s'.ops[x].Running?
  {
    forall t | 0 <= t < |s.lh| ensures s.lh[t] < |s.disk| {
      HomeNoHome(c, t);
    }
    hide HomeNo;
    hide Mark;
    assert |s.ops| == |s.ops.Keys| == |left| + 1;
    assert (s.ops - {id}).Keys == left;
  }

  /** Commit has written k log blocks. */
  ghost predicate WritingLog(c: Config, s: State, lh: seq<word>, k: nat) {
    && s.lh == lh && |lh| == c.size > 0 && |s.disk| == c.nblocks
    && s.phase.Committing? && s.phase.k == k && |s.phase.from| == c.nblocks
    && |s.phase.data| == c.size && s.phase.data[c.size - 1] == Mark()
  }

  lemma {:induction false} WriteBlocks(c: Config, d: Disk, es0: seq<Event>, lh: seq<word>,
                                       k: nat) returns (es: seq<Event>)
    requires c.Valid() && c.size <= LOGSIZE && c.start + c.size < c.nblocks && k <= c.size
    requires IsRun(c, d, es0) && WritingLog(c, After(c, Init(d), es0), lh, 0)
    ensures IsRun(c, d, es) && WritingLog(c, After(c, Init(d), es), lh, k)
    ensures |After(c, Init(d), es).disk| == c.nblocks
    ensures k == c.size ==> After(c, Init(d), es).disk[c.start + c.size] == Mark()
    decreases k
  {
    hide After;
    hide CanRun;
    hide Enabled;
    hide Step;
    hide WritingLog;
    hide Mark;
    if k == 0 {
      es := es0;
      WriterDisk(c, After(c, Init(d), es0), lh);
    } else {
      es := WriteBlocks(c, d, es0, lh, k - 1);
      WriteOne(c, After(c, Init(d), es), lh, k - 1);
      Extend(c, d, es, DiskWrite);
      es := es + [DiskWrite];
    }
  }

  lemma WriterDisk(c: Config, s: State, lh: seq<word>)
    requires WritingLog(c, s, lh, 0)
    ensures |s.disk| == c.nblocks && c.size > 0
  {
  }

  lemma WriteOne(c: Config, s: State, lh: seq<word>, k: nat)
    requires c.Valid() && c.size <= LOGSIZE && c.start + c.size < c.nblocks && k < c.size && WritingLog(c, s, lh, k)
    ensures Enabled(c, s, DiskWrite)
    ensures var s' := Step(c, s, DiskWrite);
            && WritingLog(c, s', lh, k + 1)
            && |s'.disk| == c.nblocks && (k + 1 == c.size ==> s'.disk[c.start + c.size] == Mark())
  {
    hide EncodeOver;
    hide Mark;
    assert CommitWrites(c, s.phase.from, s.lh, s.phase.data)[k] == LogWrites(c, s.phase.data)[k];
    hide CommitWrites;
  }

  /** Carried on into the commit, that run changes on the disk the first block after the log
      area, which no operation has logged. */
  lemma SmallLogCorrupts(c: Config) returns (d: Disk, es: seq<Event>)
    requires c.Valid() && c.size <= LOGSIZE && c.start + c.size < c.nblocks && c.size + LOGSIZE < c.nblocks
    ensures IsRun(c, d, es)
    ensures var s, b := At(c, d, es, |es|), c.start + c.size;
            b !in s.lh && b < |s.disk| == |d| && s.disk[b] != d[b]
  {
    d := seq(c.nblocks, _ => ZeroBlock());
    assert DiskOk(c, d) && Decode(d[c.start]) == [] by { ZeroOk(c, d); }
    hide After;
    hide CanRun;
    es := Fill(c, d, c.size - 2);
    es := Race(c, d, es);
    var lh := After(c, Init(d), es).lh;
    forall i | 0 <= i < |lh| ensures lh[i] != c.start + c.size {
      HomeNoHome(c, i);
    }
    es := EndAll(c, d, es);
    es := WriteBlocks(c, d, es, lh, c.size);
    assert es[..|es|] == es;
    assert Mark()[0] != ZeroBlock()[0];
  }

  ghost predicate NeverOverruns(c: Config) {
    forall d: Disk, es: seq<Event> | IsRun(c, d, es) :: FitsThroughout(c, d, es)
  }

  /** The exact condition: no run overruns the log area if and only if the area has
      a slot for each of LOGSIZE blocks beside the header. */
  lemma OverrunIff(c: Config)
    requires Roomy(c)
    ensures NeverOverruns(c) <==> c.size > LOGSIZE
  {
    if c.size > LOGSIZE {
      forall d: Disk, es: seq<Event> | IsRun(c, d, es) ensures FitsThroughout(c, d, es) {
        BigLogFits(c, d, es, |es|);
      }
    } else {
      var d, es := SmallLogOverruns(c);
      assert !FitsThroughout(c, d, es);
    }
  }
}
