/** The loops of log.c.  Each method is proved to issue exactly the disk writes
    that the crash lemmas and the log machine speak about. */
module LogCode {
  import opened Blocks
  import opened Log
  import opened LogCrash
  import LogMachine

  type Buf = LogMachine.Buf

  class Logger {
    const c: Config
    var disk: Disk
    var bufs: map<nat, Buf>
    var n: nat                 // log.lh.n
    const block: array<word>   // log.lh.block
    ghost var trace: seq<Write> // every disk write so far, oldest first

    /** initlog: nothing is cached and nothing is logged. */
    constructor (c: Config, disk: Disk)
      requires c.Valid() && |disk| == c.nblocks
      ensures Valid() && fresh(block)
      ensures this.c == c && this.disk == disk && bufs == map[] && n == 0 && trace == []
    {
      this.c := c;
      this.disk := disk;
      bufs := map[];
      n := 0;
      block := new word[LOGSIZE];
      trace := [];
    }

    ghost predicate Valid()
      reads this, block
    {
      && c.Valid()
      && |disk| == c.nblocks
      && block.Length == LOGSIZE
      && n <= LOGSIZE
      && forall b | b in bufs :: b < |disk| && (bufs[b].dirty ==> c.Home(b))
                                 && (!bufs[b].dirty ==> bufs[b].data == disk[b])
    }

    /** The logged block numbers fit the log area and are distinct home blocks. */
    ghost predicate Loggable()
      reads this, block
      requires Valid()
    {
      LoggableList(c, block[..n])
    }

    function Contents(b: nat): Block
      reads this
      requires b < |disk|
    {
      if b in bufs then bufs[b].data else disk[b]
    }

    /** `data` is what the cache holds for the logged blocks. */
    ghost predicate Holds(data: seq<Block>)
      reads this, block
      requires Valid()
    {
      |data| == n && forall t | 0 <= t < n :: block[t] < |disk| && Contents(block[t]) == data[t]
    }

    /** bread followed by brelse: a buffer for b holds its contents. */
    method Bread(b: nat) returns (data: Block)
      requires Valid() && b < |disk|
      modifies this`bufs
      ensures Valid() && data == Contents(b)
      ensures forall x | 0 <= x < |disk| :: Contents(x) == old(Contents(x))
      ensures forall x :: x in bufs && bufs[x].dirty <==> old(x in bufs && bufs[x].dirty)
    {
      if b !in bufs {
        bufs := bufs[b := LogMachine.Buf(disk[b], false)];
      }
      data := bufs[b].data;
    }

    /** bwrite: the buffer goes to disk and is clean afterwards. */
    method Bwrite(b: nat, data: Block)
      requires Valid() && b < |disk|
      modifies this`disk, this`bufs, this`trace
      ensures Valid()
      ensures disk == old(disk)[b := data]
      ensures bufs == old(bufs)[b := LogMachine.Buf(data, false)]
      ensures trace == old(trace) + [Write(b, data)]
    {
      bufs := bufs[b := LogMachine.Buf(data, false)];
      disk := disk[b := data];
      trace := trace + [Write(b, data)];
    }

    method WriteHead()
      requires Valid()
      modifies this`disk, this`bufs, this`trace
      ensures Valid()
      ensures disk == old(disk)[c.start := EncodeOver(old(disk)[c.start], block[..n])]
      ensures trace == old(trace) + [Write(c.start, EncodeOver(old(disk)[c.start], block[..n]))]
      ensures forall x | 0 <= x < |disk| && x != c.start :: Contents(x) == old(Contents(x))
      ensures forall x | c.Home(x) :: (x in bufs && bufs[x].dirty) == old(x in bufs && bufs[x].dirty)
    {
      hide GetWord;
      hide PutWord;
      var hb := Bread(c.start);
      assert hb == disk[c.start];
      hb := PutWord(hb, 0, n);
      var i := 0;
      while i < n
        invariant 0 <= i <= n
        invariant hb == PutWords(PutWord(old(disk)[c.start], 0, n), 1, block[..i])
      {
        assert block[..i + 1][..i] == block[..i];
        hb := PutWord(hb, 1 + i, block[i]);
        i := i + 1;
      }
      Bwrite(c.start, hb);
    }

    method ReadHead()
      requires Valid() && HeaderFits(disk[c.start])
      modifies this`bufs, this`n, block
      ensures Valid()
      ensures block[..n] == Decode(disk[c.start])
      ensures forall x | 0 <= x < |disk| :: Contents(x) == old(Contents(x))
      ensures forall x :: x in bufs && bufs[x].dirty <==> old(x in bufs && bufs[x].dirty)
    {
      hide GetWord;
      hide PutWord;
      var lh := Bread(c.start);
      assert lh == disk[c.start];
      n := GetWord(lh, 0);
      var i := 0;
      while i < n
        invariant 0 <= i <= n <= LOGSIZE && n == GetWord(lh, 0)
        invariant Valid()
        invariant forall j | 0 <= j < i :: block[j] == GetWord(lh, 1 + j)
        modifies block
      {
        block[i] := GetWord(lh, 1 + i);
        i := i + 1;
      }
    }

    /** One turn of write_log: block b's contents go to a block of the log. */
    method CopyToLog(slot: nat, b: nat)
      requires Valid() && c.start < slot < c.start + c.size && b < |disk|
      modifies this`disk, this`bufs, this`trace
      ensures Valid() && trace == old(trace) + [Write(slot, old(Contents(b)))]
              && disk == old(disk)[slot := old(Contents(b))]
      ensures forall x | c.Home(x) :: Contents(x) == old(Contents(x))
      ensures forall x | c.Home(x) :: (x in bufs && bufs[x].dirty) == old(x in bufs && bufs[x].dirty)
    {
      var to := Bread(slot);
      var from := Bread(b);
      Bwrite(slot, from);
    }

    method WriteLog(ghost data: seq<Block>)
      requires Valid() && Loggable() && Holds(data)
      modifies this`disk, this`bufs, this`trace
      ensures Valid()
      ensures trace == old(trace) + LogWrites(c, data)
      ensures InRange(LogWrites(c, data), |old(disk)|) && disk == Apply(old(disk), LogWrites(c, data))
      ensures forall x | c.Home(x) :: Contents(x) == old(Contents(x))
      ensures forall x | c.Home(x) :: (x in bufs && bufs[x].dirty) == old(x in bufs && bufs[x].dirty)
    {
      hide Apply;
      hide GetWord;
      hide Decode;
      hide EncodeOver;
      ghost var ws := LogWrites(c, data);
      ApplyNone(disk);
      var tail := 0;
      while tail < n
        invariant 0 <= tail <= n
        invariant Valid()
        invariant trace == old(trace) + ws[..tail]
        invariant InRange(ws[..tail], |old(disk)|) && disk == Apply(old(disk), ws[..tail])
        invariant forall x | c.Home(x) :: Contents(x) == old(Contents(x))
        invariant forall x | c.Home(x) :: (x in bufs && bufs[x].dirty) == old(x in bufs && bufs[x].dirty)
      {
        assert block[..n][tail] in block[..n];
        CopyToLog(c.start + tail + 1, block[tail]);
        assert ws[..tail + 1] == ws[..tail] + [Write(c.start + tail + 1, data[tail])];
        ApplySnoc(old(disk), ws[..tail], Write(c.start + tail + 1, data[tail]));
        tail := tail + 1;
      }
      assert ws[..n] == ws;
    }

    /** install_trans: every logged block goes home and its buffer becomes clean. */
    method InstallTrans()
      requires Valid() && Loggable()
      modifies this`disk, this`bufs, this`trace
      ensures Valid()
      ensures var ws := InstallWrites(block[..n], Slots(c, old(disk), n));
              && trace == old(trace) + ws
              && InRange(ws, |old(disk)|) && disk == Apply(old(disk), ws)
      ensures forall x | x in bufs && bufs[x].dirty :: old(x in bufs && bufs[x].dirty) && x !in block[..n]
    {
      hide Apply;
      hide GetWord;
      hide Decode;
      hide EncodeOver;
      ghost var data := Slots(c, disk, n);
      ApplyNone(disk);
      ghost var ws := InstallWrites(block[..n], data);
      var tail := 0;
      while tail < n
        invariant 0 <= tail <= n
        invariant Valid()
        invariant trace == old(trace) + ws[..tail]
        invariant InRange(ws[..tail], |old(disk)|) && disk == Apply(old(disk), ws[..tail])
        invariant forall x | c.start <= x < c.start + c.size :: disk[x] == old(disk)[x]
        invariant forall x | x in bufs && bufs[x].dirty :: old(x in bufs && bufs[x].dirty) && x !in block[..tail]
      {
        assert block[..n][tail] in block[..n];
        var lbuf := Bread(c.start + tail + 1);
        assert lbuf == data[tail];
        var dbuf := Bread(block[tail]);
        Bwrite(block[tail], lbuf);
        assert ws[..tail + 1] == ws[..tail] + [Write(block[tail], lbuf)];
        ApplySnoc(old(disk), ws[..tail], Write(block[tail], lbuf));
        tail := tail + 1;
      }
      assert ws[..n] == ws;
    }

    /** commit: its disk writes, in order, are those of CommitWrites, and when it
        returns no buffer of the transaction is dirty. */
    method Commit(ghost data: seq<Block>)
      requires Valid() && Loggable() && Holds(data)
      modifies this`disk, this`bufs, this`trace, this`n
      ensures Valid() && n == 0
      ensures var lh := block[..old(n)];
              if lh == [] then trace == old(trace) && disk == old(disk)
              else
                && trace == old(trace) + CommitWrites(c, old(disk), lh, data)
                && InRange(CommitWrites(c, old(disk), lh, data), |old(disk)|)
                && disk == Apply(old(disk), CommitWrites(c, old(disk), lh, data))
                && forall x | x in bufs && bufs[x].dirty :: old(x in bufs && bufs[x].dirty) && x !in lh
    {
      if n > 0 {
        hide Apply;
        hide EncodeOver;
        hide GetWord;
        hide Decode;
        hide InRange;
        hide CommitWrites;
        hide LogWrites;
        hide InstallWrites;
        hide Slots;
        ghost var lh, d0 := block[..n], disk;
        CommitStages(c, d0, lh, data);
        WriteLog(data);
        WriteHead();
        InstallTrans();
        n := 0;
        assert block[..n] == [];
        WriteHead();
        ghost var full := EncodeOver(d0[c.start], lh);
        Concat5(old(trace), LogWrites(c, data), [Write(c.start, full)], InstallWrites(lh, data),
                [Write(c.start, EncodeOver(full, []))]);
      }
    }

    /** recover_from_log: its disk writes, in order, are those of RecoverWrites. */
    method RecoverFromLog()
      requires Valid() && DiskOk(c, disk)
      modifies this`disk, this`bufs, this`trace, this`n, block
      ensures Valid() && n == 0
      ensures trace == old(trace) + RecoverWrites(c, old(disk))
      ensures InRange(RecoverWrites(c, old(disk)), |old(disk)|)
      ensures disk == Apply(old(disk), RecoverWrites(c, old(disk)))
    {
      hide Apply;
      hide EncodeOver;
      hide GetWord;
      hide Decode;
      hide HeaderFits;
      ghost var d0 := disk;
      ghost var lh := Decode(d0[c.start]);
      ghost var ws := InstallWrites(lh, Slots(c, d0, |lh|));
      ReadHead();
      InstallTrans();
      InstallState(d0, lh, Slots(c, d0, |lh|), |lh|);
      assert ws[..|lh|] == ws;
      assert disk[c.start] == d0[c.start] by {
        var h: word := c.start;
        assert disk[h] == d0[h];
      }
      n := 0;
      assert block[..n] == [];
      WriteHead();
      ApplySnoc(d0, ws, Write(c.start, EncodeOver(d0[c.start], [])));
    }

    /** log_write: the panics are for a log that looks full, also if the block is listed
        already, and for no open operation; otherwise the block is pinned, and listed once. */
    method LogWrite(b: word, data: Block, outstanding: int) returns (ok: bool)
      requires Valid() && c.Home(b)
      modifies this`bufs, this`n, block
      ensures Valid()
      ensures ok <==> old(n) < LOGSIZE && old(n) < c.size - 1 && outstanding >= 1
      ensures !ok ==> n == old(n) && block[..] == old(block[..]) && bufs == old(bufs)
      ensures ok ==> block[..n] == if b in old(block[..n]) then old(block[..n]) else old(block[..n]) + [b]
      ensures ok ==> bufs == old(bufs)[b := LogMachine.Buf(data, true)]
    {
      if n >= LOGSIZE || n >= c.size - 1 || outstanding < 1 {
        return false;
      }
      var i := 0;
      while i < n && block[i] != b
        invariant 0 <= i <= n
        invariant b !in block[..i]
      {
        i := i + 1;
      }
      assert i < n ==> b == block[..n][i];
      assert i == n ==> block[..i] == block[..n];
      block[i] := b;
      if i == n {
        n := n + 1;
      }
      bufs := bufs[b := LogMachine.Buf(data, true)];
      return true;
    }
  }

  /** The disk after each stage of commit. */
  lemma CommitStages(c: Config, d0: Disk, lh: seq<word>, data: seq<Block>)
    requires c.Valid() && |d0| == c.nblocks && |lh| == |data| && LoggableList(c, lh)
    ensures InRange(LogWrites(c, data), |d0|)
    ensures var d1 := Apply(d0, LogWrites(c, data));
            var full := EncodeOver(d0[c.start], lh);
            var d2 := d1[c.start := full];
            && d1[c.start] == d0[c.start]
            && Slots(c, d2, |lh|) == data
            && InRange(InstallWrites(lh, data), |d0|)
            && var d3 := Apply(d2, InstallWrites(lh, data));
            && d3[c.start] == full
            && CommitWrites(c, d0, lh, data) == LogWrites(c, data) + [Write(c.start, full)]
                + InstallWrites(lh, data) + [Write(c.start, EncodeOver(full, []))]
            && InRange(CommitWrites(c, d0, lh, data), |d0|)
            && Apply(d0, CommitWrites(c, d0, lh, data)) == d3[c.start := EncodeOver(full, [])]
  {
    hide Apply;
    hide EncodeOver;
    hide GetWord;
    var n := |lh|;
    var full := EncodeOver(d0[c.start], lh);
    LogState(c, d0, data, n);
    assert LogWrites(c, data)[..n] == LogWrites(c, data);
    ApplySnoc(d0, LogWrites(c, data), Write(c.start, full));
    var head := LogWrites(c, data) + [Write(c.start, full)];
    var d2 := Apply(d0, head);
    InstallState(d2, lh, data, n);
    assert InstallWrites(lh, data)[..n] == InstallWrites(lh, data);
    ApplyConcat(d0, head, InstallWrites(lh, data));
    var d3 := Apply(d2, InstallWrites(lh, data));
    assert d3[c.start] == full by { var h: word := c.start; assert d3[h] == d2[h]; }
    ApplySnoc(d0, head + InstallWrites(lh, data), Write(c.start, EncodeOver(full, [])));
  }
}
