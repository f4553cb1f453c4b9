/** filewrite (file.c): a write is cut into chunks, one transaction each. */
module FileCode {
  import opened Common
  import opened Blocks
  import opened FsLayout
  import opened FsModel
  import opened FsAbs
  import opened FsSpace
  import opened FsCode
  import Log

  /** An open inode file: struct file with type FD_INODE. */
  class File {
    const ip: Inode
    var off: word
    const writable: bool

    constructor (ip: Inode, writable: bool)
      ensures this.ip == ip && this.writable == writable && off == 0
    {
      this.ip := ip;
      this.writable := writable;
      off := 0;
    }
  }

  const CHUNK := (Log.MAXOPBLOCKS - 1 - 1 - 2) / 2 * 512

  /** A chunk touches at most four blocks of the file, and four only when it starts inside
      one, so it logs at most MAXOPBLOCKS blocks. */
  lemma ChunkFitsLog(off: nat, n: nat)
    requires n <= CHUNK
    ensures LogBound(off, n) <= Log.MAXOPBLOCKS
  {
    assert (off + n - 1) / BSIZE <= off / BSIZE + 3;
    if off % BSIZE == 0 && n > 0 {
      assert (off + n - 1) / BSIZE <= off / BSIZE + 2;
    }
  }

  lemma SpliceTwice(c: seq<byte>, off: nat, a: seq<byte>, b: seq<byte>)
    requires off <= |c|
    ensures off + |a| <= |Splice(c, off, a)|
    ensures Splice(Splice(c, off, a), off + |a|, b) == Splice(c, off, a + b)
  {
  }

  /** The result of filewrite: all bytes written, the error return, or a panic. */
  datatype Outcome = Wrote(n: nat) | Failed | Panicked

  ghost predicate WithinLog(txns: seq<set<nat>>) {
    forall t | 0 <= t < |txns| :: |txns[t]| <= Log.MAXOPBLOCKS
  }

  /** The file holds what it held before with the first `done` bytes of src at off. */
  ghost predicate Progress(before: seq<byte>, now: seq<byte>, off: nat, src: seq<byte>, done: nat) {
    && done <= |src|
    && if done == 0 then now == before
       else off <= |before| && now == Splice(before, off, src[..done])
  }

  lemma ProgressMore(c0: seq<byte>, c1: seq<byte>, c2: seq<byte>, off: nat, src: seq<byte>, done: nat, n1: nat)
    requires Progress(c0, c1, off, src, done) && 0 < n1 && done + n1 <= |src|
    requires off + done <= |c1| && c2 == Splice(c1, off + done, src[done..done + n1])
    ensures Progress(c0, c2, off, src, done + n1)
  {
    assert src[..done] + src[done..done + n1] == src[..done + n1];
    if done == 0 {
      assert src[done..done + n1] == src[..done + n1];
    } else {
      SpliceTwice(c0, off, src[..done], src[done..done + n1]);
    }
  }

  ghost predicate HasDriver(fs: FileSystem, di: Dinode) {
    0 <= di.major < NDEV && di.major in fs.writers
  }

  /** One transaction of filewrite: writei's outcome and the number it returns.  On a device
      that number is the driver's answer, and the offset wraps. */
  method WriteChunk(fs: FileSystem, f: File, part: seq<byte>, answer: int) returns (w: Io, r: int)
    requires fs.Locked(f.ip) && 0 < |part| <= CHUNK
    modifies fs, f.ip, f
    ensures w.Moved? ==>
              && fs.Locked(f.ip) && f.ip.di.kind != T_DEV && r == |part| && f.off == old(f.off) + |part|
              && old(f.off) <= |old(Content(fs.View(f.ip), f.ip.inum))|
              && Content(fs.View(f.ip), f.ip.inum) == Splice(old(Content(fs.View(f.ip), f.ip.inum)), old(f.off), part)
              && Filled(old(fs.View(f.ip)), fs.View(f.ip), f.ip.inum, old(f.off), |part|)
              && |fs.logged| <= Log.MAXOPBLOCKS
    ensures w.Refused? ==> r == -1 && f.off == old(f.off)
    ensures w.ToDevice? ==> r == answer && f.off == if answer > 0 then Advanced(old(f.off), answer) else old(f.off)
    ensures w.Refused? || w.ToDevice? ==>
              fs.Locked(f.ip) && fs.disk == old(fs.disk) && f.ip.di == old(f.ip.di) && fs.logged == {}
    ensures old(f.ip.di.kind) == T_DEV ==>
              w == if HasDriver(fs, old(f.ip.di)) then ToDevice(old(f.ip.di.major)) else Refused
    ensures old(f.ip.di.kind) != T_DEV ==>
              !w.ToDevice? && (w.Refused? <==> !Fitting(old(f.ip.di), old(f.off), |part|))
    ensures w.Halted? <==>
              && Fitting(old(f.ip.di), old(f.off), |part|)
              && |FreeBlocks(old(fs.Fs()).bits)| < |Missing(old(fs.View(f.ip)), f.ip.inum, old(f.off), |part|)|
    ensures w.Halted? ==> fs.Locked(f.ip) && |FreeBlocks(fs.Fs().bits)| == 0
  {
    hide WellFormed;
    hide Abs;
    hide Slot;
    hide ByteAt;
    hide Content;
    hide LogBound;
    hide Filled;
    hide Missing;
    ghost var c := Content(fs.View(f.ip), f.ip.inum);
    fs.logged := {};  // begin_op
    w := fs.Writei(f.ip, part, f.off);
    ChunkFitsLog(f.off, |part|);
    r := -1;
    if w.Moved? {
      assert fs.logged - {} == fs.logged;
      f.off := f.off + w.n;
      r := w.n;
    } else if w.ToDevice? {
      r := answer;
      if r > 0 { f.off := (f.off + r) % WORD; }
    }
  }

  /** What a device's offset becomes: f->off is an unsigned int. */
  ghost function Advanced(off: word, n: nat): word {
    (off + n) % WORD
  }

  lemma AdvancedTwice(off: word, a: nat, b: nat)
    ensures Advanced(Advanced(off, a), b) == Advanced(off, a + b)
  {
  }

  /** The first k chunks, and the driver took each of them in full. */
  ghost predicate Taken(answers: nat -> int, n: nat, k: nat, done: nat) {
    done == Min(n, CHUNK * k) && forall j: nat | j < k :: answers(j) == Min(n - CHUNK * j, CHUNK)
  }

  /** How much of n bytes at off goes into the file before a chunk is refused: nothing past
      the end of the file, and else the chunks that end within the largest file. */
  ghost function Reach(di: Dinode, off: nat, n: nat): (r: nat)
    requires di.size <= MAXFILE * BSIZE
    ensures r <= n
  {
    if off > di.size then 0
    else if off + n <= MAXFILE * BSIZE then n
    else (MAXFILE * BSIZE - off) / CHUNK * CHUNK
  }

  /** After i bytes in whole chunks the next chunk is refused, or there is none. */
  lemma ReachStop(di: Dinode, off: nat, n: nat, k: nat, i: nat)
    requires di.size <= MAXFILE * BSIZE && i == Min(n, CHUNK * k)
    requires i > 0 ==> off <= di.size && off + i <= MAXFILE * BSIZE
    requires i < n ==>
               (i == 0 && off > di.size) || off + i + Min(n - i, CHUNK) > MAXFILE * BSIZE
    ensures Reach(di, off, n) == i
  {
    if i < n && off <= di.size {
      assert i == CHUNK * k && MAXFILE * BSIZE - off - i < CHUNK;
      assert (MAXFILE * BSIZE - off) / CHUNK == k;
    }
  }

  lemma ReachMore(di: Dinode, off: nat, n: nat, k: nat, i: nat)
    requires di.size <= MAXFILE * BSIZE && i == CHUNK * k < n
    requires off <= di.size && off + i + Min(n - i, CHUNK) <= MAXFILE * BSIZE
    ensures i + Min(n - i, CHUNK) <= Reach(di, off, n)
  {
    if off + n > MAXFILE * BSIZE {
      assert (k + 1) * CHUNK <= MAXFILE * BSIZE - off;
      assert k + 1 <= (MAXFILE * BSIZE - off) / CHUNK;
    }
  }

  /** filewrite.  On a regular file all of src is written, or as much of it as Reach says, and
      the offset advances by that; it panics exactly if that needs more blocks than are free;
      and no transaction logs more than MAXOPBLOCKS distinct blocks.  On a device, whose driver
      answers answers(k) to chunk k, the disk is unchanged; it fails at the first negative
      answer and panics at the first other one that is not the length of the chunk. */
  method FileWrite(fs: FileSystem, f: File, src: seq<byte>, answers: nat -> int)
    returns (r: Outcome, ghost done: nat, ghost txns: seq<set<nat>>)
    requires fs.Locked(f.ip) && |src| < 0x8000_0000
    modifies fs, f.ip, f
    ensures WithinLog(txns)
    ensures !r.Panicked? ==> r == if f.writable && done == |src| then Wrote(|src|) else Failed
    ensures !f.writable ==> r.Failed? && done == 0
    ensures old(f.ip.di.kind) != T_DEV ==>
              var want := Reach(old(f.ip.di), old(f.off), |src|);
              && (r.Panicked? <==>
                    && f.writable
                    && |FreeBlocks(old(fs.Fs()).bits)| < |Missing(old(fs.View(f.ip)), f.ip.inum, old(f.off), want)|)
              && (r.Panicked? ==> fs.Locked(f.ip) && |FreeBlocks(fs.Fs().bits)| == 0)
              && (f.writable && !r.Panicked? ==> done == want)
    ensures old(f.ip.di.kind) != T_DEV && !r.Panicked? ==>
              && fs.Locked(f.ip) && f.off == old(f.off) + done
              && Progress(old(Content(fs.View(f.ip), f.ip.inum)), Content(fs.View(f.ip), f.ip.inum), old(f.off), src,
                          done)
    ensures old(f.ip.di.kind) == T_DEV ==>
              && fs.Locked(f.ip) && fs.disk == old(fs.disk) && f.ip.di == old(f.ip.di)
              && Taken(answers, |src|, |txns|, done)
              && (!r.Panicked? ==> f.off == Advanced(old(f.off), done))
              && (done < |src| && f.writable ==>
                    r == if HasDriver(fs, f.ip.di) && answers(|txns|) >= 0 then Panicked else Failed)
              && (r.Panicked? ==> done < |src| && answers(|txns|) != Min(|src| - done, CHUNK))
  {
    hide WellFormed;
    hide Abs;
    hide Slot;
    hide ByteAt;
    hide Content;
    hide LogBound;
    hide Progress;
    hide Taken;
    hide Advanced;
    hide HasDriver;
    hide Filled;
    hide Missing;
    hide Reach;
    hide FreeBlocks;
    txns, done := [], 0;
    ghost var c0, off0, di0 := Content(fs.View(f.ip), f.ip.inum), f.off, f.ip.di;
    ghost var v0 := fs.View(f.ip);
    assert Progress(c0, c0, off0, src, 0) by { NoProgress(c0, off0, src); }
    NoneTaken(answers, |src|, off0);
    FilledNone(v0, f.ip.inum, off0, 0);
    if !f.writable { return Failed, done, txns; }
    var i, n, k := 0, |src|, 0;
    while i < n
      invariant 0 <= i <= n && done == i && k == |txns| && WithinLog(txns)
      invariant fs.Locked(f.ip) && (f.ip.di.kind == T_DEV <==> di0.kind == T_DEV)
      invariant di0.kind != T_DEV ==>
                  && f.off == off0 + i && Progress(c0, Content(fs.View(f.ip), f.ip.inum), off0, src, i)
                  && i == Min(n, CHUNK * k) && Filled(v0, fs.View(f.ip), f.ip.inum, off0, i)
                  && if i == 0 then f.ip.di == di0
                     else off0 <= di0.size && f.off <= f.ip.di.size && off0 + i <= MAXFILE * BSIZE
      invariant di0.kind == T_DEV ==>
                  && f.off == Advanced(off0, i) && fs.disk == old(fs.disk) && f.ip.di == di0
                  && Taken(answers, n, k, i)
    {
      var n1 := Min(n - i, CHUNK);
      ghost var c1, v1 := Content(fs.View(f.ip), f.ip.inum), fs.View(f.ip);
      var w, x := WriteChunk(fs, f, src[i..i + n1], answers(k));
      if w.Halted? {
        ReachMore(di0, off0, n, k, i);
        ShortBefore(v0, v1, f.ip.inum, off0, i, n1, Reach(di0, off0, n));
        return Panicked, done, txns;
      }
      if x < 0 {
        if di0.kind != T_DEV {
          ReachStop(di0, off0, n, k, i);
          FilledEnough(v0, v1, f.ip.inum, off0, i);
        }
        return Failed, done, txns;
      }
      if x != n1 { return Panicked, done, txns; }
      if di0.kind == T_DEV {
        TakenMore(answers, n, k, i);
        AdvancedTwice(off0, i, n1);
      } else {
        ProgressMore(c0, c1, Content(fs.View(f.ip), f.ip.inum), off0, src, i, n1);
        FilledMore(v0, v1, fs.View(f.ip), f.ip.inum, off0, i, n1);
      }
      txns := txns + [fs.logged];
      i, k := i + n1, k + 1;
      done := i;
    }
    if di0.kind != T_DEV {
      ReachStop(di0, off0, n, k, i);
      FilledEnough(v0, fs.View(f.ip), f.ip.inum, off0, i);
    }
    r := Wrote(n);
  }

  lemma NoneTaken(answers: nat -> int, n: nat, off: word)
    ensures Taken(answers, n, 0, 0) && Advanced(off, 0) == off
  {
  }

  lemma TakenMore(answers: nat -> int, n: nat, k: nat, i: nat)
    requires Taken(answers, n, k, i) && i < n && answers(k) == Min(n - i, CHUNK)
    ensures Taken(answers, n, k + 1, i + Min(n - i, CHUNK))
  {
  }

  lemma NoProgress(c: seq<byte>, off: nat, src: seq<byte>)
    ensures Progress(c, c, off, src, 0)
  {
  }
}
