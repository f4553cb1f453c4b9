/** mkfs: a disk built block by block, from zeros to a root directory and its files. */
module MkfsCode {
  import opened Common
  import opened Blocks
  import opened FsLayout
  import opened FsModel
  import opened FsUpdates
  import opened FsSpace
  import opened FsAbs
  import opened FsCode
  import opened LinkModel
  import opened DirModel
  import opened MkfsModel
  import opened MkfsTree

  /** The bitmap of a disk whose first n blocks are in use. */
  ghost function Marks(n: nat, size: nat): seq<bool> {
    seq(size, b => b < n)
  }

  lemma MarksNext(n: nat, size: nat)
    requires n < size
    ensures Marks(n, size)[n := true] == Marks(n + 1, size) && !Marks(n, size)[n]
    ensures |FreeBlocks(Marks(n, size))| == |FreeBlocks(Marks(n + 1, size))| + 1
  {
    assert Marks(n, size)[n := true] == Marks(n + 1, size);
    MarkFree(Marks(n, size), n);
  }

  lemma MarksFull(n: nat, size: nat)
    requires n <= size
    ensures |FreeBlocks(Marks(n, size))| == size - n
  {
    assert FreeBlocks(Marks(n, size)) == Range(n, size - n);
  }

  /** Pointers may have been added to an inode; no byte of any file has changed. */
  ghost predicate Grown(v: Image, v': Image, i: nat) {
    && |v'.inodes| == |v.inodes| && (forall j | 0 <= j < |v.inodes| :: SameBytes(v, v', j))
    && KeepsPointers(v, v', i) && OtherSlots(v, v', i)
  }

  class Mkfs {
    const sb: Super
    const super: Block  // what block 1 holds
    var disk: Disk
    var freeinode: nat
    var freeblock: nat

    /** Zeros and the superblock. */
    constructor (sb: Super)
      requires sb.Valid() && 2 <= sb.inodestart
      ensures this.sb == sb && ReadSuper(super) == sb && freeinode == 1 && freeblock == sb.nmeta
      ensures Ready() && Img() == FreshImage(sb, seq(sb.ninodes, _ => 0))
    {
      this.sb := sb;
      super := SuperBlock(sb);
      SuperBack(sb);
      hide SuperBlock;
      hide ReadSuper;
      disk := seq(sb.size, _ => ZeroBlock());
      freeinode, freeblock := 1, sb.nmeta;
      new;
      FreshDisk(sb, disk, super);
      hide WellFormed;
      hide Super.Valid;
      hide ZeroBlock;
      hide FreshImage;
      hide Abs;
      disk := disk[1 := super];
      FreshWellFormed(sb, seq(sb.ninodes, _ => 0));
    }

    ghost predicate HasSuper()
      reads this
    {
      1 < |disk| && disk[1] == super
    }

    /** Blocks from freeblock on are zero, and no bit of the bitmap is set yet. */
    ghost predicate Fits()
      reads this
    {
      && DiskFits(sb, disk) && sb.nmeta <= freeblock <= sb.size
      && 2 <= sb.inodestart && HasSuper() && disk[sb.bmapstart] == ZeroBlock()
      && (forall b | freeblock <= b < sb.size :: disk[b] == ZeroBlock())
      && (forall b | 0 <= b < sb.size :: !Abs(sb, disk).bits[b])
    }

    /** The image so far, with the bitmap that mkfs writes at the end. */
    ghost function Img(): (fs: Image)
      reads this
      requires DiskFits(sb, disk)
      ensures Shape(sb, fs)
    {
      Abs(sb, disk).(bits := Marks(freeblock, sb.size))
    }

    /** The same with a changed copy of one inode. */
    ghost function View(i: nat, di: Dinode): (fs: Image)
      reads this
      requires DiskFits(sb, disk) && i < sb.ninodes && di.Valid()
      ensures Shape(sb, fs)
    {
      WithInode(Img(), i, di)
    }

    ghost predicate Open(i: nat, di: Dinode)
      reads this
    {
      && Fits() && i < sb.ninodes && di.Valid() && WellFormed(sb, View(i, di))
      && di.kind != 0 && di.size <= MAXFILE * BSIZE
    }

    /** A pointer kept in the inode, given the next block if it is null.  False stands for a
        disk that is full, which mkfs does not look for. */
    method TakeAddr(i: nat, di0: Dinode, k: nat) returns (ok: bool, di: Dinode)
      requires Open(i, di0) && k <= INDIRECT
      modifies this`freeblock
      ensures Open(i, di) && di == di0.(addrs := di.addrs) && Grown(old(View(i, di0)), View(i, di), i)
      ensures forall l | 0 <= l < NSLOTS && l != k :: Slot(View(i, di), i, l) == old(Slot(View(i, di0), i, l))
      ensures !ok <==> di0.addrs[k] == 0 && |FreeBlocks(old(Img()).bits)| == 0
      ensures !ok || di0.addrs[k] != 0 ==> freeblock == old(freeblock) && di == di0
      ensures ok ==>
                && di.addrs[k] != 0
                && (di0.addrs[k] == 0 ==> |FreeBlocks(old(Img()).bits)| == |FreeBlocks(Img().bits)| + 1)
    {
      assert 0 < sb.nmeta && sb.size < WORD;
      hide Super.Valid;
      hide Abs;
      hide Slot;
      hide OtherSlots;
      hide WellFormed;
      hide Marks;
      hide SameBytes;
      ok, di := true, di0;
      ghost var v := View(i, di0);
      MarksFull(freeblock, sb.size);
      SameBytesRefl(sb, v);
      OthersRefl(v, i);
      if di0.addrs[k] == 0 {
        if freeblock == sb.size { return false, di; }
        var a := freeblock;
        MarksNext(a, sb.size);
        AbsInodes(sb, disk);
        di := di0.(addrs := di0.addrs[k := a]);
        freeblock := freeblock + 1;
        assert v.data[a := ZeroBlock()] == v.data;
        assert View(i, di) == HungInInode(v, i, k, a);
        HangInInodeAll(sb, v, i, k, a);
        InodeOthers(sb, v, i, k, a);
        SlotsInInode(v, i);
        SlotsInInode(View(i, di), i);
      }
    }

    /** A write of a data block in use changes that block of the image. */
    method Wsect(b: nat, data: Block)
      requires Fits() && sb.nmeta <= b < freeblock
      modifies this`disk
      ensures Fits() && Img() == WithBlock(old(Img()), b, data)
    {
      assert 1 < sb.bmapstart < sb.nmeta;
      hide Super.Valid;
      hide Abs;
      AbsWriteData(sb, disk, b, data);
      disk := disk[b := data];
    }

    /** Entry e of the indirect block, given the next block if it is null. */
    method TakeEntry(i: nat, di: Dinode, e: nat) returns (ok: bool, x: word)
      requires Open(i, di) && e < NINDIRECT && di.addrs[INDIRECT] != 0
      modifies this`disk, this`freeblock
      ensures Open(i, di) && Grown(old(View(i, di)), View(i, di), i)
      ensures Abs(sb, disk).inodes == old(Abs(sb, disk)).inodes
      ensures forall l | 0 <= l < NSLOTS && l != INDIRECT + 1 + e ::
                Slot(View(i, di), i, l) == old(Slot(View(i, di), i, l))
      ensures !ok <==> old(Slot(View(i, di), i, INDIRECT + 1 + e)) == 0 && |FreeBlocks(old(Img()).bits)| == 0
      ensures !ok || old(Slot(View(i, di), i, INDIRECT + 1 + e)) != 0 ==>
                disk == old(disk) && freeblock == old(freeblock)
      ensures ok ==>
                && x == Slot(View(i, di), i, INDIRECT + 1 + e) && x != 0
                && (old(Slot(View(i, di), i, INDIRECT + 1 + e)) == 0 ==>
                      |FreeBlocks(old(Img()).bits)| == |FreeBlocks(Img().bits)| + 1)
    {
      hide Abs;
      hide Slot;
      hide OtherSlots;
      hide WellFormed;
      hide Marks;
      hide SameBytes;
      hide GetWord;
      hide PutWord;
      ghost var v := View(i, di);
      MarksFull(freeblock, sb.size);
      SameBytesRefl(sb, v);
      OthersRefl(v, i);
      var ind := di.addrs[INDIRECT];
      IndirectEntry(sb, v, i, e);
      MarksAt(freeblock, sb.size);
      AbsInodes(sb, disk);
      ok, x := true, GetWord(disk[ind], e);
      if x == 0 {
        if freeblock == sb.size { return false, x; }
        x := freeblock;
        MarksNext(x, sb.size);
        freeblock := freeblock + 1;
        assert v.data[x := ZeroBlock()] == v.data;
        Wsect(ind, PutWord(disk[ind], e, x));
        assert View(i, di) == HungInIndirect(v, i, e, x);
        HangInIndirectAll(sb, v, i, e, x);
        IndirectOthers(sb, v, i, e, x);
      }
    }

    /** iappend's choice of the disk block of block fbn of the file. */
    method MapBlock(i: nat, di0: Dinode, fbn: nat) returns (ok: bool, di: Dinode, x: word)
      requires Open(i, di0) && fbn < MAXFILE
      modifies this`disk, this`freeblock
      ensures ok <==> |FreeBlocks(old(Img()).bits)| >= |Missing(old(View(i, di0)), i, fbn * BSIZE, BSIZE)|
      ensures DiskFits(sb, disk) && Abs(sb, disk).inodes == old(Abs(sb, disk)).inodes
      ensures ok ==>
                && Open(i, di) && di == di0.(addrs := di.addrs) && Grown(old(View(i, di0)), View(i, di), i)
                && Filled(old(View(i, di0)), View(i, di), i, fbn * BSIZE, BSIZE)
                && x == Slot(View(i, di), i, DataSlot(fbn)) && x != 0
    {
      hide Abs;
      hide Slot;
      hide OtherSlots;
      hide WellFormed;
      hide Marks;
      hide SameBytes;
      hide Filled;
      hide Missing;
      ghost var v := View(i, di0);
      SlotsInInode(v, i);
      MissingInBlock(v, i, fbn);
      if fbn < NDIRECT {
        ok, di := TakeAddr(i, di0, fbn);
        if !ok { return false, di, 0; }
        x := di.addrs[fbn];
        SlotsInInode(View(i, di), i);
        FilledBlock(v, View(i, di), i, fbn);
      } else {
        ok, di := TakeAddr(i, di0, INDIRECT);
        if !ok { return false, di, 0; }
        ghost var v1 := View(i, di);
        ok, x := TakeEntry(i, di, fbn - NDIRECT);
        if !ok { return; }
        SameBytesTrans(v, v1, View(i, di));
        OthersTrans(v, v1, View(i, di), i);
        SlotsInInode(View(i, di), i);
        FilledBlock(v, View(i, di), i, fbn);
      }
    }

    /** One turn of iappend's loop. */
    method AppendPart(i: nat, di0: Dinode, off: nat, part: seq<byte>) returns (ok: bool, di: Dinode)
      requires Open(i, di0) && 0 < |part| <= BSIZE - off % BSIZE && off + |part| <= MAXFILE * BSIZE
      modifies this`disk, this`freeblock
      ensures ok <==> |FreeBlocks(old(Img()).bits)| >= |Missing(old(View(i, di0)), i, off, |part|)|
      ensures DiskFits(sb, disk) && Abs(sb, disk).inodes == old(Abs(sb, disk)).inodes
      ensures ok ==>
                && Open(i, di) && di == di0.(addrs := di.addrs)
                && Wrote(old(View(i, di0)), View(i, di), i, off, part, |part|)
                && KeepsPointers(old(View(i, di0)), View(i, di), i) && OtherSlots(old(View(i, di0)), View(i, di), i)
                && Filled(old(View(i, di0)), View(i, di), i, off, |part|)
                && Slot(View(i, di), i, DataSlot(off / BSIZE)) != 0
    {
      hide Abs;
      hide Slot;
      hide OtherSlots;
      hide WellFormed;
      hide Marks;
      hide SameBytes;
      hide Filled;
      hide Missing;
      hide Wrote;
      ghost var v := View(i, di0);
      MissingWithin(v, i, off, |part|);
      var x;
      ok, di, x := MapBlock(i, di0, off / BSIZE);
      if !ok { return; }
      ghost var v1 := View(i, di);
      FilledInBlock(v, v1, i, off, |part|);
      InUse(i, di, DataSlot(off / BSIZE));
      AbsInodes(sb, disk);
      var at, old' := off % BSIZE, disk[x];
      var data: Block := old'[..at] + part + old'[at + |part|..];
      Wsect(x, data);
      assert View(i, di) == WithBlock(v1, x, data);
      WriteBlock(sb, v1, i, off / BSIZE, data);
      PartWritten(sb, v, v1, View(i, di), i, off, part, data);
      KeepsAll(sb, v1, i, off / BSIZE, data);
      FilledSame(v, v1, View(i, di), i, off, |part|);
      BlockOthers(sb, v1, i, off / BSIZE, data);
      OthersTrans(v, v1, View(i, di), i);
    }

    /** The image so far is well formed. */
    ghost predicate Ready()
      reads this
    {
      Fits() && WellFormed(sb, Img())
    }

    method Winode(i: nat, di: Dinode)
      requires Fits() && i < sb.ninodes && di.Valid()
      modifies this`disk
      ensures Fits() && Img() == old(View(i, di))
    {
      hide Abs;
      hide IBlock;
      hide BBlock;
      hide Bit;
      hide Marks;
      hide ZeroBlock;
      hide WriteInode;
      Ranges(sb);
      assert sb.bmapstart < sb.nmeta;
      WriteInodeFrame(sb, disk, i, di);
      AbsWriteInode(sb, disk, i, di);
      disk := WriteInode(sb, disk, i, di);
    }

    /** iappend: the bytes at the end of the file.  False stands for the assertion that a file
        has at most MAXFILE blocks, and for a disk that is full. */
    method Iappend(i: nat, xp: seq<byte>) returns (ok: bool)
      requires Ready() && i < sb.ninodes && Img().inodes[i].kind != 0
      modifies this`disk, this`freeblock
      ensures var v, size := old(Img()), old(Img()).inodes[i].size;
              var more := |Missing(v, i, size, |xp|)|;
              && (ok <==> size + |xp| <= MAXFILE * BSIZE && old(freeblock) + more <= sb.size)
              && (ok ==> freeblock == old(freeblock) + more)
      ensures ok ==> Ready() && Appended(old(Img()), Img(), i, xp)
    {
      hide Super.Valid;
      hide Abs;
      hide Slot;
      hide OtherSlots;
      hide WellFormed;
      hide Marks;
      hide SameBytes;
      hide Filled;
      hide Missing;
      hide Wrote;
      hide KeepsPointers;
      hide PartLen;
      AbsInodes(sb, disk);
      MarksFull(freeblock, sb.size);
      var di := ReadInode(sb, disk, i);
      ghost var v, di0 := Img(), di;
      assert View(i, di) == v;
      SizeBound(sb, v, i);
      var off := di.size;
      StartAppend(sb, v, i, xp);
      var tot := 0;
      while tot < |xp|
        invariant 0 <= tot <= |xp| && off == di0.size + tot <= MAXFILE * BSIZE
        invariant Open(i, di) && di == di0.(addrs := di.addrs)
        invariant Abs(sb, disk).inodes == v.inodes
        invariant Appending(v, View(i, di), i, di0.size, xp, tot)
      {
        if off / BSIZE >= MAXFILE { return false; }
        var m := PartLen(off, |xp| - tot);
        ghost var v1 := View(i, di);
        assert off + m <= MAXFILE * BSIZE by { WithinBlock(off, m); }
        ok, di := AppendPart(i, di, off, xp[tot..tot + m]);
        if !ok {
          ShortBefore(v, v1, i, di0.size, tot, m, |xp|);
          return;
        }
        AppendMore(sb, v, v1, View(i, di), i, di0.size, xp, tot, m);
        tot, off := tot + m, off + m;
      }
      ghost var v1 := View(i, di);
      FilledCount(v, v1, i, di0.size, |xp|);
      MarksFull(freeblock, sb.size);
      EndAppend(sb, v, v1, i, xp);
      Winode(i, di.(size := off));
      assert Img() == Resized(v1, i, off);
      ok := true;
    }

    /** ialloc: the next inode.  False stands for a full table, which mkfs does not look for. */
    method Ialloc(kind: short) returns (ok: bool, i: nat)
      requires Ready() && kind != 0 && forall x | freeinode <= x < sb.ninodes :: Img().inodes[x] == EmptyInode(0)
      modifies this`disk, this`freeinode
      ensures i == old(freeinode) && (ok <==> i < sb.ninodes)
      ensures ok ==> Ready() && freeinode == i + 1 && Img() == WithInode(old(Img()), i, EmptyInode(kind))
    {
      hide Abs;
      hide WellFormed;
      i := freeinode;
      ok := i < sb.ninodes;
      if !ok { return; }
      freeinode := i + 1;
      AllocWellFormed(sb, Img(), i, kind);
      Winode(i, Dinode(kind, 0, 0, 1, 0, seq(NDIRECT + 1, _ => 0)));
    }

    /** balloc: the bitmap marks the first `used` blocks.  False stands for the assertion that
        they all have their bits in the first bitmap block. */
    method Balloc(used: nat) returns (ok: bool)
      requires Fits() && used == freeblock
      modifies this`disk
      ensures ok <==> used < BPB
      ensures ok ==> DiskFits(sb, disk) && Abs(sb, disk) == old(Img()) && HasSuper()
    {
      hide Abs;
      hide PutBitmap;
      hide Marked;
      if used >= BPB { return false; }
      ghost var d := disk;
      assert sb.bmapstart < sb.size by { Ranges(sb); }
      var buf := ZeroBlock();
      assert d[sb.bmapstart := buf] == d;
      assert Marked(sb, d, 0) == d by { MarkedNone(sb, d); }
      var i := 0;
      while i < used
        invariant 0 <= i <= used && disk == d && d[sb.bmapstart := buf] == Marked(sb, d, i)
      {
        MarkedNext(sb, d, buf, i);
        buf := buf[i / 8 := SetBit(buf[i / 8], i % 8)];
        i := i + 1;
      }
      disk := disk[sb.bmapstart := buf];
      MarkedAbs(sb, d, used);
      ok := true;
    }

    /** A host file's contents, appended as they are read, a buffer at a time. */
    method AppendFile(i: nat, contents: seq<byte>) returns (ok: bool)
      requires Ready() && i < sb.ninodes && Img().inodes[i].kind != 0
      requires Tight(Img(), i) && Img().inodes[i].size == 0
      modifies this`disk, this`freeblock
      ensures ok <==> |contents| <= MAXFILE * BSIZE && old(freeblock) + BlocksFor(|contents|) <= sb.size
      ensures ok ==> Ready() && Appended(old(Img()), Img(), i, contents)
      ensures ok ==> freeblock == old(freeblock) + BlocksFor(|contents|)
    {
      hide Abs;
      hide WellFormed;
      hide Marks;
      hide Missing;
      hide Tight;
      hide Appended;
      hide BlocksFor;
      ghost var v, f := Img(), freeblock;
      AppendedNothing(sb, v, i);
      assert BlocksFor(0) == 0 by { NoBlocks(); }
      var done := 0;
      while done < |contents|
        invariant 0 <= done <= |contents| && done <= MAXFILE * BSIZE && Ready()
        invariant Appended(v, Img(), i, contents[..done]) && Tight(Img(), i)
        invariant Img().inodes[i].size == done && Img().inodes[i].kind != 0
        invariant freeblock == f + BlocksFor(done)
      {
        var cc := Min(|contents| - done, BSIZE);
        ghost var v1 := Img();
        if done + cc <= MAXFILE * BSIZE { TightMissing(v1, i, cc); }
        ok := Iappend(i, contents[done..done + cc]);
        if !ok {
          BlocksMonotone(done + cc, |contents|);
          return;
        }
        assert contents[..done] + contents[done..done + cc] == contents[..done + cc];
        AppendedTwice(v, v1, Img(), i, contents[..done], contents[done..done + cc]);
        AppendedInode(v1, Img(), i, contents[done..done + cc]);
        TightAppended(v1, Img(), i, contents[done..done + cc]);
        done := done + cc;
      }
      assert contents[..done] == contents;
      ok := true;
    }

    ghost predicate At(files: seq<HostFile>, k: nat)
      reads this
    {
      && Ready() && k <= |files| && Stage(Img(), files, k)
      && freeinode == k + 2 && freeblock == Used(sb, files, k)
    }

    /** An entry at the end of the root directory. */
    method AppendEntry(inum: nat, name: seq<byte>, ghost es: seq<Entry>) returns (ok: bool)
      requires Ready() && ROOT < sb.ninodes && RootIs(Img(), es)
      modifies this`disk, this`freeblock
      ensures var more := BlocksFor(DIRENT * (|es| + 1)) - BlocksFor(DIRENT * |es|);
              && (ok <==> DIRENT * (|es| + 1) <= MAXFILE * BSIZE && old(freeblock) + more <= sb.size)
              && (ok ==> freeblock == old(freeblock) + more)
      ensures ok ==> Ready() && Appended(old(Img()), Img(), ROOT, Dirent(inum, Field(name)))
    {
      hide Abs;
      hide WellFormed;
      hide Marks;
      hide Missing;
      hide Tight;
      hide Appended;
      hide BlocksFor;
      hide Entries;
      hide Content;
      hide ByteAt;
      RecordDirent(inum, name);
      hide Field;
      hide Dirent;
      if DIRENT * (|es| + 1) <= MAXFILE * BSIZE { TightMissing(Img(), ROOT, DIRENT); }
      ok := Iappend(ROOT, Dirent(inum, Field(name)));
    }

    /** The root directory with its two dots. */
    method MakeRoot(ghost files: seq<HostFile>) returns (ok: bool)
      requires Ready() && Img() == FreshImage(sb, seq(sb.ninodes, _ => 0)) && freeinode == 1 && freeblock == sb.nmeta
      modifies this
      ensures ok <==> 2 <= sb.ninodes && Used(sb, files, 0) <= sb.size
      ensures ok ==> At(files, 0)
    {
      hide Super.Valid;
      hide Abs;
      hide WellFormed;
      hide Marks;
      hide RootIs;
      hide Appended;
      assert BlocksFor(0) == 0 && BlocksFor(DIRENT) == BlocksFor(2 * DIRENT) == 1;
      hide BlocksFor;
      var i;
      ok, i := Ialloc(T_DIR);
      if !ok { return; }
      ghost var v1 := Img();
      RootEmpty(v1);
      ok := AppendEntry(i, [DOT], []);
      if !ok { return; }
      ghost var v2 := Img();
      RootFirst(v1, v2);
      ok := AppendEntry(i, [DOT, DOT], [Entry(ROOT, ".")]);
      if !ok { return; }
      StageStart(sb, v1, v2, Img(), files);
    }

    /** The next host file: its inode, its entry and its contents. */
    method AddFile(files: seq<HostFile>, k: nat) returns (ok: bool)
      requires At(files, k) && k < |files|
      modifies this
      ensures ok <==>
                && SLASH !in files[k].arg && k + 3 <= sb.ninodes && DIRENT * (k + 3) <= MAXFILE * BSIZE
                && |files[k].contents| <= MAXFILE * BSIZE && Used(sb, files, k + 1) <= sb.size
      ensures ok ==> At(files, k + 1)
    {
      hide Abs;
      hide WellFormed;
      hide Marks;
      hide RootIs;
      hide Appended;
      hide Tight;
      hide BlocksFor;
      hide FileIs;
      hide RootEntries;
      var file := files[k];
      if SLASH in file.arg { return false; }
      BlocksMonotone(DIRENT * (k + 2), DIRENT * (k + 3));
      ghost var v := Img();
      var i;
      ok, i := Ialloc(T_FILE);
      if !ok { return; }
      ghost var v1, es := Img(), RootEntries(files, k);
      AllocOthers(v, i, T_FILE);
      RootOther(v, v1, i, es);
      ok := AppendEntry(i, HostName(file.arg), es);
      if !ok { return; }
      ghost var v2, de := Img(), Dirent(i, Field(HostName(file.arg)));
      AppendedOthers(v1, v2, ROOT, de);
      TightOther(v1, v2, ROOT, i);
      ok := AppendFile(i, file.contents);
      if !ok { return; }
      StageNext(v, v1, v2, Img(), files, k);
    }

    /** The root directory's size is rounded up and the bitmap is written. */
    method Finish(files: seq<HostFile>) returns (ok: bool)
      requires At(files, |files|)
      modifies this
      ensures ok <==> Used(sb, files, |files|) < BPB
      ensures ok ==> HasSuper() && DiskFits(sb, disk) && Outcome(sb, Abs(sb, disk), files)
    {
      hide Abs;
      hide WellFormed;
      hide Marks;
      hide Outcome;
      AbsInodes(sb, disk);
      ghost var v := Img();
      assert Final(v, |files| + 2) == WithInode(v, ROOT, v.inodes[ROOT].(size := Rounded(v.inodes[ROOT].size)));
      FinalOutcome(sb, v, files);
      hide Stage;
      var di := ReadInode(sb, disk, ROOT);
      Winode(ROOT, di.(size := Rounded(di.size)));
      ok := Balloc(freeblock);
    }

    /** A block that a pointer names is a data block in use. */
    lemma InUse(i: nat, di: Dinode, k: nat)
      requires Open(i, di) && k < NSLOTS && Slot(View(i, di), i, k) != 0
      ensures sb.nmeta <= Slot(View(i, di), i, k) < freeblock
    {
      hide Abs;
      hide Slot;
      assert IsSlot(View(i, di), i, k);
    }
  }

  /** mkfs.  It gets to its end exactly if its arguments fit.  The image then holds every file,
      and its names and link counts are right; it is well formed exactly if the entries of the
      root directory do not fill its blocks. */
  method MakeFs(sb: Super, files: seq<HostFile>) returns (ok: bool, m: Mkfs)
    requires sb.Valid() && 2 <= sb.inodestart
    ensures fresh(m) && m.sb == sb && (ok <==> Makes(sb, files))
    ensures ok ==> DiskFits(sb, m.disk) && Outcome(sb, Abs(sb, m.disk), files)
    ensures ok ==> 1 < |m.disk| && ReadSuper(m.disk[1]) == sb
  {
    hide Abs;
    hide ReadSuper;
    hide Outcome;
    hide WellFormed;
    hide Stage;
    hide Used;
    hide Marks;
    m := new Mkfs(sb);
    ok := m.MakeRoot(files);
    UsedMonotone(sb, files, 0, |files|);
    if !ok { return; }
    var k := 0;
    while k < |files|
      invariant 0 <= k <= |files| && m.At(files, k) && fresh(m) && m.sb == sb
      invariant k + 2 <= sb.ninodes && DIRENT * (k + 2) <= MAXFILE * BSIZE && Used(sb, files, k) <= sb.size
      invariant forall j | 0 <= j < k :: SLASH !in files[j].arg && |files[j].contents| <= MAXFILE * BSIZE
    {
      UsedMonotone(sb, files, k + 1, |files|);
      ok := m.AddFile(files, k);
      if !ok { return; }
      k := k + 1;
    }
    ok := m.Finish(files);
  }

  /** The layout that mkfs uses, with thirty empty files: the thirty-two entries fill one
      block, and the root directory gets a second one that is not there. */
  method HoledRoot() returns (m: Mkfs)
    ensures fresh(m) && DiskFits(m.sb, m.disk) && !WellFormed(m.sb, Abs(m.sb, m.disk))
  {
    hide Abs;
    hide WellFormed;
    var sb := Super(1000, 200, 32, 58, 59);
    var files := seq(30, _ => HostFile([97], []));
    SumEmpty(files, 30);
    assert Makes(sb, files);
    var ok;
    ok, m := MakeFs(sb, files);
  }

  lemma WithinBlock(off: nat, m: nat)
    requires off / BSIZE < MAXFILE && m <= BSIZE - off % BSIZE
    ensures off + m <= MAXFILE * BSIZE
  {
  }

  /** A disk of zeros with a superblock is the empty image, once its metadata is marked. */
  lemma FreshDisk(sb: Super, zero: Disk, super: Block)
    requires sb.Valid() && 2 <= sb.inodestart && DiskFits(sb, zero)
    requires forall b | 0 <= b < |zero| :: zero[b] == ZeroBlock()
    ensures 1 < sb.bmapstart < sb.nmeta <= sb.size && DiskFits(sb, zero[1 := super])
    ensures var v := Abs(sb, zero[1 := super]); forall b | 0 <= b < sb.size :: !v.bits[b]
    ensures Abs(sb, zero[1 := super]).(bits := Marks(sb.nmeta, sb.size)) ==
            FreshImage(sb, seq(sb.ninodes, _ => 0))
  {
    assert 1 < sb.bmapstart < sb.nmeta <= sb.size;
    hide Super.Valid;
    hide ZeroBlock;
    hide EmptyInode;
    ZeroUnmarked(sb, zero);
    ZeroInodes(sb, zero);
    LowBlock(sb, zero, 1, super);
    var v, v' := FreshImage(sb, seq(sb.ninodes, _ => 0)), Abs(sb, zero).(bits := Marks(sb.nmeta, sb.size));
    assert v'.inodes == v.inodes && v'.bits == v.bits;
  }

  lemma ZeroInodes(sb: Super, d: Disk)
    requires DiskFits(sb, d) && forall b | 0 <= b < |d| :: d[b] == ZeroBlock()
    ensures forall i | 0 <= i < sb.ninodes :: Abs(sb, d).inodes[i] == EmptyInode(0)
  {
    AbsInodes(sb, d);
    Ranges(sb);
    hide Abs;
    hide IBlock;
    forall i: nat | i < sb.ninodes ensures ReadInode(sb, d, i) == EmptyInode(0) {
      ZeroInode(i % IPB);
    }
  }

  lemma ZeroInode(k: nat)
    requires k < IPB
    ensures GetInode(ZeroBlock(), k) == EmptyInode(0)
  {
    assert forall i: nat | i < INODEWORDS :: InodeWord(ZeroBlock(), k, i) == 0;
    hide InodeWord;
    assert GetAddrs(ZeroBlock(), k) == seq<word>(NDIRECT + 1, _ => 0);
  }

  /** A free inode may become an empty file. */
  lemma AllocWellFormed(sb: Super, v: Image, i: nat, kind: short)
    requires WellFormed(sb, v) && i < |v.inodes| && v.inodes[i] == EmptyInode(0) && kind != 0
    ensures WellFormed(sb, WithInode(v, i, EmptyInode(kind)))
  {
    RetagWellFormed(sb, v, i, EmptyInode(kind));
  }

  /** x | (1 << k) */
  function SetBit(x: byte, k: nat): byte
    requires k < 8
  {
    PutBitBound(x, k, true, 8);
    assert Pow2(8) == 256;
    PutBit(x, k, true)
  }

  lemma MarkedNext(sb: Super, d: Disk, buf: Block, i: nat)
    requires DiskFits(sb, d) && i < sb.size && i < BPB && sb.bmapstart < sb.size
    requires d[sb.bmapstart := buf] == Marked(sb, d, i)
    ensures i / 8 < BSIZE && d[sb.bmapstart := buf[i / 8 := SetBit(buf[i / 8], i % 8)]] == Marked(sb, d, i + 1)
  {
    assert i / BPB == 0 && i % BPB == i;
    assert BBlock(sb, i) == sb.bmapstart;
    hide PutBit;
    hide BBlock;
    hide Super.Valid;
    var m := Marked(sb, d, i);
    assert Marked(sb, d, i + 1) == PutBitmap(sb, m, i, true);
    assert m[sb.bmapstart] == buf;
    hide Marked;
    assert PutBitmap(sb, m, i, true) == m[sb.bmapstart := buf[i / 8 := SetBit(buf[i / 8], i % 8)]];
  }

  lemma MarkedNone(sb: Super, d: Disk)
    requires DiskFits(sb, d)
    ensures Marked(sb, d, 0) == d
  {
  }

  lemma MarksAt(n: nat, size: nat)
    ensures forall b | 0 <= b < size :: Marks(n, size)[b] <==> b < n
  {
  }
}
