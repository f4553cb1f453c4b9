/** The block allocator, bmap, itrunc, readi and writei of fs.c, on raw disk blocks. */
module FsCode {
  import opened Common
  import opened Blocks
  import opened FsLayout
  import opened FsModel
  import opened FsSpace
  import opened FsUpdates
  import opened FsAbs

  /** The outcome of readi or writei: bytes moved, the error return, a call handed to a
      device driver, or a panic. */
  datatype Io = Moved(n: nat) | Refused | ToDevice(major: nat) | Halted

  const NDEV := 10

  ghost function IndirectSet(di: Dinode): (s: set<nat>)
    requires di.Valid()
    ensures |s| <= 1
  {
    if di.addrs[INDIRECT] == 0 then {} else {di.addrs[INDIRECT]}
  }

  /** How many blocks of a file the n bytes at off lie in. */
  function Touched(off: nat, n: nat): nat {
    if n == 0 then 0 else (off + n - 1) / BSIZE - off / BSIZE + 1
  }

  /** How many distinct blocks a write may log: each block it touches and a bitmap block
      for each it allocates (never for a first block it only partly covers), the
      indirect block and its bitmap block, and the inode. */
  function LogBound(off: nat, n: nat): int {
    2 * Touched(off, n) + 3 - (if off % BSIZE != 0 then 1 else 0)
  }

  /** The overflow test `off + n < off` on 32-bit unsigned integers. */
  predicate Wraps(off: word, n: word)
    ensures Wraps(off, n) <==> off + n >= WORD
  {
    (off + n) % WORD < off
  }

  /** How much of the remaining bytes lies in the block of position off. */
  function PartLen(off: nat, left: nat): (m: nat)
    ensures m <= left && m <= BSIZE - off % BSIZE && (left > 0 ==> m > 0)
    ensures m < left ==> (off + m) % BSIZE == 0 && (off + m) / BSIZE == off / BSIZE + 1
  {
    Min(left, BSIZE - off % BSIZE)
  }

  /** writei accepts n bytes at off of a regular file. */
  ghost predicate Fitting(di: Dinode, off: nat, n: nat) {
    di.kind != T_DEV && off <= di.size && off + n <= MAXFILE * BSIZE
  }

  /** The in-memory copy of an inode, held locked by the caller. */
  class Inode {
    const inum: nat
    var di: Dinode

    constructor (inum: nat, di: Dinode)
      ensures this.inum == inum && this.di == di
    {
      this.inum := inum;
      this.di := di;
    }
  }

  class FileSystem {
    const sb: Super
    var disk: Disk
    const readers: set<nat>     // devsw entries that have a read function
    const writers: set<nat>     // devsw entries that have a write function
    ghost var logged: set<nat>  // blocks passed to log_write in this transaction

    ghost predicate Valid()
      reads this
    {
      DiskFits(sb, disk)
    }

    ghost function Fs(): (fs: Image)
      reads this
      requires Valid()
      ensures Shape(sb, fs)
    {
      Abs(sb, disk)
    }

    /** The image with the in-memory inode in place of its disk copy. */
    ghost function View(ip: Inode): (fs: Image)
      reads this, ip
      requires Valid() && ip.inum < sb.ninodes && ip.di.Valid()
      ensures Shape(sb, fs)
    {
      WithInode(Fs(), ip.inum, ip.di)
    }

    ghost predicate Locked(ip: Inode)
      reads this, ip
    {
      && Valid() && ip.inum < sb.ninodes && ip.di.Valid()
      && WellFormed(sb, View(ip))
      && ip.di.kind != 0 && ip.di.size <= MAXFILE * BSIZE
    }

    /** Sets or clears one bitmap bit and logs the bitmap block. */
    method MarkBlock(b: nat, on: bool)
      requires Valid() && b < sb.size
      modifies this
      ensures Valid()
      ensures Fs() == old(Fs()).(bits := old(Fs()).bits[b := on])
      ensures logged == old(logged) + {BBlock(sb, b)}
    {
      hide Abs;
      hide BBlock;
      hide PutBitmap;
      Ranges(sb);
      AbsPutBitmap(sb, disk, b, on);
      disk := PutBitmap(sb, disk, b, on);
      logged := logged + {BBlock(sb, b)};
    }

    method WriteData(b: nat, data: Block)
      requires Valid() && sb.nmeta <= b < sb.size
      modifies this
      ensures Valid()
      ensures Fs() == WithBlock(old(Fs()), b, data)
      ensures logged == old(logged) + {b}
    {
      hide Abs;
      AbsWriteData(sb, disk, b, data);
      disk := disk[b := data];
      logged := logged + {b};
    }

    /** The scan of balloc: the first block that the bitmap does not mark. */
    method FirstFree() returns (r: Option<word>)
      requires Valid()
      ensures r.None? ==> forall b | 0 <= b < sb.size :: Fs().bits[b]
      ensures r.Some? ==> r.value < sb.size && !Fs().bits[r.value] && forall b | 0 <= b < r.value :: Fs().bits[b]
    {
      hide Abs;
      hide TestBit;
      hide Bit;
      hide BBlock;
      Ranges(sb);
      AbsBits(sb, disk);
      var b := 0;
      ghost var q := 0;
      while b < sb.size
        invariant b == q * BPB
        invariant forall j: nat | j < b && j < sb.size :: Bit(sb, disk, j)
      {
        var bi := 0;
        while bi < BPB && b + bi < sb.size
          invariant 0 <= bi <= BPB
          invariant forall j: nat | j < b + bi && j < sb.size :: Bit(sb, disk, j)
        {
          BitInBlock(sb, disk, q, b, bi);
          if !TestBit(disk[BBlock(sb, b)][bi / 8], bi % 8) {
            return Some(b + bi);
          }
          bi := bi + 1;
        }
        b, q := b + BPB, q + 1;
      }
      r := None;
    }

    /** balloc: the first block the bitmap does not mark is marked and zeroed; None
        stands for the panic when every block is in use. */
    method Balloc() returns (r: Option<word>)
      requires Valid() && MetaUsed(sb, Fs())
      modifies this
      ensures Valid()
      ensures r.None? ==> disk == old(disk) && logged == old(logged)
      ensures r.None? <==> |FreeBlocks(old(Fs()).bits)| == 0
      ensures r.Some? ==>
                && FreeBlock(sb, old(Fs()), r.value)
                && |FreeBlocks(old(Fs()).bits)| == |FreeBlocks(Fs().bits)| + 1
                && (forall b | 0 <= b < r.value :: old(Fs()).bits[b])
                && Fs() == Allocated(old(Fs()), r.value)
                && logged == old(logged) + {BBlock(sb, r.value), r.value}
    {
      hide Abs;
      hide BBlock;
      ghost var bits := Fs().bits;
      NoneFree(bits);
      r := FirstFree();
      assert Fs().bits == bits;
      if r.Some? {
        MarkFree(bits, r.value);
        MarkBlock(r.value, true);
        WriteData(r.value, ZeroBlock());
      }
    }

    /** bfree: false stands for the panic on a block that is already free. */
    method Bfree(b: nat) returns (ok: bool)
      requires Valid() && b < sb.size
      modifies this
      ensures Valid()
      ensures ok == old(Fs()).bits[b]
      ensures if ok then Fs() == old(Fs()).(bits := old(Fs()).bits[b := false]) else Fs() == old(Fs())
      ensures logged == if ok then old(logged) + {BBlock(sb, b)} else old(logged)
    {
      hide Abs;
      hide TestBit;
      hide BBlock;
      Ranges(sb);
      AbsBits(sb, disk);
      var bi := b % BPB;
      ok := TestBit(disk[BBlock(sb, b)][bi / 8], b % 8);
      assert ok == Bit(sb, disk, b);
      if ok {
        MarkBlock(b, false);
      }
    }

    method Iupdate(ip: Inode)
      requires Valid() && ip.inum < sb.ninodes && ip.di.Valid()
      modifies this
      ensures Valid()
      ensures Fs() == old(View(ip))
      ensures logged == old(logged) + {IBlock(sb, ip.inum)}
    {
      hide Abs;
      hide IBlock;
      hide WriteInode;
      Ranges(sb);
      AbsWriteInode(sb, disk, ip.inum, ip.di);
      disk := WriteInode(sb, disk, ip.inum, ip.di);
      logged := logged + {IBlock(sb, ip.inum)};
    }

    /** What bmap promises beside the block it returns: the image stays well formed, no
        byte of any file changes, and no pointer that was set changes. */
    twostate predicate OnlyAllocates(ip: Inode)
      reads this, ip
      requires old(Locked(ip))
    {
      && Locked(ip)
      && ip.di == old(ip.di).(addrs := ip.di.addrs)
      && Fs().inodes == old(Fs()).inodes
      && (forall j | 0 <= j < sb.ninodes :: SameBytes(old(View(ip)), View(ip), j))
      && (forall l | 0 <= l < NSLOTS && old(Slot(View(ip), ip.inum, l)) != 0 ::
            Slot(View(ip), ip.inum, l) == old(Slot(View(ip), ip.inum, l)))
      && OtherSlots(old(View(ip)), View(ip), ip.inum)
    }

    /** Loads the pointer addrs[k] of the inode, allocating a block if it is null. */
    method LoadAddr(ip: Inode, k: nat) returns (r: Option<word>, ghost bm: set<nat>)
      requires Locked(ip) && k <= INDIRECT
      modifies this, ip
      ensures OnlyAllocates(ip)
      ensures forall l | 0 <= l < NSLOTS && l != k :: Slot(View(ip), ip.inum, l) == old(Slot(View(ip), ip.inum, l))
      ensures r.None? <==> old(ip.di.addrs[k]) == 0 && |FreeBlocks(old(Fs()).bits)| == 0
      ensures r.None? || old(ip.di.addrs[k]) != 0 ==>
                disk == old(disk) && ip.di == old(ip.di) && logged == old(logged) && bm == {}
      ensures r.Some? ==>
                && r.value == ip.di.addrs[k] && r.value != 0
                && (old(ip.di.addrs[k]) == 0 ==> bm == {BBlock(sb, r.value)} && logged == old(logged) + bm + {r.value})
                && (old(ip.di.addrs[k]) == 0 ==> |FreeBlocks(old(Fs()).bits)| == |FreeBlocks(Fs().bits)| + 1)
    {
      hide SlotOf;
      hide Slot;
      hide WellFormed;
      hide Abs;
      hide BBlock;
      hide SameBytes;
      hide OtherSlots;
      hide FreeBlocks;
      bm := {};
      ghost var fs := View(ip);
      SameBytesRefl(sb, fs);
      OthersRefl(fs, ip.inum);
      if ip.di.addrs[k] == 0 {
        assert MetaUsed(sb, Fs()) by { MetaOfView(sb, Fs(), ip.inum, ip.di); }
        r := Balloc();
        if r.None? { return; }
        var a := r.value;
        bm := {BBlock(sb, a)};
        ip.di := ip.di.(addrs := ip.di.addrs[k := a]);
        assert View(ip) == HungInInode(fs, ip.inum, k, a);
        HangInInodeAll(sb, fs, ip.inum, k, a);
        InodeOthers(sb, fs, ip.inum, k, a);
      } else {
        r := Some(ip.di.addrs[k]);
      }
    }

    /** Loads entry e of the indirect block, allocating a block if it is null. */
    method LoadEntry(ip: Inode, e: nat) returns (r: Option<word>, ghost bm: set<nat>)
      requires Locked(ip) && e < NINDIRECT && ip.di.addrs[INDIRECT] != 0
      modifies this
      ensures OnlyAllocates(ip)
      ensures forall l | 0 <= l < NSLOTS && l != INDIRECT + 1 + e ::
                Slot(View(ip), ip.inum, l) == old(Slot(View(ip), ip.inum, l))
      ensures r.None? <==>
                old(Slot(View(ip), ip.inum, INDIRECT + 1 + e)) == 0 && |FreeBlocks(old(Fs()).bits)| == 0
      ensures r.None? || old(Slot(View(ip), ip.inum, INDIRECT + 1 + e)) != 0 ==>
                disk == old(disk) && logged == old(logged) && bm == {}
      ensures r.Some? ==>
                && r.value == Slot(View(ip), ip.inum, INDIRECT + 1 + e) && r.value != 0
                && (old(Slot(View(ip), ip.inum, INDIRECT + 1 + e)) == 0 ==>
                      && |FreeBlocks(old(Fs()).bits)| == |FreeBlocks(Fs().bits)| + 1
                      && bm == {BBlock(sb, r.value)} && logged == old(logged) + bm + {r.value, ip.di.addrs[INDIRECT]})
                && |bm| <= 1 && logged <= old(logged) + bm + {r.value} + IndirectSet(ip.di)
    {
      hide SlotOf;
      hide Slot;
      hide WellFormed;
      hide Abs;
      hide BBlock;
      hide GetWord;
      hide PutWord;
      hide SameBytes;
      hide OtherSlots;
      hide FreeBlocks;
      bm := {};
      ghost var fs := View(ip);
      SameBytesRefl(sb, fs);
      OthersRefl(fs, ip.inum);
      var ind := ip.di.addrs[INDIRECT];
      IndirectEntry(sb, fs, ip.inum, e);
      AbsInodes(sb, disk);
      var a := GetWord(disk[ind], e);
      if a == 0 {
        assert MetaUsed(sb, Fs()) by { MetaOfView(sb, Fs(), ip.inum, ip.di); }
        r := Balloc();
        if r.None? { return; }
        bm := {BBlock(sb, r.value)};
        assert Fs().data[ind] == fs.data[ind];
        AbsInodes(sb, disk);
        WriteData(ind, PutWord(disk[ind], e, r.value));
        assert View(ip) == HungInIndirect(fs, ip.inum, e, r.value);
        HangInIndirectAll(sb, fs, ip.inum, e, r.value);
        IndirectOthers(sb, fs, ip.inum, e, r.value);
      } else {
        r := Some(a);
      }
    }

    /** bmap: the disk block of block bn of the file, allocated if there was none.  None
        stands for the two panics, out of blocks and out of range. */
    method Bmap(ip: Inode, bn: nat) returns (r: Option<word>, ghost bm: set<nat>)
      requires Locked(ip)
      modifies this, ip
      ensures OnlyAllocates(ip)
      ensures r.None? <==>
                bn >= MAXFILE || |FreeBlocks(old(Fs()).bits)| < |Missing(old(View(ip)), ip.inum, bn * BSIZE, BSIZE)|
      ensures r.None? && bn < MAXFILE ==> |FreeBlocks(Fs().bits)| == 0
      ensures bn < MAXFILE && old(Slot(View(ip), ip.inum, DataSlot(bn))) != 0 ==> r.Some?
      ensures r.Some? ==>
                && Filled(old(View(ip)), View(ip), ip.inum, bn * BSIZE, BSIZE)
                && logged <= old(logged) + WriteLog(sb, old(View(ip)), View(ip), ip.inum, bn * BSIZE, BSIZE)
                && r.value == Slot(View(ip), ip.inum, DataSlot(bn)) && r.value != 0
                && (old(Slot(View(ip), ip.inum, DataSlot(bn))) != 0 ==>
                      disk == old(disk) && ip.di == old(ip.di) && logged == old(logged) && bm == {})
                && |bm| <= 1 + (if old(ip.di.addrs[INDIRECT]) != ip.di.addrs[INDIRECT] then 1 else 0)
                && logged <= old(logged) + bm + {r.value} + IndirectSet(ip.di)
                && (old(ip.di.addrs[INDIRECT]) != 0 ==> ip.di.addrs[INDIRECT] == old(ip.di.addrs[INDIRECT]))
    {
      hide WellFormed;
      hide Abs;
      hide Slot;
      hide ByteAt;
      hide SameBytes;
      hide OtherSlots;
      hide Filled;
      hide Missing;
      hide WriteLog;
      hide BBlock;
      ghost var fs0 := View(ip);
      SlotsInInode(fs0, ip.inum);
      if bn < NDIRECT {
        MissingInBlock(fs0, ip.inum, bn);
        r, bm := LoadAddr(ip, bn);
        SlotsInInode(View(ip), ip.inum);
        if r.Some? {
          FilledBlock(fs0, View(ip), ip.inum, bn);
          BlockLog(sb, fs0, View(ip), ip.inum, bn);
        }
      } else if bn - NDIRECT < NINDIRECT {
        r, bm := LoadIndirect(ip, bn - NDIRECT);
      } else {
        SameBytesRefl(sb, fs0);
        OthersRefl(fs0, ip.inum);
        r, bm := None, {};
      }
    }

    /** The second half of bmap: the indirect block, then its entry e. */
    method LoadIndirect(ip: Inode, e: nat) returns (r: Option<word>, ghost bm: set<nat>)
      requires Locked(ip) && e < NINDIRECT
      modifies this, ip
      ensures OnlyAllocates(ip)
      ensures var bn := NDIRECT + e;
              r.None? <==>
                |FreeBlocks(old(Fs()).bits)| < |Missing(old(View(ip)), ip.inum, bn * BSIZE, BSIZE)|
      ensures r.None? ==> |FreeBlocks(Fs().bits)| == 0
      ensures old(Slot(View(ip), ip.inum, INDIRECT + 1 + e)) != 0 ==> r.Some?
      ensures r.Some? ==>
                && Filled(old(View(ip)), View(ip), ip.inum, (NDIRECT + e) * BSIZE, BSIZE)
                && logged <= old(logged) + WriteLog(sb, old(View(ip)), View(ip), ip.inum, (NDIRECT + e) * BSIZE, BSIZE)
                && r.value == Slot(View(ip), ip.inum, INDIRECT + 1 + e) && r.value != 0
                && (old(Slot(View(ip), ip.inum, INDIRECT + 1 + e)) != 0 ==>
                      disk == old(disk) && ip.di == old(ip.di) && logged == old(logged) && bm == {})
                && |bm| <= 1 + (if old(ip.di.addrs[INDIRECT]) != ip.di.addrs[INDIRECT] then 1 else 0)
                && logged <= old(logged) + bm + {r.value} + IndirectSet(ip.di)
                && (old(ip.di.addrs[INDIRECT]) != 0 ==> ip.di.addrs[INDIRECT] == old(ip.di.addrs[INDIRECT]))
    {
      hide WellFormed;
      hide Abs;
      hide Slot;
      hide ByteAt;
      hide SameBytes;
      hide OtherSlots;
      hide Filled;
      hide Missing;
      hide WriteLog;
      hide BBlock;
      hide FreeBlocks;
      hide Content;
      ghost var fs0, bn := View(ip), NDIRECT + e;
      SlotsInInode(fs0, ip.inum);
      MissingInBlock(fs0, ip.inum, bn);
      r, bm := LoadAddr(ip, INDIRECT);
      if r.None? { return; }
      ghost var fs1, bm' := View(ip), {};
      assert forall j | 0 <= j < sb.ninodes :: SameBytes(fs0, fs1, j);
      r, bm' := LoadEntry(ip, e);
      SameBytesTrans(fs0, fs1, View(ip));
      OthersTrans(fs0, fs1, View(ip), ip.inum);
      if r.None? { return; }
      SlotsInInode(View(ip), ip.inum);
      FilledBlock(fs0, View(ip), ip.inum, bn);
      BlockLog(sb, fs0, View(ip), ip.inum, bn);
      bm := bm + bm';
    }

    /** One turn of readi's loop: m bytes at off, all in one block of the file. */
    method ReadPart(ip: Inode, off: nat, m: nat) returns (part: seq<byte>)
      requires Locked(ip)
      requires 0 < m <= BSIZE - off % BSIZE && off + m <= ip.di.size
      modifies this, ip
      ensures disk == old(disk) && ip.di == old(ip.di) && logged == old(logged)
      ensures part == Content(View(ip), ip.inum)[off..off + m]
    {
      hide WellFormed;
      hide Abs;
      hide Slot;
      hide ByteAt;
      hide Content;
      ghost var fs := View(ip);
      MappedBelowSize(sb, fs, ip.inum, off);
      var b;
      ghost var bm;
      b, bm := Bmap(ip, off / BSIZE);
      ReadChunk(sb, fs, ip.inum, off, m);
      AbsInodes(sb, disk);
      part := disk[b.value][off % BSIZE..off % BSIZE + m];
    }

    /** readi: the requested slice of the file, clipped to its size.  It never allocates
        a block and never changes the inode. */
    method Readi(ip: Inode, off0: word, n0: word) returns (r: Io, dst: seq<byte>)
      requires Locked(ip)
      modifies this, ip
      ensures disk == old(disk) && ip.di == old(ip.di) && logged == old(logged)
      ensures ip.di.kind == T_DEV ==>
                r == if ip.di.major < NDEV && ip.di.major in readers then ToDevice(ip.di.major) else Refused
      ensures ip.di.kind != T_DEV && (off0 > ip.di.size || off0 + n0 >= WORD) ==> r == Refused
      ensures ip.di.kind != T_DEV && off0 <= ip.di.size && off0 + n0 < WORD ==>
                && r == Moved(Min(n0, ip.di.size - off0))
                && dst == Content(View(ip), ip.inum)[off0..off0 + r.n]
    {
      hide WellFormed;
      hide Abs;
      hide Slot;
      hide Content;
      hide PartLen;
      hide Wraps;
      dst := [];
      if ip.di.kind == T_DEV {
        if ip.di.major >= NDEV || ip.di.major !in readers { return Refused, dst; }
        return ToDevice(ip.di.major), dst;
      }
      if off0 > ip.di.size || Wraps(off0, n0) { return Refused, dst; }
      var n := if off0 + n0 > ip.di.size then ip.di.size - off0 else n0;
      ghost var fs := View(ip);
      ghost var all := Content(fs, ip.inum);
      var tot, off := 0, off0;
      while tot < n
        invariant 0 <= tot <= n && off == off0 + tot
        invariant disk == old(disk) && ip.di == old(ip.di) && logged == old(logged)
        invariant dst == all[off0..off]
      {
        var m := PartLen(off, n - tot);
        assert View(ip) == fs;
        var part := ReadPart(ip, off, m);
        assert all[off0..off] + all[off..off + m] == all[off0..off + m];
        dst := dst + part;
        tot, off := tot + m, off + m;
      }
      r := Moved(n);
    }

    /** One turn of writei's loop: `part` goes to off, all in one block of the file. */
    method WritePart(ip: Inode, off: nat, part: seq<byte>) returns (ok: bool, ghost b: nat, ghost bm: set<nat>)
      requires Locked(ip)
      requires 0 < |part| <= BSIZE - off % BSIZE && off + |part| <= MAXFILE * BSIZE
      modifies this, ip
      ensures ok <==> |FreeBlocks(old(Fs()).bits)| >= |Missing(old(View(ip)), ip.inum, off, |part|)|
      ensures !ok ==> Locked(ip) && |FreeBlocks(Fs().bits)| == 0
      ensures ok ==>
                && Locked(ip)
                && ip.di == old(ip.di).(addrs := ip.di.addrs)
                && Fs().inodes == old(Fs()).inodes
                && Wrote(old(View(ip)), View(ip), ip.inum, off, part, |part|)
                && Filled(old(View(ip)), View(ip), ip.inum, off, |part|)
                && logged <= old(logged) + WriteLog(sb, old(View(ip)), View(ip), ip.inum, off, |part|)
                && Slot(View(ip), ip.inum, DataSlot(off / BSIZE)) != 0
                && KeepsPointers(old(View(ip)), View(ip), ip.inum)
                && OtherSlots(old(View(ip)), View(ip), ip.inum)
                && (old(Slot(View(ip), ip.inum, DataSlot(off / BSIZE))) != 0 ==> ip.di == old(ip.di) && bm == {})
                && |bm| <= 1 + (if old(ip.di.addrs[INDIRECT]) != ip.di.addrs[INDIRECT] then 1 else 0)
                && (old(ip.di.addrs[INDIRECT]) != 0 ==> ip.di.addrs[INDIRECT] == old(ip.di.addrs[INDIRECT]))
                && logged <= old(logged) + bm + {b} + IndirectSet(ip.di)
    {
      hide WellFormed;
      hide Abs;
      hide Slot;
      hide ByteAt;
      hide Filled;
      hide Missing;
      hide Wrote;
      hide KeepsPointers;
      hide SameBytes;
      hide OtherSlots;
      hide WriteLog;
      hide BBlock;
      ghost var fs0 := View(ip);
      MissingWithin(fs0, ip.inum, off, |part|);
      b := 0;
      var r;
      r, bm := Bmap(ip, off / BSIZE);
      if r.None? { return false, b, bm; }
      b := r.value;
      ghost var fs1 := View(ip);
      BlockLog(sb, fs0, fs1, ip.inum, off / BSIZE);
      PointerRange(sb, fs1, ip.inum, DataSlot(off / BSIZE));
      AbsInodes(sb, disk);
      var old' := disk[r.value];
      var at := off % BSIZE;
      var data: Block := old'[..at] + part + old'[at + |part|..];
      WriteData(r.value, data);
      assert View(ip) == WithBlock(fs1, r.value, data);
      PartDone(sb, fs0, fs1, ip.inum, off, part, data);
      ok := true;
    }

    /** writei: the bytes of src replace those at off, the file grows if they end past its
        size, and nothing else in the file system changes.  The disk copy of the inode
        follows the in-memory one.  Halted stands for running out of blocks, which happens
        exactly if the write needs more than are free. */
    method Writei(ip: Inode, src: seq<byte>, off: word) returns (r: Io)
      requires Locked(ip) && |src| < WORD
      modifies this, ip
      ensures old(ip.di.kind) == T_DEV ==>
                r == if old(ip.di.major) < NDEV && old(ip.di.major) in writers then ToDevice(old(ip.di.major))
                  else Refused
      ensures old(ip.di.kind) != T_DEV ==> !r.ToDevice? && (r == Refused <==> !Fitting(old(ip.di), off, |src|))
      ensures r.Refused? || r.ToDevice? ==> disk == old(disk) && ip.di == old(ip.di) && logged == old(logged)
      ensures r.Moved? ==> r.n == |src| && off <= old(ip.di.size) && Written(ip, src, off)
      ensures r.Halted? <==> Fitting(old(ip.di), off, |src|)
                             && |FreeBlocks(old(Fs()).bits)| < |Missing(old(View(ip)), ip.inum, off, |src|)|
      ensures r.Halted? ==> Locked(ip) && |FreeBlocks(Fs().bits)| == 0
    {
      hide WellFormed;
      hide Abs;
      hide Wraps;
      hide Written;
      hide Missing;
      if ip.di.kind == T_DEV {
        if ip.di.major >= NDEV || ip.di.major !in writers { return Refused; }
        return ToDevice(ip.di.major);
      }
      var n := |src|;
      if off > ip.di.size || Wraps(off, n) { return Refused; }
      if off + n > MAXFILE * BSIZE { return Refused; }
      var ok := WriteFile(ip, src, off);
      r := if ok then Moved(n) else Halted;
    }

    /** The effect of a writei that moved all of src. */
    twostate predicate Written(ip: Inode, src: seq<byte>, off: nat)
      reads this, ip
      requires old(Locked(ip)) && off <= old(ip.di.size)
    {
      && Locked(ip)
      && ip.di == old(ip.di).(addrs := ip.di.addrs, size := ip.di.size)
      && Content(View(ip), ip.inum) == Splice(old(Content(View(ip), ip.inum)), off, src)
      && (forall j | 0 <= j < sb.ninodes && j != ip.inum ::
            SameBytes(old(View(ip)), View(ip), j) && Fs().inodes[j] == old(Fs()).inodes[j])
      && (old(ip.di == Fs().inodes[ip.inum]) ==> ip.di == Fs().inodes[ip.inum])
      && Filled(old(View(ip)), View(ip), ip.inum, off, |src|)
      && OtherSlots(old(View(ip)), View(ip), ip.inum)
      && |logged - old(logged)| <= LogBound(off, |src|)
      && logged <= old(logged) + WriteLog(sb, old(View(ip)), View(ip), ip.inum, off, |src|) + {IBlock(sb, ip.inum)}
    }

    method WriteFile(ip: Inode, src: seq<byte>, off: nat) returns (ok: bool)
      requires Locked(ip) && off <= ip.di.size && off + |src| <= MAXFILE * BSIZE
      modifies this, ip
      ensures ok <==> |FreeBlocks(old(Fs()).bits)| >= |Missing(old(View(ip)), ip.inum, off, |src|)|
      ensures !ok ==> Locked(ip) && |FreeBlocks(Fs().bits)| == 0
      ensures ok ==> Written(ip, src, off)
    {
      hide WellFormed;
      hide Abs;
      hide Slot;
      hide ByteAt;
      hide Content;
      hide LogBound;
      hide IBlock;
      hide Filled;
      hide Missing;
      hide OtherSlots;
      hide WriteLog;
      ok := WriteAll(ip, src, off);
      if !ok { return; }
      ghost var fs0, fs1 := old(View(ip)), View(ip);
      ghost var logged1 := logged;
      var n := |src|;
      if n > 0 && off + n > ip.di.size {
        Grow(ip, off + n);
        PlusOne(old(logged), logged1, IBlock(sb, ip.inum));
        FilledSame(fs0, fs1, View(ip), ip.inum, off, n);
        WriteLogSame(sb, fs0, fs1, View(ip), ip.inum, off, n);
        OthersTrans(fs0, fs1, View(ip), ip.inum);
      }
      Spliced(sb, fs0, fs1, View(ip), ip.inum, off, src);
    }

    /** The end of writei: the size grows to `size` and the inode goes to disk. */
    method Grow(ip: Inode, size: word)
      requires Locked(ip) && size <= MAXFILE * BSIZE
      requires forall bn: nat | bn < MAXFILE && bn * BSIZE < size :: Slot(View(ip), ip.inum, DataSlot(bn)) != 0
      modifies this, ip
      ensures Locked(ip)
      ensures ip.di == old(ip.di).(size := size)
      ensures Fs().inodes == old(Fs()).inodes[ip.inum := ip.di]
      ensures forall j | 0 <= j < sb.ninodes :: SameBytes(old(View(ip)), View(ip), j)
      ensures Fs().bits == old(Fs()).bits && OtherSlots(old(View(ip)), View(ip), ip.inum)
      ensures forall k | 0 <= k < NSLOTS :: Slot(View(ip), ip.inum, k) == old(Slot(View(ip), ip.inum, k))
      ensures logged == old(logged) + {IBlock(sb, ip.inum)}
    {
      hide WellFormed;
      hide Abs;
      hide Slot;
      hide ByteAt;
      hide IBlock;
      ghost var fs := View(ip);
      ip.di := ip.di.(size := size);
      Iupdate(ip);
      assert View(ip) == Resized(fs, ip.inum, size);
      ResizeWellFormed(sb, fs, ip.inum, size);
      ResizeSlots(fs, ip.inum, size);
      ResizeOthers(fs, ip.inum, size);
    }

    /** The loop of writei. */
    method WriteAll(ip: Inode, src: seq<byte>, off0: nat) returns (ok: bool)
      requires Locked(ip) && off0 <= ip.di.size && off0 + |src| <= MAXFILE * BSIZE
      modifies this, ip
      ensures ok <==> |FreeBlocks(old(Fs()).bits)| >= |Missing(old(View(ip)), ip.inum, off0, |src|)|
      ensures !ok ==> Locked(ip) && |FreeBlocks(Fs().bits)| == 0
      ensures ok ==>
                && Locked(ip)
                && ip.di == old(ip.di).(addrs := ip.di.addrs)
                && Fs().inodes == old(Fs()).inodes
                && Wrote(old(View(ip)), View(ip), ip.inum, off0, src, |src|)
                && Filled(old(View(ip)), View(ip), ip.inum, off0, |src|)
                && logged <= old(logged) + WriteLog(sb, old(View(ip)), View(ip), ip.inum, off0, |src|)
                && OtherSlots(old(View(ip)), View(ip), ip.inum)
                && (forall bn: nat | bn < MAXFILE && bn * BSIZE < off0 + |src| ::
                    Slot(View(ip), ip.inum, DataSlot(bn)) != 0)
                && (ip.di != old(ip.di) ==> |src| > 0 && off0 + |src| > ip.di.size)
                && |logged - old(logged)| <= LogBound(off0, |src|) - 1
    {
      hide WellFormed;
      hide Abs;
      hide Slot;
      hide ByteAt;
      hide PartLen;
      hide Wrote;
      hide InProgress;
      hide Filled;
      hide Missing;
      hide OtherSlots;
      hide WriteLog;
      hide LogBound;
      ghost var w := Job(View(ip), ip.di, Fs().inodes, logged, off0, src);
      ghost var c := Count({}, {}, 0, 0);
      StartJob(ip, w);
      var tot := 0;
      while tot < |src|
        invariant 0 <= tot <= |src|
        invariant InProgress(ip, w, c, tot)
      {
        var m := PartLen(off0 + tot, |src| - tot);
        var good;
        good, c := WriteTurn(ip, off0 + tot, src[tot..tot + m], w, c, tot);
        if !good { return false; }
        tot := tot + m;
      }
      EndJob(ip, w, c);
      FilledEnough(w.fs, View(ip), ip.inum, off0, |src|);
      ok := true;
    }

    /** Where a writei that started as job w stands after tot bytes. */
    ghost predicate InProgress(ip: Inode, w: Job, c: Count, tot: nat)
      reads this, ip
    {
      && w.Valid(ip.inum) && tot <= |w.src|
      && Locked(ip) && ip.di == w.di.(addrs := ip.di.addrs) && Fs().inodes == w.inodes
      && Wrote(w.fs, View(ip), ip.inum, w.off, w.src, tot)
      && Filled(w.fs, View(ip), ip.inum, w.off, tot)
      && logged <= w.logged + WriteLog(sb, w.fs, View(ip), ip.inum, w.off, tot)
      && OtherSlots(w.fs, View(ip), ip.inum)
      && (forall bn: nat | bn < MAXFILE && bn * BSIZE < w.off + tot :: Slot(View(ip), ip.inum, DataSlot(bn)) != 0)
      && (ip.di != w.di ==> tot > 0 && w.off + tot > ip.di.size)
      && Tallied(w, ip.di, logged, c)
      && Paced(w, c, tot)
    }

    lemma StartJob(ip: Inode, w: Job)
      requires Locked(ip) && w == Job(View(ip), ip.di, Fs().inodes, logged, w.off, w.src)
      requires w.off <= ip.di.size && w.off + |w.src| <= MAXFILE * BSIZE
      ensures InProgress(ip, w, Count({}, {}, 0, 0), 0)
    {
      hide Abs;
      hide Slot;
      hide ByteAt;
      hide Wrote;
      hide Filled;
      hide WriteLog;
      hide OtherSlots;
      FilledNone(View(ip), ip.inum, w.off, 0);
      OthersRefl(View(ip), ip.inum);
      WroteNothing(View(ip), ip.inum, w.off, w.src);
      MappedPrefix(sb, View(ip), ip.inum, w.off);
    }

    lemma EndJob(ip: Inode, w: Job, c: Count)
      requires InProgress(ip, w, c, |w.src|)
      ensures Locked(ip) && ip.di == w.di.(addrs := ip.di.addrs) && Fs().inodes == w.inodes
      ensures w.Valid(ip.inum) && Wrote(w.fs, View(ip), ip.inum, w.off, w.src, |w.src|)
      ensures Filled(w.fs, View(ip), ip.inum, w.off, |w.src|)
      ensures logged <= w.logged + WriteLog(sb, w.fs, View(ip), ip.inum, w.off, |w.src|)
      ensures OtherSlots(w.fs, View(ip), ip.inum)
      ensures forall bn: nat | bn < MAXFILE && bn * BSIZE < w.off + |w.src| ::
              Slot(View(ip), ip.inum, DataSlot(bn)) != 0
      ensures ip.di != w.di ==> |w.src| > 0 && w.off + |w.src| > ip.di.size
      ensures |logged - w.logged| <= LogBound(w.off, |w.src|) - 1
    {
      hide WellFormed;
      hide Abs;
      hide Slot;
      hide Wrote;
      hide Filled;
      hide OtherSlots;
      hide WriteLog;
      LoggedBound(w, ip.di, logged, c);
    }

    method WriteTurn(ip: Inode, off: nat, part: seq<byte>, ghost w: Job, ghost c: Count, ghost tot: nat)
      returns (ok: bool, ghost c': Count)
      requires InProgress(ip, w, c, tot) && tot < |w.src|
      requires off == w.off + tot && |part| == PartLen(off, |w.src| - tot) && part == w.src[tot..tot + |part|]
      modifies this, ip
      ensures ok ==> InProgress(ip, w, c', tot + |part|)
      ensures !ok ==> Locked(ip) && |FreeBlocks(Fs().bits)| == 0 && w.Short(ip.inum)
    {
      hide WellFormed;
      hide Abs;
      hide Slot;
      hide ByteAt;
      hide PartLen;
      hide Wrote;
      hide KeepsPointers;
      hide Filled;
      hide Missing;
      hide OtherSlots;
      hide WriteLog;
      hide Tallied;
      hide Paced;
      c' := c;
      ghost var m := |part|;
      ghost var fs1, di1, logged1 := View(ip), ip.di, logged;
      ghost var b, bm;
      Unmapped(sb, fs1, ip.inum, off);
      ok, b, bm := WritePart(ip, off, part);
      if !ok {
        ShortBefore(w.fs, fs1, ip.inum, w.off, tot, m, |w.src|);
        return;
      }
      TurnMore(sb, w, fs1, View(ip), ip.inum, tot, m);
      MappedMore(sb, fs1, View(ip), ip.inum, off, m);
      ghost var mapped := Slot(fs1, ip.inum, DataSlot(off / BSIZE)) != 0;
      c' := Count(c.data + {b}, c.maps + bm, c.turns + 1, c.allocs + if mapped then 0 else 1);
      TallyMore(w, di1, ip.di, logged1, logged, c, b, bm, mapped);
      PaceMore(w, c, c', tot, m, mapped);
    }

    /** Frees the block that pointer k of inode i named in fs0, if any. */
    method FreeSlot(b: word, ghost fs0: Image, ghost i: nat, ghost done: set<int>, ghost k: int) returns (ok: bool)
      requires Valid() && WellFormed(sb, fs0) && IsSlot(fs0, i, k) && k !in done && b == Slot(fs0, i, k)
      requires Freeing(fs0, Fs().bits, i, done)
      modifies this
      ensures ok && Valid()
      ensures Freeing(fs0, Fs().bits, i, done + {k})
      ensures Fs().inodes == old(Fs()).inodes && Fs().data == old(Fs()).data
      ensures forall log0 | old(logged) == log0 + MapsOf(sb, fs0, i, done) ::
                logged == log0 + MapsOf(sb, fs0, i, done + {k})
    {
      hide WellFormed;
      hide Abs;
      hide Slot;
      hide Freeing;
      hide MapsOf;
      hide BBlock;
      MapsNext(sb, fs0, i, done, k);
      FreeNext(sb, fs0, Fs().bits, i, done, k);
      ok := true;
      if b != 0 {
        ok := Bfree(b);
      }
    }

    /** itrunc: no bfree panics, exactly the blocks of the inode are freed, and the disk
        inode follows. */
    method Itrunc(ip: Inode) returns (ok: bool)
      requires Locked(ip)
      modifies this, ip
      ensures ok && Locked(ip)
      ensures IsTruncated(old(View(ip)), View(ip), ip.inum)
      ensures Fs() == View(ip)
      ensures logged == old(logged) + TruncLog(sb, old(View(ip)), ip.inum)
    {
      hide WellFormed;
      hide Abs;
      hide Slot;
      hide Freeing;
      hide MapsOf;
      hide IBlock;
      ghost var fs0, data, inodes, di0 := View(ip), Fs().data, Fs().inodes, ip.di;
      FreeStart(fs0, ip.inum);
      SlotsInInode(fs0, ip.inum);
      ghost var done: set<int> := {};
      MapsNone(sb, fs0, ip.inum);
      var i := 0;
      while i < NDIRECT
        invariant 0 <= i <= NDIRECT && Valid() && Fs().data == data && Fs().inodes == inodes
        invariant ip.di == di0.(addrs := ip.di.addrs) && ip.di.Valid()
        invariant forall k | 0 <= k < i :: ip.di.addrs[k] == 0
        invariant forall k | i <= k <= NDIRECT :: ip.di.addrs[k] == di0.addrs[k]
        invariant Freeing(fs0, Fs().bits, ip.inum, done)
        invariant Covers(done, i)
        invariant logged == old(logged) + MapsOf(sb, fs0, ip.inum, done)
      {
        var _ := FreeSlot(ip.di.addrs[i], fs0, ip.inum, done, i);
        ip.di := ip.di.(addrs := ip.di.addrs[i := 0]);
        done := done + {i};
        i := i + 1;
      }
      if ip.di.addrs[NDIRECT] != 0 {
        var _, done' := FreeIndirect(ip, fs0, done);
        done := done';
      }
      ip.di := ip.di.(addrs := ip.di.addrs[NDIRECT := 0], size := 0);
      Iupdate(ip);
      assert ip.di.addrs == seq<word>(NDIRECT + 1, _ => 0);
      FreeAll(sb, fs0, Fs().bits, ip.inum, done);
      MapsAll(sb, fs0, ip.inum, done);
      assert View(ip) == Fs();
      TruncateWellFormed(sb, fs0, View(ip), ip.inum);
      ok := true;
    }

    /** The second half of itrunc: the blocks that the indirect block names, then the
        indirect block itself. */
    method FreeIndirect(ip: Inode, ghost fs0: Image, ghost done0: set<int>) returns (ok: bool, ghost done: set<int>)
      requires Valid() && Shape(sb, fs0) && WellFormed(sb, fs0) && ip.inum < sb.ninodes && ip.di.Valid()
      requires fs0.inodes[ip.inum].addrs[INDIRECT] == ip.di.addrs[INDIRECT] != 0 && Fs().data == fs0.data
      requires Freeing(fs0, Fs().bits, ip.inum, done0) && Covers(done0, NDIRECT)
      modifies this
      ensures ok && Valid()
      ensures Fs().inodes == old(Fs()).inodes && Fs().data == fs0.data
      ensures Covers(done, NSLOTS) && Freeing(fs0, Fs().bits, ip.inum, done)
      ensures forall log0 | old(logged) == log0 + MapsOf(sb, fs0, ip.inum, done0) ::
                logged == log0 + MapsOf(sb, fs0, ip.inum, done)
    {
      hide WellFormed;
      hide Abs;
      hide Slot;
      hide Freeing;
      hide GetWord;
      hide MapsOf;
      var ind := ip.di.addrs[INDIRECT];
      IndirectEntry(sb, fs0, ip.inum, 0);
      SlotsInInode(fs0, ip.inum);
      done := done0;
      var j := 0;
      while j < NINDIRECT
        invariant 0 <= j <= NINDIRECT && Valid()
        invariant Fs().inodes == old(Fs()).inodes && Fs().data == fs0.data
        invariant Freeing(fs0, Fs().bits, ip.inum, done)
        invariant Covers(done + {INDIRECT}, INDIRECT + 1 + j) && INDIRECT !in done
        invariant forall log0 | old(logged) == log0 + MapsOf(sb, fs0, ip.inum, done0) ::
                    logged == log0 + MapsOf(sb, fs0, ip.inum, done)
      {
        AbsInodes(sb, disk);
        IndirectEntry(sb, fs0, ip.inum, j);
        var _ := FreeSlot(GetWord(disk[ind], j), fs0, ip.inum, done, INDIRECT + 1 + j);
        done := done + {INDIRECT + 1 + j};
        j := j + 1;
      }
      ok := FreeSlot(ind, fs0, ip.inum, done, INDIRECT);
      done := done + {INDIRECT};
    }
  }

  ghost predicate Covers(done: set<int>, n: nat) {
    forall k: int :: k in done <==> 0 <= k < n
  }

  ghost predicate FreedBy(fs: Image, i: nat, done: set<int>, b: int) {
    b != 0 && exists k :: k in done && IsSlot(fs, i, k) && Slot(fs, i, k) == b
  }

  /** The bitmap after the blocks of the pointers in `done` have been freed. */
  ghost predicate Freeing(fs: Image, bits: seq<bool>, i: nat, done: set<int>) {
    && |bits| == |fs.bits|
    && forall b | 0 <= b < |bits| :: bits[b] == (fs.bits[b] && !FreedBy(fs, i, done, b))
  }

  lemma FreeStart(fs: Image, i: nat)
    ensures Freeing(fs, fs.bits, i, {})
  {
  }

  /** The next block is still marked, so freeing it does not panic. */
  lemma FreeNext(sb: Super, fs: Image, bits: seq<bool>, i: nat, done: set<int>, k: int)
    requires WellFormed(sb, fs) && IsSlot(fs, i, k) && k !in done && Freeing(fs, bits, i, done)
    ensures var b := Slot(fs, i, k);
            if b == 0 then Freeing(fs, bits, i, done + {k})
            else b < |bits| && bits[b] && Freeing(fs, bits[b := false], i, done + {k})
  {
    hide SlotOf;
    hide Slot;
    hide Exact;
    hide NoHoles;
    var b := Slot(fs, i, k);
    forall x | 0 <= x < |bits|
      ensures FreedBy(fs, i, done + {k}, x) <==> FreedBy(fs, i, done, x) || (x != 0 && x == b)
    {
      if x != 0 && x == b {
        assert k in done + {k};
      }
    }
    assert b != 0 ==> !FreedBy(fs, i, done, b);
  }

  lemma MapsNone(sb: Super, fs: Image, i: nat)
    ensures MapsOf(sb, fs, i, {}) == {}
  {
  }

  lemma MapsNext(sb: Super, fs: Image, i: nat, done: set<int>, k: int)
    requires IsSlot(fs, i, k)
    ensures MapsOf(sb, fs, i, done + {k}) ==
            MapsOf(sb, fs, i, done) + if Slot(fs, i, k) == 0 then {} else {BBlock(sb, Slot(fs, i, k))}
  {
    hide SlotOf;
    hide Slot;
    hide BBlock;
    var b := Slot(fs, i, k);
    var more := MapsOf(sb, fs, i, done + {k});
    forall x | x in MapsOf(sb, fs, i, done) ensures x in more {
      var l :| l in done && IsSlot(fs, i, l) && Slot(fs, i, l) != 0 && BBlock(sb, Slot(fs, i, l)) == x;
      assert l in done + {k};
    }
    if b != 0 { assert k in done + {k}; }
  }

  /** The pointers done are all that are not null. */
  lemma MapsAll(sb: Super, fs: Image, i: nat, done: set<int>)
    requires Shape(sb, fs) && i < |fs.inodes|
    requires Covers(done, if fs.inodes[i].addrs[INDIRECT] == 0 then NDIRECT else NSLOTS)
    ensures MapsOf(sb, fs, i, done) == MapsOf(sb, fs, i, Range(0, NSLOTS))
  {
    SlotsInInode(fs, i);
    hide SlotOf;
    hide Slot;
    hide BBlock;
    forall x | x in MapsOf(sb, fs, i, Range(0, NSLOTS)) ensures x in MapsOf(sb, fs, i, done) {
      var l :| l in Range(0, NSLOTS) && IsSlot(fs, i, l) && Slot(fs, i, l) != 0 && BBlock(sb, Slot(fs, i, l)) == x;
      assert l in done;
    }
    forall x | x in MapsOf(sb, fs, i, done) ensures x in MapsOf(sb, fs, i, Range(0, NSLOTS)) {
      var l :| l in done && IsSlot(fs, i, l) && Slot(fs, i, l) != 0 && BBlock(sb, Slot(fs, i, l)) == x;
      assert l in Range(0, NSLOTS);
    }
  }

  /** When every pointer is done the bitmap has lost exactly the inode's blocks. */
  lemma FreeAll(sb: Super, fs: Image, bits: seq<bool>, i: nat, done: set<int>)
    requires Shape(sb, fs) && i < |fs.inodes| && Freeing(fs, bits, i, done)
    requires Covers(done, if fs.inodes[i].addrs[INDIRECT] == 0 then NDIRECT else NSLOTS)
    ensures forall b | 0 <= b < |fs.bits| :: bits[b] == (fs.bits[b] && !OwnedBy(fs, i, b))
  {
    SlotsInInode(fs, i);
    hide SlotOf;
    hide Slot;
    forall b | 0 <= b < |fs.bits| ensures FreedBy(fs, i, done, b) <==> OwnedBy(fs, i, b) {
      if OwnedBy(fs, i, b) {
        var k :| IsSlot(fs, i, k) && Slot(fs, i, k) == b;
        assert k in done;
      }
    }
  }

  /** A call of writei: the image, inode, disk inodes and log when it started, where it
      writes, and what. */
  datatype Job = Job(fs: Image, di: Dinode, inodes: seq<Dinode>, logged: set<nat>, off: nat, src: seq<byte>) {
    ghost predicate Valid(i: nat) {
      && i < |fs.inodes| && fs.inodes[i] == di && di.Valid()
      && off <= di.size && off + |src| <= MAXFILE * BSIZE
    }

    /** It needed more blocks than were free. */
    ghost predicate Short(i: nat) {
      Valid(i) && |FreeBlocks(fs.bits)| < |Missing(fs, i, off, |src|)|
    }
  }

  /** Bookkeeping for the log: data blocks and bitmap blocks logged, turns of the loop, and
      how many of them found their block unmapped. */
  datatype Count = Count(data: set<nat>, maps: set<nat>, turns: nat, allocs: nat)

  ghost predicate Tallied(w: Job, di: Dinode, logged: set<nat>, c: Count) {
    && di.Valid() && w.di.Valid()
    && logged <= w.logged + c.data + c.maps + IndirectSet(di)
    && |c.data| <= c.turns
    && |c.maps| <= c.allocs + (if di.addrs[INDIRECT] != w.di.addrs[INDIRECT] then 1 else 0)
    && (w.di.addrs[INDIRECT] != 0 ==> di.addrs[INDIRECT] == w.di.addrs[INDIRECT])
  }

  /** After each turn but the last the position is at a block boundary, and a turn that
      starts inside a block below the end of the file allocates nothing. */
  ghost predicate Paced(w: Job, c: Count, tot: nat) {
    && (c.turns == 0 <==> tot == 0)
    && (tot > 0 ==> (w.off + tot - 1) / BSIZE == w.off / BSIZE + c.turns - 1)
    && (0 < tot < |w.src| ==> (w.off + tot) % BSIZE == 0)
    && c.allocs <= c.turns
    && (tot > 0 && w.off % BSIZE != 0 ==> c.allocs <= c.turns - 1)
  }

  lemma TallyMore(w: Job, di: Dinode, di': Dinode, logged: set<nat>, logged': set<nat>, c: Count, b: nat, bm: set<nat>,
                  mapped: bool)
    requires Tallied(w, di, logged, c) && di'.Valid()
    requires logged' <= logged + bm + {b} + IndirectSet(di')
    requires |bm| <= 1 + (if di.addrs[INDIRECT] != di'.addrs[INDIRECT] then 1 else 0)
    requires di.addrs[INDIRECT] != 0 ==> di'.addrs[INDIRECT] == di.addrs[INDIRECT]
    requires mapped ==> di' == di && bm == {}
    ensures Tallied(w, di', logged', Count(c.data + {b}, c.maps + bm, c.turns + 1, c.allocs + if mapped then 0 else 1))
  {
  }

  lemma PaceMore(w: Job, c: Count, c': Count, tot: nat, m: nat, mapped: bool)
    requires Paced(w, c, tot) && tot < |w.src| && m == PartLen(w.off + tot, |w.src| - tot)
    requires c'.turns == c.turns + 1 && c'.allocs == c.allocs + if mapped then 0 else 1
    requires tot == 0 && w.off % BSIZE != 0 ==> mapped
    ensures Paced(w, c', tot + m)
  {
  }

  lemma LoggedBound(w: Job, di: Dinode, logged: set<nat>, c: Count)
    requires Tallied(w, di, logged, c) && Paced(w, c, |w.src|)
    requires w.src == [] ==> di == w.di
    ensures |logged - w.logged| <= LogBound(w.off, |w.src|) - 1
  {
    var bound := c.data + c.maps + IndirectSet(di);
    SubsetSize(logged - w.logged, bound);
    assert |bound| <= |c.data| + |c.maps| + |IndirectSet(di)|;
  }

  lemma PlusOne(l0: set<nat>, l: set<nat>, x: nat)
    ensures |l + {x} - l0| <= |l - l0| + 1
  {
    SubsetSize(l + {x} - l0, (l - l0) + {x});
  }

  lemma WroteNothing(fs: Image, i: nat, off: nat, src: seq<byte>)
    requires i < |fs.inodes| && forall j | 0 <= j < |fs.inodes| :: fs.inodes[j].Valid()
    ensures Wrote(fs, fs, i, off, src, 0)
  {
  }

  lemma WroteMore(fs0: Image, fs1: Image, fs2: Image, i: nat, off0: nat, src: seq<byte>, tot: nat, m: nat)
    requires tot + m <= |src|
    requires Wrote(fs0, fs1, i, off0, src, tot) && Wrote(fs1, fs2, i, off0 + tot, src[tot..tot + m], m)
    ensures Wrote(fs0, fs2, i, off0, src, tot + m)
  {
    hide ByteAt;
    forall j | 0 <= j < |fs0.inodes| && j != i ensures SameBytes(fs0, fs2, j) {
      assert SameBytes(fs0, fs1, j) && SameBytes(fs1, fs2, j);
    }
  }

  /** Blocks below the size are mapped. */
  lemma MappedPrefix(sb: Super, fs: Image, i: nat, off: nat)
    requires WellFormed(sb, fs) && i < |fs.inodes| && off <= fs.inodes[i].size
    ensures forall bn: nat | bn < MAXFILE && bn * BSIZE < off :: Slot(fs, i, DataSlot(bn)) != 0
  {
    hide Slot;
  }

  lemma MappedMore(sb: Super, fs1: Image, fs2: Image, i: nat, off: nat, m: nat)
    requires KeepsPointers(fs1, fs2, i) && off / BSIZE < MAXFILE && 0 < m <= BSIZE - off % BSIZE
    requires forall bn: nat | bn < MAXFILE && bn * BSIZE < off :: Slot(fs1, i, DataSlot(bn)) != 0
    requires Slot(fs2, i, DataSlot(off / BSIZE)) != 0
    ensures forall bn: nat | bn < MAXFILE && bn * BSIZE < off + m :: Slot(fs2, i, DataSlot(bn)) != 0
  {
    hide Slot;
    forall bn: nat | bn < MAXFILE && bn * BSIZE < off + m ensures Slot(fs2, i, DataSlot(bn)) != 0 {
      if bn * BSIZE >= off {
        assert bn == off / BSIZE;
      }
    }
  }

  /** A block that is not mapped lies at or past the end of the file. */
  lemma Unmapped(sb: Super, fs: Image, i: nat, off: nat)
    requires WellFormed(sb, fs) && i < |fs.inodes| && off / BSIZE < MAXFILE
    ensures Slot(fs, i, DataSlot(off / BSIZE)) == 0 ==> fs.inodes[i].size <= off / BSIZE * BSIZE <= off
  {
    hide Slot;
  }

  /** c with src written over it at off, longer if src ends past its end. */
  function Splice(c: seq<byte>, off: nat, src: seq<byte>): seq<byte>
    requires off <= |c|
  {
    c[..off] + src + (if off + |src| < |c| then c[off + |src|..] else [])
  }

  lemma Spliced(sb: Super, fs0: Image, fs1: Image, fs2: Image, i: nat, off: nat, src: seq<byte>)
    requires Wrote(fs0, fs1, i, off, src, |src|)
    requires |fs2.inodes| == |fs0.inodes| && fs2.inodes[i].Valid()
    requires forall j | 0 <= j < |fs0.inodes| :: SameBytes(fs1, fs2, j)
    requires off <= fs0.inodes[i].size <= MAXFILE * BSIZE && off + |src| <= MAXFILE * BSIZE
    requires fs2.inodes[i].size == if |src| > 0 && off + |src| > fs0.inodes[i].size then off + |src|
             else fs0.inodes[i].size
    ensures Content(fs2, i) == Splice(Content(fs0, i), off, src)
    ensures forall j | 0 <= j < |fs0.inodes| && j != i :: SameBytes(fs0, fs2, j)
  {
    hide ByteAt;
    assert SameBytes(fs1, fs2, i);
    forall j | 0 <= j < |fs0.inodes| && j != i ensures SameBytes(fs0, fs2, j) {
      assert SameBytes(fs0, fs1, j) && SameBytes(fs1, fs2, j);
    }
  }

  /** fs is fs0 with the first tot bytes of src written to inode i at off: every other
      byte of inode i, and every byte of every other inode, is the same. */
  ghost predicate Wrote(fs0: Image, fs: Image, i: nat, off: nat, src: seq<byte>, tot: nat)
    requires tot <= |src|
  {
    && i < |fs0.inodes| == |fs.inodes| && fs0.inodes[i].Valid() && fs.inodes[i].Valid()
    && (forall pos: nat | pos < MAXFILE * BSIZE ::
          ByteAt(fs, i, pos) == if off <= pos < off + tot then src[pos - off] else ByteAt(fs0, i, pos))
    && (forall j | 0 <= j < |fs0.inodes| && j != i :: SameBytes(fs0, fs, j))
  }

  ghost predicate KeepsPointers(fs0: Image, fs: Image, i: nat) {
    && i < |fs0.inodes| && i < |fs.inodes| && fs0.inodes[i].Valid() && fs.inodes[i].Valid()
    && forall l | 0 <= l < NSLOTS && Slot(fs0, i, l) != 0 :: Slot(fs, i, l) == Slot(fs0, i, l)
  }

  /** Another m bytes of a job. */
  lemma TurnMore(sb: Super, w: Job, fs1: Image, fs2: Image, i: nat, tot: nat, m: nat)
    requires tot + m <= |w.src| && KeepsPointers(fs1, fs2, i)
    requires Wrote(w.fs, fs1, i, w.off, w.src, tot) && Wrote(fs1, fs2, i, w.off + tot, w.src[tot..tot + m], m)
    requires Filled(w.fs, fs1, i, w.off, tot) && Filled(fs1, fs2, i, w.off + tot, m)
    requires OtherSlots(w.fs, fs1, i) && OtherSlots(fs1, fs2, i)
    ensures Wrote(w.fs, fs2, i, w.off, w.src, tot + m) && Filled(w.fs, fs2, i, w.off, tot + m)
    ensures OtherSlots(w.fs, fs2, i)
    ensures i < |w.fs.inodes| && w.fs.inodes[i].Valid() && fs1.inodes[i].Valid()
    ensures WriteLog(sb, w.fs, fs1, i, w.off, tot) + WriteLog(sb, fs1, fs2, i, w.off + tot, m)
            <= WriteLog(sb, w.fs, fs2, i, w.off, tot + m)
  {
    hide Slot;
    hide ByteAt;
    hide SameBytes;
    hide WriteLog;
    hide OtherSlots;
    hide Missing;
    hide Wanted;
    FilledMore(w.fs, fs1, fs2, i, w.off, tot, m);
    WriteLogMore(sb, w.fs, fs1, fs2, i, w.off, tot, m);
    OthersTrans(w.fs, fs1, fs2, i);
    WroteMore(w.fs, fs1, fs2, i, w.off, w.src, tot, m);
  }

  lemma PointerRange(sb: Super, fs: Image, i: nat, k: nat)
    requires WellFormed(sb, fs) && IsSlot(fs, i, k) && Slot(fs, i, k) != 0
    ensures sb.nmeta <= Slot(fs, i, k) < sb.size
  {
    hide Slot;
  }

  lemma KeepsAll(sb: Super, fs: Image, i: nat, bn: nat, data: Block)
    requires WellFormed(sb, fs) && i < |fs.inodes| && bn < MAXFILE && Slot(fs, i, DataSlot(bn)) != 0
    ensures Slot(fs, i, DataSlot(bn)) < |fs.data|
    ensures var fs' := WithBlock(fs, Slot(fs, i, DataSlot(bn)), data);
            forall l | 0 <= l < NSLOTS :: Slot(fs', i, l) == Slot(fs, i, l)
  {
    hide Slot;
    WriteSlots(sb, fs, i, bn, data, i, 0);
    var fs' := WithBlock(fs, Slot(fs, i, DataSlot(bn)), data);
    forall l | 0 <= l < NSLOTS ensures Slot(fs', i, l) == Slot(fs, i, l) {
      WriteSlots(sb, fs, i, bn, data, i, l);
    }
  }

  lemma PartWritten(sb: Super, fs0: Image, fs1: Image, fs2: Image, i: nat, off: nat, part: seq<byte>, data: Block)
    requires WellFormed(sb, fs1) && i < |fs0.inodes| == |fs1.inodes| == |fs2.inodes|
    requires fs2.inodes[i].Valid()
    requires forall j | 0 <= j < |fs0.inodes| :: SameBytes(fs0, fs1, j)
    requires 0 < |part| <= BSIZE - off % BSIZE && off + |part| <= MAXFILE * BSIZE
    requires var b := Slot(fs1, i, DataSlot(off / BSIZE));
             && 0 < b < |fs1.data|
             && data == fs1.data[b][..off % BSIZE] + part + fs1.data[b][off % BSIZE + |part|..]
    requires forall pos: nat | pos < MAXFILE * BSIZE ::
               ByteAt(fs2, i, pos) == if pos / BSIZE == off / BSIZE then data[pos % BSIZE] else ByteAt(fs1, i, pos)
    requires forall j | 0 <= j < |fs0.inodes| && j != i :: SameBytes(fs1, fs2, j)
    ensures Wrote(fs0, fs2, i, off, part, |part|)
  {
    hide WellFormed;
    hide Slot;
    assert SameBytes(fs0, fs1, i);
    forall pos: nat | pos < MAXFILE * BSIZE
      ensures ByteAt(fs2, i, pos) == if off <= pos < off + |part| then part[pos - off] else ByteAt(fs0, i, pos)
    {
      if off <= pos < off + |part| {
        SameBlock(off, pos - off);
      } else if pos / BSIZE == off / BSIZE {
        assert pos % BSIZE < off % BSIZE || pos % BSIZE >= off % BSIZE + |part|;
      }
    }
    forall j | 0 <= j < |fs0.inodes| && j != i ensures SameBytes(fs0, fs2, j) {
      assert SameBytes(fs0, fs1, j) && SameBytes(fs1, fs2, j);
    }
  }

  /** What a turn of writei's loop comes to: fs1 has the block, and then the block has part. */
  lemma PartDone(sb: Super, fs0: Image, fs1: Image, i: nat, off: nat, part: seq<byte>, data: Block)
    requires WellFormed(sb, fs1) && i < |fs0.inodes| == |fs1.inodes| && fs0.inodes[i].Valid()
    requires forall j | 0 <= j < |fs0.inodes| :: SameBytes(fs0, fs1, j)
    requires forall l | 0 <= l < NSLOTS && Slot(fs0, i, l) != 0 :: Slot(fs1, i, l) == Slot(fs0, i, l)
    requires OtherSlots(fs0, fs1, i) && Filled(fs0, fs1, i, off / BSIZE * BSIZE, BSIZE)
    requires 0 < |part| <= BSIZE - off % BSIZE && off + |part| <= MAXFILE * BSIZE
    requires var b := Slot(fs1, i, DataSlot(off / BSIZE));
             && 0 < b < |fs1.data|
             && data == fs1.data[b][..off % BSIZE] + part + fs1.data[b][off % BSIZE + |part|..]
    ensures var fs2 := WithBlock(fs1, Slot(fs1, i, DataSlot(off / BSIZE)), data);
            && WellFormed(sb, fs2) && Wrote(fs0, fs2, i, off, part, |part|) && Filled(fs0, fs2, i, off, |part|)
            && KeepsPointers(fs0, fs2, i) && OtherSlots(fs0, fs2, i) && Slot(fs2, i, DataSlot(off / BSIZE)) != 0
            && WriteLog(sb, fs0, fs2, i, off, |part|) == WriteLog(sb, fs0, fs1, i, off / BSIZE * BSIZE, BSIZE)
  {
    assert fs1.inodes[i].Valid();
    hide WellFormed;
    hide Slot;
    hide ByteAt;
    hide Filled;
    hide Wrote;
    hide WriteLog;
    hide OtherSlots;
    hide SameBytes;
    var bn := off / BSIZE;
    var fs2 := WithBlock(fs1, Slot(fs1, i, DataSlot(bn)), data);
    WriteBlock(sb, fs1, i, bn, data);
    PartWritten(sb, fs0, fs1, fs2, i, off, part, data);
    KeepsAll(sb, fs1, i, bn, data);
    FilledInBlock(fs0, fs1, i, off, |part|);
    FilledSame(fs0, fs1, fs2, i, off, |part|);
    WriteLogWithin(sb, fs0, fs1, i, off, |part|);
    WriteLogSame(sb, fs0, fs1, fs2, i, off, |part|);
    BlockOthers(sb, fs1, i, bn, data);
    OthersTrans(fs0, fs1, fs2, i);
  }

  lemma SlotsInInode(fs: Image, i: nat)
    requires i < |fs.inodes| && fs.inodes[i].Valid()
    ensures forall k | 0 <= k <= INDIRECT :: Slot(fs, i, k) == fs.inodes[i].addrs[k]
    ensures fs.inodes[i].addrs[INDIRECT] == 0 ==> forall k | INDIRECT < k < NSLOTS :: Slot(fs, i, k) == 0
  {
  }

  lemma ResizeSlots(fs: Image, i: nat, size: word)
    requires i < |fs.inodes| && fs.inodes[i].Valid()
    ensures forall k | 0 <= k < NSLOTS :: Slot(Resized(fs, i, size), i, k) == Slot(fs, i, k)
  {
  }

  lemma SameBytesRefl(sb: Super, fs: Image)
    requires Shape(sb, fs)
    ensures forall j | 0 <= j < sb.ninodes :: SameBytes(fs, fs, j)
  {
  }

  lemma SameBytesTrans(fs0: Image, fs1: Image, fs2: Image)
    requires forall j | 0 <= j < |fs0.inodes| :: SameBytes(fs0, fs1, j)
    requires |fs1.inodes| == |fs0.inodes|
    requires forall j | 0 <= j < |fs0.inodes| :: SameBytes(fs1, fs2, j)
    ensures forall j | 0 <= j < |fs0.inodes| :: SameBytes(fs0, fs2, j)
  {
    hide ByteAt;
    forall j | 0 <= j < |fs0.inodes| ensures SameBytes(fs0, fs2, j) {
      assert SameBytes(fs0, fs1, j) && SameBytes(fs1, fs2, j);
    }
  }

  lemma MetaOfView(sb: Super, fs: Image, i: nat, di: Dinode)
    requires Shape(sb, fs) && i < |fs.inodes| && WellFormed(sb, WithInode(fs, i, di))
    ensures MetaUsed(sb, fs)
  {
  }

  lemma HangInInodeAll(sb: Super, fs: Image, i: nat, k: nat, a: word)
    requires WellFormed(sb, fs) && FreeBlock(sb, fs, a)
    requires i < |fs.inodes| && k <= INDIRECT && fs.inodes[i].addrs[k] == 0 && fs.inodes[i].kind != 0
    ensures var fs' := HungInInode(fs, i, k, a);
            && WellFormed(sb, fs')
            && (forall j | 0 <= j < sb.ninodes :: SameBytes(fs, fs', j))
            && Slot(fs, i, k) == 0
            && (forall l | 0 <= l < NSLOTS && l != k :: Slot(fs', i, l) == Slot(fs, i, l))
  {
    var fs' := HungInInode(fs, i, k, a);
    HangInInode(sb, fs, i, k, a);
    hide SlotOf;
    hide Slot;
    hide WellFormed;
    GainWellFormed(sb, fs, fs', i, k, a);
    forall j | 0 <= j < sb.ninodes ensures SameBytes(fs, fs', j) {
      HangBytes(sb, fs, fs', i, k, a, j);
    }
  }

  /** The indirect block lies among the data blocks and holds the entry's pointer. */
  lemma IndirectEntry(sb: Super, fs: Image, i: nat, e: nat)
    requires WellFormed(sb, fs) && i < |fs.inodes| && e < NINDIRECT && fs.inodes[i].addrs[INDIRECT] != 0
    ensures sb.nmeta <= fs.inodes[i].addrs[INDIRECT] < sb.size && fs.bits[fs.inodes[i].addrs[INDIRECT]]
    ensures Slot(fs, i, INDIRECT + 1 + e) == GetWord(fs.data[fs.inodes[i].addrs[INDIRECT]], e)
  {
    hide GetWord;
    assert IsSlot(fs, i, INDIRECT);
    assert Slot(fs, i, INDIRECT) == fs.inodes[i].addrs[INDIRECT];
  }

  lemma HangInIndirectAll(sb: Super, fs: Image, i: nat, e: nat, a: word)
    requires WellFormed(sb, fs) && FreeBlock(sb, fs, a)
    requires i < |fs.inodes| && e < NINDIRECT && 0 != fs.inodes[i].addrs[INDIRECT] < |fs.data|
    requires Slot(fs, i, INDIRECT + 1 + e) == 0 && fs.inodes[i].kind != 0
    ensures var fs' := HungInIndirect(fs, i, e, a);
            && WellFormed(sb, fs')
            && (forall j | 0 <= j < sb.ninodes :: SameBytes(fs, fs', j))
            && Slot(fs', i, INDIRECT + 1 + e) == a
            && (forall l | 0 <= l < NSLOTS && l != INDIRECT + 1 + e :: Slot(fs', i, l) == Slot(fs, i, l))
  {
    hide GetWord;
    hide PutWord;
    var fs' := HungInIndirect(fs, i, e, a);
    var k := INDIRECT + 1 + e;
    HangInIndirect(sb, fs, i, e, a);
    IndirectEntry(sb, fs, i, e);
    assert Slot(fs, i, INDIRECT) == fs.inodes[i].addrs[INDIRECT];
    hide SlotOf;
    hide Slot;
    hide WellFormed;
    GainWellFormed(sb, fs, fs', i, k, a);
    forall j | 0 <= j < sb.ninodes ensures SameBytes(fs, fs', j) {
      HangBytes(sb, fs, fs', i, k, a, j);
    }
  }

  lemma SizeBound(sb: Super, fs: Image, i: nat)
    requires WellFormed(sb, fs) && i < |fs.inodes|
    ensures fs.inodes[i].size <= MAXFILE * BSIZE
  {
  }

  /** A position below the size lies in a mapped data block. */
  lemma MappedBelowSize(sb: Super, fs: Image, i: nat, off: nat)
    requires WellFormed(sb, fs) && i < |fs.inodes| && off < fs.inodes[i].size
    ensures off / BSIZE < MAXFILE
    ensures Slot(fs, i, DataSlot(off / BSIZE)) != 0
    ensures sb.nmeta <= Slot(fs, i, DataSlot(off / BSIZE)) < sb.size
  {
    hide Slot;
    SizeBound(sb, fs, i);
    assert off / BSIZE * BSIZE <= off;
    assert IsSlot(fs, i, DataSlot(off / BSIZE));
  }

  lemma SameBlock(off: nat, k: nat)
    requires k < BSIZE - off % BSIZE
    ensures (off + k) / BSIZE == off / BSIZE && (off + k) % BSIZE == off % BSIZE + k
  {
  }

  /** Part of one data block is the same part of the file. */
  lemma ReadChunk(sb: Super, fs: Image, i: nat, off: nat, m: nat)
    requires WellFormed(sb, fs) && i < |fs.inodes|
    requires fs.inodes[i].size <= MAXFILE * BSIZE
    requires m > 0 && off + m <= fs.inodes[i].size && m <= BSIZE - off % BSIZE
    ensures var b := Slot(fs, i, DataSlot(off / BSIZE));
            b < |fs.data| && fs.data[b][off % BSIZE..off % BSIZE + m] == Content(fs, i)[off..off + m]
  {
    MappedBelowSize(sb, fs, i, off);
    hide WellFormed;
    hide Slot;
    var b := Slot(fs, i, DataSlot(off / BSIZE));
    var part, want := fs.data[b][off % BSIZE..off % BSIZE + m], Content(fs, i)[off..off + m];
    forall k: nat | k < m ensures part[k] == want[k] {
      SameBlock(off, k);
    }
  }
}
