/** The image that a raw disk stands for, and what each kind of raw write does to it. */
module FsAbs {
  import opened Blocks
  import opened FsLayout
  import opened FsModel
  import opened FsUpdates

  /** Only blocks from nmeta on hold file data. */
  ghost function DataBlock(sb: Super, d: Disk, b: nat): Block
    requires b < |d|
  {
    if b < sb.nmeta then ZeroBlock() else d[b]
  }

  ghost function Abs(sb: Super, d: Disk): (fs: Image)
    requires DiskFits(sb, d)
    ensures Shape(sb, fs)
  {
    hide IBlock;
    hide BBlock;
    hide Bit;
    hide ReadInode;
    Ranges(sb);
    Image(seq(sb.size, b requires 0 <= b < sb.size => Bit(sb, d, b)),
          seq<Dinode>(sb.ninodes, i requires 0 <= i < sb.ninodes => ReadInode(sb, d, i)),
          seq<Block>(sb.size, b requires 0 <= b < sb.size => DataBlock(sb, d, b)))
  }

  lemma AbsBits(sb: Super, d: Disk)
    requires DiskFits(sb, d)
    ensures forall b: nat | b < sb.size :: BBlock(sb, b) < |d| && Abs(sb, d).bits[b] == Bit(sb, d, b)
  {
    hide BBlock;
    hide Bit;
    Ranges(sb);
  }

  lemma AbsInodes(sb: Super, d: Disk)
    requires DiskFits(sb, d)
    ensures forall i: nat | i < sb.ninodes :: IBlock(sb, i) < |d| && Abs(sb, d).inodes[i] == ReadInode(sb, d, i)
    ensures forall b: nat | sb.nmeta <= b < sb.size :: Abs(sb, d).data[b] == d[b]
  {
    hide IBlock;
    hide ReadInode;
    Ranges(sb);
  }

  lemma AbsPutBitmap(sb: Super, d: Disk, b: nat, on: bool)
    requires DiskFits(sb, d) && b < sb.size
    ensures Abs(sb, PutBitmap(sb, d, b, on)) == Abs(sb, d).(bits := Abs(sb, d).bits[b := on])
  {
    hide Bit;
    hide PutBitmap;
    hide ReadInode;
    hide IBlock;
    hide BBlock;
    Ranges(sb);
    PutBitmapFrame(sb, d, b, on);
    var d' := PutBitmap(sb, d, b, on);
    forall j: nat | j < sb.size ensures Bit(sb, d', j) == if j == b then on else Bit(sb, d, j) {
      BitPut(sb, d, b, on, j);
    }
    assert Abs(sb, d').bits == Abs(sb, d).bits[b := on];
    assert Abs(sb, d').inodes == Abs(sb, d).inodes;
    assert Abs(sb, d').data == Abs(sb, d).data;
  }

  lemma PutBitmapFrame(sb: Super, d: Disk, b: nat, on: bool)
    requires DiskFits(sb, d) && b < sb.size
    ensures var d' := PutBitmap(sb, d, b, on);
            && (forall x | 0 <= x < |d| && (x < sb.bmapstart || sb.nmeta <= x) :: d'[x] == d[x])
            && forall i: nat | i < sb.ninodes :: ReadInode(sb, d', i) == ReadInode(sb, d, i)
  {
    hide PutBit;
    hide GetInode;
    hide IBlock;
    hide BBlock;
    Ranges(sb);
  }

  lemma AbsWriteInode(sb: Super, d: Disk, inum: nat, di: Dinode)
    requires DiskFits(sb, d) && inum < sb.ninodes && di.Valid()
    ensures Abs(sb, WriteInode(sb, d, inum, di)) == WithInode(Abs(sb, d), inum, di)
  {
    hide Bit;
    hide ReadInode;
    hide WriteInode;
    hide IBlock;
    hide BBlock;
    Ranges(sb);
    var d' := WriteInode(sb, d, inum, di);
    WriteInodeFrame(sb, d, inum, di);
    forall j: nat | j < sb.ninodes ensures ReadInode(sb, d', j) == if j == inum then di else ReadInode(sb, d, j) {
      ReadWriteInode(sb, d, inum, di, j);
    }
    assert Abs(sb, d').inodes == Abs(sb, d).inodes[inum := di];
    assert Abs(sb, d').bits == Abs(sb, d).bits;
    assert Abs(sb, d').data == Abs(sb, d).data;
  }

  lemma WriteInodeFrame(sb: Super, d: Disk, inum: nat, di: Dinode)
    requires DiskFits(sb, d) && inum < sb.ninodes && di.Valid()
    ensures var d' := WriteInode(sb, d, inum, di);
            && (forall x | 0 <= x < |d| && (x < sb.inodestart || sb.bmapstart <= x) :: d'[x] == d[x])
            && forall b: nat | b < sb.size :: Bit(sb, d', b) == Bit(sb, d, b)
  {
    hide PutInode;
    hide TestBit;
    hide IBlock;
    hide BBlock;
    Ranges(sb);
  }

  lemma AbsWriteData(sb: Super, d: Disk, b: nat, data: Block)
    requires DiskFits(sb, d) && sb.nmeta <= b < sb.size
    ensures Abs(sb, d[b := data]) == WithBlock(Abs(sb, d), b, data)
  {
    hide TestBit;
    hide GetInode;
    hide IBlock;
    hide BBlock;
    Ranges(sb);
    var d' := d[b := data];
    assert Abs(sb, d').inodes == Abs(sb, d).inodes;
    assert Abs(sb, d').bits == Abs(sb, d).bits;
    assert Abs(sb, d').data == Abs(sb, d).data[b := data];
  }

  /** Bit bi of the bitmap block that starts at block b. */
  lemma BitInBlock(sb: Super, d: Disk, q: nat, b: nat, bi: nat)
    requires DiskFits(sb, d) && b == q * BPB && bi < BPB && b + bi < sb.size
    ensures bi / 8 < BSIZE && bi % 8 < 8
    ensures BBlock(sb, b + bi) == BBlock(sb, b) < |d|
    ensures Bit(sb, d, b + bi) == TestBit(d[BBlock(sb, b)][bi / 8], bi % 8)
  {
    BitOffset(q, bi);
    BitOffset(q, 0);
    hide TestBit;
    Ranges(sb);
  }

  lemma BitOffset(q: nat, bi: nat)
    requires bi < BPB
    ensures (q * BPB + bi) / BPB == q && (q * BPB + bi) % BPB == bi
    ensures (q * BPB + bi) % 8 == bi % 8 && bi / 8 < BSIZE
  {
  }

  // ------------------------------------------------------------- a zeroed disk

  /** The disk with bits 0 to n of the bitmap turned on, one after the other. */
  ghost function Marked(sb: Super, d: Disk, n: nat): (r: Disk)
    requires DiskFits(sb, d) && n <= sb.size
    ensures DiskFits(sb, r)
  {
    if n == 0 then d
    else
      Ranges(sb);
      PutBitmap(sb, Marked(sb, d, n - 1), n - 1, true)
  }

  lemma {:induction false} MarkedAbs(sb: Super, d: Disk, n: nat)
    requires DiskFits(sb, d) && n <= sb.size && forall b | 0 <= b < sb.size :: !Abs(sb, d).bits[b]
    ensures Abs(sb, Marked(sb, d, n)) == Abs(sb, d).(bits := seq(sb.size, b => b < n))
  {
    hide Abs;
    hide PutBitmap;
    if n == 0 {
      assert Abs(sb, d).bits == seq(sb.size, b => b < 0);
    } else {
      MarkedAbs(sb, d, n - 1);
      AbsPutBitmap(sb, Marked(sb, d, n - 1), n - 1, true);
      assert seq(sb.size, b => b < n - 1)[n - 1 := true] == seq(sb.size, b => b < n);
    }
  }

  /** Nothing below the inode blocks is part of the image. */
  lemma LowBlock(sb: Super, d: Disk, b: nat, data: Block)
    requires DiskFits(sb, d) && b < sb.inodestart
    ensures Abs(sb, d[b := data]) == Abs(sb, d)
  {
    hide TestBit;
    hide GetInode;
    hide IBlock;
    hide BBlock;
    Ranges(sb);
    var d' := d[b := data];
    assert Abs(sb, d').inodes == Abs(sb, d).inodes;
    assert Abs(sb, d').bits == Abs(sb, d).bits;
    assert Abs(sb, d').data == Abs(sb, d).data;
  }

  lemma ZeroUnmarked(sb: Super, d: Disk)
    requires DiskFits(sb, d) && forall b | 0 <= b < |d| :: d[b] == ZeroBlock()
    ensures forall b | 0 <= b < sb.size :: !Abs(sb, d).bits[b]
    ensures Abs(sb, d).data == seq(sb.size, _ => ZeroBlock())
  {
    Ranges(sb);
    AbsBits(sb, d);
    forall b: nat | b < sb.size ensures !Bit(sb, d, b) {
      ZeroBit(b % 8);
    }
  }

  lemma {:induction false} ZeroBit(k: nat)
    ensures !TestBit(0, k)
  {
    if k > 0 { ZeroBit(k - 1); }
  }
}
