/** The on-disk layout of fs.h: bitmap bits and inode records inside raw blocks. */
module FsLayout {
  import opened Blocks

  const NDIRECT := 12
  const NINDIRECT := 128
  const MAXFILE := NDIRECT + NINDIRECT
  const IPB := 8          // inodes per block
  const BPB := BSIZE * 8  // bitmap bits per block
  const INODEWORDS := 16  // sizeof(struct dinode) / sizeof(uint)

  type short = x: int | 0 <= x < 0x1_0000

  // inode types (stat.h); zero is a free inode
  const T_DIR: short := 1
  const T_FILE: short := 2
  const T_DEV: short := 3

  /** struct dinode; `addrs` lists NDIRECT blocks and the indirect block. */
  datatype Dinode = Dinode(kind: short, major: short, minor: short, nlink: short, size: word, addrs: seq<word>) {
    ghost predicate Valid() {
      |addrs| == NDIRECT + 1
    }
  }

  /** The superblock, with `nmeta` the first block that may hold data. */
  datatype Super = Super(size: nat, ninodes: nat, inodestart: nat, bmapstart: nat, nmeta: nat) {
    ghost predicate Valid() {
      && 0 < inodestart
      && inodestart + ninodes / IPB < bmapstart
      && bmapstart + size / BPB < nmeta
      && nmeta <= size < 0x1_0000_0000 && ninodes < 0x1_0000_0000
    }
  }

  /** The block that holds inode inum. */
  function IBlock(sb: Super, inum: nat): nat {
    inum / IPB + sb.inodestart
  }

  /** The bitmap block that holds the bit for block b. */
  function BBlock(sb: Super, b: nat): nat {
    b / BPB + sb.bmapstart
  }

  lemma Ranges(sb: Super)
    requires sb.Valid()
    ensures forall i: nat | i < sb.ninodes :: sb.inodestart <= IBlock(sb, i) < sb.bmapstart
    ensures forall b: nat | b < sb.size :: sb.bmapstart <= BBlock(sb, b) < sb.nmeta
  {
  }

  type Disk = seq<Block>

  ghost predicate DiskFits(sb: Super, d: Disk) {
    sb.Valid() && |d| == sb.size
  }

  // ---------------------------------------------------------------- bitmap

  /** Bit k of a byte: data[bi / 8] & (1 << k). */
  predicate TestBit(x: nat, k: nat) {
    if k == 0 then x % 2 == 1 else TestBit(x / 2, k - 1)
  }

  /** The byte with bit k turned on or off. */
  function PutBit(x: nat, k: nat, on: bool): nat {
    if k == 0 then 2 * (x / 2) + (if on then 1 else 0)
    else 2 * PutBit(x / 2, k - 1, on) + x % 2
  }

  lemma {:induction false} TestPut(x: nat, k: nat, on: bool, j: nat)
    ensures TestBit(PutBit(x, k, on), j) == if j == k then on else TestBit(x, j)
  {
    if k > 0 && j > 0 {
      TestPut(x / 2, k - 1, on, j - 1);
    }
  }

  function Pow2(n: nat): nat {
    if n == 0 then 1 else 2 * Pow2(n - 1)
  }

  lemma {:induction false} PutBitBound(x: nat, k: nat, on: bool, n: nat)
    requires k < n && x < Pow2(n)
    ensures PutBit(x, k, on) < Pow2(n)
  {
    if k > 0 {
      PutBitBound(x / 2, k - 1, on, n - 1);
    }
  }

  /** Whether the bitmap marks block b as in use. */
  predicate Bit(sb: Super, d: Disk, b: nat)
    requires BBlock(sb, b) < |d|
  {
    TestBit(d[BBlock(sb, b)][b % BPB / 8], b % 8)
  }

  /** The disk with bitmap bit b turned on or off. */
  function PutBitmap(sb: Super, d: Disk, b: nat, on: bool): (r: Disk)
    requires BBlock(sb, b) < |d|
    ensures |r| == |d|
  {
    var bn, at := BBlock(sb, b), b % BPB / 8;
    PutBitBound(d[bn][at], b % 8, on, 8);
    assert Pow2(8) == 256;
    d[bn := d[bn][at := PutBit(d[bn][at], b % 8, on)]]
  }

  lemma BitPut(sb: Super, d: Disk, b: nat, on: bool, j: nat)
    requires BBlock(sb, b) < |d| && BBlock(sb, j) < |d|
    ensures Bit(sb, PutBitmap(sb, d, b, on), j) == if j == b then on else Bit(sb, d, j)
  {
    hide TestBit;
    hide PutBit;
    if BBlock(sb, j) == BBlock(sb, b) && j % BPB / 8 == b % BPB / 8 {
      TestPut(d[BBlock(sb, b)][b % BPB / 8], b % 8, on, j % 8);
      SameBit(b, j);
    }
  }

  /** A bitmap position is block, byte and bit. */
  lemma SameBit(b: nat, j: nat)
    requires b / BPB == j / BPB && b % BPB / 8 == j % BPB / 8
    ensures b % 8 == j % 8 <==> b == j
  {
    BitPosition(b);
    BitPosition(j);
  }

  lemma BitPosition(b: nat)
    ensures b == b / BPB * BPB + b % BPB / 8 * 8 + b % 8
  {
  }

  // ---------------------------------------------------------------- inodes

  function InodeWords(di: Dinode): (ws: seq<word>)
    requires |di.addrs| == NDIRECT + 1
    ensures |ws| == INODEWORDS
  {
    [di.kind + 0x1_0000 * di.major, di.minor + 0x1_0000 * di.nlink, di.size] + di.addrs
  }

  /** Word i of the inode record in slot k of an inode block. */
  function InodeWord(b: Block, k: nat, i: nat): word
    requires k < IPB && i < INODEWORDS
  {
    GetWord(b, INODEWORDS * k + i)
  }

  function GetAddrs(b: Block, k: nat): (a: seq<word>)
    requires k < IPB
    ensures |a| == NDIRECT + 1
    ensures forall i | 0 <= i < NDIRECT + 1 :: a[i] == InodeWord(b, k, 3 + i)
  {
    seq<word>(NDIRECT + 1, i requires 0 <= i < NDIRECT + 1 => InodeWord(b, k, 3 + i))
  }

  /** The inode record in slot k of an inode block. */
  function GetInode(b: Block, k: nat): (di: Dinode)
    requires k < IPB
    ensures di.Valid()
  {
    var w0, w1 := InodeWord(b, k, 0), InodeWord(b, k, 1);
    Dinode(w0 % 0x1_0000, w0 / 0x1_0000, w1 % 0x1_0000, w1 / 0x1_0000, InodeWord(b, k, 2), GetAddrs(b, k))
  }

  function PutInode(b: Block, k: nat, di: Dinode): Block
    requires k < IPB && |di.addrs| == NDIRECT + 1
  {
    PutWords(b, INODEWORDS * k, InodeWords(di))
  }

  /** Writing an inode record changes that record and no other in the block. */
  lemma GetPutInode(b: Block, k: nat, di: Dinode, j: nat)
    requires k < IPB && j < IPB && di.Valid()
    ensures GetInode(PutInode(b, k, di), j) == if j == k then di else GetInode(b, j)
  {
    hide InodeWord;
    hide PutInode;
    hide GetAddrs;
    var b' := PutInode(b, k, di);
    var ws := InodeWords(di);
    forall i: nat | i < INODEWORDS
      ensures InodeWord(b', j, i) == if j == k then ws[i] else InodeWord(b, j, i)
    {
      InodeWordPut(b, k, di, j, i);
    }
    assert GetAddrs(b', j) == if j == k then di.addrs else GetAddrs(b, j);
  }

  lemma InodeWordPut(b: Block, k: nat, di: Dinode, j: nat, i: nat)
    requires k < IPB && j < IPB && i < INODEWORDS && di.Valid()
    ensures InodeWord(PutInode(b, k, di), j, i) == if j == k then InodeWords(di)[i] else InodeWord(b, j, i)
  {
    hide GetWord;
    hide PutWords;
    GetPutWords(b, INODEWORDS * k, InodeWords(di), INODEWORDS * j + i);
  }

  function ReadInode(sb: Super, d: Disk, inum: nat): (di: Dinode)
    requires IBlock(sb, inum) < |d|
    ensures di.Valid()
  {
    GetInode(d[IBlock(sb, inum)], inum % IPB)
  }

  function WriteInode(sb: Super, d: Disk, inum: nat, di: Dinode): (r: Disk)
    requires IBlock(sb, inum) < |d| && |di.addrs| == NDIRECT + 1
    ensures |r| == |d|
  {
    d[IBlock(sb, inum) := PutInode(d[IBlock(sb, inum)], inum % IPB, di)]
  }

  lemma ReadWriteInode(sb: Super, d: Disk, inum: nat, di: Dinode, j: nat)
    requires IBlock(sb, inum) < |d| && IBlock(sb, j) < |d| && di.Valid()
    ensures ReadInode(sb, WriteInode(sb, d, inum, di), j) == if j == inum then di else ReadInode(sb, d, j)
  {
    hide GetInode;
    hide PutInode;
    if IBlock(sb, inum) == IBlock(sb, j) {
      GetPutInode(d[IBlock(sb, inum)], inum % IPB, di, j % IPB);
    }
  }
}
