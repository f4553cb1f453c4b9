/** What a file-system image means: which blocks each inode owns, when an image is
    well formed, and the bytes of each file. */
module FsModel {
  import opened Blocks
  import opened FsLayout

  /** A file-system image: the bitmap, the inodes and the data blocks.  Metadata
      blocks appear in `data` as zero blocks. */
  datatype Image = Image(bits: seq<bool>, inodes: seq<Dinode>, data: seq<Block>)

  const NSLOTS := NDIRECT + 1 + NINDIRECT
  const INDIRECT := NDIRECT  // the slot that names the indirect block

  /** Pointer k of an inode: NDIRECT direct pointers, the indirect block itself, and
      then the NINDIRECT pointers stored in the indirect block.  Zero is no block. */
  function SlotOf(data: seq<Block>, di: Dinode, k: nat): word
    requires |di.addrs| == NDIRECT + 1 && k < NSLOTS
  {
    if k <= INDIRECT then di.addrs[k]
    else if 0 < di.addrs[INDIRECT] < |data| then GetWord(data[di.addrs[INDIRECT]], k - INDIRECT - 1)
    else 0
  }

  ghost predicate Shape(sb: Super, fs: Image) {
    && sb.Valid()
    && |fs.bits| == sb.size && |fs.data| == sb.size && |fs.inodes| == sb.ninodes
    && forall i | 0 <= i < |fs.inodes| :: fs.inodes[i].Valid()
  }

  ghost predicate IsSlot(fs: Image, i: int, k: int) {
    0 <= i < |fs.inodes| && fs.inodes[i].Valid() && 0 <= k < NSLOTS
  }

  ghost function Slot(fs: Image, i: int, k: int): word
    requires IsSlot(fs, i, k)
  {
    SlotOf(fs.data, fs.inodes[i], k)
  }

  /** The slot that names block bn of a file. */
  function DataSlot(bn: nat): nat {
    if bn < NDIRECT then bn else bn + 1
  }

  // -------------------------------------------------------- well-formedness

  /** Every pointer is null or names a data block that the bitmap marks. */
  ghost predicate Pointers(sb: Super, fs: Image)
    requires Shape(sb, fs)
  {
    forall i, k | IsSlot(fs, i, k) ::
      Slot(fs, i, k) == 0 || (sb.nmeta <= Slot(fs, i, k) < sb.size && fs.bits[Slot(fs, i, k)])
  }

  /** No block is named twice, by one inode or by two. */
  ghost predicate Disjoint(fs: Image) {
    forall i, k, j, l | IsSlot(fs, i, k) && IsSlot(fs, j, l) && (i != j || k != l) ::
      Slot(fs, i, k) == 0 || Slot(fs, i, k) != Slot(fs, j, l)
  }

  ghost predicate Owned(fs: Image, b: int) {
    exists i, k :: IsSlot(fs, i, k) && Slot(fs, i, k) == b
  }

  /** The set bits are exactly the metadata blocks and the blocks inodes own. */
  ghost predicate Exact(sb: Super, fs: Image)
    requires Shape(sb, fs)
  {
    forall b | 0 <= b < sb.size && fs.bits[b] :: b < sb.nmeta || Owned(fs, b)
  }

  ghost predicate MetaUsed(sb: Super, fs: Image)
    requires Shape(sb, fs)
  {
    forall b | 0 <= b < sb.nmeta :: fs.bits[b]
  }

  /** Every block index below a file's size is mapped. */
  ghost predicate NoHoles(fs: Image) {
    forall i, bn: nat
      | 0 <= i < |fs.inodes| && fs.inodes[i].Valid() && bn < MAXFILE && bn * BSIZE < fs.inodes[i].size ::
      Slot(fs, i, DataSlot(bn)) != 0
  }

  ghost predicate Sizes(fs: Image) {
    forall i | 0 <= i < |fs.inodes| ::
      fs.inodes[i].size <= MAXFILE * BSIZE && (fs.inodes[i].kind == 0 ==> fs.inodes[i].size == 0)
  }

  ghost predicate FreeOwnNothing(fs: Image) {
    forall i, k | IsSlot(fs, i, k) && fs.inodes[i].kind == 0 :: Slot(fs, i, k) == 0
  }

  ghost predicate WellFormed(sb: Super, fs: Image) {
    && Shape(sb, fs)
    && Pointers(sb, fs)
    && Disjoint(fs)
    && Exact(sb, fs)
    && MetaUsed(sb, fs)
    && NoHoles(fs)
    && Sizes(fs)
    && FreeOwnNothing(fs)
  }

  ghost function EmptyInode(kind: short): (di: Dinode)
    ensures di.Valid()
  {
    Dinode(kind, 0, 0, if kind == 0 then 0 else 1, 0, seq(NDIRECT + 1, _ => 0))
  }

  /** An image whose metadata blocks are marked and whose inodes are free or empty files. */
  ghost function FreshImage(sb: Super, kinds: seq<short>): Image {
    Image(seq(sb.size, b => b < sb.nmeta),
          seq(|kinds|, i requires 0 <= i < |kinds| => EmptyInode(kinds[i])),
          seq(sb.size, _ => ZeroBlock()))
  }

  lemma FreshWellFormed(sb: Super, kinds: seq<short>)
    requires sb.Valid() && |kinds| == sb.ninodes
    ensures WellFormed(sb, FreshImage(sb, kinds))
  {
    var fs := FreshImage(sb, kinds);
    forall i, k | IsSlot(fs, i, k) ensures Slot(fs, i, k) == 0 {
    }
  }

  // --------------------------------------------------------- file contents

  /** The byte at a position of inode i, zero where no block is mapped. */
  ghost function ByteAt(fs: Image, i: int, pos: nat): byte
    requires 0 <= i < |fs.inodes| && fs.inodes[i].Valid() && pos < MAXFILE * BSIZE
  {
    var b := Slot(fs, i, DataSlot(pos / BSIZE));
    if 0 < b < |fs.data| then fs.data[b][pos % BSIZE] else 0
  }

  /** The contents of inode i as a byte array. */
  ghost function Content(fs: Image, i: int): (c: seq<byte>)
    requires 0 <= i < |fs.inodes| && fs.inodes[i].Valid() && fs.inodes[i].size <= MAXFILE * BSIZE
    ensures |c| == fs.inodes[i].size
  {
    seq<byte>(fs.inodes[i].size, pos requires 0 <= pos < fs.inodes[i].size => ByteAt(fs, i, pos))
  }

  /** Inode i's bytes are the same in both images, mapped or not. */
  ghost predicate SameBytes(fs: Image, fs': Image, i: int) {
    && 0 <= i < |fs.inodes| == |fs'.inodes|
    && fs.inodes[i].Valid() && fs'.inodes[i].Valid()
    && forall pos: nat | pos < MAXFILE * BSIZE :: ByteAt(fs', i, pos) == ByteAt(fs, i, pos)
  }

  // ------------------------------------------------ adding one pointer

  /** The image fs' differs from fs in one pointer, which was null and now names the
      block a, free before. */
  ghost predicate GainsSlot(sb: Super, fs: Image, fs': Image, i: int, k: int, a: int) {
    && Shape(sb, fs) && Shape(sb, fs')
    && IsSlot(fs, i, k) && Slot(fs, i, k) == 0
    && sb.nmeta <= a < sb.size && !fs.bits[a] && fs'.bits == fs.bits[a := true]
    && (forall j, l | IsSlot(fs', j, l) ::
          Slot(fs', j, l) == if j == i && l == k then a else Slot(fs, j, l))
    && (forall j | 0 <= j < |fs.inodes| ::
        fs'.inodes[j].size == fs.inodes[j].size && fs'.inodes[j].kind == fs.inodes[j].kind)
  }

  lemma GainDisjoint(sb: Super, fs: Image, fs': Image, i: int, k: int, a: int)
    requires GainsSlot(sb, fs, fs', i, k, a) && Pointers(sb, fs) && Disjoint(fs)
    ensures Pointers(sb, fs') && Disjoint(fs')
  {
    hide SlotOf;
    hide Slot;
    forall j, l, j', l' | IsSlot(fs', j, l) && IsSlot(fs', j', l') && (j != j' || l != l')
      ensures Slot(fs', j, l) == 0 || Slot(fs', j, l) != Slot(fs', j', l')
    {
      GainPair(sb, fs, fs', i, k, a, j, l, j', l');
    }
    hide Disjoint;
  }

  lemma GainPair(sb: Super, fs: Image, fs': Image, i: int, k: int, a: int, j: int, l: int, j': int, l': int)
    requires GainsSlot(sb, fs, fs', i, k, a) && Pointers(sb, fs) && Disjoint(fs)
    requires IsSlot(fs', j, l) && IsSlot(fs', j', l') && (j != j' || l != l')
    ensures Slot(fs', j, l) == 0 || Slot(fs', j, l) != Slot(fs', j', l')
  {
    hide SlotOf;
    hide Slot;
    assert IsSlot(fs, j, l) && IsSlot(fs, j', l');
    assert Slot(fs, j, l) == 0 || Slot(fs, j, l) != Slot(fs, j', l');
    hide Disjoint;
    if Slot(fs', j, l) == a {
      assert j == i && l == k;
    }
  }

  lemma GainOwned(sb: Super, fs: Image, fs': Image, i: int, k: int, a: int, b: int)
    requires GainsSlot(sb, fs, fs', i, k, a)
    requires b == a || (b != 0 && Owned(fs, b))
    ensures Owned(fs', b)
  {
    hide SlotOf;
    hide Slot;
    if b == a {
      assert IsSlot(fs', i, k) && Slot(fs', i, k) == b;
    } else {
      var j, l :| IsSlot(fs, j, l) && Slot(fs, j, l) == b;
      assert IsSlot(fs', j, l) && Slot(fs', j, l) == b;
    }
  }

  lemma GainExact(sb: Super, fs: Image, fs': Image, i: int, k: int, a: int)
    requires GainsSlot(sb, fs, fs', i, k, a) && Exact(sb, fs) && MetaUsed(sb, fs)
    ensures Exact(sb, fs') && MetaUsed(sb, fs')
  {
    hide SlotOf;
    hide Slot;
    hide Owned;
    forall b | 0 <= b < sb.size && fs'.bits[b] ensures b < sb.nmeta || Owned(fs', b) {
      if b >= sb.nmeta {
        assert b == a || fs.bits[b];
        GainOwned(sb, fs, fs', i, k, a, b);
      }
    }
  }

  /** Giving an inode a free block keeps the image well formed. */
  lemma GainWellFormed(sb: Super, fs: Image, fs': Image, i: int, k: int, a: int)
    requires WellFormed(sb, fs) && GainsSlot(sb, fs, fs', i, k, a)
    requires fs.inodes[i].kind != 0
    ensures WellFormed(sb, fs')
  {
    GainDisjoint(sb, fs, fs', i, k, a);
    GainExact(sb, fs, fs', i, k, a);
    hide SlotOf;
    hide Slot;
    hide Disjoint;
    hide Pointers;
    hide Exact;
  }
}
