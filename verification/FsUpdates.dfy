/** How the updates that bmap, writei and itrunc make to an image change the pointers
    and the bytes of every file. */
module FsUpdates {
  import opened Common
  import opened Blocks
  import opened FsLayout
  import opened FsModel

  /** balloc's effect: block a is marked and zeroed. */
  ghost function Allocated(fs: Image, a: nat): Image
    requires a < |fs.bits| && a < |fs.data|
  {
    fs.(bits := fs.bits[a := true], data := fs.data[a := ZeroBlock()])
  }

  ghost function WithInode(fs: Image, i: nat, di: Dinode): Image
    requires i < |fs.inodes|
  {
    fs.(inodes := fs.inodes[i := di])
  }

  /** A fresh block hung into a pointer kept in the inode. */
  ghost function HungInInode(fs: Image, i: nat, k: nat, a: word): Image
    requires i < |fs.inodes| && k < |fs.inodes[i].addrs| && a < |fs.bits| && a < |fs.data|
  {
    var di := fs.inodes[i];
    WithInode(Allocated(fs, a), i, di.(addrs := di.addrs[k := a]))
  }

  /** A fresh block hung into entry e of the indirect block. */
  ghost function HungInIndirect(fs: Image, i: nat, e: nat, a: word): Image
    requires i < |fs.inodes| && fs.inodes[i].Valid() && e < NINDIRECT
    requires a < |fs.bits| && a < |fs.data| && fs.inodes[i].addrs[INDIRECT] < |fs.data|
  {
    var ind := fs.inodes[i].addrs[INDIRECT];
    var fs1 := Allocated(fs, a);
    fs1.(data := fs1.data[ind := PutWord(fs1.data[ind], e, a)])
  }

  lemma ZeroWord(e: nat)
    requires e < NWORDS
    ensures GetWord(ZeroBlock(), e) == 0
  {
  }

  ghost predicate FreeBlock(sb: Super, fs: Image, a: int)
    requires Shape(sb, fs)
  {
    sb.nmeta <= a < sb.size && !fs.bits[a]
  }

  /** No pointer names a free block. */
  lemma FreeUnnamed(sb: Super, fs: Image, a: int, i: int, k: int)
    requires WellFormed(sb, fs) && FreeBlock(sb, fs, a) && IsSlot(fs, i, k)
    ensures Slot(fs, i, k) != a
  {
    hide Slot;
  }

  lemma HangInInode(sb: Super, fs: Image, i: nat, k: nat, a: word)
    requires WellFormed(sb, fs) && FreeBlock(sb, fs, a)
    requires i < |fs.inodes| && k <= INDIRECT && fs.inodes[i].addrs[k] == 0
    ensures GainsSlot(sb, fs, HungInInode(fs, i, k, a), i, k, a)
  {
    hide GetWord;
    hide Disjoint;
    hide Exact;
    hide NoHoles;
    var fs' := HungInInode(fs, i, k, a);
    forall j, l | IsSlot(fs', j, l)
      ensures Slot(fs', j, l) == if j == i && l == k then a else Slot(fs, j, l)
    {
      assert IsSlot(fs, j, l);
      FreeUnnamed(sb, fs, a, j, INDIRECT);
      if l > INDIRECT {
        ZeroWord(l - INDIRECT - 1);
      }
    }
  }

  lemma HangInIndirect(sb: Super, fs: Image, i: nat, e: nat, a: word)
    requires WellFormed(sb, fs) && FreeBlock(sb, fs, a)
    requires i < |fs.inodes| && e < NINDIRECT && fs.inodes[i].addrs[INDIRECT] != 0
    requires Slot(fs, i, INDIRECT + 1 + e) == 0
    ensures fs.inodes[i].addrs[INDIRECT] < |fs.data|
    ensures GainsSlot(sb, fs, HungInIndirect(fs, i, e, a), i, INDIRECT + 1 + e, a)
  {
    hide GetWord;
    hide PutWord;
    hide Exact;
    hide NoHoles;
    assert Slot(fs, i, INDIRECT) == fs.inodes[i].addrs[INDIRECT];
    assert fs.inodes[i].addrs[INDIRECT] < |fs.data|;
    var ind := fs.inodes[i].addrs[INDIRECT];
    var fs' := HungInIndirect(fs, i, e, a);
    forall j, l | IsSlot(fs', j, l)
      ensures Slot(fs', j, l) == if j == i && l == INDIRECT + 1 + e then a else Slot(fs, j, l)
    {
      assert IsSlot(fs, j, l);
      FreeUnnamed(sb, fs, a, j, INDIRECT);
      FreeUnnamed(sb, fs, a, i, INDIRECT);
      if l > INDIRECT {
        assert Slot(fs, j, INDIRECT) == fs.inodes[j].addrs[INDIRECT];
        if j == i {
          GetPut(fs.data[ind], e, a, l - INDIRECT - 1);
        }
      }
    }
  }

  /** Hanging in a zeroed block changes no byte of any file. */
  lemma HangBytes(sb: Super, fs: Image, fs': Image, i: int, k: int, a: int, j: int)
    requires WellFormed(sb, fs) && GainsSlot(sb, fs, fs', i, k, a)
    requires fs'.data[a] == ZeroBlock()
    requires forall b | 0 <= b < sb.size && b != a && b != Slot(fs, i, INDIRECT) :: fs'.data[b] == fs.data[b]
    requires 0 <= j < |fs.inodes|
    ensures SameBytes(fs, fs', j)
  {
    hide SlotOf;
    hide Slot;
    hide Exact;
    hide NoHoles;
    forall pos: nat | pos < MAXFILE * BSIZE ensures ByteAt(fs', j, pos) == ByteAt(fs, j, pos) {
      var l := DataSlot(pos / BSIZE);
      assert IsSlot(fs, j, l) && IsSlot(fs', j, l);
      assert l != INDIRECT;
      FreeUnnamed(sb, fs, a, j, l);
    }
  }

  // ------------------------------------------------------------ data writes

  ghost function WithBlock(fs: Image, b: nat, data: Block): Image
    requires b < |fs.data|
  {
    fs.(data := fs.data[b := data])
  }

  /** Writing a file's data block moves no pointer. */
  lemma WriteSlots(sb: Super, fs: Image, i: nat, bn: nat, data: Block, j: int, l: int)
    requires WellFormed(sb, fs) && i < |fs.inodes| && bn < MAXFILE && Slot(fs, i, DataSlot(bn)) != 0
    requires IsSlot(fs, j, l)
    ensures Slot(fs, i, DataSlot(bn)) < |fs.data|
    ensures Slot(WithBlock(fs, Slot(fs, i, DataSlot(bn)), data), j, l) == Slot(fs, j, l)
  {
    hide GetWord;
    hide Exact;
    hide NoHoles;
    var b := Slot(fs, i, DataSlot(bn));
    assert IsSlot(fs, i, DataSlot(bn));
    assert b < |fs.data|;
    if l > INDIRECT {
      assert IsSlot(fs, j, INDIRECT);
      assert Slot(fs, j, INDIRECT) != b;
      assert fs.inodes[j].addrs[INDIRECT] != b;
    }
  }

  /** The image keeps its pointers, bitmap and inodes. */
  ghost predicate SameFrame(fs: Image, fs': Image) {
    && fs'.bits == fs.bits && fs'.inodes == fs.inodes && |fs'.data| == |fs.data|
    && forall j, l | IsSlot(fs, j, l) :: Slot(fs', j, l) == Slot(fs, j, l)
  }

  lemma FrameWellFormed(sb: Super, fs: Image, fs': Image)
    requires WellFormed(sb, fs) && SameFrame(fs, fs')
    ensures WellFormed(sb, fs')
  {
    hide SlotOf;
    hide Slot;
    forall b | 0 <= b < sb.size && fs'.bits[b] ensures b < sb.nmeta || Owned(fs', b) {
      if b >= sb.nmeta {
        assert Owned(fs, b);
        var j, l :| IsSlot(fs, j, l) && Slot(fs, j, l) == b;
        assert IsSlot(fs', j, l) && Slot(fs', j, l) == b;
      }
    }
  }

  /** Writing one data block of a file keeps the image well formed, changes the bytes of
      that block of that file, and no other byte of any file. */
  lemma WriteBlock(sb: Super, fs: Image, i: nat, bn: nat, data: Block)
    requires WellFormed(sb, fs) && i < |fs.inodes| && bn < MAXFILE && Slot(fs, i, DataSlot(bn)) != 0
    ensures Slot(fs, i, DataSlot(bn)) < |fs.data|
    ensures var fs' := WithBlock(fs, Slot(fs, i, DataSlot(bn)), data);
            && WellFormed(sb, fs')
            && (forall pos: nat | pos < MAXFILE * BSIZE ::
                  ByteAt(fs', i, pos) == if pos / BSIZE == bn then data[pos % BSIZE] else ByteAt(fs, i, pos))
            && forall j | 0 <= j < |fs.inodes| && j != i :: SameBytes(fs, fs', j)
  {
    hide SlotOf;
    hide Slot;
    hide Exact;
    hide NoHoles;
    var b := Slot(fs, i, DataSlot(bn));
    WriteSlots(sb, fs, i, bn, data, i, DataSlot(bn));
    var fs' := WithBlock(fs, b, data);
    forall j, l | IsSlot(fs, j, l) ensures Slot(fs', j, l) == Slot(fs, j, l) {
      WriteSlots(sb, fs, i, bn, data, j, l);
    }
    FrameWellFormed(sb, fs, fs');
    WriteBytes(sb, fs, fs', i, bn, data);
  }

  lemma WriteBytes(sb: Super, fs: Image, fs': Image, i: nat, bn: nat, data: Block)
    requires WellFormed(sb, fs) && SameFrame(fs, fs') && i < |fs.inodes| && bn < MAXFILE
    requires 0 < Slot(fs, i, DataSlot(bn)) < |fs.data|
    requires fs'.data == fs.data[Slot(fs, i, DataSlot(bn)) := data]
    ensures forall pos: nat | pos < MAXFILE * BSIZE ::
              ByteAt(fs', i, pos) == if pos / BSIZE == bn then data[pos % BSIZE] else ByteAt(fs, i, pos)
    ensures forall j | 0 <= j < |fs.inodes| && j != i :: SameBytes(fs, fs', j)
  {
    hide SlotOf;
    hide Slot;
    hide Exact;
    hide NoHoles;
    forall j, pos: nat | 0 <= j < |fs.inodes| && pos < MAXFILE * BSIZE
      ensures ByteAt(fs', j, pos) == if j == i && pos / BSIZE == bn then data[pos % BSIZE] else ByteAt(fs, j, pos)
    {
      var l := DataSlot(pos / BSIZE);
      assert IsSlot(fs, j, l) && IsSlot(fs, i, DataSlot(bn));
    }
  }

  // ------------------------------------------------------------------- size

  ghost function Resized(fs: Image, i: nat, size: word): Image
    requires i < |fs.inodes|
  {
    WithInode(fs, i, fs.inodes[i].(size := size))
  }

  /** A file may grow over blocks that are already mapped. */
  lemma ResizeWellFormed(sb: Super, fs: Image, i: nat, size: word)
    requires WellFormed(sb, fs) && i < |fs.inodes| && fs.inodes[i].kind != 0 && size <= MAXFILE * BSIZE
    requires forall bn: nat | bn < MAXFILE && bn * BSIZE < size :: Slot(fs, i, DataSlot(bn)) != 0
    ensures WellFormed(sb, Resized(fs, i, size))
    ensures forall j | 0 <= j < |fs.inodes| :: SameBytes(fs, Resized(fs, i, size), j)
  {
    hide GetWord;
    var fs' := Resized(fs, i, size);
    forall j, l | IsSlot(fs', j, l) ensures IsSlot(fs, j, l) && Slot(fs', j, l) == Slot(fs, j, l) {
    }
    ResizeFrame(sb, fs, fs');
  }

  lemma ResizeFrame(sb: Super, fs: Image, fs': Image)
    requires WellFormed(sb, fs) && Shape(sb, fs')
    requires fs'.bits == fs.bits && fs'.data == fs.data
    requires forall j, l | IsSlot(fs', j, l) :: IsSlot(fs, j, l) && Slot(fs', j, l) == Slot(fs, j, l)
    requires NoHoles(fs') && Sizes(fs')
    requires forall j | 0 <= j < |fs.inodes| :: fs'.inodes[j].kind == fs.inodes[j].kind
    ensures WellFormed(sb, fs')
    ensures forall j | 0 <= j < |fs.inodes| :: SameBytes(fs, fs', j)
  {
    hide SlotOf;
    hide Slot;
    hide NoHoles;
    hide Sizes;
    forall b | 0 <= b < sb.size && fs'.bits[b] ensures b < sb.nmeta || Owned(fs', b) {
      if b >= sb.nmeta {
        assert Owned(fs, b);
        var j, l :| IsSlot(fs, j, l) && Slot(fs, j, l) == b;
        assert IsSlot(fs', j, l) && Slot(fs', j, l) == b;
      }
    }
  }

  // --------------------------------------------------------------- type and links

  /** An inode may change in anything but its blocks and size; it may be marked free if it has
      neither. */
  lemma RetagWellFormed(sb: Super, fs: Image, i: nat, di: Dinode)
    requires WellFormed(sb, fs) && i < |fs.inodes|
    requires di.addrs == fs.inodes[i].addrs && di.size == fs.inodes[i].size
    requires di.kind == 0 ==> di.size == 0 && forall k | 0 <= k < NSLOTS :: Slot(fs, i, k) == 0
    ensures WellFormed(sb, WithInode(fs, i, di))
    ensures forall j | 0 <= j < |fs.inodes| :: SameBytes(fs, WithInode(fs, i, di), j)
    ensures forall j, l | IsSlot(fs, j, l) :: Slot(WithInode(fs, i, di), j, l) == Slot(fs, j, l)
  {
    hide GetWord;
    var fs' := WithInode(fs, i, di);
    forall j, l | IsSlot(fs', j, l) ensures IsSlot(fs, j, l) && Slot(fs', j, l) == Slot(fs, j, l) {
    }
    RetagFrame(sb, fs, fs');
  }

  lemma RetagFrame(sb: Super, fs: Image, fs': Image)
    requires WellFormed(sb, fs) && Shape(sb, fs') && fs'.bits == fs.bits && fs'.data == fs.data
    requires forall j, l | IsSlot(fs', j, l) :: IsSlot(fs, j, l) && Slot(fs', j, l) == Slot(fs, j, l)
    requires forall j | 0 <= j < |fs.inodes| :: fs'.inodes[j].size == fs.inodes[j].size
    requires Sizes(fs') && FreeOwnNothing(fs')
    ensures WellFormed(sb, fs')
    ensures forall j | 0 <= j < |fs.inodes| :: SameBytes(fs, fs', j)
  {
    hide SlotOf;
    hide Slot;
    hide Sizes;
    hide FreeOwnNothing;
    forall b | 0 <= b < sb.size && fs'.bits[b] ensures b < sb.nmeta || Owned(fs', b) {
      if b >= sb.nmeta {
        assert Owned(fs, b);
        var j, l :| IsSlot(fs, j, l) && Slot(fs, j, l) == b;
        assert IsSlot(fs', j, l) && Slot(fs', j, l) == b;
      }
    }
  }

  // --------------------------------------------------------------- truncation

  ghost predicate OwnedBy(fs: Image, i: int, b: int) {
    b != 0 && exists k :: IsSlot(fs, i, k) && Slot(fs, i, k) == b
  }

  ghost predicate IsTruncated(fs: Image, fs': Image, i: nat)
    requires i < |fs.inodes|
  {
    && |fs'.bits| == |fs.bits| && fs'.data == fs.data
    && fs'.inodes == fs.inodes[i := fs.inodes[i].(size := 0, addrs := seq<word>(NDIRECT + 1, _ => 0))]
    && forall b | 0 <= b < |fs.bits| :: fs'.bits[b] == (fs.bits[b] && !OwnedBy(fs, i, b))
  }

  /** The bitmap blocks that hold the bits of the blocks that the pointers in `done` name. */
  ghost function MapsOf(sb: Super, fs: Image, i: nat, done: set<int>): set<nat> {
    set k | k in done && IsSlot(fs, i, k) && Slot(fs, i, k) != 0 :: BBlock(sb, Slot(fs, i, k))
  }

  /** What a truncation of inode i logs: a bitmap block for each block freed, and the inode. */
  ghost function TruncLog(sb: Super, fs: Image, i: nat): set<nat> {
    MapsOf(sb, fs, i, Range(0, NSLOTS)) + {IBlock(sb, i)}
  }

  lemma TruncatedSlots(sb: Super, fs: Image, fs': Image, i: nat, j: int, l: int)
    requires WellFormed(sb, fs) && i < |fs.inodes| && IsTruncated(fs, fs', i) && IsSlot(fs', j, l)
    ensures IsSlot(fs, j, l) && Slot(fs', j, l) == if j == i then 0 else Slot(fs, j, l)
  {
    hide GetWord;
  }

  /** Truncating frees exactly the blocks of the inode: the image stays well formed and
      no byte of another file changes. */
  lemma TruncateWellFormed(sb: Super, fs: Image, fs': Image, i: nat)
    requires WellFormed(sb, fs) && i < |fs.inodes| && IsTruncated(fs, fs', i)
    ensures WellFormed(sb, fs')
    ensures forall j | 0 <= j < |fs.inodes| && j != i :: SameBytes(fs, fs', j)
  {
    hide SlotOf;
    hide Slot;
    forall j, l | IsSlot(fs', j, l)
      ensures IsSlot(fs, j, l) && Slot(fs', j, l) == if j == i then 0 else Slot(fs, j, l)
    {
      TruncatedSlots(sb, fs, fs', i, j, l);
    }
    TruncatePointers(sb, fs, fs', i);
    TruncateExact(sb, fs, fs', i);
  }

  lemma TruncatePointers(sb: Super, fs: Image, fs': Image, i: nat)
    requires WellFormed(sb, fs) && Shape(sb, fs') && i < |fs.inodes| && IsTruncated(fs, fs', i)
    requires forall j, l | IsSlot(fs', j, l) ::
             IsSlot(fs, j, l) && Slot(fs', j, l) == if j == i then 0 else Slot(fs, j, l)
    ensures Pointers(sb, fs') && Disjoint(fs')
  {
    hide SlotOf;
    hide Slot;
    hide Exact;
    hide NoHoles;
    forall j, l | IsSlot(fs', j, l) && Slot(fs', j, l) != 0
      ensures sb.nmeta <= Slot(fs', j, l) < sb.size && fs'.bits[Slot(fs', j, l)]
    {
      var b := Slot(fs', j, l);
      assert IsSlot(fs, j, l) && Slot(fs, j, l) == b;
      assert !OwnedBy(fs, i, b);
    }
  }

  lemma TruncateExact(sb: Super, fs: Image, fs': Image, i: nat)
    requires WellFormed(sb, fs) && Shape(sb, fs') && i < |fs.inodes| && IsTruncated(fs, fs', i)
    requires forall j, l | IsSlot(fs', j, l) ::
             IsSlot(fs, j, l) && Slot(fs', j, l) == if j == i then 0 else Slot(fs, j, l)
    ensures Exact(sb, fs') && MetaUsed(sb, fs')
  {
    hide SlotOf;
    hide Slot;
    hide NoHoles;
    hide Disjoint;
    hide Owned;
    hide OwnedBy;
    forall b | 0 <= b < sb.nmeta ensures fs'.bits[b] {
      MetaNotOwned(sb, fs, i, b);
    }
    forall b | sb.nmeta <= b < sb.size && fs'.bits[b] ensures Owned(fs', b) {
      assert fs.bits[b] && !OwnedBy(fs, i, b);
      TruncateOwned(fs, fs', i, b);
    }
  }

  lemma MetaNotOwned(sb: Super, fs: Image, i: nat, b: int)
    requires Shape(sb, fs) && Pointers(sb, fs) && 0 <= b < sb.nmeta
    ensures !OwnedBy(fs, i, b)
  {
    hide SlotOf;
    hide Slot;
  }

  lemma TruncateOwned(fs: Image, fs': Image, i: nat, b: int)
    requires b != 0 && Owned(fs, b) && !OwnedBy(fs, i, b) && |fs'.inodes| == |fs.inodes|
    requires forall j, l | IsSlot(fs, j, l) && j != i :: IsSlot(fs', j, l) && Slot(fs', j, l) == Slot(fs, j, l)
    ensures Owned(fs', b)
  {
    hide SlotOf;
    hide Slot;
    var j, l :| IsSlot(fs, j, l) && Slot(fs, j, l) == b;
    assert j != i;
    assert IsSlot(fs', j, l) && Slot(fs', j, l) == b;
  }

  // ------------------------------------------------------------ the other files

  /** No pointer of another inode has changed. */
  ghost predicate OtherSlots(v: Image, v': Image, i: nat) {
    forall j, l | IsSlot(v, j, l) && j != i :: IsSlot(v', j, l) && Slot(v', j, l) == Slot(v, j, l)
  }

  lemma OthersRefl(v: Image, i: nat)
    ensures OtherSlots(v, v, i)
  {
    hide Slot;
  }

  lemma OthersTrans(v: Image, v1: Image, v2: Image, i: nat)
    requires OtherSlots(v, v1, i) && OtherSlots(v1, v2, i)
    ensures OtherSlots(v, v2, i)
  {
    hide Slot;
  }

  lemma GainOthers(sb: Super, v: Image, v': Image, i: nat, k: nat, a: nat)
    requires GainsSlot(sb, v, v', i, k, a)
    ensures OtherSlots(v, v', i)
  {
    hide Slot;
  }

  lemma InodeOthers(sb: Super, v: Image, i: nat, k: nat, a: word)
    requires WellFormed(sb, v) && FreeBlock(sb, v, a)
    requires i < |v.inodes| && k <= INDIRECT && v.inodes[i].addrs[k] == 0
    ensures OtherSlots(v, HungInInode(v, i, k, a), i)
  {
    HangInInode(sb, v, i, k, a);
    GainOthers(sb, v, HungInInode(v, i, k, a), i, k, a);
  }

  lemma IndirectOthers(sb: Super, v: Image, i: nat, e: nat, a: word)
    requires WellFormed(sb, v) && FreeBlock(sb, v, a)
    requires i < |v.inodes| && e < NINDIRECT && 0 != v.inodes[i].addrs[INDIRECT] < |v.data|
    requires Slot(v, i, INDIRECT + 1 + e) == 0
    ensures OtherSlots(v, HungInIndirect(v, i, e, a), i)
  {
    HangInIndirect(sb, v, i, e, a);
    GainOthers(sb, v, HungInIndirect(v, i, e, a), i, INDIRECT + 1 + e, a);
  }

  lemma BlockOthers(sb: Super, v: Image, i: nat, bn: nat, data: Block)
    requires WellFormed(sb, v) && i < |v.inodes| && bn < MAXFILE && Slot(v, i, DataSlot(bn)) != 0
    ensures Slot(v, i, DataSlot(bn)) < |v.data|
    ensures OtherSlots(v, WithBlock(v, Slot(v, i, DataSlot(bn)), data), i)
  {
    assert v.inodes[i].Valid();
    hide WellFormed;
    hide Slot;
    WriteSlots(sb, v, i, bn, data, i, DataSlot(bn));
    var v' := WithBlock(v, Slot(v, i, DataSlot(bn)), data);
    forall j, l | IsSlot(v, j, l) && j != i ensures IsSlot(v', j, l) && Slot(v', j, l) == Slot(v, j, l) {
      WriteSlots(sb, v, i, bn, data, j, l);
    }
  }

  lemma ResizeOthers(v: Image, i: nat, size: word)
    requires i < |v.inodes|
    ensures OtherSlots(v, Resized(v, i, size), i)
  {
  }
}
