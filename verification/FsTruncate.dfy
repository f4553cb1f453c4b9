/** When a truncation keeps to the log space reserved for one operation. */
module FsTruncate {
  import opened Common
  import opened Blocks
  import opened FsLayout
  import opened FsModel
  import opened FsUpdates
  import opened FsCode
  import Log

  /** How many bitmap blocks hold bits of data blocks. */
  ghost function DataMaps(sb: Super): nat
    requires sb.Valid()
  {
    if sb.nmeta == sb.size then 0 else (sb.size - 1) / BPB - sb.nmeta / BPB + 1
  }

  /** A truncation logs no more blocks than there are bitmap blocks for data, and the inode. */
  lemma TruncBound(sb: Super, fs: Image, i: nat)
    requires WellFormed(sb, fs) && i < sb.ninodes
    ensures |TruncLog(sb, fs, i)| <= DataMaps(sb) + 1
  {
    assert sb.Valid();
    hide WellFormed;
    hide Slot;
    hide IBlock;
    hide BBlock;
    var maps := Range(BBlock(sb, sb.nmeta), DataMaps(sb));
    forall x | x in MapsOf(sb, fs, i, Range(0, NSLOTS)) ensures x in maps {
      var k :| 0 <= k < NSLOTS && IsSlot(fs, i, k) && Slot(fs, i, k) != 0 && BBlock(sb, Slot(fs, i, k)) == x;
      PointerRange(sb, fs, i, k);
      DataMap(sb, Slot(fs, i, k));
    }
    SubsetSize(TruncLog(sb, fs, i), maps + {IBlock(sb, i)});
  }

  lemma DataMap(sb: Super, b: nat)
    requires sb.Valid() && sb.nmeta <= b < sb.size
    ensures BBlock(sb, b) in Range(BBlock(sb, sb.nmeta), DataMaps(sb))
  {
    DivMonotone(sb.nmeta, b);
    DivMonotone(b, sb.size - 1);
    hide Range;
  }

  lemma DivMonotone(a: nat, b: nat)
    requires a <= b
    ensures a / BPB <= b / BPB
  {
  }

  /** The first data block whose bit is in the q-th bitmap block for data. */
  ghost function Pick(sb: Super, q: nat): nat {
    if q == 0 then sb.nmeta else (sb.nmeta / BPB + q) * BPB
  }

  lemma PickIs(sb: Super, q: nat)
    requires sb.Valid() && q < DataMaps(sb)
    ensures sb.nmeta <= Pick(sb, q) < sb.size && BBlock(sb, Pick(sb, q)) == BBlock(sb, sb.nmeta) + q
  {
    var m := sb.nmeta / BPB;
    assert (m + q) * BPB / BPB == m + q;
    assert sb.nmeta < (m + 1) * BPB;
    assert (sb.size - 1) / BPB * BPB <= sb.size - 1;
    if q > 0 {
      assert (m + 1) * BPB <= (m + q) * BPB <= (sb.size - 1) / BPB * BPB;
    }
  }

  /** Inode 0 with n direct blocks, each with its bit in a bitmap block of its own. */
  ghost function Scattered(sb: Super, n: nat): (fs: Image)
    requires sb.Valid() && sb.ninodes > 0 && n <= DataMaps(sb) && n <= NDIRECT
    ensures Shape(sb, fs)
  {
    if n == 0 then FreshImage(sb, seq(sb.ninodes, _ => T_FILE))
    else
      PickIs(sb, n - 1);
      HungInInode(Scattered(sb, n - 1), 0, n - 1, Pick(sb, n - 1))
  }

  lemma {:induction false} ScatteredIs(sb: Super, n: nat)
    requires sb.Valid() && sb.ninodes > 0 && n <= DataMaps(sb) && n <= NDIRECT
    ensures var fs := Scattered(sb, n);
            && WellFormed(sb, fs) && fs.inodes[0].kind == T_FILE
            && (forall k | 0 <= k < n :: fs.inodes[0].addrs[k] == Pick(sb, k))
            && (forall k | n <= k <= NDIRECT :: fs.inodes[0].addrs[k] == 0)
            && (forall b | sb.nmeta <= b < sb.size && fs.bits[b] :: BBlock(sb, b) < BBlock(sb, sb.nmeta) + n)
  {
    hide WellFormed;
    hide Pick;
    if n == 0 {
      FreshWellFormed(sb, seq(sb.ninodes, _ => T_FILE));
    } else {
      ScatteredIs(sb, n - 1);
      PickIs(sb, n - 1);
      hide BBlock;
      HangInInodeAll(sb, Scattered(sb, n - 1), 0, n - 1, Pick(sb, n - 1));
    }
  }

  /** A file of n blocks whose truncation logs n + 1 blocks. */
  lemma TruncScattered(sb: Super, n: nat) returns (fs: Image)
    requires sb.Valid() && sb.ninodes > 0 && n <= DataMaps(sb) && n <= NDIRECT
    ensures WellFormed(sb, fs) && fs.inodes[0].kind == T_FILE && fs.inodes[0].size == n * BSIZE
    ensures |TruncLog(sb, fs, 0)| >= n + 1
  {
    hide WellFormed;
    hide Slot;
    hide Pick;
    hide BBlock;
    ScatteredIs(sb, n);
    var fs0 := Scattered(sb, n);
    SlotsInInode(fs0, 0);
    forall k | 0 <= k < n ensures fs0.inodes[0].addrs[k] != 0 { PickIs(sb, k); }
    ResizeWellFormed(sb, fs0, 0, n * BSIZE);
    fs := Resized(fs0, 0, n * BSIZE);
    SlotsInInode(fs, 0);
    TruncOf(sb, fs, n);
  }

  lemma TruncOf(sb: Super, fs: Image, n: nat)
    requires Shape(sb, fs) && 0 < |fs.inodes| && n <= DataMaps(sb) && n <= NDIRECT
    requires forall k | 0 <= k < n :: Slot(fs, 0, k) == Pick(sb, k)
    ensures |TruncLog(sb, fs, 0)| >= n + 1
  {
    hide Slot;
    hide Pick;
    hide BBlock;
    hide IBlock;
    var lo := BBlock(sb, sb.nmeta);
    var maps, all := Range(lo, n), Range(0, NSLOTS);
    forall x | x in maps ensures x in MapsOf(sb, fs, 0, all) {
      var k := x - lo;
      PickIs(sb, k);
      assert k in all && IsSlot(fs, 0, k) && Slot(fs, 0, k) != 0 && BBlock(sb, Slot(fs, 0, k)) == x;
    }
    assert IBlock(sb, 0) < lo by { MapsAfterInodes(sb); }
    SubsetSize(maps + {IBlock(sb, 0)}, TruncLog(sb, fs, 0));
  }

  lemma MapsAfterInodes(sb: Super)
    requires sb.Valid() && sb.ninodes > 0
    ensures IBlock(sb, 0) < BBlock(sb, sb.nmeta)
  {
  }

  /** Every truncation on every well-formed image keeps to the reservation of one operation. */
  ghost predicate TruncationsFit(sb: Super) {
    forall fs, i: nat | WellFormed(sb, fs) && i < sb.ninodes :: |TruncLog(sb, fs, i)| <= Log.MAXOPBLOCKS
  }

  /** That holds exactly if the disk is small enough: its data blocks have their bits in at
      most MAXOPBLOCKS - 1 bitmap blocks. */
  lemma TruncationsFitIff(sb: Super)
    requires sb.Valid() && sb.ninodes > 0
    ensures TruncationsFit(sb) <==> DataMaps(sb) <= Log.MAXOPBLOCKS - 1
  {
    hide WellFormed;
    hide TruncLog;
    if DataMaps(sb) <= Log.MAXOPBLOCKS - 1 {
      forall fs, i: nat | WellFormed(sb, fs) && i < sb.ninodes ensures |TruncLog(sb, fs, i)| <= Log.MAXOPBLOCKS {
        TruncBound(sb, fs, i);
      }
    } else {
      var fs := TruncScattered(sb, Log.MAXOPBLOCKS);
      assert |TruncLog(sb, fs, 0)| > Log.MAXOPBLOCKS;
    }
  }
}
