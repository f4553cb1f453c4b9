/** How many blocks a write needs: which pointers it fills, and when the free blocks last. */
module FsSpace {
  import opened Blocks
  import opened FsLayout
  import opened FsModel

  ghost function FreeBlocks(bits: seq<bool>): set<nat> {
    set b: nat | b < |bits| && !bits[b]
  }

  /** The n bytes at off need pointer k: it names one of their blocks, or the indirect block
      on the way to one. */
  ghost predicate Wanted(off: nat, n: nat, k: nat) {
    && n > 0
    && if k == INDIRECT then (off + n - 1) / BSIZE >= NDIRECT
       else off / BSIZE <= (if k < INDIRECT then k else k - 1) <= (off + n - 1) / BSIZE
  }

  /** The pointers of inode i that the n bytes at off need and that are null. */
  ghost function Missing(fs: Image, i: nat, off: nat, n: nat): set<nat>
    requires i < |fs.inodes| && fs.inodes[i].Valid()
  {
    set k: nat | k < NSLOTS && Wanted(off, n, k) && Slot(fs, i, k) == 0
  }

  /** fs' is fs with a block of its own for each missing pointer, and none for any other. */
  ghost predicate Filled(fs: Image, fs': Image, i: nat, off: nat, n: nat) {
    && i < |fs.inodes| && i < |fs'.inodes| && fs.inodes[i].Valid() && fs'.inodes[i].Valid()
    && (forall k | 0 <= k < NSLOTS :: Slot(fs', i, k) == 0 <==> Slot(fs, i, k) == 0 && !Wanted(off, n, k))
    && |FreeBlocks(fs.bits)| == |FreeBlocks(fs'.bits)| + |Missing(fs, i, off, n)|
  }

  lemma FilledNone(fs: Image, i: nat, off: nat, n: nat)
    requires i < |fs.inodes| && fs.inodes[i].Valid()
    requires forall k: nat | k < NSLOTS && Wanted(off, n, k) :: Slot(fs, i, k) != 0
    ensures Filled(fs, fs, i, off, n) && Missing(fs, i, off, n) == {}
  {
    hide Slot;
    hide Wanted;
    assert Missing(fs, i, off, n) == {};
  }

  lemma FilledSame(fs: Image, fs1: Image, fs2: Image, i: nat, off: nat, n: nat)
    requires Filled(fs, fs1, i, off, n) && i < |fs2.inodes| && fs2.inodes[i].Valid() && fs2.bits == fs1.bits
    requires forall k | 0 <= k < NSLOTS :: Slot(fs2, i, k) == Slot(fs1, i, k)
    ensures Filled(fs, fs2, i, off, n)
  {
    hide Slot;
    hide Wanted;
  }

  lemma FilledEnough(fs: Image, fs': Image, i: nat, off: nat, n: nat)
    requires Filled(fs, fs', i, off, n)
    ensures |FreeBlocks(fs.bits)| >= |Missing(fs, i, off, n)|
  {
    hide Slot;
    hide Wanted;
  }

  lemma FilledCount(fs: Image, fs': Image, i: nat, off: nat, n: nat)
    requires Filled(fs, fs', i, off, n)
    ensures |FreeBlocks(fs.bits)| == |FreeBlocks(fs'.bits)| + |Missing(fs, i, off, n)|
  {
    hide Slot;
    hide Wanted;
  }

  lemma WantedSplit(off: nat, a: nat, b: nat, k: nat)
    ensures Wanted(off, a + b, k) <==> Wanted(off, a, k) || Wanted(off + a, b, k)
  {
  }

  lemma WantedMore(off: nat, a: nat, n: nat, k: nat)
    requires a <= n && Wanted(off, a, k)
    ensures Wanted(off, n, k)
  {
  }

  /** What two writes in a row need is what one write of both needs. */
  lemma MissingSplit(fs: Image, fs1: Image, i: nat, off: nat, a: nat, b: nat)
    requires Filled(fs, fs1, i, off, a)
    ensures |Missing(fs, i, off, a + b)| == |Missing(fs, i, off, a)| + |Missing(fs1, i, off + a, b)|
  {
    hide Slot;
    hide Wanted;
    var m, m0, m1 := Missing(fs, i, off, a + b), Missing(fs, i, off, a), Missing(fs1, i, off + a, b);
    forall k: nat | k < NSLOTS ensures k in m <==> k in m0 || k in m1 {
      WantedSplit(off, a, b, k);
    }
    assert m == m0 + m1;
    assert m0 !! m1;
  }

  lemma FilledMore(fs: Image, fs1: Image, fs2: Image, i: nat, off: nat, a: nat, b: nat)
    requires Filled(fs, fs1, i, off, a) && Filled(fs1, fs2, i, off + a, b)
    ensures Filled(fs, fs2, i, off, a + b)
  {
    hide Slot;
    hide Wanted;
    MissingSplit(fs, fs1, i, off, a, b);
    forall k | 0 <= k < NSLOTS ensures Slot(fs2, i, k) == 0 <==> Slot(fs, i, k) == 0 && !Wanted(off, a + b, k) {
      WantedSplit(off, a, b, k);
    }
  }

  /** A write that stops for want of blocks is one that needed more than were free. */
  lemma ShortBefore(fs: Image, fs1: Image, i: nat, off: nat, a: nat, b: nat, n: nat)
    requires Filled(fs, fs1, i, off, a) && a + b <= n
    requires |FreeBlocks(fs1.bits)| < |Missing(fs1, i, off + a, b)|
    ensures |FreeBlocks(fs.bits)| < |Missing(fs, i, off, n)|
  {
    hide Slot;
    hide Wanted;
    MissingSplit(fs, fs1, i, off, a, b);
    var m, m' := Missing(fs, i, off, a + b), Missing(fs, i, off, n);
    forall k | k in m ensures k in m' {
      WantedMore(off, a + b, n, k);
    }
    assert m' == m + (m' - m);
  }

  /** Bytes of one block need what the whole block needs. */
  lemma WantedInBlock(off: nat, n: nat, k: nat)
    requires 0 < n <= BSIZE - off % BSIZE
    ensures Wanted(off, n, k) <==> Wanted(off / BSIZE * BSIZE, BSIZE, k)
    ensures k < NSLOTS ==>
              (Wanted(off, n, k) <==> k == DataSlot(off / BSIZE) || (k == INDIRECT && off / BSIZE >= NDIRECT))
  {
  }

  ghost function Null(fs: Image, i: nat, k: nat): nat
    requires IsSlot(fs, i, k)
  {
    if Slot(fs, i, k) == 0 then 1 else 0
  }

  lemma WantedBlock(bn: nat, k: nat)
    requires bn < MAXFILE && k < NSLOTS
    ensures Wanted(bn * BSIZE, BSIZE, k) <==> k == DataSlot(bn) || (k == INDIRECT && bn >= NDIRECT)
  {
    WantedInBlock(bn * BSIZE, BSIZE, k);
  }

  /** Block bn of a file needs its own pointer and, past the direct ones, the indirect block. */
  lemma MissingInBlock(fs: Image, i: nat, bn: nat)
    requires i < |fs.inodes| && fs.inodes[i].Valid() && bn < MAXFILE
    ensures |Missing(fs, i, bn * BSIZE, BSIZE)| ==
            Null(fs, i, DataSlot(bn)) + if bn >= NDIRECT then Null(fs, i, INDIRECT) else 0
  {
    var m, k := Missing(fs, i, bn * BSIZE, BSIZE), DataSlot(bn);
    assert k != INDIRECT && k < NSLOTS;
    hide Slot;
    hide Wanted;
    hide DataSlot;
    forall l: nat | l < NSLOTS ensures l in m <==> Slot(fs, i, l) == 0 && (l == k || (l == INDIRECT && bn >= NDIRECT)) {
      WantedBlock(bn, l);
    }
    assert forall l | l in m :: l < NSLOTS;
    hide Missing;
    if Slot(fs, i, k) == 0 {
      assert m == if bn >= NDIRECT && Slot(fs, i, INDIRECT) == 0 then {k, INDIRECT} else {k};
    } else {
      assert m == if bn >= NDIRECT && Slot(fs, i, INDIRECT) == 0 then {INDIRECT} else {};
    }
  }

  lemma FilledBlock(fs: Image, fs': Image, i: nat, bn: nat)
    requires i < |fs.inodes| && i < |fs'.inodes| && fs.inodes[i].Valid() && fs'.inodes[i].Valid() && bn < MAXFILE
    requires Slot(fs', i, DataSlot(bn)) != 0 && (bn >= NDIRECT ==> Slot(fs', i, INDIRECT) != 0)
    requires forall l | 0 <= l < NSLOTS && l != DataSlot(bn) && (l != INDIRECT || bn < NDIRECT) ::
               Slot(fs', i, l) == Slot(fs, i, l)
    requires |FreeBlocks(fs.bits)| == |FreeBlocks(fs'.bits)| + |Missing(fs, i, bn * BSIZE, BSIZE)|
    ensures Filled(fs, fs', i, bn * BSIZE, BSIZE)
  {
    hide Slot;
    hide Wanted;
    forall k | 0 <= k < NSLOTS
      ensures Slot(fs', i, k) == 0 <==> Slot(fs, i, k) == 0 && !Wanted(bn * BSIZE, BSIZE, k)
    {
      WantedInBlock(bn * BSIZE, BSIZE, k);
    }
  }

  lemma FilledInBlock(fs: Image, fs': Image, i: nat, off: nat, n: nat)
    requires Filled(fs, fs', i, off / BSIZE * BSIZE, BSIZE) && 0 < n <= BSIZE - off % BSIZE
    ensures Filled(fs, fs', i, off, n)
  {
    hide Slot;
    hide Wanted;
    MissingWithin(fs, i, off, n);
    forall k | 0 <= k < NSLOTS ensures Slot(fs', i, k) == 0 <==> Slot(fs, i, k) == 0 && !Wanted(off, n, k) {
      WantedInBlock(off, n, k);
    }
  }

  lemma MissingWithin(fs: Image, i: nat, off: nat, n: nat)
    requires i < |fs.inodes| && fs.inodes[i].Valid() && 0 < n <= BSIZE - off % BSIZE
    ensures Missing(fs, i, off, n) == Missing(fs, i, off / BSIZE * BSIZE, BSIZE)
  {
    hide Slot;
    hide Wanted;
    forall k: nat ensures Wanted(off, n, k) <==> Wanted(off / BSIZE * BSIZE, BSIZE, k) {
      WantedInBlock(off, n, k);
    }
  }

  /** Marking a free block leaves one less. */
  lemma MarkFree(bits: seq<bool>, a: nat)
    requires a < |bits| && !bits[a]
    ensures |FreeBlocks(bits)| == |FreeBlocks(bits[a := true])| + 1
  {
    assert FreeBlocks(bits) == FreeBlocks(bits[a := true]) + {a};
  }

  lemma NoneFree(bits: seq<bool>)
    ensures |FreeBlocks(bits)| == 0 <==> forall b | 0 <= b < |bits| :: bits[b]
  {
    if !(forall b | 0 <= b < |bits| :: bits[b]) {
      var b :| 0 <= b < |bits| && !bits[b];
      assert b in FreeBlocks(bits);
    } else {
      assert FreeBlocks(bits) == {};
    }
  }

  // --------------------------------------------------------------- what is logged

  /** The indirect block is changed: it gets a pointer. */
  ghost predicate FillsIndirect(fs: Image, i: nat, off: nat, n: nat)
    requires i < |fs.inodes| && fs.inodes[i].Valid()
  {
    exists k :: k in Missing(fs, i, off, n) && k > INDIRECT
  }

  /** Pointer k names a block that a write of these bytes logs. */
  ghost predicate Dirties(fs: Image, i: nat, off: nat, n: nat, k: nat)
    requires i < |fs.inodes| && fs.inodes[i].Valid()
  {
    k < NSLOTS && Wanted(off, n, k) && (k == INDIRECT ==> FillsIndirect(fs, i, off, n))
  }

  /** What a write that takes fs to fs' logs, but for the inode: the blocks it writes, the
      indirect block if that gets a pointer, and the bitmap block of each new block. */
  ghost function WriteLog(sb: Super, fs: Image, fs': Image, i: nat, off: nat, n: nat): set<nat>
    requires i < |fs.inodes| && fs.inodes[i].Valid() && i < |fs'.inodes| && fs'.inodes[i].Valid()
  {
    (set k: nat | k < NSLOTS && Dirties(fs, i, off, n, k) :: Slot(fs', i, k)) +
    (set k | k in Missing(fs, i, off, n) && IsSlot(fs', i, k) :: BBlock(sb, Slot(fs', i, k)))
  }

  lemma FillsMore(fs: Image, fs1: Image, i: nat, off: nat, a: nat, b: nat)
    requires Filled(fs, fs1, i, off, a)
    ensures Missing(fs, i, off, a) <= Missing(fs, i, off, a + b)
    ensures Missing(fs1, i, off + a, b) <= Missing(fs, i, off, a + b)
    ensures FillsIndirect(fs, i, off, a) || FillsIndirect(fs1, i, off + a, b) ==> FillsIndirect(fs, i, off, a + b)
  {
    hide Slot;
    hide Wanted;
    var m, m0, m1 := Missing(fs, i, off, a + b), Missing(fs, i, off, a), Missing(fs1, i, off + a, b);
    forall k | k in m0 ensures k in m {
      WantedSplit(off, a, b, k);
    }
    forall k | k in m1 ensures k in m {
      WantedSplit(off, a, b, k);
    }
    if FillsIndirect(fs, i, off, a) {
      var k :| k in m0 && k > INDIRECT;
      assert k in m;
    }
    if FillsIndirect(fs1, i, off + a, b) {
      var k :| k in m1 && k > INDIRECT;
      assert k in m;
    }
  }

  lemma DirtiesMore(fs: Image, fs1: Image, i: nat, off: nat, a: nat, b: nat, k: nat)
    requires Filled(fs, fs1, i, off, a)
    ensures Dirties(fs, i, off, a, k) || Dirties(fs1, i, off + a, b, k) ==> Dirties(fs, i, off, a + b, k)
    ensures Dirties(fs, i, off, a, k) ==> Slot(fs1, i, k) != 0
  {
    hide Slot;
    FillsMore(fs, fs1, i, off, a, b);
    hide Wanted;
    hide FillsIndirect;
    WantedSplit(off, a, b, k);
  }

  /** Two writes in a row log no more than one write of both. */
  lemma WriteLogMore(sb: Super, fs: Image, fs1: Image, fs2: Image, i: nat, off: nat, a: nat, b: nat)
    requires Filled(fs, fs1, i, off, a) && i < |fs2.inodes| && fs2.inodes[i].Valid()
    requires forall k | 0 <= k < NSLOTS && Slot(fs1, i, k) != 0 :: Slot(fs2, i, k) == Slot(fs1, i, k)
    ensures WriteLog(sb, fs, fs1, i, off, a) <= WriteLog(sb, fs, fs2, i, off, a + b)
    ensures WriteLog(sb, fs1, fs2, i, off + a, b) <= WriteLog(sb, fs, fs2, i, off, a + b)
  {
    hide Slot;
    hide Wanted;
    hide FillsIndirect;
    hide BBlock;
    hide Dirties;
    FillsMore(fs, fs1, i, off, a, b);
    var all := WriteLog(sb, fs, fs2, i, off, a + b);
    forall x | x in WriteLog(sb, fs, fs1, i, off, a) ensures x in all {
      if k: nat :| k < NSLOTS && Dirties(fs, i, off, a, k) && Slot(fs1, i, k) == x {
        DirtiesMore(fs, fs1, i, off, a, b, k);
        assert Dirties(fs, i, off, a + b, k) && Slot(fs2, i, k) == x;
      } else {
        var k :| k in Missing(fs, i, off, a) && IsSlot(fs1, i, k) && BBlock(sb, Slot(fs1, i, k)) == x;
        assert k in Missing(fs, i, off, a + b) && IsSlot(fs2, i, k) && Slot(fs2, i, k) == Slot(fs1, i, k);
      }
    }
    forall x | x in WriteLog(sb, fs1, fs2, i, off + a, b) ensures x in all {
      if k: nat :| k < NSLOTS && Dirties(fs1, i, off + a, b, k) && Slot(fs2, i, k) == x {
        DirtiesMore(fs, fs1, i, off, a, b, k);
        assert Dirties(fs, i, off, a + b, k);
      } else {
        var k :| k in Missing(fs1, i, off + a, b) && IsSlot(fs2, i, k) && BBlock(sb, Slot(fs2, i, k)) == x;
        assert k in Missing(fs, i, off, a + b);
      }
    }
  }

  lemma WriteLogSame(sb: Super, fs: Image, fs1: Image, fs2: Image, i: nat, off: nat, n: nat)
    requires i < |fs.inodes| && fs.inodes[i].Valid() && i < |fs1.inodes| && fs1.inodes[i].Valid()
    requires i < |fs2.inodes| && fs2.inodes[i].Valid()
    requires forall k | 0 <= k < NSLOTS :: Slot(fs2, i, k) == Slot(fs1, i, k)
    ensures WriteLog(sb, fs, fs2, i, off, n) == WriteLog(sb, fs, fs1, i, off, n)
  {
    hide Slot;
    hide Dirties;
    hide BBlock;
    hide Missing;
    assert forall k | IsSlot(fs1, i, k) :: IsSlot(fs2, i, k) && Slot(fs2, i, k) == Slot(fs1, i, k);
    assert forall k | IsSlot(fs2, i, k) :: IsSlot(fs1, i, k);
  }

  /** Bytes of one block log what the whole block logs. */
  lemma WriteLogWithin(sb: Super, fs: Image, fs': Image, i: nat, off: nat, n: nat)
    requires i < |fs.inodes| && fs.inodes[i].Valid() && i < |fs'.inodes| && fs'.inodes[i].Valid()
    requires 0 < n <= BSIZE - off % BSIZE
    ensures WriteLog(sb, fs, fs', i, off, n) == WriteLog(sb, fs, fs', i, off / BSIZE * BSIZE, BSIZE)
  {
    hide Slot;
    hide Wanted;
    hide BBlock;
    var at := off / BSIZE * BSIZE;
    MissingWithin(fs, i, off, n);
    hide Missing;
    assert FillsIndirect(fs, i, off, n) <==> FillsIndirect(fs, i, at, BSIZE);
    hide FillsIndirect;
    forall k: nat | k < NSLOTS ensures Dirties(fs, i, off, n, k) <==> Dirties(fs, i, at, BSIZE, k) {
      WantedInBlock(off, n, k);
    }
  }

  /** The log of one block of a file. */
  lemma BlockLog(sb: Super, fs: Image, fs': Image, i: nat, bn: nat)
    requires i < |fs.inodes| && fs.inodes[i].Valid() && i < |fs'.inodes| && fs'.inodes[i].Valid() && bn < MAXFILE
    ensures var log, k := WriteLog(sb, fs, fs', i, bn * BSIZE, BSIZE), DataSlot(bn);
            && Slot(fs', i, k) in log
            && (Slot(fs, i, k) == 0 ==> BBlock(sb, Slot(fs', i, k)) in log)
            && (bn >= NDIRECT && Slot(fs, i, k) == 0 ==> Slot(fs', i, INDIRECT) in log)
            && (bn >= NDIRECT && Slot(fs, i, INDIRECT) == 0 ==> BBlock(sb, Slot(fs', i, INDIRECT)) in log)
  {
    hide Slot;
    hide BBlock;
    var off, k := bn * BSIZE, DataSlot(bn);
    WantedInBlock(off, BSIZE, k);
    WantedInBlock(off, BSIZE, INDIRECT);
    hide Wanted;
    assert Dirties(fs, i, off, BSIZE, k);
    if Slot(fs, i, k) == 0 { assert k in Missing(fs, i, off, BSIZE) && IsSlot(fs', i, k); }
    if bn >= NDIRECT && Slot(fs, i, k) == 0 { assert Dirties(fs, i, off, BSIZE, INDIRECT); }
    if bn >= NDIRECT && Slot(fs, i, INDIRECT) == 0 {
      assert INDIRECT in Missing(fs, i, off, BSIZE) && IsSlot(fs', i, INDIRECT);
    }
  }

  /** What bytes inside one block may log: the block, the indirect block, and the bitmap
      blocks of both. */
  ghost function RecordBlocks(sb: Super, fs: Image, fs': Image, i: nat, bn: nat): set<nat>
    requires i < |fs.inodes| && fs.inodes[i].Valid() && i < |fs'.inodes| && fs'.inodes[i].Valid() && bn < MAXFILE
  {
    var k := DataSlot(bn);
    {Slot(fs', i, k)} +
    (if Slot(fs, i, k) != 0 then {}
     else {BBlock(sb, Slot(fs', i, k))} + if bn < NDIRECT then {} else {Slot(fs', i, INDIRECT)}) +
    (if bn < NDIRECT || Slot(fs, i, INDIRECT) != 0 then {} else {BBlock(sb, Slot(fs', i, INDIRECT))})
  }

  lemma RecordLog(sb: Super, fs: Image, fs': Image, i: nat, off: nat, n: nat)
    requires i < |fs.inodes| && fs.inodes[i].Valid() && i < |fs'.inodes| && fs'.inodes[i].Valid()
    requires 0 < n <= BSIZE - off % BSIZE && off / BSIZE < MAXFILE
    ensures WriteLog(sb, fs, fs', i, off, n) <= RecordBlocks(sb, fs, fs', i, off / BSIZE)
  {
    hide Slot;
    hide BBlock;
    var bn := off / BSIZE;
    forall j: nat | j < NSLOTS
      ensures Wanted(off, n, j) <==> j == DataSlot(bn) || (j == INDIRECT && bn >= NDIRECT)
    {
      WantedInBlock(off, n, j);
    }
    hide Wanted;
  }

  lemma RecordCount(sb: Super, fs: Image, fs': Image, i: nat, bn: nat)
    requires i < |fs.inodes| && fs.inodes[i].Valid() && i < |fs'.inodes| && fs'.inodes[i].Valid() && bn < MAXFILE
    ensures |RecordBlocks(sb, fs, fs', i, bn)| <= 4
    ensures bn < NDIRECT ==> |RecordBlocks(sb, fs, fs', i, bn)| <= 2
    ensures Slot(fs, i, DataSlot(bn)) != 0 && (bn < NDIRECT || Slot(fs, i, INDIRECT) != 0) ==>
              |RecordBlocks(sb, fs, fs', i, bn)| <= 1
  {
    hide Slot;
    hide BBlock;
  }
}
