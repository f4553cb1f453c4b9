/** What mkfs makes: files that only grow at their ends, in the order of the blocks. */
module MkfsModel {
  import opened Common
  import opened Blocks
  import opened FsLayout
  import opened FsModel
  import opened FsUpdates
  import opened FsSpace
  import opened FsCode
  import opened LinkModel
  import opened DirModel

  // --------------------------------------------------------------- the superblock

  /** The words of struct superblock: the log lies between block 2 and the inodes. */
  function SuperWords(sb: Super): seq<word>
    requires sb.Valid() && 2 <= sb.inodestart
  {
    [sb.size, sb.size - sb.nmeta, sb.ninodes, sb.inodestart - 2, 2, sb.inodestart, sb.bmapstart]
  }

  function SuperBlock(sb: Super): Block
    requires sb.Valid() && 2 <= sb.inodestart
  {
    PutWords(ZeroBlock(), 0, SuperWords(sb))
  }

  /** What readsb reads back. */
  ghost function ReadSuper(b: Block): Super {
    var nmeta := GetWord(b, 0) - GetWord(b, 1);
    Super(GetWord(b, 0), GetWord(b, 2), GetWord(b, 5), GetWord(b, 6), if nmeta >= 0 then nmeta else 0)
  }

  lemma SuperBack(sb: Super)
    requires sb.Valid() && 2 <= sb.inodestart
    ensures ReadSuper(SuperBlock(sb)) == sb
  {
    hide GetWord;
    hide PutWords;
    forall j: nat | j < 7 ensures GetWord(SuperBlock(sb), j) == SuperWords(sb)[j] {
      GetPutWords(ZeroBlock(), 0, SuperWords(sb), j);
    }
  }

  // -------------------------------------------------------------------- appending

  /** v' is v with the bytes at the end of inode i, blocks for them, and its new size. */
  ghost predicate Appended(v: Image, v': Image, i: nat, xp: seq<byte>) {
    && i < |v.inodes| == |v'.inodes| && v.inodes[i].Valid() && v'.inodes[i].Valid()
    && v.inodes[i].size + |xp| <= MAXFILE * BSIZE
    && v'.inodes == v.inodes[i := v.inodes[i].(addrs := v'.inodes[i].addrs, size := v.inodes[i].size + |xp|)]
    && Wrote(v, v', i, v.inodes[i].size, xp, |xp|)
    && Filled(v, v', i, v.inodes[i].size, |xp|)
    && OtherSlots(v, v', i)
  }

  /** The first tot bytes are in, and the size is still the old one. */
  ghost predicate Appending(v: Image, v': Image, i: nat, off: nat, xp: seq<byte>, tot: nat) {
    && tot <= |xp|
    && Wrote(v, v', i, off, xp, tot) && Filled(v, v', i, off, tot) && OtherSlots(v, v', i)
    && (forall bn: nat | bn < MAXFILE && bn * BSIZE < off + tot :: Slot(v', i, DataSlot(bn)) != 0)
  }

  lemma StartAppend(sb: Super, v: Image, i: nat, xp: seq<byte>)
    requires WellFormed(sb, v) && i < |v.inodes|
    ensures Appending(v, v, i, v.inodes[i].size, xp, 0)
  {
    MappedPrefix(sb, v, i, v.inodes[i].size);
    hide Slot;
    hide OtherSlots;
    hide ByteAt;
    hide Filled;
    hide Wrote;
    OthersRefl(v, i);
    FilledNone(v, i, v.inodes[i].size, 0);
    WroteNothing(v, i, v.inodes[i].size, xp);
  }

  lemma AppendMore(sb: Super, v: Image, v1: Image, v2: Image, i: nat, off: nat, xp: seq<byte>, tot: nat, m: nat)
    requires Appending(v, v1, i, off, xp, tot) && tot + m <= |xp|
    requires 0 < m <= BSIZE - (off + tot) % BSIZE && (off + tot) / BSIZE < MAXFILE
    requires Wrote(v1, v2, i, off + tot, xp[tot..tot + m], m) && Filled(v1, v2, i, off + tot, m)
    requires OtherSlots(v1, v2, i) && KeepsPointers(v1, v2, i) && Slot(v2, i, DataSlot((off + tot) / BSIZE)) != 0
    ensures Appending(v, v2, i, off, xp, tot + m)
  {
    hide Slot;
    hide OtherSlots;
    hide Filled;
    hide Wrote;
    hide KeepsPointers;
    OthersTrans(v, v1, v2, i);
    WroteMore(v, v1, v2, i, off, xp, tot, m);
    FilledMore(v, v1, v2, i, off, tot, m);
    MappedMore(sb, v1, v2, i, off + tot, m);
  }

  lemma EndAppend(sb: Super, v: Image, v1: Image, i: nat, xp: seq<byte>)
    requires Shape(sb, v) && WellFormed(sb, v1) && i < |v.inodes| && v.inodes[i].kind != 0
    requires v.inodes[i].size + |xp| <= MAXFILE * BSIZE
    requires i < |v1.inodes| && v1.inodes == v.inodes[i := v.inodes[i].(addrs := v1.inodes[i].addrs)]
    requires Appending(v, v1, i, v.inodes[i].size, xp, |xp|)
    ensures var v' := Resized(v1, i, v.inodes[i].size + |xp|); WellFormed(sb, v') && Appended(v, v', i, xp)
  {
    hide WellFormed;
    hide Slot;
    hide OtherSlots;
    hide ByteAt;
    hide Filled;
    hide SameBytes;
    var off := v.inodes[i].size;
    var v' := Resized(v1, i, off + |xp|);
    ResizeWellFormed(sb, v1, i, off + |xp|);
    ResizeSlots(v1, i, off + |xp|);
    ResizeOthers(v1, i, off + |xp|);
    OthersTrans(v, v1, v', i);
    FilledSame(v, v1, v', i, off, |xp|);
    WroteSame(v, v1, v', i, off, xp);
  }

  lemma WroteSame(v: Image, v1: Image, v2: Image, i: nat, off: nat, xp: seq<byte>)
    requires Wrote(v, v1, i, off, xp, |xp|) && |v2.inodes| == |v.inodes|
    requires forall j | 0 <= j < |v.inodes| :: SameBytes(v1, v2, j)
    ensures Wrote(v, v2, i, off, xp, |xp|)
  {
    hide ByteAt;
    assert SameBytes(v1, v2, i);
    forall j | 0 <= j < |v.inodes| && j != i ensures SameBytes(v, v2, j) {
      assert SameBytes(v, v1, j) && SameBytes(v1, v2, j);
    }
  }

  /** Two pieces appended are their concatenation appended. */
  lemma AppendedTwice(v: Image, v1: Image, v2: Image, i: nat, a: seq<byte>, b: seq<byte>)
    requires Appended(v, v1, i, a) && Appended(v1, v2, i, b)
    ensures Appended(v, v2, i, a + b)
  {
    hide Slot;
    hide OtherSlots;
    hide ByteAt;
    hide Filled;
    hide SameBytes;
    var off := v.inodes[i].size;
    OthersTrans(v, v1, v2, i);
    FilledMore(v, v1, v2, i, off, |a|, |b|);
    WroteTwice(v, v1, v2, i, off, a, b);
  }

  lemma WroteTwice(v: Image, v1: Image, v2: Image, i: nat, off: nat, a: seq<byte>, b: seq<byte>)
    requires Wrote(v, v1, i, off, a, |a|) && Wrote(v1, v2, i, off + |a|, b, |b|)
    ensures Wrote(v, v2, i, off, a + b, |a + b|)
  {
    hide ByteAt;
    forall j | 0 <= j < |v.inodes| && j != i ensures SameBytes(v, v2, j) {
      assert SameBytes(v, v1, j) && SameBytes(v1, v2, j);
    }
  }

  lemma AppendedContent(v: Image, v': Image, i: nat, xp: seq<byte>)
    requires Appended(v, v', i, xp)
    ensures v.inodes[i].size <= MAXFILE * BSIZE && v'.inodes[i].size <= MAXFILE * BSIZE
    ensures Content(v', i) == Content(v, i) + xp
  {
    hide ByteAt;
    hide Filled;
    hide OtherSlots;
  }

  // ----------------------------------------------------------------------- blocks

  /** How many blocks a file of n bytes takes, with its indirect block. */
  function BlocksFor(n: nat): nat {
    var b := (n + BSIZE - 1) / BSIZE;
    if b <= NDIRECT then b else b + 1
  }

  ghost function Wants(n: nat): set<nat> {
    set k: nat | k < NSLOTS && Wanted(0, n, k)
  }

  lemma WantsCount(n: nat)
    requires n <= MAXFILE * BSIZE
    ensures |Wants(n)| == BlocksFor(n)
  {
    var b := (n + BSIZE - 1) / BSIZE;
    assert n > 0 ==> (n - 1) / BSIZE == b - 1;
    forall k: nat | k < NSLOTS ensures Wanted(0, n, k) <==> k < BlocksFor(n) {
    }
    assert Wants(n) == Range(0, BlocksFor(n));
  }

  lemma BlocksMonotone(a: nat, b: nat)
    requires a <= b
    ensures BlocksFor(a) <= BlocksFor(b)
  {
  }

  /** Exactly the pointers that the size of inode i needs are set. */
  ghost predicate Tight(v: Image, i: nat) {
    && i < |v.inodes| && v.inodes[i].Valid() && v.inodes[i].size <= MAXFILE * BSIZE
    && forall k | 0 <= k < NSLOTS :: Slot(v, i, k) == 0 <==> !Wanted(0, v.inodes[i].size, k)
  }

  lemma TightMissing(v: Image, i: nat, n: nat)
    requires Tight(v, i) && v.inodes[i].size + n <= MAXFILE * BSIZE
    ensures |Missing(v, i, v.inodes[i].size, n)| == BlocksFor(v.inodes[i].size + n) - BlocksFor(v.inodes[i].size)
  {
    hide Slot;
    hide Wanted;
    hide BlocksFor;
    var size := v.inodes[i].size;
    WantsCount(size);
    WantsCount(size + n);
    forall k: nat | k < NSLOTS ensures k in Wants(size + n) <==> k in Wants(size) || k in Missing(v, i, size, n) {
      WantedSplit(0, size, n, k);
    }
    assert Wants(size + n) == Wants(size) + Missing(v, i, size, n);
    assert Wants(size) !! Missing(v, i, size, n);
  }

  lemma TightAppended(v: Image, v': Image, i: nat, xp: seq<byte>)
    requires Tight(v, i) && Appended(v, v', i, xp)
    ensures Tight(v', i)
  {
    hide Slot;
    hide Wanted;
    hide Wrote;
    hide OtherSlots;
    var size := v.inodes[i].size;
    forall k | 0 <= k < NSLOTS ensures Slot(v', i, k) == 0 <==> !Wanted(0, size + |xp|, k) {
      WantedSplit(0, size, |xp|, k);
    }
  }

  lemma TightOther(v: Image, v': Image, i: nat, j: nat)
    requires Tight(v, j) && i != j && OtherSlots(v, v', i) && j < |v'.inodes| && v'.inodes[j] == v.inodes[j]
    ensures Tight(v', j)
  {
    hide Slot;
    hide Wanted;
    forall k | 0 <= k < NSLOTS ensures Slot(v', j, k) == Slot(v, j, k) {
      assert IsSlot(v, j, k);
    }
  }

  lemma TightEmpty(v: Image, i: nat, kind: short)
    requires i < |v.inodes| && v.inodes[i] == EmptyInode(kind)
    ensures Tight(v, i) && forall pos: nat | pos < MAXFILE * BSIZE :: ByteAt(v, i, pos) == 0
  {
    SlotsInInode(v, i);
    hide Slot;
  }

  // ------------------------------------------------------------ the file system made

  datatype HostFile = HostFile(arg: seq<byte>, contents: seq<byte>)

  const SLASH: byte := 47
  const UNDERSCORE: byte := 95

  /** The name in the file system: a leading underscore is dropped. */
  function HostName(arg: seq<byte>): seq<byte> {
    if arg != [] && arg[0] == UNDERSCORE then arg[1..] else arg
  }

  ghost function RootEntries(files: seq<HostFile>, k: nat): (es: seq<Entry>)
    requires k <= |files|
    ensures |es| == k + 2
  {
    [Entry(ROOT, "."), Entry(ROOT, "..")] +
    seq(k, j requires 0 <= j < k => Entry((j + 2) % 0x1_0000, Stored(HostName(files[j].arg))))
  }

  /** The blocks that the contents of the first k files take. */
  ghost function Sum(files: seq<HostFile>, k: nat): nat
    requires k <= |files|
  {
    if k == 0 then 0 else Sum(files, k - 1) + BlocksFor(|files[k - 1].contents|)
  }

  lemma {:induction false} SumMonotone(files: seq<HostFile>, k: nat, n: nat)
    requires k <= n <= |files|
    ensures Sum(files, k) <= Sum(files, n)
  {
    if k < n { SumMonotone(files, k, n - 1); }
  }

  lemma {:induction false} SumEmpty(files: seq<HostFile>, k: nat)
    requires k <= |files| && forall j | 0 <= j < k :: files[j].contents == []
    ensures Sum(files, k) == 0
  {
    if k > 0 { SumEmpty(files, k - 1); }
  }

  /** The first block that is still free after k files. */
  ghost function Used(sb: Super, files: seq<HostFile>, k: nat): nat
    requires k <= |files|
  {
    sb.nmeta + BlocksFor(DIRENT * (k + 2)) + Sum(files, k)
  }

  /** What mkfs needs of its arguments. */
  ghost predicate Makes(sb: Super, files: seq<HostFile>) {
    && |files| + 2 <= sb.ninodes && DIRENT * (|files| + 2) <= MAXFILE * BSIZE
    && (forall j | 0 <= j < |files| :: SLASH !in files[j].arg && |files[j].contents| <= MAXFILE * BSIZE)
    && Used(sb, files, |files|) <= sb.size && Used(sb, files, |files|) < BPB
  }

  ghost predicate FileIs(v: Image, i: nat, contents: seq<byte>) {
    && i < |v.inodes| && v.inodes[i] == EmptyInode(T_FILE).(addrs := v.inodes[i].addrs, size := v.inodes[i].size)
    && v.inodes[i].Valid() && v.inodes[i].size <= MAXFILE * BSIZE && Content(v, i) == contents
  }

  /** The root directory holds these entries, and zeros past its end. */
  ghost predicate RootIs(v: Image, es: seq<Entry>) {
    && ROOT < |v.inodes| && Tight(v, ROOT)
    && v.inodes[ROOT] == EmptyInode(T_DIR).(addrs := v.inodes[ROOT].addrs, size := v.inodes[ROOT].size)
    && v.inodes[ROOT].size == DIRENT * |es|
    && Entries(Content(v, ROOT)) == es
    && forall pos: nat | DIRENT * |es| <= pos < MAXFILE * BSIZE :: ByteAt(v, ROOT, pos) == 0
  }

  ghost predicate FreeFrom(v: Image, n: nat) {
    forall x | 0 <= x < |v.inodes| && (x == 0 || n <= x) :: v.inodes[x] == EmptyInode(0)
  }

  /** The image after the first k files. */
  ghost predicate Stage(v: Image, files: seq<HostFile>, k: nat) {
    && k <= |files| && k + 2 <= |v.inodes|
    && RootIs(v, RootEntries(files, k)) && FreeFrom(v, k + 2)
    && forall j | 0 <= j < k :: FileIs(v, j + 2, files[j].contents)
  }

  /** Everything but inode i is as it was. */
  ghost predicate Others(v: Image, v': Image, i: nat) {
    && |v'.inodes| == |v.inodes| && OtherSlots(v, v', i)
    && forall j | 0 <= j < |v.inodes| && j != i :: v'.inodes[j] == v.inodes[j] && SameBytes(v, v', j)
  }

  lemma AppendedOthers(v: Image, v': Image, i: nat, xp: seq<byte>)
    requires Appended(v, v', i, xp)
    ensures Others(v, v', i)
  {
    hide OtherSlots;
    hide Filled;
    hide SameBytes;
    hide ByteAt;
  }

  lemma AllocOthers(v: Image, i: nat, kind: short)
    requires i < |v.inodes| && v.inodes[i] == EmptyInode(0) && forall j | 0 <= j < |v.inodes| :: v.inodes[j].Valid()
    ensures var v' := WithInode(v, i, EmptyInode(kind)); Others(v, v', i) && FileIsEmpty(v', i) && Tight(v', i)
  {
    var v' := WithInode(v, i, EmptyInode(kind));
    TightEmpty(v', i, kind);
    forall j, l | IsSlot(v, j, l) && j != i ensures IsSlot(v', j, l) && Slot(v', j, l) == Slot(v, j, l) {
    }
    hide Slot;
  }

  ghost predicate FileIsEmpty(v: Image, i: nat) {
    && i < |v.inodes| && v.inodes[i].Valid() && v.inodes[i].size == 0
    && forall pos: nat | pos < MAXFILE * BSIZE :: ByteAt(v, i, pos) == 0
  }

  lemma RootOther(v: Image, v': Image, i: nat, es: seq<Entry>)
    requires RootIs(v, es) && Others(v, v', i) && i != ROOT
    ensures RootIs(v', es)
  {
    hide OtherSlots;
    hide Entries;
    hide ByteAt;
    TightOther(v, v', i, ROOT);
    hide Tight;
    assert SameBytes(v, v', ROOT);
    SameContent(v, v', ROOT);
    hide Content;
  }

  lemma FileOther(v: Image, v': Image, i: nat, j: nat, contents: seq<byte>)
    requires FileIs(v, j, contents) && Others(v, v', i) && i != j
    ensures FileIs(v', j, contents)
  {
    hide OtherSlots;
    hide ByteAt;
    assert SameBytes(v, v', j);
    SameContent(v, v', j);
  }

  lemma FileAppended(v: Image, v': Image, i: nat, contents: seq<byte>, xp: seq<byte>)
    requires FileIs(v, i, contents) && Appended(v, v', i, xp)
    ensures FileIs(v', i, contents + xp)
  {
    AppendedContent(v, v', i, xp);
    hide OtherSlots;
    hide Filled;
    hide Wrote;
    hide Content;
  }

  lemma RootAppended(v: Image, v': Image, es: seq<Entry>, de: seq<byte>)
    requires RootIs(v, es) && |de| == DIRENT && Appended(v, v', ROOT, de)
    ensures RootIs(v', es + [Record(de)])
  {
    hide OtherSlots;
    hide Filled;
    hide Record;
    hide ByteAt;
    AppendedContent(v, v', ROOT, de);
    TightAppended(v, v', ROOT, de);
    hide Tight;
    var c := Content(v, ROOT);
    assert Splice(c, DIRENT * |es|, de) == c + de;
    SpliceEntries(c, |es|, de);
    hide Content;
    hide Entries;
  }

  lemma RootEntriesNext(files: seq<HostFile>, k: nat)
    requires k < |files|
    ensures RootEntries(files, k + 1) ==
            RootEntries(files, k) + [Entry((k + 2) % 0x1_0000, Stored(HostName(files[k].arg)))]
  {
    hide Stored;
  }

  /** One more file: its inode, its entry and its contents. */
  lemma StageNext(v: Image, v1: Image, v2: Image, v3: Image, files: seq<HostFile>, k: nat)
    requires Stage(v, files, k) && k < |files| && k + 2 < |v.inodes|
    requires forall j | 0 <= j < |v.inodes| :: v.inodes[j].Valid()
    requires v1 == WithInode(v, k + 2, EmptyInode(T_FILE))
    requires Appended(v1, v2, ROOT, Dirent(k + 2, Field(HostName(files[k].arg))))
    requires Appended(v2, v3, k + 2, files[k].contents)
    ensures Stage(v3, files, k + 1)
  {
    hide OtherSlots;
    hide Content;
    hide ByteAt;
    hide Tight;
    hide RootEntries;
    var f, name := k + 2, HostName(files[k].arg);
    var de := Dirent(f, Field(name));
    AllocOthers(v, f, T_FILE);
    AppendedOthers(v1, v2, ROOT, de);
    AppendedOthers(v2, v3, f, files[k].contents);
    RecordDirent(f, name);
    RootEntriesNext(files, k);
    hide Dirent;
    hide Field;
    StageRoot(v, v1, v2, v3, files, k, de);
    forall j | 0 <= j <= k ensures FileIs(v3, j + 2, files[j].contents) {
      if j < k {
        FileOther(v, v1, f, j + 2, files[j].contents);
        FileOther(v1, v2, ROOT, j + 2, files[j].contents);
        FileOther(v2, v3, f, j + 2, files[j].contents);
      } else {
        EmptyFile(v1, f);
        FileOther(v1, v2, ROOT, f, []);
        FileAppended(v2, v3, f, [], files[k].contents);
      }
    }
    hide RootIs;
    hide FileIs;
    hide Appended;
  }

  lemma EmptyFile(v: Image, i: nat)
    requires i < |v.inodes| && v.inodes[i] == EmptyInode(T_FILE)
    ensures FileIs(v, i, [])
  {
  }

  lemma StageRoot(v: Image, v1: Image, v2: Image, v3: Image, files: seq<HostFile>, k: nat, de: seq<byte>)
    requires k < |files| && |de| == DIRENT && RootIs(v, RootEntries(files, k))
    requires RootEntries(files, k + 1) == RootEntries(files, k) + [Record(de)]
    requires Others(v, v1, k + 2) && Appended(v1, v2, ROOT, de) && Others(v2, v3, k + 2)
    ensures RootIs(v3, RootEntries(files, k + 1))
  {
    hide RootIs;
    hide Others;
    hide Appended;
    hide RootEntries;
    hide Record;
    RootOther(v, v1, k + 2, RootEntries(files, k));
    RootAppended(v1, v2, RootEntries(files, k), de);
    RootOther(v2, v3, k + 2, RootEntries(files, k + 1));
  }

  lemma UsedMonotone(sb: Super, files: seq<HostFile>, k: nat, n: nat)
    requires k <= n <= |files|
    ensures Used(sb, files, k) <= Used(sb, files, n)
  {
    SumMonotone(files, k, n);
    BlocksMonotone(DIRENT * (k + 2), DIRENT * (n + 2));
  }

  lemma NoBlocks()
    ensures BlocksFor(0) == 0
  {
  }

  lemma AppendedNothing(sb: Super, v: Image, i: nat)
    requires WellFormed(sb, v) && i < |v.inodes|
    ensures Appended(v, v, i, [])
  {
    SizeBound(sb, v, i);
    hide Slot;
    hide ByteAt;
    OthersRefl(v, i);
    FilledNone(v, i, v.inodes[i].size, 0);
    WroteNothing(v, i, v.inodes[i].size, []);
  }

  lemma AppendedInode(v: Image, v': Image, i: nat, xp: seq<byte>)
    requires Appended(v, v', i, xp)
    ensures v'.inodes[i].size == v.inodes[i].size + |xp| && v'.inodes[i].kind == v.inodes[i].kind
  {
    hide Filled;
    hide Wrote;
    hide OtherSlots;
  }

  // ------------------------------------------------------------------- the start

  lemma RootEmpty(v: Image)
    requires ROOT < |v.inodes| && v.inodes[ROOT] == EmptyInode(T_DIR)
    ensures RootIs(v, [])
  {
    TightEmpty(v, ROOT, T_DIR);
    hide Tight;
    hide ByteAt;
  }

  lemma RootFirst(v: Image, v': Image)
    requires RootIs(v, []) && Appended(v, v', ROOT, Dirent(ROOT, Field([DOT])))
    ensures RootIs(v', [Entry(ROOT, ".")])
  {
    hide CStr;
    DotNames();
    RecordDirent(ROOT, [DOT]);
    hide RootIs;
    hide Appended;
    hide Stored;
    hide Field;
    RootAppended(v, v', [], Dirent(ROOT, Field([DOT])));
    assert [] + [Entry(ROOT, ".")] == [Entry(ROOT, ".")];
  }

  lemma StageStart(sb: Super, v1: Image, v2: Image, v3: Image, files: seq<HostFile>)
    requires 2 <= |v1.inodes| && FreeFrom(v1, 2) && RootIs(v2, [Entry(ROOT, ".")])
    requires Appended(v1, v2, ROOT, Dirent(ROOT, Field([DOT])))
    requires Appended(v2, v3, ROOT, Dirent(ROOT, Field([DOT, DOT])))
    ensures Stage(v3, files, 0)
  {
    hide CStr;
    DotNames();
    RecordDirent(ROOT, [DOT, DOT]);
    AppendedOthers(v1, v2, ROOT, Dirent(ROOT, Field([DOT])));
    AppendedOthers(v2, v3, ROOT, Dirent(ROOT, Field([DOT, DOT])));
    hide RootIs;
    hide Appended;
    hide Stored;
    hide Field;
    hide OtherSlots;
    hide SameBytes;
    RootAppended(v2, v3, [Entry(ROOT, ".")], Dirent(ROOT, Field([DOT, DOT])));
    assert [Entry(ROOT, ".")] + [Entry(ROOT, "..")] == RootEntries(files, 0);
  }
}
