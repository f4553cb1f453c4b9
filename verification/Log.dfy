/** The physical redo log of log.c, as single-block disk writes.

    A transaction is committed by writing its blocks into the log, then the
    header, then the home locations, then an empty header.  Recovery redoes the
    second half.  A crash keeps a prefix of the writes.  */
module Log {
  import opened Blocks

  const MAXOPBLOCKS := 10
  const LOGSIZE := MAXOPBLOCKS * 3

  /** log.start, log.size and the number of blocks of the disk. */
  datatype Config = Config(start: nat, size: nat, nblocks: nat) {
    ghost predicate Valid() {
      && 2 <= size
      && start + size <= nblocks <= 0x1_0000_0000
    }

    /** A home block is any block outside the log area. */
    ghost predicate Home(b: int) {
      0 <= b < nblocks && !(start <= b < start + size)
    }

    ghost function Homes(): set<int> {
      set b | 0 <= b < nblocks && Home(b)
    }
  }

  type Disk = seq<Block>

  datatype Write = Write(blockno: nat, data: Block)

  ghost predicate InRange(ws: seq<Write>, n: nat) {
    forall i | 0 <= i < |ws| :: ws[i].blockno < n
  }

  /** The disk after a sequence of writes, each of which is atomic. */
  ghost function Apply(d: Disk, ws: seq<Write>): (r: Disk)
    requires InRange(ws, |d|)
    ensures |r| == |d|
    decreases |ws|
  {
    if ws == [] then d
    else
      var last := ws[|ws| - 1];
      Apply(d, ws[..|ws| - 1])[last.blockno := last.data]
  }

  // ------------------------------------------------------------ the header

  predicate HeaderFits(hdr: Block) {
    GetWord(hdr, 0) <= LOGSIZE
  }

  /** The block numbers recorded in a header block. */
  function Decode(hdr: Block): (lh: seq<word>)
    requires HeaderFits(hdr)
  {
    seq(GetWord(hdr, 0), i requires 0 <= i < LOGSIZE => GetWord(hdr, 1 + i))
  }

  /** What write_head leaves in the header block: the count and the listed
      numbers are overwritten and the rest of the block keeps its old bytes. */
  function EncodeOver(hdr: Block, lh: seq<word>): Block
    requires |lh| <= LOGSIZE
  {
    PutWords(PutWord(hdr, 0, |lh|), 1, lh)
  }

  lemma DecodeEncode(hdr: Block, lh: seq<word>)
    requires |lh| <= LOGSIZE
    ensures HeaderFits(EncodeOver(hdr, lh)) && Decode(EncodeOver(hdr, lh)) == lh
  {
    hide GetWord;
    hide PutWord;
    var h0 := PutWord(hdr, 0, |lh|);
    var h1 := EncodeOver(hdr, lh);
    GetPutWords(h0, 1, lh, 0);
    GetPut(hdr, 0, |lh|, 0);
    forall i | 0 <= i < |lh| ensures GetWord(h1, 1 + i) == lh[i] {
      GetPutWords(h0, 1, lh, 1 + i);
    }
  }

  // ------------------------------------------------- what a disk stands for

  predicate NoDup(s: seq<word>) {
    forall i, j :: 0 <= i < j < |s| ==> s[i] != s[j]
  }

  /** A list of block numbers that a transaction may log. */
  ghost predicate LoggableList(c: Config, lh: seq<word>) {
    && |lh| <= LOGSIZE
    && |lh| <= c.size - 1
    && NoDup(lh)
    && forall b <- lh :: c.Home(b)
  }

  ghost predicate DiskOk(c: Config, d: Disk) {
    && c.Valid()
    && |d| == c.nblocks
    && HeaderFits(d[c.start])
    && LoggableList(c, Decode(d[c.start]))
  }

  ghost function Slot(c: Config, d: Disk, t: nat): Block
    requires c.start + 1 + t < |d|
  {
    d[c.start + 1 + t]
  }

  function IndexOf(s: seq<word>, b: word): (i: nat)
    requires b in s
    ensures i < |s| && s[i] == b
  {
    if s[0] == b then 0 else 1 + IndexOf(s[1..], b)
  }

  /** The contents of home block b once recovery has run on this disk. */
  ghost function DurableAt(c: Config, d: Disk, b: int): Block
    requires DiskOk(c, d) && c.Home(b)
  {
    var lh := Decode(d[c.start]);
    if b in lh then Slot(c, d, IndexOf(lh, b)) else d[b]
  }

  /** The file system image that recovery would produce from this disk. */
  ghost function Durable(c: Config, d: Disk): map<int, Block>
    requires DiskOk(c, d)
  {
    map b | b in c.Homes() :: DurableAt(c, d, b)
  }

  ghost function HomeImage(c: Config, d: Disk): map<int, Block>
    requires |d| == c.nblocks
  {
    map b | b in c.Homes() :: d[b]
  }

  /** An image with block lh[t] replaced by data[t], for every t. */
  ghost function Overlay(img: map<int, Block>, lh: seq<word>, data: seq<Block>): map<int, Block>
    requires |lh| == |data|
  {
    map b | b in img :: if b in lh then data[IndexOf(lh, b)] else img[b]
  }

  lemma IndexOfUnique(lh: seq<word>, t: nat)
    requires t < |lh| && NoDup(lh)
    ensures IndexOf(lh, lh[t]) == t
  {
  }

  // ------------------------------------------------------- the write traces

  /** install_trans: log block t goes to its home. */
  ghost function InstallWrites(lh: seq<word>, data: seq<Block>): (ws: seq<Write>)
    requires |lh| == |data|
    ensures |ws| == |lh|
  {
    seq(|lh|, t requires 0 <= t < |lh| => Write(lh[t], data[t]))
  }

  /** write_log: cached block t goes to log slot t. */
  ghost function LogWrites(c: Config, data: seq<Block>): (ws: seq<Write>)
    ensures |ws| == |data|
  {
    seq(|data|, t requires 0 <= t < |data| => Write(c.start + 1 + t, data[t]))
  }

  ghost function Slots(c: Config, d: Disk, n: nat): (data: seq<Block>)
    requires c.start + n < |d|
    ensures |data| == n
  {
    seq(n, t requires 0 <= t < n => Slot(c, d, t))
  }

  /** A header that read_head and install_trans can follow within the disk. */
  ghost predicate HeaderReadable(c: Config, d: Disk) {
    && c.start < |d|
    && HeaderFits(d[c.start])
    && c.start + |Decode(d[c.start])| < |d|
  }

  /** Every disk write of recover_from_log, in order. */
  ghost function RecoverWrites(c: Config, d: Disk): (ws: seq<Write>)
    requires HeaderReadable(c, d)
    ensures |ws| == |Decode(d[c.start])| + 1
  {
    var lh := Decode(d[c.start]);
    InstallWrites(lh, Slots(c, d, |lh|)) + [Write(c.start, EncodeOver(d[c.start], []))]
  }

  /** Every disk write of commit(), in order: data[t] is the cached contents of
      block lh[t].  After the header write the rest is what recovery would do. */
  ghost function CommitWrites(c: Config, d: Disk, lh: seq<word>, data: seq<Block>): (ws: seq<Write>)
    requires c.start < |d| && |lh| == |data| <= LOGSIZE
    ensures |ws| == 2 * |lh| + 2
  {
    var full := EncodeOver(d[c.start], lh);
    LogWrites(c, data) + [Write(c.start, full)]
    + InstallWrites(lh, data) + [Write(c.start, EncodeOver(full, []))]
  }
}
