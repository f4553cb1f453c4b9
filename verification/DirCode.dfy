/** dirlookup, dirlink, isdirempty and unlink's clearing of an entry, on the bytes of the
    directory, and the slots of the name space that they stand for. */
module DirCode {
  import opened Common
  import opened Blocks
  import opened FsLayout
  import opened FsModel
  import opened FsUpdates
  import opened FsAbs
  import opened FsSpace
  import opened FsCode
  import opened LinkModel
  import opened DirModel
  import LinkProofs
  import LinkCode

  /** strncmp: zero exactly if the strings are the same up to n characters. */
  method Strncmp(p: seq<byte>, q: seq<byte>, n: nat) returns (r: int)
    ensures r == 0 <==> CStr(p, n) == CStr(q, n)
  {
    var i := 0;
    assert p[0..] == p && q[0..] == q;
    while i < n && At(p, i) != 0 && At(p, i) == At(q, i)
      invariant 0 <= i <= n && i <= |p| && i <= |q|
      invariant CStr(p, n) == CStr(q, n) <==> CStr(p[i..], n - i) == CStr(q[i..], n - i)
    {
      CStrStep(p, q, n, i);
      i := i + 1;
    }
    if i == n {
      return 0;
    }
    CStrStep(p, q, n, i);
    var a: int, b: int := At(p, i), At(q, i);
    r := a - b;
  }

  /** strncpy: the string, cut to n characters or filled up with NULs. */
  method Strncpy(t: seq<byte>, n: nat) returns (s: seq<byte>)
    ensures s == Padded(t, n)
  {
    hide CStr;
    s := [];
    assert t[0..] == t;
    while |s| < n && At(t, |s|) != 0
      invariant |s| <= n && |s| <= |t| && CStr(t, n) == s + CStr(t[|s|..], n - |s|)
    {
      CopyStep(t, n, s);
      s := s + [At(t, |s|)];
    }
    CopyEnd(t, n, s);
    ghost var c := s;
    while |s| < n
      invariant |c| <= |s| <= n && s == c + Zeros(|s| - |c|)
    {
      s := s + [0];
    }
  }

  lemma CopyStep(t: seq<byte>, n: nat, s: seq<byte>)
    requires |s| < n && |s| <= |t| && At(t, |s|) != 0 && CStr(t, n) == s + CStr(t[|s|..], n - |s|)
    ensures |s| < |t| && CStr(t, n) == s + [t[|s|]] + CStr(t[|s| + 1..], n - |s| - 1)
  {
    CStrAt(t, n, |s|);
    hide CStr;
    var c := CStr(t[|s|..], n - |s|);
    assert c == [c[0]] + c[1..];
  }

  lemma CopyEnd(t: seq<byte>, n: nat, s: seq<byte>)
    requires |s| <= n && |s| <= |t| && (|s| == n || At(t, |s|) == 0) && CStr(t, n) == s + CStr(t[|s|..], n - |s|)
    ensures CStr(t, n) == s
  {
    if |s| < n { CStrAt(t, n, |s|); }
  }

  datatype Lookup = Found(off: nat, inum: nat) | Absent | LookupPanic

  ghost function Slots(fs: FileSystem, dp: Inode): seq<Entry>
    reads fs, dp
    requires fs.Locked(dp)
  {
    Entries(Content(fs.View(dp), dp.inum))
  }

  /** dirlookup: the first used slot with the name.  The panics are for an inode that is no
      directory, and for a last record cut short that the search gets to. */
  method DirLookup(fs: FileSystem, dp: Inode, name: seq<byte>) returns (r: Lookup)
    requires fs.Locked(dp)
    modifies fs, dp
    ensures fs.disk == old(fs.disk) && dp.di == old(dp.di) && fs.logged == old(fs.logged)
    ensures var es := Slots(fs, dp);
            var s := LinkCode.SlotOf(es, Stored(name), 0);
            r == if dp.di.kind != T_DIR then LookupPanic
                 else if s < |es| then Found(DIRENT * s, es[s].inum)
                 else if dp.di.size % DIRENT != 0 then LookupPanic
                 else Absent
  {
    hide WellFormed;
    hide Content;
    hide Entries;
    hide Record;
    hide CStr;
    if dp.di.kind != T_DIR { return LookupPanic; }
    ghost var es := Slots(fs, dp);
    var off := 0;
    ghost var k := 0;
    while off < dp.di.size
      invariant off == DIRENT * k && k <= |es|
      invariant fs.disk == old(fs.disk) && dp.di == old(dp.di) && fs.logged == old(fs.logged)
      invariant LinkCode.SlotOf(es, Stored(name), 0) == LinkCode.SlotOf(es, Stored(name), k)
    {
      var io, de := fs.Readi(dp, off, DIRENT);
      if io != Moved(DIRENT) { return LookupPanic; }
      assert fs.View(dp) == old(fs.View(dp));
      RecordAt(Content(fs.View(dp), dp.inum), k, de);
      NameMatches(name, de);
      var inum := InumOf(de);
      if inum != 0 {
        var c := Strncmp(name, de[2..], DIRSIZ);
        if c == 0 { return Found(off, inum); }
      }
      off, k := off + DIRENT, k + 1;
    }
    r := Absent;
  }

  /** The scan of dirlink: the offset of the first empty slot, or the end. */
  method FirstEmpty(fs: FileSystem, dp: Inode) returns (off: nat)
    requires fs.Locked(dp) && dp.di.kind == T_DIR && dp.di.size % DIRENT == 0
    modifies fs, dp
    ensures fs.disk == old(fs.disk) && dp.di == old(dp.di) && fs.logged == old(fs.logged)
    ensures off == DIRENT * LinkCode.EmptySlot(Slots(fs, dp), 0)
  {
    hide WellFormed;
    hide Content;
    hide Entries;
    hide Record;
    hide CStr;
    ghost var es := Slots(fs, dp);
    off := 0;
    ghost var k := 0;
    while off < dp.di.size
      invariant off == DIRENT * k && k <= |es|
      invariant fs.disk == old(fs.disk) && dp.di == old(dp.di) && fs.logged == old(fs.logged)
      invariant LinkCode.EmptySlot(es, 0) == LinkCode.EmptySlot(es, k)
    {
      var io, de := fs.Readi(dp, off, DIRENT);
      assert fs.View(dp) == old(fs.View(dp));
      RecordAt(Content(fs.View(dp), dp.inum), k, de);
      NameMatches([], de);
      if InumOf(de) == 0 { return; }
      off, k := off + DIRENT, k + 1;
    }
  }

  ghost predicate Unused(es: seq<Entry>) {
    forall k | 2 <= k < |es| :: es[k].inum == 0
  }

  /** isdirempty: no slot after the first two is used.  None stands for the panic, on a last
      record cut short. */
  method IsDirEmpty(fs: FileSystem, dp: Inode) returns (r: Option<bool>)
    requires fs.Locked(dp) && dp.di.kind == T_DIR
    modifies fs, dp
    ensures fs.disk == old(fs.disk) && dp.di == old(dp.di) && fs.logged == old(fs.logged)
    ensures r == if !Unused(Slots(fs, dp)) then Some(false)
                 else if dp.di.size > 2 * DIRENT && dp.di.size % DIRENT != 0 then None
                 else Some(true)
  {
    hide WellFormed;
    hide Content;
    hide Entries;
    hide Record;
    hide CStr;
    ghost var es := Slots(fs, dp);
    var off := 2 * DIRENT;
    ghost var k := 2;
    while off < dp.di.size
      invariant off == DIRENT * k && (k <= |es| || k == 2)
      invariant fs.disk == old(fs.disk) && dp.di == old(dp.di) && fs.logged == old(fs.logged)
      invariant forall j | 2 <= j < k && j < |es| :: es[j].inum == 0
    {
      assert fs.View(dp) == old(fs.View(dp));
      var io, de := fs.Readi(dp, off, DIRENT);
      assert Slots(fs, dp) == es;
      if io != Moved(DIRENT) { return None; }
      assert fs.View(dp) == old(fs.View(dp));
      RecordAt(Content(fs.View(dp), dp.inum), k, de);
      NameMatches([], de);
      if InumOf(de) != 0 {
        assert es[k].inum != 0;
        return Some(false);
      }
      off, k := off + DIRENT, k + 1;
    }
    r := Some(true);
  }

  /** A record written at slot s by writei; false stands for the panic of the caller. */
  method WriteRecord(fs: FileSystem, dp: Inode, s: nat, de: seq<byte>) returns (ok: bool)
    requires fs.Locked(dp) && dp.di.kind == T_DIR && |de| == DIRENT
    requires DIRENT * s + DIRENT <= dp.di.size || DIRENT * s == dp.di.size
    modifies fs, dp
    ensures ok <==>
              && DIRENT * s + DIRENT <= MAXFILE * BSIZE
              && |FreeBlocks(old(fs.Fs()).bits)| >= |Missing(old(fs.View(dp)), dp.inum, DIRENT * s, DIRENT)|
    ensures ok ==> fs.Written(dp, de, DIRENT * s)
    ensures ok ==> s <= |old(Slots(fs, dp))| && Slots(fs, dp) == Put(old(Slots(fs, dp)), s, Record(de))
    ensures ok ==> Follows(old(fs.View(dp)), fs.View(dp), dp.inum, s, Record(de))
  {
    hide OtherSlots;
    hide WriteLog;
    hide LogBound;
    hide IBlock;
    hide WellFormed;
    hide Abs;
    hide Content;
    hide Entries;
    hide Record;
    hide Missing;
    hide Filled;
    hide SameBytes;
    hide Splice;
    hide Put;
    hide Follows;
    ghost var v := fs.View(dp);
    var io := fs.Writei(dp, de, DIRENT * s);
    if !io.Moved? { return false; }
    RecordFollows(v, fs.View(dp), dp.inum, s, de);
    ok := true;
  }

  datatype LinkResult = Linked | Exists | LinkPanic

  /** The first empty slot of a directory, or the end, has been given this entry. */
  twostate predicate Added(fs: FileSystem, dp: Inode, name: seq<byte>, inum: word)
    reads fs, dp
    requires old(fs.Locked(dp))
  {
    var es, e := old(Slots(fs, dp)), Entry(inum % 0x1_0000, Stored(name));
    var s := LinkCode.EmptySlot(es, 0);
    && DIRENT * s <= old(dp.di.size) && fs.Written(dp, Dirent(inum, Field(name)), DIRENT * s)
    && Slots(fs, dp) == Put(es, s, e)
    && Follows(old(fs.View(dp)), fs.View(dp), dp.inum, s, e)
  }

  /** The directory file may grow to hold the entry, and there are blocks for it. */
  ghost predicate HasRoom(fs: FileSystem, dp: Inode)
    reads fs, dp
    requires fs.Locked(dp)
  {
    var s := LinkCode.EmptySlot(Slots(fs, dp), 0);
    && DIRENT * s + DIRENT <= MAXFILE * BSIZE
    && |FreeBlocks(fs.Fs().bits)| >= |Missing(fs.View(dp), dp.inum, DIRENT * s, DIRENT)|
  }

  /** The second half of dirlink. */
  method AddEntry(fs: FileSystem, dp: Inode, name: seq<byte>, inum: word) returns (ok: bool)
    requires fs.Locked(dp) && dp.di.kind == T_DIR && dp.di.size % DIRENT == 0
    modifies fs, dp
    ensures ok <==> old(HasRoom(fs, dp))
    ensures ok ==> Added(fs, dp, name, inum)
  {
    hide OtherSlots;
    hide WriteLog;
    hide Filled;
    hide SameBytes;
    hide Splice;
    hide LogBound;
    hide IBlock;
    hide WellFormed;
    hide Content;
    hide Entries;
    hide Record;
    hide Dirent;
    hide Field;
    hide Stored;
    hide Missing;
    hide Follows;
    hide Put;
    hide Abs;
    ghost var es := Slots(fs, dp);
    var off := FirstEmpty(fs, dp);
    assert fs.View(dp) == old(fs.View(dp)) && fs.Fs() == old(fs.Fs());
    ghost var s := LinkCode.EmptySlot(es, 0);
    assert Slots(fs, dp) == es;
    var field := Strncpy(name, DIRSIZ);
    assert field == Field(name) by { FieldIs(name); }
    RecordDirent(inum, name);
    hide LinkCode.EmptySlot;
    ok := WriteRecord(fs, dp, off / DIRENT, Dirent(inum, field));
  }

  lemma FieldIs(name: seq<byte>)
    ensures Field(name) == Padded(name, DIRSIZ)
  {
  }

  /** dirlink: fails exactly for a present name; else the name is in the first empty slot or
      after the last one.  The panics are dirlookup's, and for no room. */
  method DirLink(fs: FileSystem, dp: Inode, name: seq<byte>, inum: word) returns (r: LinkResult)
    requires fs.Locked(dp)
    modifies fs, dp
    ensures var es := old(Slots(fs, dp));
            var found := LinkCode.SlotOf(es, Stored(name), 0) < |es|;
            && (r.Exists? <==> old(dp.di.kind) == T_DIR && found)
            && (r.Linked? <==>
                  old(dp.di.kind) == T_DIR && !found && old(dp.di.size) % DIRENT == 0 && old(HasRoom(fs, dp)))
    ensures r.Linked? ==> Added(fs, dp, name, inum)
    ensures r.Exists? ==> fs.disk == old(fs.disk) && dp.di == old(dp.di) && fs.logged == old(fs.logged)
  {
    hide OtherSlots;
    hide WriteLog;
    hide Filled;
    hide SameBytes;
    hide Splice;
    hide LogBound;
    hide IBlock;
    hide WellFormed;
    hide Content;
    hide Entries;
    hide Stored;
    hide Missing;
    hide LinkCode.SlotOf;
    hide LinkCode.EmptySlot;
    var found := DirLookup(fs, dp, name);
    if found.Found? { return Exists; }
    if found.LookupPanic? { return LinkPanic; }
    assert fs.View(dp) == old(fs.View(dp)) && fs.Fs() == old(fs.Fs());
    var ok := AddEntry(fs, dp, name, inum);
    r := if ok then Linked else LinkPanic;
  }

  /** unlink's clearing of an entry. */
  method ClearEntry(fs: FileSystem, dp: Inode, off: nat) returns (ok: bool)
    requires fs.Locked(dp) && dp.di.kind == T_DIR && off % DIRENT == 0 && off + DIRENT <= dp.di.size
    modifies fs, dp
    ensures ok && fs.Written(dp, seq(DIRENT, _ => 0), off)
    ensures Slots(fs, dp) == old(Slots(fs, dp))[off / DIRENT := LinkProofs.NONE]
    ensures Follows(old(fs.View(dp)), fs.View(dp), dp.inum, off / DIRENT, LinkProofs.NONE)
  {
    hide OtherSlots;
    hide WriteLog;
    hide Filled;
    hide SameBytes;
    hide Splice;
    hide LogBound;
    hide IBlock;
    hide WellFormed;
    hide Content;
    hide Entries;
    hide Slot;
    var de: seq<byte> := seq(DIRENT, _ => 0);
    assert Record(de) == LinkProofs.NONE by { assert CStr(de[2..], DIRSIZ) == []; }
    NothingMissing(fs.sb, fs.View(dp), dp.inum, off);
    ok := WriteRecord(fs, dp, off / DIRENT, de);
  }

  /** A record inside a directory needs no block. */
  lemma NothingMissing(sb: Super, fs: Image, i: nat, off: nat)
    requires WellFormed(sb, fs) && i < |fs.inodes| && off % DIRENT == 0 && off + DIRENT <= fs.inodes[i].size
    ensures Missing(fs, i, off, DIRENT) == {} && off + DIRENT <= MAXFILE * BSIZE
  {
    assert fs.inodes[i].Valid();
    hide WellFormed;
    hide Slot;
    hide Wanted;
    SizeBound(sb, fs, i);
    MappedBelowSize(sb, fs, i, off);
    SlotsInInode(fs, i);
    InOneBlock(off);
    forall k: nat | k < NSLOTS && Wanted(off, DIRENT, k) ensures Slot(fs, i, k) != 0 {
      WantedInBlock(off, DIRENT, k);
    }
  }

  lemma InOneBlock(off: nat)
    requires off % DIRENT == 0
    ensures off % BSIZE + DIRENT <= BSIZE
  {
  }

  function InumOf(de: seq<byte>): nat
    requires |de| >= 2
  {
    var lo: int, hi: int := de[0], de[1];
    lo + 0x100 * hi
  }

  lemma RecordAt(c: seq<byte>, k: nat, de: seq<byte>)
    requires DIRENT * k + DIRENT <= |c| && de == c[DIRENT * k..DIRENT * k + DIRENT]
    ensures k < |Entries(c)| && Entries(c)[k] == Record(de)
  {
  }

  lemma NameMatches(name: seq<byte>, de: seq<byte>)
    requires |de| == DIRENT
    ensures Record(de).inum == InumOf(de)
    ensures Record(de).name == Stored(name) <==> CStr(name, DIRSIZ) == CStr(de[2..], DIRSIZ)
  {
    TextInjective(CStr(name, DIRSIZ), CStr(de[2..], DIRSIZ));
  }
}
