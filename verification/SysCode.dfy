/** unlink and link on the bytes of the disk.  A ghost name space changes as the one of
    LinkCode does, call by call, and the disk stands for it throughout. */
module SysCode {
  import opened Common
  import opened Blocks
  import opened FsLayout
  import opened FsModel
  import opened FsUpdates
  import opened FsSpace
  import opened FsAbs
  import opened FsCode
  import opened FsTruncate
  import opened LinkModel
  import opened DirModel
  import opened DirCode
  import L = LinkCode
  import P = LinkProofs

  /** An inode keeps its bytes and its fields but for the links; a directory that has been
      given or has lost an entry may have another size and other blocks. */
  ghost predicate Stays(v: Image, v': Image, j: nat, changed: bool) {
    && j < |v.inodes| && j < |v'.inodes|
    && var a, b := v.inodes[j], v'.inodes[j];
       if changed then b == a.(nlink := b.nlink, size := b.size, addrs := b.addrs)
       else b == a.(nlink := b.nlink) && SameBytes(v, v', j)
  }

  /** Every inode is kept or has become free. */
  ghost predicate Survive(v: Image, v': Image, dirs: set<nat>) {
    && |v'.inodes| == |v.inodes|
    && forall j: nat | j < |v.inodes| :: v'.inodes[j].kind == 0 || Stays(v, v', j, j in dirs)
  }

  lemma SurviveThen(v: Image, v1: Image, v2: Image, a: set<nat>, b: set<nat>, dirs: set<nat>)
    requires Survive(v, v1, a) && Survive(v1, v2, b) && a <= dirs && b <= dirs
    ensures Survive(v, v2, dirs)
  {
    hide ByteAt;
    forall j: nat | j < |v.inodes| ensures v2.inodes[j].kind == 0 || Stays(v, v2, j, j in dirs) {
      assert v1.inodes[j].kind == 0 || Stays(v, v1, j, j in a);
      assert v2.inodes[j].kind == 0 || Stays(v1, v2, j, j in b);
    }
  }

  lemma SurviveSame(sb: Super, v: Image)
    requires Shape(sb, v)
    ensures Survive(v, v, {})
  {
    hide ByteAt;
  }

  /** One inode has changed, and stands for its node. */
  lemma OneFollows(fs: Image, fs': Image, node: seq<Node>, i: nat, n: Node)
    requires Represents(fs, node) && i < |node| && |fs'.inodes| == |fs.inodes|
    requires forall j | 0 <= j < |node| && j != i :: fs'.inodes[j] == fs.inodes[j] && SameBytes(fs, fs', j)
    requires Matches(fs', node[i := n], i)
    ensures Represents(fs', node[i := n])
  {
    hide Entries;
    var node' := node[i := n];
    forall j | 0 <= j < |node'| ensures Matches(fs', node', j) {
      if j != i {
        assert Matches(fs, node, j);
        SameContent(fs, fs', j);
      }
    }
  }

  /** The same, where the inode keeps its bytes. */
  lemma TagFollows(sb: Super, fs: Image, node: seq<Node>, i: nat, di: Dinode, n: Node)
    requires WellFormed(sb, fs) && Represents(fs, node) && i < |node|
    requires di.addrs == fs.inodes[i].addrs && di.size == fs.inodes[i].size && di.kind != 0
    requires IsKind(di.kind, n.kind) && di.nlink == n.nlink
    requires n.kind.Dir? ==> (node[i].kind.Dir? && n.entries == node[i].entries) || (di.size == 0 && n.entries == [])
    ensures WellFormed(sb, WithInode(fs, i, di)) && Represents(WithInode(fs, i, di), node[i := n])
    ensures forall j | 0 <= j < |fs.inodes| :: SameBytes(fs, WithInode(fs, i, di), j)
  {
    hide Slot;
    hide ByteAt;
    RetagWellFormed(sb, fs, i, di);
    hide WellFormed;
    hide Entries;
    var fs' := WithInode(fs, i, di);
    assert Matches(fs, node, i) && SameBytes(fs, fs', i);
    assert Content(fs', i) == Content(fs, i);
    if di.size == 0 { assert Content(fs', i) == []; NoEntries(); }
    OneFollows(fs, fs', node, i, n);
  }

  lemma NoEntries()
    ensures Entries([]) == []
  {
  }

  /** Nobody but the reference counts changes. */
  lemma RefsFollow(fs: Image, node: seq<Node>, node': seq<Node>)
    requires Represents(fs, node) && P.SameTree(node, node')
    ensures Represents(fs, node')
  {
    hide Entries;
    hide Content;
    forall i | 0 <= i < |node'| ensures Matches(fs, node', i) {
      assert Matches(fs, node, i);
    }
  }

  /** The inode has lost its blocks and its type. */
  lemma FreedFollows(sb: Super, fs: Image, fs1: Image, node: seq<Node>, i: nat)
    requires WellFormed(sb, fs) && Represents(fs, node) && i < |node| && IsTruncated(fs, fs1, i)
    requires fs.inodes[i].nlink == 0
    ensures i < |fs1.inodes|
    ensures var fs2 := WithInode(fs1, i, fs1.inodes[i].(kind := 0));
            WellFormed(sb, fs2) && Represents(fs2, node[i := Node(Free, 0, [], 0)]) && Survive(fs, fs2, {})
  {
    TruncateWellFormed(sb, fs, fs1, i);
    SlotsInInode(fs1, i);
    hide Slot;
    RetagWellFormed(sb, fs1, i, fs1.inodes[i].(kind := 0));
    hide WellFormed;
    hide ByteAt;
    var fs2 := WithInode(fs1, i, fs1.inodes[i].(kind := 0));
    forall j | 0 <= j < |node| && j != i ensures fs2.inodes[j] == fs.inodes[j] && SameBytes(fs, fs2, j) {
      assert SameBytes(fs, fs1, j) && SameBytes(fs1, fs2, j);
    }
    hide SameBytes;
    OneFollows(fs, fs2, node, i, Node(Free, 0, [], 0));
  }

  /** How a system call ends. */
  datatype Outcome = Done | Failed | Panicked

  class Kernel {
    const fs: FileSystem
    var refs: seq<nat>           // references to in-memory inodes
    ghost var node: seq<Node>

    constructor (fs: FileSystem, refs: seq<nat>, ghost node: seq<Node>)
      requires fs.Valid() && WellFormed(fs.sb, fs.Fs()) && Represents(fs.Fs(), node) && |node| <= 0x1_0000
      requires |refs| == |node| && forall i | 0 <= i < |node| :: refs[i] == node[i].ref
      ensures Agrees() && this.fs == fs && this.refs == refs && this.node == node
    {
      this.fs := fs;
      this.refs := refs;
      this.node := node;
    }

    /** The disk stands for the name space. */
    ghost predicate Agrees()
      reads this, fs
    {
      && fs.Valid() && WellFormed(fs.sb, fs.Fs()) && Represents(fs.Fs(), node) && |node| <= 0x1_0000
      && |refs| == |node| && forall i | 0 <= i < |node| :: refs[i] == node[i].ref
    }

    /** A locked inode: its copy is what the disk has. */
    ghost predicate Held(ip: Inode)
      reads this, fs, ip
    {
      Agrees() && ip.inum < |node| && ip.di == fs.Fs().inodes[ip.inum] && ip.di.kind != 0
    }

    lemma HeldLocked(ip: Inode)
      requires Held(ip)
      ensures fs.Locked(ip) && fs.View(ip) == fs.Fs() && Matches(fs.Fs(), node, ip.inum)
      ensures |fs.Fs().inodes| == |node| == fs.sb.ninodes && WellFormed(fs.sb, fs.Fs())
      ensures node[ip.inum].kind.Dir? <==> ip.di.kind == T_DIR
      ensures node[ip.inum].kind.Dir? ==> Slots(fs, ip) == node[ip.inum].entries && ip.di.size % DIRENT == 0
    {
      hide Abs;
      hide Entries;
      hide Content;
      assert fs.Fs().inodes[ip.inum := ip.di] == fs.Fs().inodes;
      assert Matches(fs.Fs(), node, ip.inum);
    }

    lemma HeldNode(ip: Inode)
      requires Held(ip)
      ensures |fs.Fs().inodes| == |node| && ip.di.nlink == node[ip.inum].nlink
      ensures node[ip.inum].kind.Dir? <==> ip.di.kind == T_DIR
      ensures node[ip.inum].kind.File? <==> ip.di.kind == T_FILE
    {
      hide Abs;
      hide WellFormed;
      hide Entries;
      hide Content;
      assert Matches(fs.Fs(), node, ip.inum);
    }

    /** iget and ilock of an allocated inode. */
    method Ilock(i: nat) returns (ip: Inode)
      requires Agrees() && i < |node| && !node[i].kind.Free?
      ensures fresh(ip) && ip.inum == i && Held(ip)
    {
      hide Abs;
      hide WellFormed;
      assert Matches(fs.Fs(), node, i);
      AbsInodes(fs.sb, fs.disk);
      ip := new Inode(i, ReadInode(fs.sb, fs.disk, i));
    }

    /** iget: one more reference. */
    method Iget(i: nat)
      requires Agrees() && i < |node|
      modifies this
      ensures Agrees() && node == P.Raised(old(node), i)
    {
      hide Abs;
      hide WellFormed;
      hide Represents;
      refs := refs[i := refs[i] + 1];
      node := P.Raised(node, i);
      RefsFollow(fs.Fs(), old(node), node);
    }

    /** The links of a locked inode change, and it goes to disk. */
    method SetLinks(ip: Inode, n: short)
      requires Held(ip)
      modifies this, fs, ip
      ensures Held(ip) && refs == old(refs) && node == old(node)[ip.inum := old(node)[ip.inum].(nlink := n)]
      ensures fs.Fs() == WithInode(old(fs.Fs()), ip.inum, old(ip.di).(nlink := n))
      ensures Survive(old(fs.Fs()), fs.Fs(), {})
      ensures fs.logged == old(fs.logged) + {IBlock(fs.sb, ip.inum)}
    {
      hide Abs;
      hide WellFormed;
      hide Represents;
      hide IBlock;
      ghost var i := ip.inum;
      HeldLocked(ip);
      ghost var v := fs.Fs();
      ip.di := ip.di.(nlink := n);
      TagFollows(fs.sb, v, node, i, ip.di, node[i].(nlink := n));
      hide SameBytes;
      fs.Iupdate(ip);
      node := node[i := node[i].(nlink := n)];
    }

    /** iput: the last reference to an inode without links frees it. */
    method Iput(ip: Inode)
      requires Held(ip) && node[ip.inum].ref > 0
      modifies this, fs, ip
      ensures Agrees() && node == P.Dropped(old(node), ip.inum) && |node| == |old(node)|
      ensures forall j | 0 <= j < |node| && j != ip.inum :: fs.Fs().inodes[j] == old(fs.Fs()).inodes[j]
      ensures Survive(old(fs.Fs()), fs.Fs(), {})
      ensures if old(node)[ip.inum].nlink == 0 && old(node)[ip.inum].ref == 1
              then fs.logged == old(fs.logged) + TruncLog(fs.sb, old(fs.Fs()), ip.inum)
              else fs.disk == old(fs.disk) && fs.logged == old(fs.logged)
    {
      hide Abs;
      hide WellFormed;
      hide Represents;
      hide IBlock;
      hide MapsOf;
      hide Survive;
      ghost var i, v := ip.inum, fs.Fs();
      HeldLocked(ip);
      SurviveSame(fs.sb, v);
      if ip.di.nlink == 0 && refs[ip.inum] == 1 {
        var _ := fs.Itrunc(ip);
        FreedFollows(fs.sb, v, fs.Fs(), node, i);
        ip.di := ip.di.(kind := 0);
        fs.Iupdate(ip);
        assert fs.Fs().inodes == v.inodes[i := ip.di];
      }
      ghost var node0 := node;
      node := P.Dropped(node, i);
      refs := refs[ip.inum := refs[ip.inum] - 1];
      if !(node0[i].nlink == 0 && node0[i].ref == 1) { RefsFollow(fs.Fs(), node0, node); }
    }

    /** dirlookup, with the slot number. */
    method Lookup(dp: Inode, name: seq<byte>) returns (s: Option<nat>, i: nat)
      requires Held(dp) && node[dp.inum].kind.Dir?
      modifies fs, dp
      ensures Held(dp) && fs.disk == old(fs.disk) && fs.logged == old(fs.logged)
      ensures var es := node[dp.inum].entries;
              var t := L.SlotOf(es, Stored(name), 0);
              if t == |es| then s.None? else s == Some(t) && i == es[t].inum
    {
      hide Abs;
      hide WellFormed;
      hide Represents;
      hide Entries;
      hide Content;
      hide Stored;
      HeldLocked(dp);
      var r := DirLookup(fs, dp, name);
      HeldLocked(dp);
      if r.Absent? {
        return None, 0;
      }
      s, i := Some(r.off / DIRENT), r.inum;
    }

    method NoOthers(ip: Inode) returns (r: bool)
      requires Held(ip) && node[ip.inum].kind.Dir?
      modifies fs, ip
      ensures Held(ip) && fs.disk == old(fs.disk) && fs.logged == old(fs.logged)
      ensures r <==> L.Empty(node[ip.inum])
    {
      hide Abs;
      hide WellFormed;
      hide Represents;
      hide Entries;
      hide Content;
      HeldLocked(ip);
      var e := IsDirEmpty(fs, ip);
      HeldLocked(ip);
      r := e.value;
    }

    /** The disk follows a record written at slot s of a locked directory. */
    lemma RecordAgrees(dp: Inode, v: Image, s: nat, e: Entry)
      requires fs.Locked(dp) && dp.di == fs.Fs().inodes[dp.inum] && Follows(v, fs.View(dp), dp.inum, s, e)
      requires Represents(v, node) && dp.inum < |node| && node[dp.inum].kind.Dir?
      ensures fs.View(dp) == fs.Fs() && WellFormed(fs.sb, fs.Fs())
      ensures s <= |node[dp.inum].entries| && Represents(fs.Fs(), WithEntry(node, dp.inum, s, e))
    {
      hide Abs;
      hide WellFormed;
      hide Represents;
      assert fs.Fs().inodes[dp.inum := dp.di] == fs.Fs().inodes;
    }

    /** unlink's clearing of slot s. */
    method Clear(dp: Inode, s: nat) returns (ghost log: set<nat>)
      requires Held(dp) && node[dp.inum].kind.Dir? && s < |node[dp.inum].entries|
      modifies this, fs, dp
      ensures Held(dp) && refs == old(refs) && node == WithEntry(old(node), dp.inum, s, P.NONE)
      ensures forall j | 0 <= j < |node| && j != dp.inum :: fs.Fs().inodes[j] == old(fs.Fs()).inodes[j]
      ensures dp.di.nlink == old(dp.di).nlink && Survive(old(fs.Fs()), fs.Fs(), {dp.inum})
      ensures |log| <= 1 && fs.logged <= old(fs.logged) + log + {IBlock(fs.sb, dp.inum)}
    {
      hide Abs;
      hide WellFormed;
      hide Represents;
      hide Entries;
      hide Content;
      hide IBlock;
      hide SameBytes;
      hide Filled;
      hide Splice;
      hide WriteLog;
      hide RecordBlocks;
      hide Follows;
      hide Slot;
      ghost var i, v := dp.inum, fs.Fs();
      HeldLocked(dp);
      RecordThere(fs.sb, v, i, DIRENT * s);
      var ok := ClearEntry(fs, dp, DIRENT * s);
      log := RecordBlocks(fs.sb, v, fs.View(dp), i, DIRENT * s / BSIZE);
      RecordLog(fs.sb, v, fs.View(dp), i, DIRENT * s, DIRENT);
      RecordCount(fs.sb, v, fs.View(dp), i, DIRENT * s / BSIZE);
      RecordAgrees(dp, v, s, P.NONE);
      node := WithEntry(node, i, s, P.NONE);
    }

    /** dirlink on a locked directory. */
    method Dirlink(dp: Inode, name: seq<byte>, inum: nat) returns (r: LinkResult, ghost log: set<nat>)
      requires Held(dp) && node[dp.inum].kind.Dir? && inum < 0x1_0000
      modifies this, fs, dp
      ensures r.Exists? <==> L.Has(old(node)[dp.inum], Stored(name))
      ensures r.Linked? <==> !r.Exists? && RoomIn(old(fs.Fs()), dp.inum, old(node)[dp.inum].entries, 0)
      ensures r.Exists? ==> Held(dp) && node == old(node) && fs.disk == old(fs.disk) && fs.logged == old(fs.logged)
      ensures !r.Linked? ==> node == old(node)
      ensures refs == old(refs)
      ensures r.Linked? ==>
                var s := L.EmptySlot(old(node)[dp.inum].entries, 0);
                && Held(dp) && node == WithEntry(old(node), dp.inum, s, Entry(inum, Stored(name)))
                && Recorded(old(fs.Fs()), fs.Fs(), dp.inum, DIRENT * s) && dp.di.nlink == old(dp.di).nlink
                && Survive(old(fs.Fs()), fs.Fs(), {dp.inum})
                && fs.logged <= old(fs.logged) + log + {IBlock(fs.sb, dp.inum)}
                && |log| <= 4 && (DIRENT * s / BSIZE < NDIRECT ==> |log| <= 2)
    {
      hide Abs;
      hide WellFormed;
      hide Represents;
      hide Entries;
      hide Content;
      hide Stored;
      hide IBlock;
      hide SameBytes;
      hide Splice;
      hide WriteLog;
      hide RecordBlocks;
      hide Follows;
      hide FsModel.Slot;
      hide Missing;
      hide OtherSlots;
      hide LogBound;
      hide Filled;
      hide FreeBlocks;
      hide Put;
      hide L.SlotOf;
      hide L.EmptySlot;
      log := {};
      ghost var i, v := dp.inum, fs.Fs();
      ghost var s := L.EmptySlot(node[i].entries, 0);
      HeldLocked(dp);
      r := DirLink(fs, dp, name, inum);
      if r.Linked? {
        EmptyEnd(node[i].entries);
        log := WriteLog(fs.sb, v, fs.View(dp), i, DIRENT * s, DIRENT);
        EntryLog(fs.sb, v, fs.View(dp), i, DIRENT * s);
        RecordAgrees(dp, v, s, Entry(inum, Stored(name)));
        node := WithEntry(node, i, s, Entry(inum, Stored(name)));
      }
    }

    /** The changes of a successful unlink. */
    method TakeOut(dp: Inode, ip: Inode, s: nat)
      requires Held(dp) && Held(ip) && dp != ip && dp.inum != ip.inum && ip.inum > 0
      requires L.CanTake(node, dp.inum, s) && node[dp.inum].entries[s].inum == ip.inum && node[ip.inum].ref > 0
      requires node[dp.inum].kind.Dir? && node[dp.inum].nlink > (if node[ip.inum].kind.Dir? then 1 else 0)
      modifies this, fs, dp, ip
      ensures Agrees()
      ensures var d, i := dp.inum, ip.inum;
              node == P.Dropped(P.Dropped(P.UnlinkState(old(node), d, s), d), i)
      ensures Survive(old(fs.Fs()), fs.Fs(), {dp.inum})
      ensures |fs.logged - old(fs.logged)| <= DataMaps(fs.sb) + 3
    {
      hide Abs;
      hide WellFormed;
      hide Represents;
      hide Entries;
      hide Content;
      hide IBlock;
      hide MapsOf;
      hide DataMaps;
      hide WithEntry;
      hide P.UnlinkState;
      hide P.ClearedDir;
      hide Survive;
      ghost var d, i, node0, v := dp.inum, ip.inum, node, fs.Fs();
      ClearedIs(node0, d, s);
      UnlinkIs(node0, d, s);
      HeldLocked(dp);
      HeldLocked(ip);
      ghost var log := Clear(dp, s);
      ghost var v1 := fs.Fs();
      HeldLocked(dp);
      HeldLocked(ip);
      if ip.di.kind == T_DIR {
        SetLinks(dp, dp.di.nlink - 1);
        SurviveThen(v, v1, fs.Fs(), {d}, {}, {d});
      }
      ghost var v2 := fs.Fs();
      Iput(dp);
      SurviveThen(v, v2, fs.Fs(), {d}, {}, {d});
      ghost var v3 := fs.Fs();
      HeldLocked(ip);
      SetLinks(ip, ip.di.nlink - 1);
      SurviveThen(v, v3, fs.Fs(), {d}, {}, {d});
      ghost var v4 := fs.Fs();
      HeldLocked(ip);
      hide P.Dropped;
      TruncBound(fs.sb, fs.Fs(), i);
      ghost var logged1, maps := fs.logged, TruncLog(fs.sb, fs.Fs(), i);
      Iput(ip);
      SurviveThen(v, v4, fs.Fs(), {d}, {}, {d});
      UnlinkLog(old(fs.logged), fs.logged, log, IBlock(fs.sb, d), maps);
    }

    /** unlink of what slot s names. */
    method UnlinkNamed(dp: Inode, s: nat, i: nat) returns (r: Outcome)
      requires Held(dp) && Sound(node) && dp.inum > 0 && LinkedDir(node[dp.inum]) && node[dp.inum].ref > 0
      requires 2 <= s < |node[dp.inum].entries| && node[dp.inum].entries[s].inum == i
      requires 0 < i < |node| && !node[i].kind.Free? && node[i].nlink > 0 && fs.logged == {}
      modifies this, fs, dp
      ensures r.Panicked? <==> old(node)[i].nlink >= 0x8000
      ensures r.Done? <==> !r.Panicked? && (old(node)[i].kind.Dir? ==> L.Empty(old(node)[i]))
      ensures !r.Panicked? ==> Agrees() && |fs.logged| <= DataMaps(fs.sb) + 3
      ensures r.Failed? ==> node == P.Dropped(old(node), dp.inum) && Survive(old(fs.Fs()), fs.Fs(), {})
      ensures r.Done? ==>
                L.CanTake(old(node), dp.inum, s) && node == L.Removed(old(node), dp.inum, s) && Sound(node)
      ensures r.Done? ==> Survive(old(fs.Fs()), fs.Fs(), {dp.inum})
    {
      hide Abs;
      hide WellFormed;
      hide Represents;
      hide Sound;
      hide IBlock;
      hide MapsOf;
      hide DataMaps;
      hide P.Dropped;
      hide P.Raised;
      hide L.Removed;
      hide P.UnlinkState;
      hide Survive;
      ghost var node0, d, v := node, dp.inum, fs.Fs();
      Iget(i);
      RaisedBack(node0, i);
      var ip := Ilock(i);
      HeldNode(ip);
      HeldNode(dp);
      if ip.di.nlink == 0 || ip.di.nlink >= 0x8000 {
        return Panicked;
      }
      if ip.di.kind == T_DIR {
        var empty := NoOthers(ip);
        if !empty {
          Iput(ip);
          ghost var v1 := fs.Fs();
          Iput(dp);
          SurviveThen(v, v1, fs.Fs(), {}, {}, {});
          return Failed;
        }
      }
      L.RemovedSound(node0, d, s);
      RemovedIs(node0, d, s);
      TakeOut(dp, ip, s);
      assert fs.logged - {} == fs.logged;
      r := Done;
    }

    /** sys_unlink on directory d, whose reference it gives back. */
    method Unlink(d: nat, name: seq<byte>) returns (r: Outcome)
      requires Agrees() && Sound(node) && 0 < d < |node| && node[d].kind.Dir? && node[d].ref > 0
      modifies this, fs
      ensures var n := Stored(name);
              var named := n != "." && n != ".." && L.Has(old(node)[d], n);
              && (r.Panicked? <==> named && L.Target(old(node), d, n).nlink >= 0x8000)
              && (r.Done? <==> L.CanRemove(old(node), d, n) && !r.Panicked?)
      ensures !r.Panicked? ==> Agrees() && Sound(node) && |fs.logged| <= DataMaps(fs.sb) + 3
      ensures r.Failed? ==> node == P.Dropped(old(node), d) && Survive(old(fs.Fs()), fs.Fs(), {})
      ensures r.Done? ==> Survive(old(fs.Fs()), fs.Fs(), {d})
      ensures r.Done? ==> var s := L.SlotOf(old(node)[d].entries, Stored(name), 0);
                              L.CanTake(old(node), d, s) && node == L.Removed(old(node), d, s)
    {
      hide Abs;
      hide WellFormed;
      hide Represents;
      hide Sound;
      hide CStr;
      hide IBlock;
      hide MapsOf;
      hide DataMaps;
      hide P.Dropped;
      hide P.Raised;
      hide L.SlotOf;
      hide L.Removed;
      hide Stored;
      hide Content;
      hide Entries;
      hide P.UnlinkState;
      hide P.ClearedDir;
      hide FsModel.Slot;
      hide ByteAt;
      hide Naming;
      hide Links;
      hide Subdirs;
      hide Text;
      hide Survive;
      fs.logged := {};  // begin_op
      var dp := Ilock(d);
      P.DroppedSound(node, d);
      HeldLocked(dp);
      TruncBound(fs.sb, fs.Fs(), d);
      DotNames();
      StoredSame(name, [DOT]);
      StoredSame(name, [DOT, DOT]);
      var dot := Strncmp(name, [DOT], DIRSIZ);
      var dots := Strncmp(name, [DOT, DOT], DIRSIZ);
      if dot == 0 || dots == 0 {
        Iput(dp);
        return Failed;
      }
      var s, i := Lookup(dp, name);
      if s.None? {
        Iput(dp);
        return Failed;
      }
      L.UsedSlot(node, d, Stored(name));
      NamedNode(node, d, s.value);
      r := UnlinkNamed(dp, s.value, i);
    }

    /** iput, with the blocks it logs. */
    method LastDrop(ip: Inode) returns (ghost maps: set<nat>)
      requires Held(ip) && node[ip.inum].ref > 0
      modifies this, fs, ip
      ensures Agrees() && node == P.Dropped(old(node), ip.inum) && |node| == |old(node)|
      ensures forall j | 0 <= j < |node| && j != ip.inum :: fs.Fs().inodes[j] == old(fs.Fs()).inodes[j]
      ensures Survive(old(fs.Fs()), fs.Fs(), {})
      ensures fs.logged == old(fs.logged) + maps
      ensures |maps| <= DataMaps(fs.sb) + 1 && (old(node)[ip.inum].nlink > 0 ==> maps == {})
    {
      hide Abs;
      hide WellFormed;
      hide Represents;
      hide MapsOf;
      hide DataMaps;
      hide IBlock;
      hide Survive;
      HeldLocked(ip);
      TruncBound(fs.sb, fs.Fs(), ip.inum);
      maps := if node[ip.inum].nlink == 0 && node[ip.inum].ref == 1 then TruncLog(fs.sb, fs.Fs(), ip.inum) else {};
      Iput(ip);
    }

    /** dirlink on a locked directory, which is then given back. */
    method NameIn(dp: Inode, name: seq<byte>, i: nat) returns (r: LinkResult, ghost log: set<nat>)
      requires Held(dp) && node[dp.inum].kind.Dir? && node[dp.inum].ref > 0 && i < 0x1_0000
      modifies this, fs, dp
      ensures r.Exists? <==> L.Has(old(node)[dp.inum], Stored(name))
      ensures r.Linked? <==> !r.Exists? && RoomIn(old(fs.Fs()), dp.inum, old(node)[dp.inum].entries, 0)
      ensures !r.LinkPanic? ==>
                && Agrees() && |node| == |old(node)|
                && fs.logged <= old(fs.logged) + log + {IBlock(fs.sb, dp.inum)}
                && Survive(old(fs.Fs()), fs.Fs(), if r.Linked? then {dp.inum} else {})
                && forall j | 0 <= j < |node| && j != dp.inum :: fs.Fs().inodes[j] == old(fs.Fs()).inodes[j]
      ensures r.Exists? ==> node == P.Dropped(old(node), dp.inum)
      ensures r.Linked? ==>
                var d := dp.inum;
                var m := WithEntry(old(node), d, L.EmptySlot(old(node)[d].entries, 0), Entry(i, Stored(name)));
                |m| == |node| && m[d].ref > 0 && node == P.Dropped(m, d)
      ensures |log| <= DataMaps(fs.sb) + 5 && (old(node)[dp.inum].nlink > 0 ==> |log| <= 4)
    {
      hide Abs;
      hide WellFormed;
      hide Represents;
      hide IBlock;
      hide DataMaps;
      hide P.Dropped;
      hide L.SlotOf;
      hide L.EmptySlot;
      hide Stored;
      hide Missing;
      hide RoomIn;
      hide Filled;
      hide OtherSlots;
      hide Put;
      hide Survive;
      log := {};
      ghost var v := fs.Fs();
      HeldNode(dp);
      SurviveSame(fs.sb, v);
      ghost var rec: set<nat>;
      r, rec := Dirlink(dp, name, i);
      if r.LinkPanic? {
        return;
      }
      ghost var v1, dirs := fs.Fs(), if r.Linked? then {dp.inum} else {};
      ghost var maps := LastDrop(dp);
      SurviveThen(v, v1, fs.Fs(), dirs, {}, dirs);
      log := if r.Linked? then rec + maps else maps;
    }

    /** A locked inode gets a name in directory d, whose reference is given back. */
    method Hook(ip: Inode, d: nat, name: seq<byte>) returns (r: LinkResult, ghost log: set<nat>)
      requires Held(ip) && ip.inum != d && d < |node| && node[d].kind.Dir? && node[d].ref > 0
      modifies this, fs
      ensures r.Exists? <==> L.Has(old(node)[d], Stored(name))
      ensures r.Linked? <==> !r.Exists? && RoomIn(old(fs.Fs()), d, old(node)[d].entries, 0)
      ensures !r.LinkPanic? ==>
                && Held(ip) && fs.logged <= old(fs.logged) + log
                && Survive(old(fs.Fs()), fs.Fs(), if r.Linked? then {d} else {})
      ensures r.Exists? ==> node == P.Dropped(old(node), d)
      ensures r.Linked? ==>
                var m := WithEntry(old(node), d, L.EmptySlot(old(node)[d].entries, 0), Entry(ip.inum, Stored(name)));
                |m| == |node| && m[d].ref > 0 && node == P.Dropped(m, d)
      ensures |log| <= DataMaps(fs.sb) + 6 && (old(node)[d].nlink > 0 ==> |log| <= 5)
    {
      hide Abs;
      hide WellFormed;
      hide Represents;
      hide IBlock;
      hide DataMaps;
      hide P.Dropped;
      hide L.Has;
      hide L.EmptySlot;
      hide Stored;
      hide RoomIn;
      hide WithEntry;
      hide Survive;
      HeldNode(ip);
      var dp := Ilock(d);
      r, log := NameIn(dp, name, ip.inum);
      log := log + {IBlock(fs.sb, d)};
    }

    /** One link less, and the reference given back. */
    method TakeBack(ip: Inode) returns (ghost maps: set<nat>)
      requires Held(ip) && node[ip.inum].ref > 0
      modifies this, fs, ip
      ensures Agrees()
      ensures var n := Dec(old(node)[ip.inum].nlink);
              && node == P.Dropped(old(node)[ip.inum := old(node)[ip.inum].(nlink := n)], ip.inum)
              && |maps| <= DataMaps(fs.sb) + 1 && (n > 0 ==> maps == {})
      ensures fs.logged == old(fs.logged) + {IBlock(fs.sb, ip.inum)} + maps
      ensures Survive(old(fs.Fs()), fs.Fs(), {})
    {
      hide Abs;
      hide WellFormed;
      hide Represents;
      hide IBlock;
      hide DataMaps;
      hide P.Dropped;
      hide Survive;
      ghost var v := fs.Fs();
      HeldNode(ip);
      SetLinks(ip, Dec(ip.di.nlink));
      ghost var v1 := fs.Fs();
      maps := LastDrop(ip);
      SurviveThen(v, v1, fs.Fs(), {}, {}, {});
    }

    /** The changes of link, after the check that the inode is not a directory. */
    method AddName(ip: Inode, d: Option<nat>, name: seq<byte>) returns (r: Outcome)
      requires Held(ip) && node[ip.inum].ref > 0 && !node[ip.inum].kind.Dir? && fs.logged == {}
      requires d.Some? ==> d.value < |node| && d.value != ip.inum && node[d.value].kind.Dir? && node[d.value].ref > 0
      modifies this, fs, ip
      ensures r.Failed? <==> d.None? || L.Has(old(node)[d.value], Stored(name))
      ensures r.Done? <==> !r.Failed? && RoomIn(old(fs.Fs()), d.value, old(node)[d.value].entries, 0)
      ensures !r.Panicked? ==> Agrees()
      ensures r.Done? ==> Hooked(old(node), d.value, ip.inum, Stored(name), node)
      ensures r.Failed? ==>
                node == if d.None? then P.Dropped(old(node), ip.inum)
                        else P.Dropped(P.Dropped(old(node), d.value), ip.inum)
      ensures !r.Panicked? ==> Survive(old(fs.Fs()), fs.Fs(), if r.Done? then {d.value} else {})
      ensures !r.Panicked? ==> |fs.logged| <= 6 + 2 * (DataMaps(fs.sb) + 1)
      ensures !r.Panicked? && 0 < old(node)[ip.inum].nlink < 0xFFFF && (d.Some? ==> old(node)[d.value].nlink > 0) ==>
                |fs.logged| <= 6
    {
      hide Abs;
      hide WellFormed;
      hide Represents;
      hide IBlock;
      hide MapsOf;
      hide DataMaps;
      hide P.Dropped;
      hide L.SlotOf;
      hide L.EmptySlot;
      hide Stored;
      hide Content;
      hide Entries;
      hide Hooked;
      hide RoomIn;
      hide WithEntry;
      hide L.Has;
      hide Inc;
      hide Dec;
      hide Survive;
      ghost var node0, v, i := node, fs.Fs(), ip.inum;
      ghost var log: set<nat>, maps: set<nat> := {}, {};
      HeldNode(ip);
      BackIs(node0, i, d);
      SetLinks(ip, Inc(ip.di.nlink));
      ghost var v1, v2 := fs.Fs(), fs.Fs();
      if d.Some? {
        RoomKept(v, fs.Fs(), d.value, node[d.value].entries, 0, 0);
        var h;
        h, log := Hook(ip, d.value, name);
        if h.LinkPanic? {
          return Panicked;
        }
        v2 := fs.Fs();
        SurviveThen(v, v1, v2, {}, if h.Linked? then {d.value} else {}, if h.Linked? then {d.value} else {});
        if h.Linked? {
          HookIs(node0, d.value, i, Stored(name));
          maps := LastDrop(ip);
          SurviveThen(v, v2, fs.Fs(), {d.value}, {}, {d.value});
          LinkLog(fs.logged, IBlock(fs.sb, i), log, maps);
          return Done;
        }
      }
      maps := TakeBack(ip);
      SurviveThen(v, v2, fs.Fs(), {}, {}, {});
      LinkLog(fs.logged, IBlock(fs.sb, i), log, maps);
      r := Failed;
    }

    /** sys_link: inode i gets a name in directory d, if that was found.  Both references are
        given back. */
    method Link(i: nat, d: Option<nat>, name: seq<byte>) returns (r: Outcome)
      requires Agrees() && Sound(node) && 0 < i < |node| && node[i].ref > 0
      requires d.Some? ==> 0 < d.value < |node| && node[d.value].kind.Dir? && node[d.value].ref > 0
      modifies this, fs
      ensures var free := !old(node)[i].kind.Dir? && d.Some? && !L.Has(old(node)[d.value], Stored(name));
              && (r.Done? <==> free && RoomIn(old(fs.Fs()), d.value, old(node)[d.value].entries, 0))
              && (r.Panicked? <==> free && !RoomIn(old(fs.Fs()), d.value, old(node)[d.value].entries, 0))
      ensures !r.Panicked? ==> Agrees()
      ensures r.Done? ==>
                && Hooked(old(node), d.value, i, Stored(name), node)
                && (Sound(node) <==> LinkedDir(old(node)[d.value]) && old(node)[i].nlink < 0xFFFF)
      ensures r.Failed? ==> Sound(node)
      ensures !r.Panicked? ==> Survive(old(fs.Fs()), fs.Fs(), if r.Done? then {d.value} else {})
      ensures r.Failed? && (old(node)[i].kind.Dir? || d.None?) ==> node == P.Dropped(old(node), i)
      ensures r.Failed? && !old(node)[i].kind.Dir? && d.Some? ==>
                d.value != i && node == P.Dropped(P.Dropped(old(node), d.value), i)
      ensures !r.Panicked? ==> |fs.logged| <= 6 + 2 * (DataMaps(fs.sb) + 1)
      ensures !r.Panicked? && 0 < old(node)[i].nlink < 0xFFFF && (d.Some? ==> LinkedDir(old(node)[d.value])) ==>
                |fs.logged| <= 6
    {
      hide Abs;
      hide WellFormed;
      hide Represents;
      hide IBlock;
      hide Sound;
      hide MapsOf;
      hide DataMaps;
      hide P.Dropped;
      hide L.SlotOf;
      hide L.EmptySlot;
      hide Stored;
      hide Content;
      hide Entries;
      hide Hooked;
      hide RoomIn;
      hide Survive;
      ghost var node0 := node;
      fs.logged := {};  // begin_op
      P.DroppedSound(node, i);
      LiveIs(node, i);
      var ip := Ilock(i);
      HeldLocked(ip);
      if ip.di.kind == T_DIR {
        ghost var maps := LastDrop(ip);
        return Failed;
      }
      L.LinkParts(node, i, d, Stored(name));
      r := AddName(ip, d, name);
      if r.Done? { HookSound(node0, d.value, i, Stored(name), node); }
    }
  }

  /** A 16-bit count, up and down. */
  function Inc(n: nat): short { (n + 1) % 0x1_0000 }

  function Dec(n: nat): short { (n + 0xFFFF) % 0x1_0000 }

  /** The end state of a successful link: the first empty slot names i, whose links are
      counted in 16 bits. */
  ghost predicate Hooked(node: seq<Node>, d: nat, i: nat, name: string, node': seq<Node>) {
    && d < |node| && i < |node| && i != d && node[d].ref > 0 && node[i].ref > 0
    && var m := L.Room(node, d);
       var n := m[i].(nlink := Inc(m[i].nlink));
       node' == P.Dropped(P.Dropped(P.HangState(m, d, L.EmptySlot(node[d].entries, 0), i, n, name), d), i)
  }

  ghost function Counting(node: seq<Node>, i: nat): (m: seq<Node>)
    requires i < |node|
  {
    node[i := node[i].(nlink := Inc(node[i].nlink))]
  }

  lemma HookIs(node: seq<Node>, d: nat, i: nat, name: string)
    requires d < |node| && i < |node| && i != d && node[d].ref > 0 && node[i].ref > 0 && !node[i].kind.Dir?
    ensures var m := WithEntry(Counting(node, i), d, L.EmptySlot(node[d].entries, 0), Entry(i, name));
            && |m| == |node| && m[d].ref > 0 && m[d].nlink == node[d].nlink
            && m[i].nlink == Inc(node[i].nlink)
            && |P.Dropped(m, d)| == |node| && P.Dropped(m, d)[i].ref > 0
            && P.Dropped(m, d)[i].nlink == Inc(node[i].nlink)
            && Hooked(node, d, i, name, P.Dropped(P.Dropped(m, d), i))
  {
    var s, m := L.EmptySlot(node[d].entries, 0), L.Room(node, d);
    var es, e := node[d].entries, Entry(i, name);
    assert s == |es| ==> (es + [P.NONE])[s := e] == es + [e];
    var n := m[i].(nlink := Inc(m[i].nlink));
    assert WithEntry(Counting(node, i), d, s, e) == P.HangState(m, d, s, i, n, name);
  }

  /** Past 65535 links the count comes back to 0. */
  lemma HookSound(node: seq<Node>, d: nat, i: nat, name: string, node': seq<Node>)
    requires Sound(node) && 0 < d < |node| && node[d].kind.Dir? && 0 < i < |node| && !node[i].kind.Dir?
             && !node[i].kind.Free? && node[i].nlink < 0x1_0000
    requires Hooked(node, d, i, name, node')
    ensures Sound(node') <==> LinkedDir(node[d]) && node[i].nlink < 0xFFFF
  {
    CountIs(node, i);
    hide Sound;
    hide Hooked;
    if node[i].nlink < 0xFFFF {
      HookHangs(node, d, i, name, node');
      hide L.Hung;
      L.LinkedEnd(node, i, d, name, node');
    } else {
      var x, k := LinksWitness(node, i, |node|);
      HookWraps(node, d, i, name, node', x, k);
      if Sound(node') { SoundAt(node', x); }
    }
  }

  lemma HookHangs(node: seq<Node>, d: nat, i: nat, name: string, node': seq<Node>)
    requires Hooked(node, d, i, name, node') && node[i].nlink < 0xFFFF
    ensures L.Hung(node, d, i, name, node')
  {
    hide P.Dropped;
    assert L.Room(node, d)[i].nlink == node[i].nlink;
  }

  lemma CountIs(node: seq<Node>, i: nat)
    requires Sound(node) && 0 < i < |node| && !node[i].kind.Dir? && !node[i].kind.Free?
    ensures node[i].nlink == Links(node, i, |node|)
  {
  }

  lemma SoundAt(node: seq<Node>, d: nat)
    requires Sound(node) && d < |node|
    ensures ShapedAt(node, d)
  {
  }

  /** Whatever named the inode still does. */
  lemma HookWraps(node: seq<Node>, d: nat, i: nat, name: string, node': seq<Node>, x: nat, k: nat)
    requires d < |node| && 0 < i < |node| && !node[i].kind.Dir?
    requires Hooked(node, d, i, name, node') && node[i].nlink == 0xFFFF
    requires x < |node| && LinkedDir(node[x]) && 2 <= k < |node[x].entries| && node[x].entries[k].inum == i
    ensures |node'| == |node| && !ShapedAt(node', x)
  {
    var s, m := L.EmptySlot(node[d].entries, 0), L.Room(node, d);
    assert m[x].entries[k].inum == i;
    if x == d { assert m[d].entries[s := Entry(i, name)][k].inum == i; }
    hide L.Room;
    hide L.EmptySlot;
    assert LinkedDir(node'[x]) && k < |node'[x].entries| && node'[x].entries[k].inum == i && node'[i].nlink == 0;
    assert !Held(node', x, i);
  }

  lemma LiveIs(node: seq<Node>, i: nat)
    requires Sound(node) && 0 < i < |node| && node[i].ref > 0
    ensures !node[i].kind.Free?
  {
  }

  /** An inode keeps its pointers. */
  ghost predicate SlotsKept(v: Image, v': Image, d: nat) {
    && d < |v.inodes| && d < |v'.inodes| && v.inodes[d].Valid() && v'.inodes[d].Valid()
    && forall k | 0 <= k < NSLOTS :: Slot(v', d, k) == Slot(v, d, k)
  }

  lemma RoomKept(v: Image, v': Image, d: nat, es: seq<Entry>, more: nat, less: nat)
    requires SlotsKept(v, v', d) && |FreeBlocks(v.bits)| == |FreeBlocks(v'.bits)| + more
    ensures RoomIn(v', d, es, less) == RoomIn(v, d, es, more + less)
  {
    var off := DIRENT * L.EmptySlot(es, 0);
    assert Missing(v', d, off, DIRENT) == Missing(v, d, off, DIRENT);
  }

  lemma LinkLog(l: set<nat>, b: nat, log: set<nat>, maps: set<nat>)
    requires l <= {b} + log + maps
    ensures |l| <= 1 + |log| + |maps|
  {
    SubsetSize(l, {b} + log + maps);
  }

  lemma BackIs(node: seq<Node>, i: nat, d: Option<nat>)
    requires i < |node| && node[i].nlink < 0x1_0000
    requires d.Some? ==> d.value < |node| && d.value != i && node[d.value].ref > 0
    ensures var m, n := Counting(node, i), node[i].nlink;
            && Dec(Inc(n)) == n && (Inc(n) > 0 <==> n < 0xFFFF)
            && m[i := m[i].(nlink := n)] == node
            && (d.Some? ==> var m' := P.Dropped(m, d.value);
                            m'[i] == m[i] && m'[i := m'[i].(nlink := n)] == P.Dropped(node, d.value))
  {
  }

  /** What a slot after the dots of a linked directory names. */
  lemma NamedNode(node: seq<Node>, d: nat, s: nat)
    requires Sound(node) && d < |node| && LinkedDir(node[d]) && 2 <= s < |node[d].entries|
    requires 0 < node[d].entries[s].inum < |node|
    ensures var i := node[d].entries[s].inum; !node[i].kind.Free? && node[i].nlink > 0
  {
    assert ShapedAt(node, d);
    assert Held(node, d, node[d].entries[s].inum);
  }

  lemma RemovedIs(node: seq<Node>, d: nat, s: nat)
    requires L.CanTake(node, d, s) && (node[node[d].entries[s].inum].kind.Dir? ==> node[d].nlink > 1)
    ensures var i := node[d].entries[s].inum;
            var m := P.Raised(node, i);
            && L.CanTake(m, d, s) && m[i].ref > 0 && m[d] == node[d]
            && L.Removed(node, d, s) == P.Dropped(P.Dropped(P.UnlinkState(m, d, s), d), i)
  {
  }

  lemma RaisedBack(node: seq<Node>, i: nat)
    requires i < |node| && node[i].nlink > 0
    ensures var m := P.Raised(node, i);
            && |m| == |node| && m[i].ref > 0 && P.Dropped(m, i) == node
            && forall j | 0 <= j < |node| :: m[j].kind == node[j].kind && m[j].nlink == node[j].nlink
                                             && m[j].entries == node[j].entries
  {
  }

  lemma ClearedIs(node: seq<Node>, d: nat, s: nat)
    requires L.CanTake(node, d, s) && node[d].entries[s].inum > 0
    requires node[d].nlink > (if node[node[d].entries[s].inum].kind.Dir? then 1 else 0)
    ensures var i, m := node[d].entries[s].inum, WithEntry(node, d, s, P.NONE);
            && |m| == |node| && m[i] == node[i] && m[d].nlink == node[d].nlink && m[d].kind == node[d].kind
            && m[d].ref == node[d].ref
            && node[d := P.ClearedDir(node, d, s)] ==
               if node[i].kind.Dir? then m[d := m[d].(nlink := m[d].nlink - 1)] else m
  {
  }

  lemma UnlinkIs(node: seq<Node>, d: nat, s: nat)
    requires L.CanTake(node, d, s) && node[d].entries[s].inum > 0
    requires node[d].nlink > (if node[node[d].entries[s].inum].kind.Dir? then 1 else 0)
    ensures var i, m := node[d].entries[s].inum, node[d := P.ClearedDir(node, d, s)];
            && m[d].ref > 0 && m[d].nlink > 0 && m[i] == node[i]
            && var m' := P.Dropped(m, d);
               && m'[i] == node[i] && P.UnlinkState(node, d, s)[d].ref > 0
               && m'[i := m'[i].(nlink := m'[i].nlink - 1)] == P.Dropped(P.UnlinkState(node, d, s), d)
  {
  }

  lemma UnlinkLog(l0: set<nat>, l: set<nat>, log: set<nat>, b: nat, maps: set<nat>)
    requires l <= l0 + log + {b} + maps && |log| <= 1
    ensures |l - l0| <= |maps| + 2
  {
    SubsetSize(l - l0, log + {b} + maps);
    assert |log + {b} + maps| <= |log + {b}| + |maps|;
  }

  /** What writing one record logs. */
  lemma EntryLog(sb: Super, v: Image, v': Image, i: nat, off: nat)
    requires i < |v.inodes| && v.inodes[i].Valid() && i < |v'.inodes| && v'.inodes[i].Valid()
    requires off % DIRENT == 0 && off / BSIZE < MAXFILE
    ensures var log := WriteLog(sb, v, v', i, off, DIRENT);
            |log| <= 4 && (off / BSIZE < NDIRECT ==> |log| <= 2)
  {
    hide Slot;
    hide WriteLog;
    hide RecordBlocks;
    InOneBlock(off);
    RecordLog(sb, v, v', i, off, DIRENT);
    RecordCount(sb, v, v', i, off / BSIZE);
    SubsetSize(WriteLog(sb, v, v', i, off, DIRENT), RecordBlocks(sb, v, v', i, off / BSIZE));
  }

  /** A directory may grow to hold another entry, with `less` of the free blocks set aside. */
  ghost predicate RoomIn(v: Image, d: nat, es: seq<Entry>, less: nat) {
    && d < |v.inodes| && v.inodes[d].Valid()
    && var off := DIRENT * L.EmptySlot(es, 0);
       off + DIRENT <= MAXFILE * BSIZE && |FreeBlocks(v.bits)| >= |Missing(v, d, off, DIRENT)| + less
  }

  /** A record has been written at off of inode i: other inodes keep their fields and their
      pointers, and as many blocks are gone as were missing. */
  ghost predicate Recorded(v: Image, v': Image, i: nat, off: nat) {
    && |v'.inodes| == |v.inodes| && OtherSlots(v, v', i) && Filled(v, v', i, off, DIRENT)
    && forall j | 0 <= j < |v.inodes| && j != i :: v'.inodes[j] == v.inodes[j]
  }

  lemma EmptyEnd(es: seq<Entry>)
    ensures 0 <= L.EmptySlot(es, 0) <= |es|
  {
  }

  /** A record inside a directory has its block. */
  lemma RecordThere(sb: Super, v: Image, i: nat, off: nat)
    requires WellFormed(sb, v) && i < |v.inodes| && off % DIRENT == 0 && off + DIRENT <= v.inodes[i].size
    ensures off / BSIZE < MAXFILE && off % BSIZE + DIRENT <= BSIZE && Slot(v, i, DataSlot(off / BSIZE)) != 0
    ensures off / BSIZE >= NDIRECT ==> Slot(v, i, INDIRECT) != 0
  {
    assert v.inodes[i].Valid();
    hide WellFormed;
    MappedBelowSize(sb, v, i, off);
    InOneBlock(off);
    SlotsInInode(v, i);
    hide Slot;
  }
}
