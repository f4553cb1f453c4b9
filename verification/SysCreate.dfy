/** create of sysfile.c on the bytes of the disk, in the name space of SysCode. */
module SysCreate {
  import opened Common
  import opened Blocks
  import opened FsLayout
  import opened FsModel
  import opened FsUpdates
  import opened FsSpace
  import opened FsAbs
  import opened FsCode
  import opened FsTruncate
  import opened LinkModel
  import opened DirModel
  import opened DirCode
  import opened SysCode
  import L = LinkCode
  import P = LinkProofs
  import Log

  datatype CreateEnd = New(i: nat) | Opened(i: nat) | Denied | Gone | NoInodes | NoRoom

  function TypeOf(kind: Kind): (t: short)
    requires !kind.Free?
    ensures t != 0 && IsKind(t, kind)
  {
    match kind
    case File => T_FILE
    case Device => T_DEV
    case Dir => T_DIR
  }

  /** Blocks that a new inode takes for itself. */
  function Extra(kind: Kind): nat { if kind.Dir? then 1 else 0 }

  /** A zeroed inode with a type. */
  function Blank(kind: short): (di: Dinode)
    ensures di.Valid()
  {
    Dinode(kind, 0, 0, 0, 0, seq(NDIRECT + 1, _ => 0))
  }

  lemma BlankFollows(sb: Super, v: Image, node: seq<Node>, i: nat, kind: Kind)
    requires WellFormed(sb, v) && Represents(v, node) && i < |node| && node[i].kind.Free? && !kind.Free?
    ensures var v' := WithInode(v, i, Blank(TypeOf(kind)));
            WellFormed(sb, v') && Represents(v', node[i := Node(kind, 0, [], 1)]) && SurviveBut(v, v', i, {})
  {
    var di := Blank(TypeOf(kind));
    assert Matches(v, node, i);
    forall k | 0 <= k <= INDIRECT ensures v.inodes[i].addrs[k] == 0 {
      assert IsSlot(v, i, k) && Slot(v, i, k) == 0;
    }
    assert di.addrs == v.inodes[i].addrs;
    assert v.inodes[i].size == 0;
    hide WellFormed;
    hide Represents;
    TagFollows(sb, v, node, i, di, Node(kind, 0, [], 1));
  }

  /** Every inode but i stays or has become free. */
  ghost predicate SurviveBut(v: Image, v': Image, i: nat, dirs: set<nat>) {
    && |v'.inodes| == |v.inodes|
    && forall j: nat | j < |v.inodes| && j != i :: v'.inodes[j].kind == 0 || Stays(v, v', j, j in dirs)
  }

  lemma ButThen(v: Image, v1: Image, v2: Image, i: nat, a: set<nat>, b: set<nat>, dirs: set<nat>)
    requires SurviveBut(v, v1, i, a) && SurviveBut(v1, v2, i, b) && a <= dirs && b <= dirs
    ensures SurviveBut(v, v2, i, dirs)
  {
    hide ByteAt;
    forall j: nat | j < |v.inodes| && j != i ensures v2.inodes[j].kind == 0 || Stays(v, v2, j, j in dirs) {
      assert v1.inodes[j].kind == 0 || Stays(v, v1, j, j in a);
      assert v2.inodes[j].kind == 0 || Stays(v1, v2, j, j in b);
    }
  }

  lemma AllBut(v: Image, v': Image, i: nat, a: set<nat>, dirs: set<nat>)
    requires Survive(v, v', a) && a <= dirs + {i}
    ensures SurviveBut(v, v', i, dirs)
  {
    hide SameBytes;
  }

  /** An inode with this type and these numbers; a file or device is empty. */
  ghost predicate Numbered(di: Dinode, kind: Kind, major: short, minor: short) {
    && !kind.Free? && di.kind == TypeOf(kind) && di.major == major && di.minor == minor
    && (!kind.Dir? ==> di.size == 0 && di.addrs == Blank(0).addrs)
  }

  /** ialloc: the first free inode, with a reference. */
  method Ialloc(k: Kernel, kind: Kind) returns (i: nat)
    requires k.Agrees() && !kind.Free? && Kept(k.node)
    modifies k, k.fs
    ensures k.Agrees()
    ensures i == 0 ==> L.TableFull(k.node) && k.node == old(k.node) && k.fs.logged == old(k.fs.logged)
    ensures i != 0 ==>
              && i < |old(k.node)| && old(k.node)[i].kind.Free? && (forall x | 0 < x < i :: !old(k.node)[x].kind.Free?)
              && k.node == old(k.node)[i := Node(kind, 0, [], 1)]
              && k.fs.Fs() == WithInode(old(k.fs.Fs()), i, Blank(TypeOf(kind)))
              && SurviveBut(old(k.fs.Fs()), k.fs.Fs(), i, {})
              && k.fs.logged == old(k.fs.logged) + {IBlock(k.fs.sb, i)}
  {
    hide Abs;
    hide WellFormed;
    hide Represents;
    hide IBlock;
    hide ReadInode;
    hide Blank;
    hide SurviveBut;
    var sb := k.fs.sb;
    TableIs(k);
    i := 1;
    while i < sb.ninodes
      invariant 1 <= i && forall x | 0 < x < i && x < |k.node| :: !k.node[x].kind.Free?
      invariant k.Agrees() && k.node == old(k.node) && k.fs.disk == old(k.fs.disk) && k.fs.logged == old(k.fs.logged)
      invariant k.refs == old(k.refs)
    {
      FreeIs(k, i);
      if ReadInode(sb, k.fs.disk, i).kind == 0 {
        BlankFollows(sb, k.fs.Fs(), k.node, i, kind);
        var ip := new Inode(i, Blank(TypeOf(kind)));
        k.fs.Iupdate(ip);
        k.refs := k.refs[i := k.refs[i] + 1];
        k.node := k.node[i := Node(kind, 0, [], 1)];
        return;
      }
      i := i + 1;
    }
    i := 0;
  }

  lemma TableIs(k: Kernel)
    requires k.Agrees()
    ensures |k.fs.Fs().inodes| == |k.node| == k.fs.sb.ninodes
    ensures forall j | 0 <= j < |k.node| :: k.fs.Fs().inodes[j].Valid()
  {
    hide Abs;
  }

  lemma FreeIs(k: Kernel, i: nat)
    requires k.Agrees() && i < k.fs.sb.ninodes
    ensures |k.fs.Fs().inodes| == |k.node| == k.fs.sb.ninodes && IBlock(k.fs.sb, i) < |k.fs.disk|
    ensures ReadInode(k.fs.sb, k.fs.disk, i).kind == 0 <==> k.node[i].kind.Free?
  {
    hide Abs;
    hide WellFormed;
    hide Represents;
    hide IBlock;
    hide ReadInode;
    AbsInodes(k.fs.sb, k.fs.disk);
    TypesAgree(k.fs.Fs(), k.node, i);
  }

  lemma TypesAgree(v: Image, node: seq<Node>, i: nat)
    requires Represents(v, node) && i < |v.inodes|
    ensures |v.inodes| == |node| && (v.inodes[i].kind == 0 <==> node[i].kind.Free?)
  {
    assert Matches(v, node, i);
  }

  /** The new inode gets its numbers and its link. */
  method Mark(k: Kernel, ip: Inode, major: short, minor: short)
    requires k.Held(ip)
    modifies k, k.fs, ip
    ensures k.Held(ip) && k.refs == old(k.refs)
    ensures k.node == old(k.node)[ip.inum := old(k.node)[ip.inum].(nlink := 1)]
    ensures ip.di == old(ip.di).(major := major, minor := minor, nlink := 1)
    ensures k.fs.Fs() == WithInode(old(k.fs.Fs()), ip.inum, ip.di)
    ensures SurviveBut(old(k.fs.Fs()), k.fs.Fs(), ip.inum, {})
    ensures k.fs.logged == old(k.fs.logged) + {IBlock(k.fs.sb, ip.inum)}
  {
    hide Abs;
    hide WellFormed;
    hide Represents;
    hide IBlock;
    ghost var i, v := ip.inum, k.fs.Fs();
    k.HeldLocked(ip);
    ip.di := ip.di.(major := major, minor := minor, nlink := 1);
    TagFollows(k.fs.sb, v, k.node, i, ip.di, k.node[i].(nlink := 1));
    hide SameBytes;
    k.fs.Iupdate(ip);
    k.node := k.node[i := k.node[i].(nlink := 1)];
  }

  ghost function Dots(i: nat, d: nat): seq<Entry> { [Entry(i, "."), Entry(d, "..")] }

  /** An empty directory has its first slots free. */
  lemma NewSlots(i: nat)
    requires i > 0
    ensures L.EmptySlot([], 0) == 0 && L.EmptySlot([Entry(i, ".")], 0) == 1
    ensures L.SlotOf([], ".", 0) == 0 && L.SlotOf([Entry(i, ".")], "..", 0) == 1
  {
    assert L.EmptySlot([Entry(i, ".")], 1) == 1 && L.SlotOf([Entry(i, ".")], "..", 1) == 1;
  }

  ghost predicate NoBlocks(v: Image, i: nat) {
    i < |v.inodes| && v.inodes[i].Valid() && forall l | 0 <= l < NSLOTS :: Slot(v, i, l) == 0
  }

  /** The first entry of an empty directory takes a block, the second none. */
  lemma NewRoom(v: Image, i: nat)
    requires NoBlocks(v, i)
    ensures RoomIn(v, i, [], 0) <==> |FreeBlocks(v.bits)| >= 1
    ensures |Missing(v, i, 0, DIRENT)| == 1
  {
    hide Slot;
    assert L.EmptySlot([], 0) == 0;
    assert Missing(v, i, 0, DIRENT) == {0};
  }

  lemma SecondRoom(v: Image, v': Image, i: nat, es: seq<Entry>)
    requires Filled(v, v', i, 0, DIRENT) && L.EmptySlot(es, 0) == 1
    ensures RoomIn(v', i, es, 0) && Missing(v', i, DIRENT, DIRENT) == {}
  {
    hide Slot;
    assert Wanted(0, DIRENT, 0);
    assert Missing(v', i, DIRENT, DIRENT) == {};
  }

  /** The dots of a new directory. */
  method AddDots(k: Kernel, ip: Inode, d: nat) returns (ok: bool, ghost log: set<nat>)
    requires k.Held(ip) && 0 < ip.inum && d < 0x1_0000 && NoBlocks(k.fs.Fs(), ip.inum)
    requires k.node[ip.inum].kind.Dir? && k.node[ip.inum].entries == []
    modifies k, k.fs, ip
    ensures ok <==> |FreeBlocks(old(k.fs.Fs()).bits)| >= 1
    ensures k.refs == old(k.refs)
    ensures ok ==>
              && k.Held(ip) && k.fs.logged <= old(k.fs.logged) + log + {IBlock(k.fs.sb, ip.inum)} && |log| <= 4
              && k.node == old(k.node)[ip.inum := old(k.node)[ip.inum].(entries := Dots(ip.inum, d))]
              && Beside(old(k.fs.Fs()), k.fs.Fs(), ip.inum, 1) && Survive(old(k.fs.Fs()), k.fs.Fs(), {ip.inum})
  {
    hide Abs;
    hide WellFormed;
    hide Represents;
    hide IBlock;
    hide Stored;
    hide Filled;
    hide OtherSlots;
    hide RoomIn;
    hide Missing;
    hide L.SlotOf;
    hide L.EmptySlot;
    hide Survive;
    ghost var i, v, node0 := ip.inum, k.fs.Fs(), k.node;
    log := {};
    DotNames();
    NewSlots(i);
    NewRoom(v, i);
    ghost var more: set<nat>;
    var r;
    r, log := k.Dirlink(ip, [DOT], ip.inum);
    if r.LinkPanic? {
      return false, log;
    }
    ghost var v1 := k.fs.Fs();
    SecondRoom(v, v1, i, [Entry(i, ".")]);
    r, more := k.Dirlink(ip, [DOT, DOT], d);
    DotsIs(node0, i, d);
    BesideTwo(v, v1, k.fs.Fs(), i);
    SurviveThen(v, v1, k.fs.Fs(), {i}, {i}, {i});
    log := log + more;
    ok := true;
  }

  /** Inode i has taken blocks; the others keep their fields and their pointers. */
  ghost predicate Beside(v: Image, v': Image, i: nat, blocks: nat) {
    && |v'.inodes| == |v.inodes| && OtherSlots(v, v', i)
    && |FreeBlocks(v.bits)| == |FreeBlocks(v'.bits)| + blocks
    && forall j | 0 <= j < |v.inodes| && j != i :: v'.inodes[j] == v.inodes[j]
  }

  lemma BesideTwo(v: Image, v1: Image, v2: Image, i: nat)
    requires Recorded(v, v1, i, 0) && Recorded(v1, v2, i, DIRENT)
    requires |Missing(v, i, 0, DIRENT)| == 1 && Missing(v1, i, DIRENT, DIRENT) == {}
    ensures Beside(v, v2, i, 1)
  {
    hide Missing;
    hide OtherSlots;
    hide Slot;
    OthersTrans(v, v1, v2, i);
  }

  lemma DotsIs(node: seq<Node>, i: nat, d: nat)
    requires i < |node| && node[i].entries == []
    ensures var m := WithEntry(node, i, 0, Entry(i, "."));
            && |m| == |node| && m[i].entries == [Entry(i, ".")]
            && WithEntry(m, i, 1, Entry(d, "..")) == node[i := node[i].(entries := Dots(i, d))]
  {
    assert Put([], 0, Entry(i, ".")) == [Entry(i, ".")];
    assert Put([Entry(i, ".")], 1, Entry(d, "..")) == Dots(i, d);
  }

  /** The link of a new subdirectory's "..", and its dots. */
  method MakeDots(k: Kernel, dp: Inode, ip: Inode) returns (ok: bool, ghost log: set<nat>)
    requires k.Held(dp) && k.Held(ip) && dp != ip && dp.inum != ip.inum && 0 < ip.inum
    requires NoBlocks(k.fs.Fs(), ip.inum) && k.node[dp.inum].nlink < 0xFFFF
    requires k.node[ip.inum].kind.Dir? && k.node[ip.inum].entries == []
    modifies k, k.fs, dp, ip
    ensures ok <==> |FreeBlocks(old(k.fs.Fs()).bits)| >= 1
    ensures k.refs == old(k.refs)
    ensures ok ==>
              && k.Held(dp) && k.Held(ip) && k.node == DotsMade(old(k.node), dp.inum, ip.inum)
              && SlotsKept(old(k.fs.Fs()), k.fs.Fs(), dp.inum) && Survive(old(k.fs.Fs()), k.fs.Fs(), {ip.inum})
              && |FreeBlocks(old(k.fs.Fs()).bits)| == |FreeBlocks(k.fs.Fs().bits)| + 1
              && k.fs.logged <= old(k.fs.logged) + log + {IBlock(k.fs.sb, ip.inum), IBlock(k.fs.sb, dp.inum)}
              && |log| <= 4
  {
    hide Abs;
    hide WellFormed;
    hide Represents;
    hide IBlock;
    hide NoBlocks;
    hide OtherSlots;
    hide SlotsKept;
    hide Beside;
    hide FreeBlocks;
    hide Dots;
    hide DotsMade;
    hide Inc;
    hide Survive;
    ghost var d, i, v := dp.inum, ip.inum, k.fs.Fs();
    k.HeldNode(dp);
    DotsMadeIs(k.node, d, i);
    k.SetLinks(dp, Inc(dp.di.nlink));
    ghost var v1 := k.fs.Fs();
    StillNone(v, d, i, dp.di);
    ok, log := AddDots(k, ip, dp.inum);
    if ok {
      BesideSlots(v, v1, k.fs.Fs(), d, i);
      SurviveThen(v, v1, k.fs.Fs(), {}, {i}, {i});
    }
  }

  ghost function DotsMade(node: seq<Node>, d: nat, i: nat): (m: seq<Node>)
    requires d < |node| && i < |node|
    ensures |m| == |node|
  {
    node[d := node[d].(nlink := node[d].nlink + 1)][i := node[i].(entries := Dots(i, d))]
  }

  lemma DotsMadeIs(node: seq<Node>, d: nat, i: nat)
    requires d < |node| && i < |node| && d != i && node[d].nlink < 0xFFFF
    ensures var m := node[d := node[d].(nlink := Inc(node[d].nlink))];
            m[i] == node[i] && m[i := m[i].(entries := Dots(i, d))] == DotsMade(node, d, i)
  {
  }

  lemma StillNone(v: Image, d: nat, i: nat, di: Dinode)
    requires d < |v.inodes| && d != i && NoBlocks(v, i)
    ensures NoBlocks(WithInode(v, d, di), i)
  {
    hide FsModel.SlotOf;
    var v1 := WithInode(v, d, di);
    forall l | 0 <= l < NSLOTS ensures Slot(v1, i, l) == 0 {
      assert Slot(v, i, l) == 0;
    }
  }

  lemma BesideSlots(v: Image, v1: Image, v2: Image, d: nat, i: nat)
    requires d < |v.inodes| && d != i && d < |v1.inodes| && v1 == WithInode(v, d, v1.inodes[d])
    requires v.inodes[d].Valid() && v1.inodes[d].Valid() && v1.inodes[d].addrs == v.inodes[d].addrs
    requires Beside(v1, v2, i, 1)
    ensures SlotsKept(v, v2, d) && |FreeBlocks(v.bits)| == |FreeBlocks(v2.bits)| + 1
    ensures |v2.inodes| == |v1.inodes| && v2.inodes[d] == v1.inodes[d]
  {
    forall l | 0 <= l < NSLOTS ensures Slot(v2, d, l) == Slot(v, d, l) {
      assert IsSlot(v1, d, l) && Slot(v1, d, l) == Slot(v, d, l);
    }
  }

  /** The name space with inode i linked, given its dots and named, before directory d is
      given back. */
  ghost function Named(node: seq<Node>, d: nat, i: nat, name: string): (m: seq<Node>)
    requires d < |node| && i < |node| && d != i
    ensures |m| == |node| && m[d].ref == node[d].ref
  {
    var m := Tied(node, d, i);
    WithEntry(m, d, L.EmptySlot(m[d].entries, 0), Entry(i, name))
  }

  ghost function Tied(node: seq<Node>, d: nat, i: nat): (m: seq<Node>)
    requires d < |node| && i < |node| && d != i
    ensures |m| == |node| && m[d].ref == node[d].ref && m[d].entries == node[d].entries
  {
    var m := node[i := node[i].(nlink := 1)];
    if node[i].kind.Dir? then DotsMade(m, d, i) else m
  }

  lemma NamedIs(node: seq<Node>, d: nat, i: nat, name: string)
    requires d < |node| && i < |node| && d != i
    ensures var m, n := Tied(node, d, i), Named(node, d, i, name);
            && (L.Has(m[d], name) <==> L.Has(node[d], name)) && m[d].kind == node[d].kind
            && n == WithEntry(m, d, L.EmptySlot(node[d].entries, 0), Entry(i, name))
            && (node[d].nlink > 0 ==> m[d].nlink > 0)
  {
  }

  lemma MarkKeeps(v: Image, v1: Image, d: nat, i: nat, t: short)
    requires |v1.inodes| == |v.inodes| && d < |v.inodes| && i < |v.inodes| && d != i && v.inodes[d].Valid()
    requires v1 == WithInode(v, i, v1.inodes[i]) && v1.inodes[i].addrs == Blank(t).addrs
    ensures SlotsKept(v, v1, d) && NoBlocks(v1, i) && v1.bits == v.bits
  {
  }

  lemma NoRoomIn(v: Image, d: nat, es: seq<Entry>, less: nat)
    requires |FreeBlocks(v.bits)| < less
    ensures !RoomIn(v, d, es, less)
  {
  }

  lemma KeptThen(v: Image, v1: Image, v2: Image, d: nat)
    requires SlotsKept(v, v1, d) && SlotsKept(v1, v2, d)
    ensures SlotsKept(v, v2, d)
  {
    hide Slot;
  }

  lemma MarkNumbers(di: Dinode, kind: Kind, major: short, minor: short)
    requires !kind.Free? && di == Blank(TypeOf(kind)).(major := major, minor := minor, nlink := 1)
    ensures Numbered(di, kind, major, minor)
  {
  }

  lemma StillNumbered(v: Image, v': Image, i: nat, kind: Kind, major: short, minor: short)
    requires i < |v.inodes| && Survive(v, v', {i}) && v'.inodes[i].kind != 0 && kind.Dir?
    requires Numbered(v.inodes[i], kind, major, minor)
    ensures Numbered(v'.inodes[i], kind, major, minor)
  {
    hide SameBytes;
  }

  /** A new inode before it is named: its numbers and link, and the dots of a directory. */
  method Prepare(k: Kernel, dp: Inode, ip: Inode, kind: Kind, major: short, minor: short)
    returns (ok: bool, ghost log: set<nat>)
    requires k.Held(dp) && k.Held(ip) && dp != ip && dp.inum != ip.inum && 0 < ip.inum && !kind.Free?
    requires k.node[dp.inum].nlink < 0xFFFF
    requires k.node[ip.inum] == Node(kind, 0, [], 1) && ip.di == Blank(TypeOf(kind))
    modifies k, k.fs, dp, ip
    ensures ok <==> |FreeBlocks(old(k.fs.Fs()).bits)| >= Extra(kind)
    ensures ok ==>
              && k.Held(dp) && k.node == Tied(old(k.node), dp.inum, ip.inum)
              && SlotsKept(old(k.fs.Fs()), k.fs.Fs(), dp.inum)
              && SurviveBut(old(k.fs.Fs()), k.fs.Fs(), ip.inum, {})
              && ip.inum < |k.fs.Fs().inodes| && Numbered(k.fs.Fs().inodes[ip.inum], kind, major, minor)
              && |FreeBlocks(old(k.fs.Fs()).bits)| == |FreeBlocks(k.fs.Fs().bits)| + Extra(kind)
              && k.fs.logged <= old(k.fs.logged) + log + {IBlock(k.fs.sb, ip.inum), IBlock(k.fs.sb, dp.inum)}
              && |log| <= if kind.Dir? then 4 else 0
  {
    hide Abs;
    hide WellFormed;
    hide Represents;
    hide IBlock;
    hide Blank;
    hide SlotsKept;
    hide DotsMade;
    hide NoBlocks;
    hide Survive;
    hide SurviveBut;
    hide Numbered;
    ghost var d, i, v := dp.inum, ip.inum, k.fs.Fs();
    log := {};
    k.HeldNode(dp);
    Mark(k, ip, major, minor);
    MarkKeeps(v, k.fs.Fs(), d, i, TypeOf(kind));
    MarkNumbers(ip.di, kind, major, minor);
    ok := true;
    if kind.Dir? {
      ghost var v1 := k.fs.Fs();
      ok, log := MakeDots(k, dp, ip);
      if ok {
        KeptThen(v, v1, k.fs.Fs(), d);
        AllBut(v1, k.fs.Fs(), i, {i}, {});
        ButThen(v, v1, k.fs.Fs(), i, {}, {}, {});
        StillNumbered(v1, k.fs.Fs(), i, kind, major, minor);
      }
    }
  }

  /** create of a new inode under a name that is free. */
  method MakeNode(k: Kernel, dp: Inode, ip: Inode, name: seq<byte>, kind: Kind, major: short, minor: short)
    returns (ok: bool, ghost log: set<nat>)
    requires k.Held(dp) && k.Held(ip) && dp != ip && dp.inum != ip.inum && 0 < ip.inum && !kind.Free?
    requires k.node[dp.inum].kind.Dir? && k.node[dp.inum].ref > 0 && k.node[dp.inum].nlink < 0xFFFF
    requires k.node[ip.inum] == Node(kind, 0, [], 1) && ip.di == Blank(TypeOf(kind))
    requires !L.Has(k.node[dp.inum], Stored(name))
    modifies k, k.fs, dp, ip
    ensures ok <==> RoomIn(old(k.fs.Fs()), dp.inum, old(k.node)[dp.inum].entries, Extra(kind))
    ensures ok ==>
              && k.Agrees() && k.fs.logged <= old(k.fs.logged) + log + {IBlock(k.fs.sb, ip.inum)}
              && k.node == P.Dropped(Named(old(k.node), dp.inum, ip.inum, Stored(name)), dp.inum)
              && SurviveBut(old(k.fs.Fs()), k.fs.Fs(), ip.inum, {dp.inum})
              && ip.inum < |k.fs.Fs().inodes| && Numbered(k.fs.Fs().inodes[ip.inum], kind, major, minor)
              && |log| <= DataMaps(k.fs.sb) + 10
              && (old(k.node)[dp.inum].nlink > 0 ==> |log| <= if kind.Dir? then 9 else 5)
  {
    hide Abs;
    hide WellFormed;
    hide Represents;
    hide IBlock;
    hide DataMaps;
    hide Blank;
    hide SlotsKept;
    hide RoomIn;
    hide L.Has;
    hide L.EmptySlot;
    hide Stored;
    hide P.Dropped;
    hide Tied;
    hide Named;
    hide WithEntry;
    hide Recorded;
    hide FreeBlocks;
    hide Put;
    hide Missing;
    hide Survive;
    hide SurviveBut;
    hide Numbered;
    ghost var d, i, v, node0 := dp.inum, ip.inum, k.fs.Fs(), k.node;
    ghost var es, dots := node0[d].entries, {};
    log := {};
    ok, dots := Prepare(k, dp, ip, kind, major, minor);
    if !ok {
      NoRoomIn(v, d, es, Extra(kind));
      return;
    }
    RoomKept(v, k.fs.Fs(), d, es, Extra(kind), 0);
    NamedIs(node0, d, i, Stored(name));
    var r;
    ghost var v1 := k.fs.Fs();
    r, log := k.NameIn(dp, name, ip.inum);
    ok := r.Linked?;
    if ok {
      AllBut(v1, k.fs.Fs(), i, {d}, {d});
      ButThen(v, v1, k.fs.Fs(), i, {}, {d}, {d});
    }
    log := log + dots + {IBlock(k.fs.sb, d)};
  }

  /** create on a name that is there already. */
  method Existing(k: Kernel, dp: Inode, i: nat, kind: Kind) returns (r: CreateEnd)
    requires k.Held(dp) && 0 < dp.inum && k.node[dp.inum].ref > 0
    requires 0 < i < |k.node| && !k.node[i].kind.Free? && k.fs.logged == {}
    modifies k, k.fs, dp
    ensures k.Agrees()
    ensures r == if kind.File? && old(k.node)[i].kind.File? then Opened(i) else Denied
    ensures LookedUp(old(k.node), dp.inum, i, r.Opened?, k.node)
    ensures Survive(old(k.fs.Fs()), k.fs.Fs(), {})
    ensures |k.fs.logged| <= 2 * (DataMaps(k.fs.sb) + 1)
    ensures old(k.node)[dp.inum].nlink > 0 && old(k.node)[i].nlink > 0 ==> k.fs.logged == {}
  {
    hide Abs;
    hide WellFormed;
    hide Represents;
    hide IBlock;
    hide DataMaps;
    hide P.Dropped;
    hide Survive;
    ghost var d, node0, v := dp.inum, k.node, k.fs.Fs();
    L.RefLeft(k.node, i, d);
    LinksLeft(node0, i, d);
    k.Iget(i);
    ghost var maps := k.LastDrop(dp);
    var ip := k.Ilock(i);
    k.HeldNode(ip);
    if kind.File? && ip.di.kind == T_FILE {
      return Opened(i);
    }
    ghost var v1 := k.fs.Fs();
    ghost var more := k.LastDrop(ip);
    SurviveThen(v, v1, k.fs.Fs(), {}, {}, {});
    r := Denied;
  }

  /** Inode i was looked up in d: its reference is kept if it is handed out. */
  ghost predicate LookedUp(node: seq<Node>, d: nat, i: nat, found: bool, node': seq<Node>) {
    && 0 < d < |node| && 0 < i < |node| && node[d].ref > 0
    && (L.RefLeft(node, i, d);
        node' == if found then P.Dropped(P.Raised(node, i), d) else P.Dropped(P.Dropped(P.Raised(node, i), d), i))
  }

  lemma LinksLeft(node: seq<Node>, i: nat, d: nat)
    requires 0 < d < |node| && 0 < i < |node| && node[d].ref > 0
    ensures P.Raised(node, i)[d].nlink == node[d].nlink
    ensures |P.Dropped(P.Raised(node, i), d)| == |node| && P.Dropped(P.Raised(node, i), d)[i].nlink == node[i].nlink
  {
  }

  lemma SoundKeeps(node: seq<Node>)
    requires Sound(node)
    ensures Kept(node)
  {
  }

  lemma LookedSound(node: seq<Node>, d: nat, i: nat, found: bool, node': seq<Node>)
    requires Sound(node) && LookedUp(node, d, i, found, node') && !node[i].kind.Free?
    ensures Sound(node')
  {
    hide Sound;
    L.RefLeft(node, i, d);
    P.RaisedSound(node, i);
    P.DroppedSound(P.Raised(node, i), d);
    P.DroppedSound(P.Dropped(P.Raised(node, i), d), i);
  }

  /** What a linked directory names is linked, the dots too. */
  lemma FoundLinked(node: seq<Node>, d: nat, name: string)
    requires Sound(node) && 0 < d < |node| && LinkedDir(node[d]) && L.Has(node[d], name)
    ensures var i := node[d].entries[L.SlotOf(node[d].entries, name, 0)].inum;
            i < |node| && node[i].nlink > 0
  {
    L.SlotIs(node[d].entries, name, 0);
    var s := L.SlotOf(node[d].entries, name, 0);
    assert ShapedAt(node, d);
    UpLinked(node, d);
    if s >= 2 { assert Held(node, d, node[d].entries[s].inum); }
  }

  /** A directory file is too short for its links to wrap. */
  lemma FewLinks(v: Image, node: seq<Node>, d: nat)
    requires Sound(node) && Represents(v, node) && 0 < d < |node| && node[d].kind.Dir?
    ensures node[d].nlink < 0xFFFF
  {
    assert Matches(v, node, d);
    var es := node[d].entries;
    assert |es| <= MAXFILE * BSIZE / DIRENT;
    SubdirsFew(node, es, |es|);
  }

  lemma {:induction false} SubdirsFew(node: seq<Node>, es: seq<Entry>, n: nat)
    requires n <= |es|
    ensures Subdirs(node, es, n) <= n
  {
    if n > 2 { SubdirsFew(node, es, n - 1); }
  }

  /** The steps of create end where LinkCode's do. */
  lemma MadeIs(node: seq<Node>, d: nat, i: nat, name: string, kind: Kind)
    requires 0 < d < |node| && 0 < i < |node| && i != d && node[d].ref > 0
    requires node[i].kind.Free? && forall x | 0 < x < i :: !node[x].kind.Free?
    ensures var m := node[i := Node(kind, 0, [], 1)];
            L.Made(node, d, i, name, kind, P.Dropped(Named(m, d, i, name), d))
  {
    var m := node[i := Node(kind, 0, [], 1)];
    var s, r, es, e := L.EmptySlot(node[d].entries, 0), L.Room(node, d), node[d].entries, Entry(i, name);
    assert s == |es| ==> (es + [P.NONE])[s := e] == es + [e];
    assert Named(m, d, i, name) == P.HangState(r, d, s, i, L.NewNode(d, i, kind), name);
  }

  lemma AllocKeeps(v: Image, node: seq<Node>, d: nat, i: nat, kind: Kind)
    requires |v.inodes| == |node| && d < |node| && i < |node| && node[d].kind.Dir? && node[i].kind.Free? && !kind.Free?
    requires v.inodes[d].Valid()
    ensures var v1, es := WithInode(v, i, Blank(TypeOf(kind))), node[d].entries;
            i != d && (RoomIn(v1, d, es, Extra(kind)) <==> RoomIn(v, d, es, Extra(kind)))
  {
    var v1 := WithInode(v, i, Blank(TypeOf(kind)));
    MarkKeeps(v, v1, d, i, TypeOf(kind));
    hide SlotsKept;
    RoomKept(v, v1, d, node[d].entries, 0, Extra(kind));
  }

  /** create of a name that is free. */
  method MakeNew(k: Kernel, dp: Inode, name: seq<byte>, kind: Kind, major: short, minor: short) returns (r: CreateEnd)
    requires k.Held(dp) && Sound(k.node) && 0 < dp.inum && k.node[dp.inum].kind.Dir? && k.node[dp.inum].ref > 0
    requires !kind.Free? && !L.Has(k.node[dp.inum], Stored(name)) && k.fs.logged == {}
    modifies k, k.fs, dp
    ensures r.NoInodes? <==> L.TableFull(old(k.node))
    ensures r.New? <==> !r.NoInodes? && RoomIn(old(k.fs.Fs()), dp.inum, old(k.node)[dp.inum].entries, Extra(kind))
    ensures r.New? || r.NoInodes? || r.NoRoom?
    ensures r.New? ==>
              && k.Agrees() && L.Made(old(k.node), dp.inum, r.i, Stored(name), kind, k.node)
              && (Sound(k.node) <==> LinkedDir(old(k.node)[dp.inum]))
              && SurviveBut(old(k.fs.Fs()), k.fs.Fs(), r.i, {dp.inum})
              && r.i < |k.fs.Fs().inodes| && Numbered(k.fs.Fs().inodes[r.i], kind, major, minor)
              && |k.fs.logged| <= DataMaps(k.fs.sb) + 11
              && (LinkedDir(old(k.node)[dp.inum]) ==> |k.fs.logged| <= if kind.Dir? then Log.MAXOPBLOCKS else 6)
  {
    hide Abs;
    hide WellFormed;
    hide Represents;
    hide IBlock;
    hide Sound;
    hide DataMaps;
    hide RoomIn;
    hide L.SlotOf;
    hide L.EmptySlot;
    hide L.Made;
    hide Stored;
    hide P.Dropped;
    hide Named;
    hide Blank;
    hide SlotsKept;
    hide NoBlocks;
    hide ReadInode;
    hide SurviveBut;
    hide Numbered;
    ghost var node0, v, d := k.node, k.fs.Fs(), dp.inum;
    TableIs(k);
    SoundKeeps(node0);
    FewLinks(v, node0, d);
    var i := Ialloc(k, kind);
    if i == 0 {
      return NoInodes;
    }
    AllocKeeps(v, node0, d, i, kind);
    MadeIs(node0, d, i, Stored(name), kind);
    var ip := k.Ilock(i);
    ghost var v1 := k.fs.Fs();
    ghost var log;
    var ok;
    ok, log := MakeNode(k, dp, ip, name, kind, major, minor);
    if !ok {
      return NoRoom;
    }
    L.MadeEnd(node0, d, i, Stored(name), kind, k.node);
    ButThen(v, v1, k.fs.Fs(), i, {}, {d}, {d});
    LinkLog(k.fs.logged, IBlock(k.fs.sb, i), log, {});
    r := New(i);
  }

  /** create in directory d, whose reference it gives back. */
  method Create(k: Kernel, d: nat, name: seq<byte>, kind: Kind, major: short, minor: short) returns (r: CreateEnd)
    requires k.Agrees() && Sound(k.node) && 0 < d < |k.node| && k.node[d].kind.Dir? && k.node[d].ref > 0 && !kind.Free?
    modifies k, k.fs
    ensures var n := Stored(name);
            && (r.Gone? <==> L.Has(old(k.node)[d], n) && L.Target(old(k.node), d, n).kind.Free?)
            && (r.NoInodes? <==> !L.Has(old(k.node)[d], n) && L.TableFull(old(k.node)))
            && var fits := RoomIn(old(k.fs.Fs()), d, old(k.node)[d].entries, Extra(kind));
               && (r.NoRoom? <==> !L.Has(old(k.node)[d], n) && !L.TableFull(old(k.node)) && !fits)
               && (r.New? <==> !L.Has(old(k.node)[d], n) && !L.TableFull(old(k.node)) && fits)
    ensures r.Opened? || r.Denied? ==>
              var i := old(k.node)[d].entries[L.SlotOf(old(k.node)[d].entries, Stored(name), 0)].inum;
              && k.Agrees() && Sound(k.node) && LookedUp(old(k.node), d, i, r.Opened?, k.node)
              && r == (if kind.File? && old(k.node)[i].kind.File? then Opened(i) else Denied)
              && Survive(old(k.fs.Fs()), k.fs.Fs(), {})
              && |k.fs.logged| <= 2 * (DataMaps(k.fs.sb) + 1)
              && (LinkedDir(old(k.node)[d]) ==> k.fs.logged == {})
    ensures r.New? ==>
              && k.Agrees() && L.Made(old(k.node), d, r.i, Stored(name), kind, k.node)
              && (Sound(k.node) <==> LinkedDir(old(k.node)[d]))
              && SurviveBut(old(k.fs.Fs()), k.fs.Fs(), r.i, {d})
              && r.i < |k.fs.Fs().inodes| && Numbered(k.fs.Fs().inodes[r.i], kind, major, minor)
              && |k.fs.logged| <= DataMaps(k.fs.sb) + 11
              && (LinkedDir(old(k.node)[d]) ==> |k.fs.logged| <= if kind.Dir? then Log.MAXOPBLOCKS else 6)
  {
    hide Abs;
    hide WellFormed;
    hide Represents;
    hide IBlock;
    hide Sound;
    hide MapsOf;
    hide DataMaps;
    hide RoomIn;
    hide L.SlotOf;
    hide L.EmptySlot;
    hide L.Made;
    hide Stored;
    hide P.Dropped;
    hide Named;
    hide Blank;
    hide SlotsKept;
    hide NoBlocks;
    hide LookedUp;
    hide ReadInode;
    hide Survive;
    hide SurviveBut;
    hide Numbered;
    ghost var node0 := k.node;
    TableIs(k);
    k.fs.logged := {};  // begin_op
    var dp := k.Ilock(d);
    var s, i := k.Lookup(dp, name);
    if s.Some? {
      L.NamedBy(node0, d, Stored(name));
      FreeIs(k, i);
      if ReadInode(k.fs.sb, k.fs.disk, i).kind == 0 {
        return Gone;
      }
      if LinkedDir(node0[d]) { FoundLinked(node0, d, Stored(name)); }
      r := Existing(k, dp, i, kind);
      LookedSound(node0, d, i, r.Opened?, k.node);
      return;
    }
    r := MakeNew(k, dp, name, kind, major, minor);
  }
}
