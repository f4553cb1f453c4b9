/** link, unlink and create of sysfile.c over the directory and inode-reference code of fs.c.
    A path lookup's result, with the reference it gives, is a parameter. */
module LinkCode {
  import opened Common
  import opened LinkModel
  import opened LinkProofs

  /** The first used slot with this name, or the number of slots. */
  ghost function SlotOf(es: seq<Entry>, name: string, k: nat): (s: nat)
    requires k <= |es|
    ensures k <= s <= |es|
    decreases |es| - k
  {
    if k == |es| || (es[k].inum != 0 && es[k].name == name) then k else SlotOf(es, name, k + 1)
  }

  ghost predicate Has(n: Node, name: string) { SlotOf(n.entries, name, 0) < |n.entries| }

  /** The first empty slot, or the number of slots. */
  ghost function EmptySlot(es: seq<Entry>, k: nat): (s: nat)
    requires k <= |es|
    ensures k <= s <= |es| && (s < |es| ==> es[s].inum == 0) && forall j | k <= j < s :: es[j].inum != 0
    decreases |es| - k
  {
    if k == |es| || es[k].inum == 0 then k else EmptySlot(es, k + 1)
  }

  /** The state with an empty slot in directory d: one is appended if there is none. */
  ghost function Room(node: seq<Node>, d: nat): (m: seq<Node>)
    requires d < |node|
    ensures |m| == |node| && (m == node || m == Padded(node, d))
    ensures var s := EmptySlot(node[d].entries, 0); s < |m[d].entries| && m[d].entries[s].inum == 0
    ensures Dotted(node[d]) ==> EmptySlot(node[d].entries, 0) >= 2
  {
    if EmptySlot(node[d].entries, 0) == |node[d].entries| then Padded(node, d) else node
  }

  /** Every inode is in use. */
  ghost predicate TableFull(node: seq<Node>) { forall x | 0 < x < |node| :: !node[x].kind.Free? }

  ghost predicate Empty(n: Node) { forall k | 2 <= k < |n.entries| :: n.entries[k].inum == 0 }

  class Tree {
    var node: seq<Node>

    /** An empty file system: the root directory and free inodes. */
    constructor (ninodes: nat)
      requires ninodes > ROOT
      ensures Sound(node) && |node| == ninodes
      ensures node[ROOT] == Node(Dir, 1, [Entry(ROOT, "."), Entry(ROOT, "..")], 0)
      ensures forall i | 0 <= i < ninodes && i != ROOT :: node[i] == Node(Free, 0, [], 0)
    {
      node := seq(ninodes, i => if i == ROOT then Node(Dir, 1, [Entry(ROOT, "."), Entry(ROOT, "..")], 0)
                  else Node(Free, 0, [], 0));
      new;
      EmptyCounted(node);
    }

    /** iget() or idup() of an allocated inode. */
    method Iget(i: nat)
      requires Sound(node) && i < |node| && !node[i].kind.Free?
      modifies this
      ensures Sound(node) && node == Raised(old(node), i)
    {
      hide Sound;
      RaisedSound(node, i);
      node := node[i := node[i].(ref := node[i].ref + 1)];
    }

    /** iput() */
    method Iput(i: nat)
      requires i < |node| && node[i].ref > 0
      modifies this
      ensures node == Dropped(old(node), i)
    {
      if node[i].nlink == 0 && node[i].ref == 1 {
        node := node[i := node[i].(entries := [])];
        node := node[i := node[i].(kind := Free)];
      }
      node := node[i := node[i].(ref := node[i].ref - 1)];
    }

    /** dirlookup() */
    method DirLookup(d: nat, name: string) returns (s: nat)
      requires d < |node|
      ensures s == SlotOf(node[d].entries, name, 0)
    {
      s := 0;
      while s < |node[d].entries|
        invariant s <= |node[d].entries| && SlotOf(node[d].entries, name, 0) == SlotOf(node[d].entries, name, s)
      {
        if node[d].entries[s].inum != 0 && node[d].entries[s].name == name {
          return;
        }
        s := s + 1;
      }
    }

    /** isdirempty() */
    method IsDirEmpty(d: nat) returns (r: bool)
      requires d < |node|
      ensures r <==> Empty(node[d])
    {
      var k := 2;
      while k < |node[d].entries|
        invariant 2 <= k && forall j | 2 <= j < k && j < |node[d].entries| :: node[d].entries[j].inum == 0
      {
        if node[d].entries[k].inum != 0 {
          return false;
        }
        k := k + 1;
      }
      r := true;
    }

    /** dirlink(): a new entry in the first empty slot, or after the last one. */
    method DirLink(d: nat, name: string, i: nat) returns (ok: bool)
      requires d < |node|
      modifies this
      ensures ok <==> !Has(old(node)[d], name)
      ensures !ok ==> node == old(node)
      ensures ok ==>
                var m := Room(old(node), d);
                node == m[d := Slot(m[d], EmptySlot(old(node)[d].entries, 0), Entry(i, name))]
    {
      var found := DirLookup(d, name);
      if found < |node[d].entries| {
        return false;
      }
      var off := 0;
      while off < |node[d].entries| && node[d].entries[off].inum != 0
        invariant off <= |node[d].entries| && EmptySlot(node[d].entries, 0) == EmptySlot(node[d].entries, off)
      {
        off := off + 1;
      }
      if off == |node[d].entries| {
        node := node[d := node[d].(entries := node[d].entries + [NONE])];
      }
      node := node[d := node[d].(entries := node[d].entries[off := Entry(i, name)])];
      ok := true;
    }

    /** The changes of a successful unlink. */
    method ClearAndDrop(dp: nat, s: nat, i: nat)
      requires dp < |node| && i < |node| && i != dp && s < |node[dp].entries| && node[dp].entries[s].inum == i && i != 0
      requires node[dp].ref > 0 && node[i].nlink > 0 && node[dp].nlink > 0 && (node[i].kind.Dir? ==> node[dp].nlink > 1)
      modifies this
      ensures node == Removed(old(node), dp, s)
    {
      node := node[i := node[i].(ref := node[i].ref + 1)];
      node := node[dp := node[dp].(entries := node[dp].entries[s := NONE])];
      if node[i].kind.Dir? {
        node := node[dp := node[dp].(nlink := node[dp].nlink - 1)];
      }
      Iput(dp);
      node := node[i := node[i].(nlink := node[i].nlink - 1)];
      assert node == Dropped(UnlinkState(Raised(old(node), i), dp, s), dp);
      Iput(i);
    }

    /** sys_unlink() on directory dp, whose reference it gives back.  It fails for the dots, an
        absent name and a directory that is not empty; then nothing else changes.  It never
        meets a link count below one. */
    method Unlink(dp: nat, name: string) returns (ok: bool)
      requires Sound(node) && 0 < dp < |node| && node[dp].kind.Dir? && node[dp].ref > 0
      modifies this
      ensures Sound(node)
      ensures ok <==> CanRemove(old(node), dp, name)
      ensures !ok ==> node == Dropped(old(node), dp)
      ensures ok ==> var s := SlotOf(old(node)[dp].entries, name, 0);
                     CanTake(old(node), dp, s) && node == Removed(old(node), dp, s)
    {
      hide Sound;
      hide Dropped;
      hide Removed;
      hide SlotOf;
      DroppedSound(node, dp);
      if name == "." || name == ".." {
        Iput(dp);
        return false;
      }
      var s := DirLookup(dp, name);
      if s == |node[dp].entries| {
        Iput(dp);
        return false;
      }
      UsedSlot(node, dp, name);
      var i := node[dp].entries[s].inum;
      if node[i].kind.Dir? {
        var empty := IsDirEmpty(i);
        if !empty {
          Iput(dp);
          return false;
        }
      }
      RemovedSound(node, dp, s);
      ClearAndDrop(dp, s, i);
      ok := true;
    }

    /** The changes of link(), after the check that i is not a directory. */
    method AddLink(i: nat, dp: Option<nat>, name: string) returns (ok: bool)
      requires i < |node| && node[i].ref > 0 && !node[i].kind.Dir?
      requires dp.Some? ==> dp.value < |node| && dp.value != i && node[dp.value].ref > 0
      modifies this
      ensures ok <==> dp.Some? && !Has(old(node)[dp.value], name)
      ensures !ok ==> node == if dp.None? then Dropped(old(node), i) else Dropped(Dropped(old(node), dp.value), i)
      ensures ok ==> Hung(old(node), dp.value, i, name, node)
    {
      node := node[i := node[i].(nlink := node[i].nlink + 1)];
      if dp.Some? {
        var d := dp.value;
        ok := DirLink(d, name, i);
        assert ok ==>
            var m := Room(old(node), d);
            node == HangState(m, d, EmptySlot(old(node)[d].entries, 0), i, m[i].(nlink := m[i].nlink + 1), name);
        Iput(d);
        if ok {
          Iput(i);
          return;
        }
      }
      node := node[i := node[i].(nlink := node[i].nlink - 1)];
      assert node == if dp.None? then old(node) else Dropped(old(node), dp.value);
      Iput(i);
      ok := false;
    }

    /** sys_link(): a new entry for inode i in directory dp, if that was found and lacks the
        name.  The counts are right afterwards exactly if dp was linked. */
    method Link(i: nat, dp: Option<nat>, name: string) returns (ok: bool)
      requires Sound(node) && 0 < i < |node| && node[i].ref > 0
      requires dp.Some? ==> 0 < dp.value < |node| && node[dp.value].kind.Dir? && node[dp.value].ref > 0
      modifies this
      ensures ok <==> !old(node)[i].kind.Dir? && dp.Some? && !Has(old(node)[dp.value], name)
      ensures Sound(node) <==> !ok || LinkedDir(old(node)[dp.value])
      ensures !ok && (old(node)[i].kind.Dir? || dp.None?) ==> node == Dropped(old(node), i)
      ensures !ok && !old(node)[i].kind.Dir? && dp.Some? ==>
                dp.value != i && node == Dropped(Dropped(old(node), dp.value), i)
      ensures ok ==> Hung(old(node), dp.value, i, name, node)
    {
      hide Sound;
      hide Dropped;
      hide Hung;
      hide Has;
      DroppedSound(node, i);
      if node[i].kind.Dir? {
        Iput(i);
        return false;
      }
      LinkParts(node, i, dp, name);
      ghost var node0 := node;
      ok := AddLink(i, dp, name);
      if ok { LinkedEnd(node0, i, dp.value, name, node); }
    }

    /** ialloc(): the first free inode. */
    method Ialloc() returns (i: nat)
      ensures i == 0 ==> TableFull(node)
      ensures i != 0 ==> i < |node| && node[i].kind.Free? && forall x | 0 < x < i :: !node[x].kind.Free?
    {
      i := 1;
      while i < |node|
        invariant 1 <= i && forall x | 0 < x < i && x < |node| :: !node[x].kind.Free?
      {
        if node[i].kind.Free? {
          return;
        }
        i := i + 1;
      }
      i := 0;
    }

    /** create() on a name that is there already. */
    method Existing(dp: nat, i: nat, kind: Kind) returns (r: CreateResult)
      requires Sound(node) && 0 < dp < |node| && node[dp].ref > 0 && 0 < i < |node| && !node[i].kind.Free?
      modifies this
      ensures Sound(node)
      ensures r == if kind.File? && old(node)[i].kind.File? then Found(i) else Refused
      ensures node == if r.Found? then Dropped(Raised(old(node), i), dp)
              else Dropped(Dropped(Raised(old(node), i), dp), i)
    {
      hide Sound;
      hide Dropped;
      RaisedSound(node, i);
      DroppedSound(Raised(node, i), dp);
      RefLeft(node, i, dp);
      DroppedSound(Dropped(Raised(node, i), dp), i);
      node := node[i := node[i].(ref := node[i].ref + 1)];
      Iput(dp);
      if kind.File? && node[i].kind.File? {
        return Found(i);
      }
      Iput(i);
      r := Refused;
    }

    /** create() of a new inode i under a name that is free. */
    method MakeNode(dp: nat, i: nat, name: string, kind: Kind)
      requires 0 < dp < |node| && node[dp].ref > 0 && 0 < i < |node| && i != dp && !Has(node[dp], name)
      requires node[i].kind.Free? && forall x | 0 < x < i :: !node[x].kind.Free?
      modifies this
      ensures Made(old(node), dp, i, name, kind, node)
    {
      node := node[i := Node(kind, 1, [], 1)];
      if kind.Dir? {
        node := node[dp := node[dp].(nlink := node[dp].nlink + 1)];
        node := node[i := node[i].(entries := [Entry(i, "."), Entry(dp, "..")])];
      }
      var ok := DirLink(dp, name, i);
      assert node == HangState(Room(old(node), dp), dp, EmptySlot(old(node)[dp].entries, 0), i, NewNode(dp, i, kind),
                               name);
      Iput(dp);
    }

    /** create() in directory dp.  The panics are exactly for a full inode table, and for ".."
        of a removed directory whose parent has gone too.  The counts are right afterwards
        exactly unless a new inode is put into an unlinked directory. */
    method Create(dp: nat, name: string, kind: Kind) returns (r: CreateResult)
      requires Sound(node) && 0 < dp < |node| && node[dp].kind.Dir? && node[dp].ref > 0 && !kind.Free?
      modifies this
      ensures r.NoInodes? <==> !Has(old(node)[dp], name) && TableFull(old(node))
      ensures r.New? <==> !Has(old(node)[dp], name) && !TableFull(old(node))
      ensures Sound(node) <==> Has(old(node)[dp], name) || LinkedDir(old(node)[dp]) || TableFull(old(node))
      ensures r.New? ==> Made(old(node), dp, r.i, name, kind, node)
      ensures r.Gone? <==> Has(old(node)[dp], name) && Target(old(node), dp, name).kind.Free?
      ensures r.Gone? ==> !LinkedDir(old(node)[dp]) && name == ".."
      ensures r.Gone? || r.NoInodes? ==> node == old(node)
      ensures r.Found? || r.Refused? ==>
                LookedUp(old(node), dp, old(node)[dp].entries[SlotOf(old(node)[dp].entries, name, 0)].inum, kind, r,
                         node)
    {
      hide Sound;
      hide Dropped;
      hide Made;
      hide SlotOf;
      var s := DirLookup(dp, name);
      if s < |node[dp].entries| {
        var i := node[dp].entries[s].inum;
        NamedBy(node, dp, name);
        if node[i].kind.Free? {
          return Gone;
        }
        r := Existing(dp, i, kind);
        return;
      }
      var i := Ialloc();
      if i == 0 {
        return NoInodes;
      }
      ghost var node0 := node;
      MakeNode(dp, i, name, kind);
      MadeEnd(node0, dp, i, name, kind, node);
      r := New(i);
    }
  }

  datatype CreateResult = New(i: nat) | Found(i: nat) | Refused | Gone | NoInodes

  /** create() found inode i: a file asked for and found is returned with a reference. */
  ghost predicate LookedUp(node: seq<Node>, dp: nat, i: nat, kind: Kind, r: CreateResult, node': seq<Node>) {
    && 0 < dp < |node| && 0 < i < |node| && node[dp].ref > 0
    && (RefLeft(node, i, dp);
        && r == (if kind.File? && node[i].kind.File? then Found(i) else Refused)
        && node' == if r.Found? then Dropped(Raised(node, i), dp) else Dropped(Dropped(Raised(node, i), dp), i))
  }

  ghost function NewNode(dp: nat, i: nat, kind: Kind): Node {
    Node(kind, 1, if kind.Dir? then [Entry(i, "."), Entry(dp, "..")] else [], 1)
  }

  /** The end state of a successful create: the first free inode, named by the first empty
      slot. */
  ghost predicate Made(node: seq<Node>, d: nat, i: nat, name: string, kind: Kind, node': seq<Node>) {
    && d < |node| && 0 < i < |node| && i != d && node[d].ref > 0
    && node[i].kind.Free? && (forall x | 0 < x < i :: !node[x].kind.Free?)
    && node' == Dropped(HangState(Room(node, d), d, EmptySlot(node[d].entries, 0), i, NewNode(d, i, kind), name), d)
  }

  /** The inode that a name leads to, if the directory has it. */
  ghost function Target(node: seq<Node>, d: nat, name: string): Node
    requires d < |node| && Has(node[d], name)
  {
    var i := node[d].entries[SlotOf(node[d].entries, name, 0)].inum;
    if i < |node| then node[i] else Node(Free, 0, [], 0)
  }

  lemma RefLeft(node: seq<Node>, i: nat, d: nat)
    requires 0 < d < |node| && 0 < i < |node| && node[d].ref > 0
    ensures |Dropped(Raised(node, i), d)| == |node| && Dropped(Raised(node, i), d)[i].ref > 0
    ensures Raised(node, i)[d].ref > 0 && Dropped(Raised(node, i), d)[i].kind == node[i].kind
  {
  }

  /** What a found name leads to; only ".." of an unlinked directory can lead to a free inode. */
  lemma NamedBy(node: seq<Node>, d: nat, name: string)
    requires Sound(node) && 0 < d < |node| && node[d].kind.Dir? && Has(node[d], name)
    ensures var i := node[d].entries[SlotOf(node[d].entries, name, 0)].inum;
            0 < i < |node| && (node[i].kind.Free? ==> !LinkedDir(node[d]) && name == "..")
  {
    SlotIs(node[d].entries, name, 0);
    var s := SlotOf(node[d].entries, name, 0);
    assert ShapedAt(node, d);
    if LinkedDir(node[d]) { UpLinked(node, d); }
    if s >= 2 { assert LinkedDir(node[d]) ==> Held(node, d, node[d].entries[s].inum); }
  }

  lemma MadeEnd(node: seq<Node>, d: nat, i: nat, name: string, kind: Kind, node': seq<Node>)
    requires Sound(node) && 0 < d < |node| && node[d].kind.Dir? && 0 < i < |node| && !kind.Free?
    requires Made(node, d, i, name, kind, node')
    ensures Sound(node') <==> LinkedDir(node[d])
  {
    var m, s := Room(node, d), EmptySlot(node[d].entries, 0);
    assert ShapedAt(node, d);
    if m == Padded(node, d) { PaddedSound(node, d); }
    hide Sound;
    hide Room;
    var n := NewNode(d, i, kind);
    var hung := HangState(m, d, s, i, n, name);
    if LinkedDir(node[d]) {
      HangSound(m, d, s, i, n, name);
      DroppedSound(hung, d);
    } else {
      HangWrong(m, d, s, i, n, name);
      DroppedWrong(hung, if kind.Dir? then d else i, d);
      WrongUnsound(node', if kind.Dir? then d else i);
    }
  }

  ghost predicate CanRemove(node: seq<Node>, dp: nat, name: string)
    requires dp < |node|
  {
    && name != "." && name != ".." && Has(node[dp], name)
    && var i := node[dp].entries[SlotOf(node[dp].entries, name, 0)].inum;
       i < |node| && (node[i].kind.Dir? ==> Empty(node[i]))
  }

  ghost predicate CanTake(node: seq<Node>, dp: nat, s: nat) {
    && dp < |node| && s < |node[dp].entries| && node[dp].ref > 0
    && var i := node[dp].entries[s].inum; i != dp && i < |node| && node[i].nlink > 0
  }

  /** The slot cleared, one link less, and both references given back. */
  ghost function Removed(node: seq<Node>, dp: nat, s: nat): seq<Node>
    requires CanTake(node, dp, s)
  {
    var i := node[dp].entries[s].inum;
    Dropped(Dropped(UnlinkState(Raised(node, i), dp, s), dp), i)
  }

  lemma {:induction false} SlotIs(es: seq<Entry>, name: string, k: nat)
    requires k <= |es|
    ensures var s := SlotOf(es, name, k); s < |es| ==> es[s].inum != 0 && es[s].name == name
    decreases |es| - k
  {
    if k < |es| && !(es[k].inum != 0 && es[k].name == name) { SlotIs(es, name, k + 1); }
  }

  /** A name other than the dots is found only in a linked directory, in a slot after them. */
  lemma UsedSlot(node: seq<Node>, d: nat, name: string)
    requires Sound(node) && d < |node| && node[d].kind.Dir? && Has(node[d], name) && name != "." && name != ".."
    ensures var s := SlotOf(node[d].entries, name, 0);
            && 2 <= s < |node[d].entries| && LinkedDir(node[d]) && 0 < node[d].entries[s].inum < |node|
  {
    SlotIs(node[d].entries, name, 0);
    var s := SlotOf(node[d].entries, name, 0);
    assert ShapedAt(node, d);
    assert LinkedDir(node[d]) && s >= 2 ==> Held(node, d, node[d].entries[s].inum);
  }

  lemma RemovedSound(node: seq<Node>, d: nat, s: nat)
    requires Sound(node) && CanUnlink(node, d, s) && node[d].ref > 0
    ensures var i := node[d].entries[s].inum;
            && node[i].nlink > 0 && i != d && (node[i].kind.Dir? ==> node[d].nlink > 1) && node[d].nlink > 0
            && CanTake(node, d, s) && Sound(Removed(node, d, s))
  {
    var i := node[d].entries[s].inum;
    UnlinkParts(node, d, s);
    RaisedSound(node, i);
    var up := Raised(node, i);
    assert CanUnlink(up, d, s);
    UnlinkSound(up, d, s);
    hide Sound;
    var gone := UnlinkState(up, d, s);
    DroppedSound(gone, d);
    DroppedSound(Dropped(gone, d), i);
  }

  /** The end state of a successful link: the first empty slot names i. */
  ghost predicate Hung(node: seq<Node>, d: nat, i: nat, name: string, node': seq<Node>) {
    && d < |node| && i < |node| && i != d && node[d].ref > 0 && node[i].ref > 0
    && var m := Room(node, d);
       var n := m[i].(nlink := m[i].nlink + 1);
       node' == Dropped(Dropped(HangState(m, d, EmptySlot(node[d].entries, 0), i, n, name), d), i)
  }

  /** Before link changes anything: its failure paths end in sound states. */
  lemma LinkParts(node: seq<Node>, i: nat, dp: Option<nat>, name: string)
    requires Sound(node) && 0 < i < |node| && node[i].ref > 0 && !node[i].kind.Dir?
    requires dp.Some? ==> 0 < dp.value < |node| && node[dp.value].kind.Dir? && node[dp.value].ref > 0
    ensures Sound(Dropped(node, i)) && !node[i].kind.Free?
    ensures dp.Some? ==> dp.value != i && Sound(Dropped(Dropped(node, dp.value), i))
  {
    DroppedSound(node, i);
    if dp.Some? {
      hide Sound;
      DroppedSound(node, dp.value);
      DroppedSound(Dropped(node, dp.value), i);
    }
  }

  lemma LinkedEnd(node: seq<Node>, i: nat, d: nat, name: string, node': seq<Node>)
    requires Sound(node) && 0 < d < |node| && node[d].kind.Dir? && 0 < i < |node| && !node[i].kind.Dir?
             && !node[i].kind.Free?
    requires Hung(node, d, i, name, node')
    ensures Sound(node') <==> LinkedDir(node[d])
  {
    var m, s := Room(node, d), EmptySlot(node[d].entries, 0);
    assert ShapedAt(node, d);
    if m == Padded(node, d) { PaddedSound(node, d); }
    hide Sound;
    hide Room;
    var n := m[i].(nlink := m[i].nlink + 1);
    var hung := HangState(m, d, s, i, n, name);
    if LinkedDir(node[d]) {
      HangSound(m, d, s, i, n, name);
      DroppedSound(hung, d);
      DroppedSound(Dropped(hung, d), i);
    } else {
      HangWrong(m, d, s, i, n, name);
      DroppedWrong(hung, i, d);
      DroppedWrong(Dropped(hung, d), i, i);
      WrongUnsound(node', i);
    }
  }

  lemma EmptyCounted(node: seq<Node>)
    requires |node| > ROOT && node[ROOT] == Node(Dir, 1, [Entry(ROOT, "."), Entry(ROOT, "..")], 0)
    requires forall i | 0 <= i < |node| && i != ROOT :: node[i] == Node(Free, 0, [], 0)
    ensures Sound(node)
  {
    NoLinks(node, ROOT, |node|);
  }

  lemma {:induction false} NoLinks(node: seq<Node>, i: nat, d: nat)
    requires d <= |node| && forall x | 0 <= x < |node| :: Share(node[x], i) == 0
    ensures Links(node, i, d) == 0
  {
    if d > 0 { NoLinks(node, i, d - 1); }
  }

  const UNUSED := Node(Free, 0, [], 0)

  const SELF := Entry(ROOT, ".")
  const PARENT := Entry(ROOT, "..")

  /** Four inodes: the root with these links, slots and references, this one, and a free one. */
  ghost function Small(nlink: nat, slots: seq<Entry>, ref: nat, two: Node): seq<Node> {
    [UNUSED, Node(Dir, nlink, slots, ref), two, UNUSED]
  }

  ghost function EmptyDir(nlink: nat, ref: nat): Node {
    Node(Dir, nlink, [Entry(2, "."), PARENT], ref)
  }

  lemma MkdirState(i: nat, node: seq<Node>)
    requires Made(Small(1, [SELF, PARENT], 1, UNUSED), ROOT, i, "d", Dir, node)
    ensures node == Small(2, [SELF, PARENT, Entry(2, "d")], 0, EmptyDir(1, 1))
  {
    var before := Small(1, [SELF, PARENT], 1, UNUSED);
    var es := before[ROOT].entries;
    assert before[2].kind.Free? && i == 2;
    assert EmptySlot(es, 2) == 2 && EmptySlot(es, 1) == 2 && EmptySlot(es, 0) == 2;
    assert es + [NONE] == [SELF, PARENT, NONE];
    assert [SELF, PARENT, NONE][2 := Entry(2, "d")] == [SELF, PARENT, Entry(2, "d")];
    var hung := HangState(Padded(before, ROOT), ROOT, 2, 2, NewNode(ROOT, 2, Dir), "d");
    assert hung == Small(2, [SELF, PARENT, Entry(2, "d")], 1, EmptyDir(1, 1));
  }

  lemma FindD(es: seq<Entry>)
    requires es == [SELF, PARENT, Entry(2, "d")]
    ensures SlotOf(es, "d", 0) == 2
  {
    assert SlotOf(es, "d", 2) == 2 && SlotOf(es, "d", 1) == 2;
  }

  lemma RmdirState(node: seq<Node>)
    requires var before := Small(2, [SELF, PARENT, Entry(2, "d")], 1, EmptyDir(1, 1));
             CanTake(before, ROOT, 2) && node == Removed(before, ROOT, 2)
    ensures node == Small(1, [SELF, PARENT, NONE], 0, EmptyDir(0, 1))
  {
    var before := Small(2, [SELF, PARENT, Entry(2, "d")], 1, EmptyDir(1, 1));
    var up := Raised(before, 2);
    assert up == Small(2, [SELF, PARENT, Entry(2, "d")], 1, EmptyDir(1, 2));
    assert up[ROOT].entries[2 := NONE] == [SELF, PARENT, NONE];
    var gone := UnlinkState(up, ROOT, 2);
    assert gone == Small(1, [SELF, PARENT, NONE], 1, EmptyDir(0, 2));
    assert Dropped(gone, ROOT) == Small(1, [SELF, PARENT, NONE], 0, EmptyDir(0, 2));
  }

  lemma NoF(n: Node)
    requires n == EmptyDir(0, 2)
    ensures !Has(n, "f")
  {
    assert SlotOf(n.entries, "f", 2) == 2 && SlotOf(n.entries, "f", 1) == 2;
  }

  /** A process makes a directory, stays in it, removes it and creates a file in it: the file
      has a link that no linked directory accounts for. */
  method OrphanedFile() returns (t: Tree)
    ensures fresh(t) && !Sound(t.node)
  {
    hide Sound;
    hide Made;
    hide Removed;
    hide SlotOf;
    hide Has;
    hide Dropped;
    t := new Tree(4);
    t.Iget(ROOT);
    assert t.node == Small(1, [SELF, PARENT], 1, UNUSED);
    NoD(t.node[ROOT]);
    assert t.node[2].kind.Free?;
    var r := t.Create(ROOT, "d", Dir);
    MkdirState(r.i, t.node);
    t.Iget(ROOT);
    assert t.node == Small(2, [SELF, PARENT, Entry(2, "d")], 1, EmptyDir(1, 1));
    FindD(t.node[ROOT].entries);
    HasD(t.node[ROOT]);
    var ok := t.Unlink(ROOT, "d");
    RmdirState(t.node);
    t.Iget(2);
    assert t.node == Small(1, [SELF, PARENT, NONE], 0, EmptyDir(0, 2));
    NoF(t.node[2]);
    assert t.node[3].kind.Free?;
    r := t.Create(2, "f", File);
  }

  lemma NoD(n: Node)
    requires n.entries == [SELF, PARENT]
    ensures !Has(n, "d")
  {
    assert SlotOf(n.entries, "d", 2) == 2 && SlotOf(n.entries, "d", 1) == 2;
  }

  lemma HasD(n: Node)
    requires |n.entries| == 3 && SlotOf(n.entries, "d", 0) == 2
    ensures Has(n, "d")
  {
  }
}
