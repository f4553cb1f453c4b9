/** What one system call does to link counts. */
module LinkProofs {
  import opened LinkModel

  /** iput() on a referenced inode. */
  ghost function Dropped(node: seq<Node>, i: nat): seq<Node>
    requires i < |node| && node[i].ref > 0
  {
    if node[i].nlink == 0 && node[i].ref == 1 then node[i := Node(Free, 0, [], 0)]
    else node[i := node[i].(ref := node[i].ref - 1)]
  }

  ghost function Raised(node: seq<Node>, i: nat): seq<Node>
    requires i < |node|
  {
    node[i := node[i].(ref := node[i].ref + 1)]
  }

  /** Counts look at kinds, links and slots only. */
  ghost predicate SameTree(a: seq<Node>, b: seq<Node>) {
    |a| == |b| && forall x | 0 <= x < |a| ::
      a[x].kind == b[x].kind && a[x].nlink == b[x].nlink && a[x].entries == b[x].entries
  }

  lemma SameTreeCounted(a: seq<Node>, b: seq<Node>)
    requires SameTree(a, b) && Shaped(a) && Counted(a)
    ensures Shaped(b) && Counted(b)
  {
    forall i: nat ensures Links(a, i, |a|) == Links(b, i, |b|) {
      LinksSame(a, b, i, |a|);
    }
    forall d | 0 <= d < |a| ensures ShapedAt(b, d) {
      assert ShapedAt(a, d);
      forall k | 2 <= k < |a[d].entries| && LinkedDir(a[d]) ensures Held(b, d, a[d].entries[k].inum) {
        assert Held(a, d, a[d].entries[k].inum);
      }
    }
    forall d | 0 < d < |a| && LinkedDir(a[d])
      ensures Subdirs(a, a[d].entries, |a[d].entries|) == Subdirs(b, b[d].entries, |b[d].entries|)
    {
      SubdirsSame(a, b, a[d].entries, b[d].entries, |a[d].entries|);
    }
  }

  lemma RaisedSound(node: seq<Node>, i: nat)
    requires Sound(node) && i < |node| && !node[i].kind.Free?
    ensures Sound(Raised(node, i))
  {
    SameTreeCounted(node, Raised(node, i));
  }

  /** Links to x after inode d has changed into n. */
  lemma LinksAfter(node: seq<Node>, d: nat, n: Node, x: nat)
    requires d < |node|
    ensures Links(node[d := n], x, |node|) == Links(node, x, |node|) - Share(node[d], x) + Share(n, x)
  {
    LinksSet(node, d, n, x, |node|);
  }

  /** Dropping the last reference to an unlinked inode frees it, and no count changes. */
  lemma DroppedSound(node: seq<Node>, i: nat)
    requires Sound(node) && 0 < i < |node| && node[i].ref > 0
    ensures Sound(Dropped(node, i))
  {
    if node[i].nlink == 0 && node[i].ref == 1 {
      FreedSound(node, i);
    } else {
      SameTreeCounted(node, Dropped(node, i));
    }
  }

  lemma NotNamed(node: seq<Node>, i: nat, d: nat, k: nat)
    requires Shaped(node) && 0 < i < |node| && node[i].nlink == 0
    requires d < |node| && LinkedDir(node[d]) && 2 <= k < |node[d].entries|
    ensures node[d].entries[k].inum != i
  {
    assert ShapedAt(node, d) && Held(node, d, node[d].entries[k].inum);
  }

  lemma FreedSound(node: seq<Node>, i: nat)
    requires Sound(node) && 0 < i < |node| && node[i].nlink == 0
    ensures Sound(node[i := Node(Free, 0, [], 0)])
  {
    var n := Node(Free, 0, [], 0);
    var node' := node[i := n];
    forall x: nat ensures Links(node', x, |node|) == Links(node, x, |node|) {
      LinksAfter(node, i, n, x);
    }
    forall d | 0 < d < |node| && LinkedDir(node'[d])
      ensures Subdirs(node', node'[d].entries, |node'[d].entries|) == Subdirs(node, node[d].entries, |node[d].entries|)
    {
      var es := node[d].entries;
      forall k | 2 <= k < |es| ensures IsDir(node', es[k].inum) <==> IsDir(node, es[k].inum) {
        NotNamed(node, i, d, k);
      }
      SubdirsSame(node', node, es, es, |es|);
    }
    forall d | 0 <= d < |node| ensures ShapedAt(node', d) {
      FreedShapedAt(node, i, d);
    }
  }

  lemma FreedShapedAt(node: seq<Node>, i: nat, d: nat)
    requires Shaped(node) && 0 < i < |node| && node[i].nlink == 0 && d < |node|
    ensures ShapedAt(node[i := Node(Free, 0, [], 0)], d)
  {
    var node' := node[i := Node(Free, 0, [], 0)];
    assert ShapedAt(node, d);
    forall k | 2 <= k < |node[d].entries| && LinkedDir(node[d]) ensures Held(node', d, node[d].entries[k].inum) {
      NotNamed(node, i, d, k);
      assert Held(node, d, node[d].entries[k].inum);
    }
  }

  // -------------------------------------------------------------------- unlink

  const NONE := Entry(0, "")

  ghost function Slot(n: Node, s: nat, e: Entry): Node
    requires s < |n.entries|
  {
    n.(entries := n.entries[s := e])
  }

  /** The directory without slot s, and its links if the slot named a directory. */
  ghost function ClearedDir(node: seq<Node>, d: nat, s: nat): Node
    requires d < |node| && s < |node[d].entries|
  {
    var n := Slot(node[d], s, NONE);
    if IsDir(node, node[d].entries[s].inum) && n.nlink > 0 then n.(nlink := n.nlink - 1) else n
  }

  ghost function UnlinkState(node: seq<Node>, d: nat, s: nat): seq<Node>
    requires d < |node| && s < |node[d].entries|
    requires var i := node[d].entries[s].inum; i < |node| && node[i].nlink > 0
  {
    var i := node[d].entries[s].inum;
    node[d := ClearedDir(node, d, s)][i := node[i].(nlink := node[i].nlink - 1)]
  }

  /** What sys_unlink has checked when it clears the slot. */
  ghost predicate CanUnlink(node: seq<Node>, d: nat, s: nat) {
    && d < |node| && LinkedDir(node[d]) && 2 <= s < |node[d].entries|
    && var i := node[d].entries[s].inum;
       && 0 < i < |node|
       && (node[i].kind.Dir? ==> forall k | 2 <= k < |node[i].entries| :: node[i].entries[k].inum == 0)
  }

  lemma UnlinkParts(node: seq<Node>, d: nat, s: nat)
    requires Sound(node) && CanUnlink(node, d, s)
    ensures var i := node[d].entries[s].inum;
            && node[i].nlink > 0 && !node[i].kind.Free? && i != d && i != ROOT
            && (node[i].kind.Dir? ==> node[i].nlink == 1 && node[d].nlink > 1)
  {
    var i := node[d].entries[s].inum;
    assert ShapedAt(node, d) && Held(node, d, i);
    LinksPositive(node, d, s, i, |node|);
    if node[i].kind.Dir? {
      SubdirsZero(node, node[i].entries, |node[i].entries|);
      SubdirsPositive(node, node[d].entries, s, |node[d].entries|);
    }
  }

  /** Unlinking takes one link from i and none from any other inode. */
  lemma UnlinkLinks(node: seq<Node>, d: nat, s: nat, x: nat)
    requires Sound(node) && CanUnlink(node, d, s) && 0 < x
    ensures var i := node[d].entries[s].inum;
            && node[i].nlink > 0
            && Links(UnlinkState(node, d, s), x, |node|) == Links(node, x, |node|) - if x == i then 1 else 0
  {
    UnlinkParts(node, d, s);
    var i, n := node[d].entries[s].inum, ClearedDir(node, d, s);
    var node1 := node[d := n];
    LinksAfter(node, d, n, x);
    NamingSet(node[d].entries, s, NONE, x, |node[d].entries|);
    var m := node[i].(nlink := node[i].nlink - 1);
    LinksAfter(node1, i, m, x);
    if node[i].kind.Dir? { NamingZero(node[i].entries, x, |node[i].entries|); }
  }

  lemma UnlinkSubdirs(node: seq<Node>, d: nat, s: nat, x: nat)
    requires Sound(node) && CanUnlink(node, d, s) && 0 < x < |node|
    ensures node[node[d].entries[s].inum].nlink > 0
    ensures var node' := UnlinkState(node, d, s);
            LinkedDir(node'[x]) ==> LinkedDir(node[x])
                                    && node'[x].nlink == 1 + Subdirs(node', node'[x].entries, |node'[x].entries|)
  {
    UnlinkParts(node, d, s);
    var node' := UnlinkState(node, d, s);
    if LinkedDir(node'[x]) {
      var es := node'[x].entries;
      assert forall y: nat :: IsDir(node', y) <==> IsDir(node, y);
      SubdirsSame(node', node, es, es, |es|);
      if x == d { SubdirsSet(node, node[d].entries, s, NONE, |node[d].entries|); }
    }
  }

  lemma UnlinkShaped(node: seq<Node>, d: nat, s: nat)
    requires Sound(node) && CanUnlink(node, d, s)
    ensures node[node[d].entries[s].inum].nlink > 0 && Shaped(UnlinkState(node, d, s))
  {
    UnlinkParts(node, d, s);
    var node' := UnlinkState(node, d, s);
    forall x | 0 <= x < |node'| ensures ShapedAt(node', x) {
      UnlinkShapedAt(node, d, s, x);
    }
  }

  lemma UnlinkShapedAt(node: seq<Node>, d: nat, s: nat, x: nat)
    requires Sound(node) && CanUnlink(node, d, s) && x < |node|
    ensures node[node[d].entries[s].inum].nlink > 0 && ShapedAt(UnlinkState(node, d, s), x)
  {
    UnlinkParts(node, d, s);
    var i, node' := node[d].entries[s].inum, UnlinkState(node, d, s);
    assert ShapedAt(node, x);
    hide Counted;
    hide Kept;
    forall k | 2 <= k < |node'[x].entries| && LinkedDir(node'[x]) ensures Held(node', x, node'[x].entries[k].inum) {
      var j := node'[x].entries[k].inum;
      if !(x == d && k == s) {
        assert Held(node, x, j);
        if j == i { StillNamed(node, d, s, x, k); }
      }
    }
  }

  /** An entry that still names i after the unlink leaves it a link. */
  lemma StillNamed(node: seq<Node>, d: nat, s: nat, x: nat, k: nat)
    requires Sound(node) && CanUnlink(node, d, s)
    requires node[node[d].entries[s].inum].nlink > 0
    requires var node' := UnlinkState(node, d, s);
             x < |node'| && LinkedDir(node'[x]) && 2 <= k < |node'[x].entries|
               && node'[x].entries[k].inum == node[d].entries[s].inum
    ensures var i := node[d].entries[s].inum; !node[i].kind.Dir? && node[i].nlink > 1
  {
    var i, node' := node[d].entries[s].inum, UnlinkState(node, d, s);
    UnlinkParts(node, d, s);
    LinksPositive(node', x, k, i, |node'|);
    UnlinkLinks(node, d, s, i);
  }

  /** sys_unlink's changes keep every count right, while the caller holds a reference to i. */
  lemma UnlinkSound(node: seq<Node>, d: nat, s: nat)
    requires Sound(node) && CanUnlink(node, d, s) && node[node[d].entries[s].inum].ref > 0
    ensures node[node[d].entries[s].inum].nlink > 0 && Sound(UnlinkState(node, d, s))
  {
    hide Shaped;
    hide Links;
    hide Subdirs;
    UnlinkParts(node, d, s);
    UnlinkShaped(node, d, s);
    var node' := UnlinkState(node, d, s);
    forall x: nat | 0 < x < |node|
      ensures Links(node', x, |node|) == Links(node, x, |node|) - if x == node[d].entries[s].inum then 1 else 0
    {
      UnlinkLinks(node, d, s, x);
    }
    forall x: nat | 0 < x < |node| && LinkedDir(node'[x])
      ensures LinkedDir(node[x]) && node'[x].nlink == 1 + Subdirs(node', node'[x].entries, |node'[x].entries|)
    {
      UnlinkSubdirs(node, d, s, x);
    }
  }

  // ------------------------------------------------------------ link and create

  /** dirlink() past the last slot first makes an empty one. */
  ghost function Padded(node: seq<Node>, d: nat): seq<Node>
    requires d < |node|
  {
    node[d := node[d].(entries := node[d].entries + [NONE])]
  }

  lemma PaddedSound(node: seq<Node>, d: nat)
    requires Sound(node) && 0 < d < |node| && node[d].kind.Dir?
    ensures Sound(Padded(node, d))
  {
    hide Shaped;
    hide Links;
    hide Subdirs;
    PaddedShaped(node, d);
    var node', es := Padded(node, d), node[d].entries;
    forall x: nat | 0 < x ensures Links(node', x, |node|) == Links(node, x, |node|) {
      PaddedLinks(node, d, x);
    }
    forall x | 0 < x < |node| && LinkedDir(node[x])
      ensures Subdirs(node', node'[x].entries, |node'[x].entries|) == Subdirs(node, node[x].entries, |node[x].entries|)
    {
      PaddedSubdirs(node, d, x);
    }
  }

  lemma PaddedLinks(node: seq<Node>, d: nat, x: nat)
    requires d < |node| && node[d].kind.Dir? && |node[d].entries| >= 2 && 0 < x
    ensures Links(Padded(node, d), x, |node|) == Links(node, x, |node|)
  {
    var es := node[d].entries;
    NamingSame(es, es + [NONE], x, |es|);
    LinksAfter(node, d, Padded(node, d)[d], x);
  }

  lemma PaddedSubdirs(node: seq<Node>, d: nat, x: nat)
    requires 0 < d < |node| && x < |node| && node[d].kind.Dir? && |node[d].entries| >= 2
    ensures var node' := Padded(node, d);
            Subdirs(node', node'[x].entries, |node'[x].entries|) == Subdirs(node, node[x].entries, |node[x].entries|)
  {
    var node' := Padded(node, d);
    SubdirsSame(node', node, node'[x].entries, node[x].entries, |node[x].entries|);
  }

  lemma PaddedShaped(node: seq<Node>, d: nat)
    requires Shaped(node) && 0 < d < |node| && node[d].kind.Dir?
    ensures Shaped(Padded(node, d)) && |node[d].entries| >= 2
  {
    var node' := Padded(node, d);
    assert ShapedAt(node, d);
    forall x | 0 <= x < |node'| ensures ShapedAt(node', x) {
      assert ShapedAt(node, x);
      forall k | 2 <= k < |node'[x].entries| && LinkedDir(node'[x]) ensures Held(node', x, node'[x].entries[k].inum) {
        if k < |node[x].entries| { assert Held(node, x, node[x].entries[k].inum); }
      }
    }
  }

  /** What inode i becomes: one more link, or a fresh inode with one link. */
  ghost predicate Becomes(node: seq<Node>, d: nat, i: nat, n: Node)
    requires i < |node|
  {
    || ((node[i].kind.File? || node[i].kind.Device?) && n == node[i].(nlink := node[i].nlink + 1))
    || (node[i].kind.Free? && !n.kind.Free? && n.nlink == 1 && n.ref > 0
        && (n.kind.Dir? ==> n.entries == [Entry(i, "."), Entry(d, "..")]))
  }

  /** Slot s of directory d comes to name i. */
  ghost function HangState(node: seq<Node>, d: nat, s: nat, i: nat, n: Node, name: string): seq<Node>
    requires d < |node| && s < |node[d].entries| && i < |node|
  {
    var up := if n.kind.Dir? then 1 else 0;
    node[d := Slot(node[d], s, Entry(i, name)).(nlink := node[d].nlink + up)][i := n]
  }

  ghost predicate CanHang(node: seq<Node>, d: nat, s: nat, i: nat, n: Node) {
    && d < |node| && node[d].kind.Dir? && 2 <= s < |node[d].entries| && node[d].entries[s].inum == 0
    && 0 < i < |node| && i != d && d != 0 && Becomes(node, d, i, n)
  }

  lemma {:induction false} LinksZero(node: seq<Node>, i: nat, d: nat)
    requires Shaped(node) && 0 < i < |node| && node[i].nlink == 0 && d <= |node|
    ensures Links(node, i, d) == 0
  {
    if d > 0 {
      LinksZero(node, i, d - 1);
      var n := node[d - 1];
      if LinkedDir(n) {
        forall k | 2 <= k < |n.entries| ensures n.entries[k].inum != i {
          NotNamed(node, i, d - 1, k);
        }
        NamingZero(n.entries, i, |n.entries|);
      }
    }
  }

  lemma HangLinks(node: seq<Node>, d: nat, s: nat, i: nat, n: Node, name: string, x: nat)
    requires Sound(node) && CanHang(node, d, s, i, n) && 0 < x
    requires LinkedDir(node[d]) || !n.kind.Dir?
    ensures Links(HangState(node, d, s, i, n, name), x, |node|)
            == Links(node, x, |node|) + if x == i && LinkedDir(node[d]) then 1 else 0
  {
    hide Links;
    hide Sound;
    var up := if n.kind.Dir? then 1 else 0;
    var m := Slot(node[d], s, Entry(i, name)).(nlink := node[d].nlink + up);
    LinksAfter(node, d, m, x);
    LinksAfter(node[d := m], i, n, x);
    HangShare(node[d], s, i, name, up, x);
    assert Share(node[i], x) == 0 && Share(n, x) == 0;
    hide Share;
  }

  lemma HangShare(n: Node, s: nat, i: nat, name: string, up: nat, x: nat)
    requires 2 <= s < |n.entries| && n.entries[s].inum == 0 && 0 < x && n.kind.Dir? && (LinkedDir(n) || up == 0)
    ensures Share(Slot(n, s, Entry(i, name)).(nlink := n.nlink + up), x) ==
            Share(n, x) + if x == i && LinkedDir(n) then 1 else 0
  {
    NamingSet(n.entries, s, Entry(i, name), x, |n.entries|);
  }

  lemma HangSubdirs(node: seq<Node>, d: nat, s: nat, i: nat, n: Node, name: string, x: nat)
    requires Sound(node) && CanHang(node, d, s, i, n) && 0 < x < |node| && LinkedDir(node[d])
    ensures var node' := HangState(node, d, s, i, n, name);
            LinkedDir(node'[x]) ==> node'[x].nlink == 1 + Subdirs(node', node'[x].entries, |node'[x].entries|)
  {
    var node' := HangState(node, d, s, i, n, name);
    if LinkedDir(node'[x]) && x != i {
      var es := node[x].entries;
      forall k | 2 <= k < |es| ensures IsDir(node', es[k].inum) <==> IsDir(node, es[k].inum) {
        if node[i].kind.Free? { NotNamed(node, i, x, k); }
      }
      SubdirsSame(node', node, es, es, |es|);
      if x == d { SubdirsSet(node', es, s, Entry(i, name), |es|); }
    }
  }

  lemma HangShaped(node: seq<Node>, d: nat, s: nat, i: nat, n: Node, name: string)
    requires Sound(node) && CanHang(node, d, s, i, n) && LinkedDir(node[d])
    ensures Shaped(HangState(node, d, s, i, n, name))
  {
    var node' := HangState(node, d, s, i, n, name);
    RootNot(node, d, i, n);
    assert ShapedAt(node, d);
    forall x | 0 <= x < |node'| ensures ShapedAt(node', x) {
      HangShapedAt(node, d, s, i, n, name, x);
    }
  }

  lemma HangShapedAt(node: seq<Node>, d: nat, s: nat, i: nat, n: Node, name: string, x: nat)
    requires Sound(node) && CanHang(node, d, s, i, n) && LinkedDir(node[d]) && x < |node|
    ensures ShapedAt(HangState(node, d, s, i, n, name), x)
  {
    var node' := HangState(node, d, s, i, n, name);
    assert ShapedAt(node, x);
    hide Counted;
    if x != i {
      forall k | 2 <= k < |node'[x].entries| && LinkedDir(node'[x]) ensures Held(node', x, node'[x].entries[k].inum) {
        if !(x == d && k == s) {
          assert Held(node, x, node[x].entries[k].inum);
        }
      }
    }
  }

  lemma HangSound(node: seq<Node>, d: nat, s: nat, i: nat, n: Node, name: string)
    requires Sound(node) && CanHang(node, d, s, i, n) && LinkedDir(node[d])
    ensures Sound(HangState(node, d, s, i, n, name))
  {
    hide Shaped;
    hide Links;
    hide Subdirs;
    HangShaped(node, d, s, i, n, name);
    var node' := HangState(node, d, s, i, n, name);
    forall x: nat | 0 < x < |node| ensures Links(node', x, |node|) == Links(node, x, |node|) + if x == i then 1 else 0 {
      HangLinks(node, d, s, i, n, name, x);
    }
    if node[i].kind.Free? { LinksZero(node, i, |node|); }
    forall x: nat | 0 < x < |node| && LinkedDir(node'[x])
      ensures node'[x].nlink == 1 + Subdirs(node', node'[x].entries, |node'[x].entries|)
    {
      HangSubdirs(node, d, s, i, n, name, x);
    }
    RootNot(node, d, i, n);
  }

  lemma RootNot(node: seq<Node>, d: nat, i: nat, n: Node)
    requires Sound(node) && i < |node| && Becomes(node, d, i, n)
    ensures i != ROOT
  {
  }

  /** In an unlinked directory, which a process may still have as its current one, the new
      entry leaves the counts wrong. */
  lemma HangBroken(node: seq<Node>, d: nat, s: nat, i: nat, n: Node, name: string)
    requires Sound(node) && CanHang(node, d, s, i, n) && !LinkedDir(node[d])
    ensures !Counted(HangState(node, d, s, i, n, name))
  {
    var node' := HangState(node, d, s, i, n, name);
    if n.kind.Dir? {
      SubdirsPositive(node', node'[d].entries, s, |node'[d].entries|);
    } else {
      HangLinks(node, d, s, i, n, name, i);
      if node[i].kind.Free? { LinksZero(node, i, |node|); }
    }
  }

  /** Inode i has the wrong number of links. */
  ghost predicate Wrong(node: seq<Node>, i: nat) {
    && 0 < i < |node| && node[i].nlink > 0
    && (if node[i].kind.Dir? then node[i].nlink != 1 + Subdirs(node, node[i].entries, |node[i].entries|)
        else !node[i].kind.Free? && node[i].nlink != Links(node, i, |node|))
  }

  lemma HangWrong(node: seq<Node>, d: nat, s: nat, i: nat, n: Node, name: string)
    requires Sound(node) && CanHang(node, d, s, i, n) && !LinkedDir(node[d])
    ensures Wrong(HangState(node, d, s, i, n, name), if n.kind.Dir? then d else i)
  {
    HangBroken(node, d, s, i, n, name);
    var node' := HangState(node, d, s, i, n, name);
    if n.kind.Dir? {
      SubdirsPositive(node', node'[d].entries, s, |node'[d].entries|);
    } else {
      HangLinks(node, d, s, i, n, name, i);
      if node[i].kind.Free? { LinksZero(node, i, |node|); }
    }
  }

  /** Releasing references does not put a wrong count right. */
  lemma DroppedWrong(node: seq<Node>, i: nat, x: nat)
    requires Wrong(node, i) && x < |node| && node[x].ref > 0 && (node[i].kind.Dir? ==> node[x].nlink > 0)
    ensures Wrong(Dropped(node, x), i)
  {
    var node' := Dropped(node, x);
    LinksSame(node, node', i, |node|);
    if node[i].kind.Dir? { SubdirsSame(node, node', node[i].entries, node'[i].entries, |node[i].entries|); }
  }

  lemma WrongUnsound(node: seq<Node>, i: nat)
    requires Wrong(node, i)
    ensures !Sound(node)
  {
  }
}
