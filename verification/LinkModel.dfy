/** Directories, link counts and references of the file system's name space. */
module LinkModel {

  const ROOT := 1

  datatype Kind = Free | File | Device | Dir

  /** A directory slot; inode number 0 marks it empty. */
  datatype Entry = Entry(inum: nat, name: string)

  /** An inode; `ref` counts the references to its in-memory copy.  The first two slots of a
      directory are "." and "..". */
  datatype Node = Node(kind: Kind, nlink: nat, entries: seq<Entry>, ref: nat)

  ghost predicate LinkedDir(n: Node) { n.kind.Dir? && n.nlink > 0 }

  /** Slots from the third on that name inode i, among the first k. */
  ghost function Naming(entries: seq<Entry>, i: nat, k: nat): nat
    requires k <= |entries|
  {
    if k <= 2 then 0 else Naming(entries, i, k - 1) + if entries[k - 1].inum == i then 1 else 0
  }

  /** What directory n adds to the count of links to i. */
  ghost function Share(n: Node, i: nat): nat {
    if LinkedDir(n) then Naming(n.entries, i, |n.entries|) else 0
  }

  /** Entries that name i in linked directories, among the first d inodes. */
  ghost function Links(node: seq<Node>, i: nat, d: nat): nat
    requires d <= |node|
  {
    if d == 0 then 0 else Links(node, i, d - 1) + Share(node[d - 1], i)
  }

  ghost predicate IsDir(node: seq<Node>, i: nat) { 0 < i < |node| && node[i].kind.Dir? }

  /** Subdirectories among the first k slots. */
  ghost function Subdirs(node: seq<Node>, entries: seq<Entry>, k: nat): nat
    requires k <= |entries|
  {
    if k <= 2 then 0 else Subdirs(node, entries, k - 1) + if IsDir(node, entries[k - 1].inum) then 1 else 0
  }

  /** Directories have their two dots, what a linked directory names exists and is linked,
      its subdirectories have it as "..", and an unlinked directory is empty. */
  ghost predicate Shaped(node: seq<Node>) {
    && |node| > ROOT && node[0].kind.Free? && LinkedDir(node[ROOT]) && Up(node[ROOT]) == ROOT
    && forall d | 0 <= d < |node| :: ShapedAt(node, d)
  }

  ghost predicate ShapedAt(node: seq<Node>, d: nat)
    requires d < |node|
  {
    var n := node[d];
    n.kind.Dir? ==>
      && Dotted(n) && Up(n) < |node| && n.entries[0].inum == d
      && forall k | 2 <= k < |n.entries| ::
         if n.nlink > 0 then Held(node, d, n.entries[k].inum) else n.entries[k].inum == 0
  }

  /** Directory d may name i. */
  ghost predicate Held(node: seq<Node>, d: nat, i: nat) {
    Names(node, i) && (IsDir(node, i) ==> Up(node[i]) == d)
  }

  /** Where ".." leads. */
  ghost function Up(n: Node): nat { if |n.entries| > 1 then n.entries[1].inum else 0 }

  ghost predicate Dotted(n: Node) {
    && |n.entries| >= 2 && n.entries[0].name == "." && n.entries[1].name == ".."
    && n.entries[0].inum != 0 && n.entries[1].inum != 0
  }

  ghost predicate Names(node: seq<Node>, i: nat) {
    i < |node| && (i != 0 ==> !node[i].kind.Free? && node[i].nlink > 0)
  }

  /** A file has as many links as entries name it in linked directories.  A linked directory
      has one link and one more for each of its subdirectories, and one entry names it; no
      entry names the root. */
  ghost predicate Counted(node: seq<Node>) {
    && (forall i | 0 < i < |node| && (node[i].kind.File? || node[i].kind.Device?) ::
        node[i].nlink == Links(node, i, |node|))
    && (forall d | 0 < d < |node| && LinkedDir(node[d]) ::
        node[d].nlink == 1 + Subdirs(node, node[d].entries, |node[d].entries|))
    && (forall d | 0 < d < |node| && LinkedDir(node[d]) :: Links(node, d, |node|) == if d == ROOT then 0 else 1)
  }

  /** An inode is allocated exactly while it has a link or somebody uses it. */
  ghost predicate Kept(node: seq<Node>) {
    forall i | 0 <= i < |node| :: node[i].kind.Free? <==> node[i].nlink == 0 && node[i].ref == 0
  }

  ghost predicate Sound(node: seq<Node>) { Shaped(node) && Counted(node) && Kept(node) }

  // ------------------------------------------------------------------- counting

  lemma {:induction false} NamingSame(a: seq<Entry>, b: seq<Entry>, i: nat, k: nat)
    requires k <= |a| && k <= |b| && forall j | 2 <= j < k :: a[j].inum == i <==> b[j].inum == i
    ensures Naming(a, i, k) == Naming(b, i, k)
  {
    if k > 2 { NamingSame(a, b, i, k - 1); }
  }

  /** Changing slot s changes the count for the two inodes concerned. */
  lemma {:induction false} NamingSet(a: seq<Entry>, s: nat, e: Entry, i: nat, k: nat)
    requires 2 <= s < k <= |a|
    ensures Naming(a[s := e], i, k) + (if a[s].inum == i then 1 else 0) ==
            Naming(a, i, k) + if e.inum == i then 1 else 0
  {
    if s == k - 1 {
      NamingSame(a[s := e], a, i, s);
    } else {
      NamingSet(a, s, e, i, k - 1);
    }
  }

  lemma {:induction false} LinksSame(a: seq<Node>, b: seq<Node>, i: nat, d: nat)
    requires d <= |a| && d <= |b| && forall x | 0 <= x < d :: Share(a[x], i) == Share(b[x], i)
    ensures Links(a, i, d) == Links(b, i, d)
  {
    if d > 0 { LinksSame(a, b, i, d - 1); }
  }

  lemma {:induction false} LinksSet(node: seq<Node>, x: nat, n: Node, i: nat, d: nat)
    requires x < d <= |node|
    ensures Links(node[x := n], i, d) + Share(node[x], i) == Links(node, i, d) + Share(n, i)
  {
    if x == d - 1 {
      LinksSame(node[x := n], node, i, x);
    } else {
      LinksSet(node, x, n, i, d - 1);
    }
  }

  lemma {:induction false} SubdirsSame(a: seq<Node>, b: seq<Node>, s: seq<Entry>, t: seq<Entry>, k: nat)
    requires k <= |s| && k <= |t| && forall j | 2 <= j < k :: IsDir(a, s[j].inum) <==> IsDir(b, t[j].inum)
    ensures Subdirs(a, s, k) == Subdirs(b, t, k)
  {
    if k > 2 { SubdirsSame(a, b, s, t, k - 1); }
  }

  lemma {:induction false} SubdirsSet(node: seq<Node>, a: seq<Entry>, s: nat, e: Entry, k: nat)
    requires 2 <= s < k <= |a|
    ensures Subdirs(node, a[s := e], k) + (if IsDir(node, a[s].inum) then 1 else 0)
            == Subdirs(node, a, k) + if IsDir(node, e.inum) then 1 else 0
  {
    if s == k - 1 {
      SubdirsSame(node, node, a[s := e], a, s);
    } else {
      SubdirsSet(node, a, s, e, k - 1);
    }
  }

  lemma {:induction false} LinksPositive(node: seq<Node>, d: nat, k: nat, i: nat, n: nat)
    requires d < n <= |node| && LinkedDir(node[d]) && 2 <= k < |node[d].entries| && node[d].entries[k].inum == i
    ensures Links(node, i, n) > 0
  {
    if d == n - 1 {
      NamingPositive(node[d].entries, k, i, |node[d].entries|);
    } else {
      LinksPositive(node, d, k, i, n - 1);
    }
  }

  lemma {:induction false} NamingPositive(a: seq<Entry>, s: nat, i: nat, k: nat)
    requires 2 <= s < k <= |a| && a[s].inum == i
    ensures Naming(a, i, k) > 0
  {
    if s < k - 1 { NamingPositive(a, s, i, k - 1); }
  }

  lemma {:induction false} NamingZero(a: seq<Entry>, i: nat, k: nat)
    requires k <= |a| && forall j | 2 <= j < k :: a[j].inum != i
    ensures Naming(a, i, k) == 0
  {
    if k > 2 { NamingZero(a, i, k - 1); }
  }

  lemma {:induction false} SubdirsZero(node: seq<Node>, a: seq<Entry>, k: nat)
    requires k <= |a| && forall j | 2 <= j < k :: a[j].inum == 0
    ensures Subdirs(node, a, k) == 0
  {
    if k > 2 { SubdirsZero(node, a, k - 1); }
  }

  lemma {:induction false} SubdirsPositive(node: seq<Node>, a: seq<Entry>, s: nat, k: nat)
    requires 2 <= s < k <= |a| && IsDir(node, a[s].inum)
    ensures Subdirs(node, a, k) > 0
  {
    if s < k - 1 { SubdirsPositive(node, a, s, k - 1); }
  }

  lemma {:induction false} NamingWitness(a: seq<Entry>, i: nat, k: nat) returns (s: nat)
    requires k <= |a| && Naming(a, i, k) > 0
    ensures 2 <= s < k && a[s].inum == i
  {
    if a[k - 1].inum == i { s := k - 1; } else { s := NamingWitness(a, i, k - 1); }
  }

  lemma {:induction false} LinksWitness(node: seq<Node>, i: nat, n: nat) returns (d: nat, k: nat)
    requires n <= |node| && Links(node, i, n) > 0
    ensures d < n && LinkedDir(node[d]) && 2 <= k < |node[d].entries| && node[d].entries[k].inum == i
  {
    if Share(node[n - 1], i) > 0 {
      d := n - 1;
      k := NamingWitness(node[d].entries, i, |node[d].entries|);
    } else {
      d, k := LinksWitness(node, i, n - 1);
    }
  }

  /** ".." of a linked directory is the linked directory that holds it. */
  lemma UpLinked(node: seq<Node>, d: nat)
    requires Shaped(node) && Counted(node) && 0 < d < |node| && LinkedDir(node[d])
    ensures Up(node[d]) < |node| && LinkedDir(node[Up(node[d])])
    ensures d != ROOT ==> var es := node[Up(node[d])].entries; exists k :: 2 <= k < |es| && es[k].inum == d
  {
    assert ShapedAt(node, d);
    if d != ROOT {
      var x, k := LinksWitness(node, d, |node|);
      assert ShapedAt(node, x) && Held(node, x, node[x].entries[k].inum);
    }
  }
}
