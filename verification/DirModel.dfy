/** Directories as file contents: sixteen-byte records with an inode number and a name. */
module DirModel {
  import opened Blocks
  import opened FsLayout
  import opened FsModel
  import opened FsCode
  import opened LinkModel
  import LinkProofs
  import LinkCode

  const DIRSIZ := 14
  const DIRENT := 16   // sizeof(struct dirent)

  /** The C string at the start of s, at most n characters of it.  What lies past the end of s
      reads as NUL. */
  function CStr(s: seq<byte>, n: nat): (r: seq<byte>)
    ensures |r| <= n && |r| <= |s| && 0 !in r
  {
    if n == 0 || s == [] || s[0] == 0 then [] else [s[0]] + CStr(s[1..], n - 1)
  }

  function At(s: seq<byte>, i: nat): byte {
    if i < |s| then s[i] else 0
  }

  lemma CStrAt(s: seq<byte>, n: nat, i: nat)
    requires i < n && i <= |s|
    ensures var c := CStr(s[i..], n - i);
            if At(s, i) == 0 then c == []
            else i < |s| && c != [] && c[0] == s[i] && c[1..] == CStr(s[i + 1..], n - i - 1)
  {
    if i < |s| { assert s[i..][1..] == s[i + 1..]; }
  }

  /** One turn of strncmp's loop. */
  lemma CStrStep(p: seq<byte>, q: seq<byte>, n: nat, i: nat)
    requires i < n && i <= |p| && i <= |q|
    ensures var a, b := CStr(p[i..], n - i), CStr(q[i..], n - i);
            && (At(p, i) != At(q, i) ==> a != b)
            && (At(p, i) == At(q, i) == 0 ==> a == b)
            && (At(p, i) == At(q, i) != 0 ==>
                  && i < |p| && i < |q|
                  && (a == b <==> CStr(p[i + 1..], n - i - 1) == CStr(q[i + 1..], n - i - 1)))
  {
    CStrAt(p, n, i);
    CStrAt(q, n, i);
    hide CStr;
    var a, b := CStr(p[i..], n - i), CStr(q[i..], n - i);
    if At(p, i) == At(q, i) != 0 {
      assert a == [p[i]] + a[1..] && b == [q[i]] + b[1..];
    }
  }

  function Zeros(n: nat): seq<byte> { seq(n, _ => 0) }

  /** What strncpy leaves in n bytes. */
  function Padded(t: seq<byte>, n: nat): seq<byte> { CStr(t, n) + Zeros(n - |CStr(t, n)|) }

  /** strncpy's result, read back. */
  lemma {:induction false} CStrPadded(t: seq<byte>, n: nat)
    ensures CStr(Padded(t, n), n) == CStr(t, n)
  {
    var c := CStr(t, n);
    if c != [] {
      CStrPadded(t[1..], n - 1);
      var s := c + Zeros(n - |c|);
      assert s[1..] == CStr(t[1..], n - 1) + Zeros(n - |c|);
    }
  }

  ghost function Text(s: seq<byte>): (r: string)
    ensures |r| == |s|
  {
    seq(|s|, i requires 0 <= i < |s| => s[i] as char)
  }

  lemma TextInjective(s: seq<byte>, t: seq<byte>)
    ensures Text(s) == Text(t) <==> s == t
  {
    if Text(s) == Text(t) {
      forall i | 0 <= i < |s| ensures s[i] == t[i] {
        assert Text(s)[i] == Text(t)[i];
      }
    }
  }

  /** A name as a directory stores it. */
  ghost function Stored(name: seq<byte>): string { Text(CStr(name, DIRSIZ)) }

  const DOT: byte := 46

  lemma DotNames()
    ensures Stored([DOT]) == "." && Stored([DOT, DOT]) == ".."
  {
    assert CStr([DOT], DIRSIZ) == [DOT];
    assert CStr([DOT, DOT][1..], DIRSIZ - 1) == [DOT];
    assert CStr([DOT, DOT], DIRSIZ) == [DOT, DOT];
  }

  /** Two names compare equal exactly if they are stored alike. */
  lemma StoredSame(a: seq<byte>, b: seq<byte>)
    ensures Stored(a) == Stored(b) <==> CStr(a, DIRSIZ) == CStr(b, DIRSIZ)
  {
    TextInjective(CStr(a, DIRSIZ), CStr(b, DIRSIZ));
  }

  // ---------------------------------------------------------------- records

  ghost function Record(de: seq<byte>): Entry
    requires |de| == DIRENT
  {
    var lo: int, hi: int := de[0], de[1];
    Entry(lo + 0x100 * hi, Stored(de[2..]))
  }

  /** The record that dirlink writes. */
  function Dirent(inum: nat, field: seq<byte>): seq<byte> {
    [inum % 0x100, inum / 0x100 % 0x100] + field
  }

  function Field(name: seq<byte>): seq<byte> { Padded(name, DIRSIZ) }

  lemma RecordDirent(inum: nat, name: seq<byte>)
    ensures |Dirent(inum, Field(name))| == DIRENT
    ensures Record(Dirent(inum, Field(name))) == Entry(inum % 0x1_0000, Stored(name))
  {
    CStrPadded(name, DIRSIZ);
    assert Dirent(inum, Field(name))[2..] == Field(name);
  }

  ghost function Entries(c: seq<byte>): (es: seq<Entry>)
    ensures |es| == |c| / DIRENT
  {
    seq(|c| / DIRENT, k requires 0 <= k < |c| / DIRENT => Record(c[DIRENT * k..DIRENT * k + DIRENT]))
  }

  /** The slots after one of them is set, or one is added at the end. */
  ghost function Put(es: seq<Entry>, s: nat, e: Entry): seq<Entry>
    requires s <= |es|
  {
    if s < |es| then es[s := e] else es + [e]
  }

  /** Writing a record at a slot is setting that slot. */
  lemma SpliceEntries(c: seq<byte>, s: nat, de: seq<byte>)
    requires s < |c| / DIRENT || (s == |c| / DIRENT && |c| % DIRENT == 0)
    requires |de| == DIRENT
    ensures DIRENT * s <= |c| && |Splice(c, DIRENT * s, de)| % DIRENT == |c| % DIRENT
    ensures Entries(Splice(c, DIRENT * s, de)) == Put(Entries(c), s, Record(de))
  {
    hide Record;
    var c' := Splice(c, DIRENT * s, de);
    var es, es' := Entries(c), Entries(c');
    assert |c'| == if s < |c| / DIRENT then |c| else |c| + DIRENT;
    assert |es'| == if s < |c| / DIRENT then |es| else |es| + 1;
    forall k | 0 <= k < |es'| ensures es'[k] == Put(es, s, Record(de))[k] {
      if k == s {
        assert c'[DIRENT * k..DIRENT * k + DIRENT] == de;
      } else {
        assert c'[DIRENT * k..DIRENT * k + DIRENT] == c[DIRENT * k..DIRENT * k + DIRENT];
      }
    }
  }

  // ------------------------------------------------------ the name space on disk

  ghost predicate IsKind(kind: short, k: Kind) {
    match k
    case Free => kind == 0
    case Dir => kind == T_DIR
    case File => kind == T_FILE
    case Device => kind == T_DEV
  }

  /** Inode i of the image is node i of the name space. */
  ghost predicate Matches(fs: Image, node: seq<Node>, i: nat) {
    && i < |fs.inodes| && i < |node| && fs.inodes[i].Valid() && fs.inodes[i].size <= MAXFILE * BSIZE
    && IsKind(fs.inodes[i].kind, node[i].kind) && fs.inodes[i].nlink == node[i].nlink
    && (node[i].kind.Dir? ==> fs.inodes[i].size % DIRENT == 0 && Entries(Content(fs, i)) == node[i].entries)
  }

  ghost predicate Represents(fs: Image, node: seq<Node>) {
    |fs.inodes| == |node| && forall i | 0 <= i < |node| :: Matches(fs, node, i)
  }

  ghost function WithEntry(node: seq<Node>, d: nat, s: nat, e: Entry): seq<Node>
    requires d < |node| && s <= |node[d].entries|
  {
    node[d := node[d].(entries := Put(node[d].entries, s, e))]
  }

  /** Whatever name space fs stands for with a directory d, fs' stands for it with slot s of
      that directory set. */
  ghost predicate Follows(fs: Image, fs': Image, d: nat, s: nat, e: Entry) {
    forall node: seq<Node> | Represents(fs, node) && d < |node| && node[d].kind.Dir? ::
      s <= |node[d].entries| && Represents(fs', WithEntry(node, d, s, e))
  }

  lemma SlotFollows(fs: Image, fs': Image, d: nat, s: nat, e: Entry)
    requires d < |fs.inodes| == |fs'.inodes| && fs.inodes[d].Valid() && fs'.inodes[d].Valid()
    requires fs.inodes[d].size <= MAXFILE * BSIZE && fs'.inodes[d].size <= MAXFILE * BSIZE
    requires fs'.inodes[d] == fs.inodes[d].(addrs := fs'.inodes[d].addrs, size := fs'.inodes[d].size)
    requires fs.inodes[d].size % DIRENT == 0 ==> fs'.inodes[d].size % DIRENT == 0
    requires s <= |Entries(Content(fs, d))| && Entries(Content(fs', d)) == Put(Entries(Content(fs, d)), s, e)
    requires forall j | 0 <= j < |fs.inodes| && j != d :: SameBytes(fs, fs', j) && fs'.inodes[j] == fs.inodes[j]
    ensures Follows(fs, fs', d, s, e)
  {
    hide Entries;
    forall node: seq<Node> | Represents(fs, node) && d < |node| && node[d].kind.Dir?
      ensures s <= |node[d].entries| && Represents(fs', WithEntry(node, d, s, e))
    {
      assert Matches(fs, node, d);
      var node' := WithEntry(node, d, s, e);
      forall i | 0 <= i < |node| ensures Matches(fs', node', i) {
        assert Matches(fs, node, i);
        if i != d && node[i].kind.Dir? { SameContent(fs, fs', i); }
      }
    }
  }

  /** Writing a record at slot s of a directory's contents. */
  lemma RecordFollows(fs: Image, fs': Image, d: nat, s: nat, de: seq<byte>)
    requires d < |fs.inodes| == |fs'.inodes| && fs.inodes[d].Valid() && fs'.inodes[d].Valid() && |de| == DIRENT
    requires fs.inodes[d].size <= MAXFILE * BSIZE && fs'.inodes[d].size <= MAXFILE * BSIZE
    requires fs'.inodes[d] == fs.inodes[d].(addrs := fs'.inodes[d].addrs, size := fs'.inodes[d].size)
    requires DIRENT * s + DIRENT <= fs.inodes[d].size || DIRENT * s == fs.inodes[d].size
    requires Content(fs', d) == Splice(Content(fs, d), DIRENT * s, de)
    requires forall j | 0 <= j < |fs.inodes| && j != d :: SameBytes(fs, fs', j) && fs'.inodes[j] == fs.inodes[j]
    ensures s <= |Entries(Content(fs, d))| && Entries(Content(fs', d)) == Put(Entries(Content(fs, d)), s, Record(de))
    ensures Follows(fs, fs', d, s, Record(de))
  {
    hide Content;
    hide Record;
    hide Follows;
    hide SameBytes;
    SpliceEntries(Content(fs, d), s, de);
    hide Entries;
    SlotFollows(fs, fs', d, s, Record(de));
  }

  lemma SameContent(fs: Image, fs': Image, i: nat)
    requires SameBytes(fs, fs', i) && fs'.inodes[i] == fs.inodes[i] && fs.inodes[i].size <= MAXFILE * BSIZE
    ensures Content(fs', i) == Content(fs, i)
  {
    hide ByteAt;
  }

  /** The slot that the name space's dirlink sets is the one that dirlink on the bytes sets. */
  lemma TreeDirLink(node: seq<Node>, d: nat, e: Entry)
    requires d < |node|
    ensures var s, m := LinkCode.EmptySlot(node[d].entries, 0), LinkCode.Room(node, d);
            m[d := LinkProofs.Slot(m[d], s, e)] == WithEntry(node, d, s, e)
  {
    var s, m := LinkCode.EmptySlot(node[d].entries, 0), LinkCode.Room(node, d);
    assert m[d := LinkProofs.Slot(m[d], s, e)][d].entries == Put(node[d].entries, s, e);
  }
}
