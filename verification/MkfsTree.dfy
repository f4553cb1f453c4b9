/** The end of mkfs: the root directory is rounded up to whole blocks, and the image stands
    for a name space whose link counts are right. */
module MkfsTree {
  import opened Blocks
  import opened FsLayout
  import opened FsModel
  import opened FsUpdates
  import opened FsSpace
  import opened FsCode
  import opened LinkModel
  import opened DirModel
  import opened MkfsModel
  import LinkProofs
  import LinkCode

  /** The size mkfs gives the root directory: the next multiple of the block size, which for a
      multiple is one block more. */
  function Rounded(size: nat): nat {
    (size / BSIZE + 1) * BSIZE
  }

  ghost function Final(v: Image, n: nat): Image
    requires ROOT < |v.inodes| && DIRENT * n <= MAXFILE * BSIZE
  {
    Resized(v, ROOT, Rounded(DIRENT * n))
  }

  /** Block bn of a tight file is mapped exactly if it starts below the size. */
  lemma TightMapped(v: Image, i: nat, bn: nat)
    requires Tight(v, i) && bn < MAXFILE
    ensures Slot(v, i, DataSlot(bn)) != 0 <==> bn * BSIZE < v.inodes[i].size
  {
    hide Slot;
    var size, k := v.inodes[i].size, DataSlot(bn);
    assert Wanted(0, size, k) <==> bn * BSIZE < size;
    hide Wanted;
    assert 0 <= k < NSLOTS;
  }

  /** The rounded root directory has no hole exactly if its entries do not end with a block. */
  lemma FinalWellFormed(sb: Super, v: Image, es: seq<Entry>)
    requires WellFormed(sb, v) && RootIs(v, es)
    ensures WellFormed(sb, Final(v, |es|)) <==> DIRENT * |es| % BSIZE != 0
  {
    var size := DIRENT * |es|;
    if size % BSIZE != 0 {
      hide WellFormed;
      hide Slot;
      ResizeSlots(v, ROOT, Rounded(size));
      forall bn: nat | bn < MAXFILE && bn * BSIZE < Rounded(size) ensures Slot(v, ROOT, DataSlot(bn)) != 0 {
        TightMapped(v, ROOT, bn);
      }
      ResizeWellFormed(sb, v, ROOT, Rounded(size));
    } else {
      FinalHole(v, es);
      hide NoHoles;
      hide Sizes;
    }
  }

  /** A whole block more than the entries fill: it is missing, or too many. */
  lemma FinalHole(v: Image, es: seq<Entry>)
    requires RootIs(v, es) && DIRENT * |es| % BSIZE == 0
    ensures !NoHoles(Final(v, |es|)) || !Sizes(Final(v, |es|))
  {
    var size := DIRENT * |es|;
    var v', q := Final(v, |es|), size / BSIZE;
    hide Slot;
    ResizeSlots(v, ROOT, Rounded(size));
    if q < MAXFILE {
      TightMapped(v, ROOT, q);
      assert v'.inodes[ROOT].size == Rounded(size) > q * BSIZE;
      assert Slot(v', ROOT, DataSlot(q)) == 0;
    } else {
      assert v'.inodes[ROOT].size == Rounded(size) > MAXFILE * BSIZE;
    }
  }

  // ----------------------------------------------------------------- name space

  const FILE := Node(File, 1, [], 0)

  /** A root directory with these names, each of a file with one link. */
  ghost function Nodes(n: nat, names: seq<string>): (node: seq<Node>)
    requires |names| + 2 <= n
    ensures |node| == n
  {
    seq(n, i => if i == ROOT then Node(Dir, 1, Listing(names), 0)
                else if 2 <= i < |names| + 2 then FILE
                else Node(Free, 0, [], 0))
  }

  ghost function Listing(names: seq<string>): (es: seq<Entry>)
    ensures |es| == |names| + 2
  {
    [Entry(ROOT, "."), Entry(ROOT, "..")] +
    seq(|names|, j requires 0 <= j < |names| => Entry(j + 2, names[j]))
  }

  lemma {:induction false} NodesSound(n: nat, names: seq<string>)
    requires |names| + 2 <= n
    ensures Sound(Nodes(n, names))
  {
    hide Sound;
    var k := |names|;
    if k == 0 {
      assert Listing(names) == [Entry(ROOT, "."), Entry(ROOT, "..")];
      LinkCode.EmptyCounted(Nodes(n, names));
    } else {
      var less, name, i := names[..k - 1], names[k - 1], k + 1;
      NodesSound(n, less);
      var node := LinkProofs.Padded(Nodes(n, less), ROOT);
      LinkProofs.PaddedSound(Nodes(n, less), ROOT);
      LinkProofs.HangSound(node, ROOT, i, i, FILE.(ref := 1), name);
      var hung := LinkProofs.HangState(node, ROOT, i, i, FILE.(ref := 1), name);
      LinkProofs.DroppedSound(hung, i);
      assert Listing(names) == (Listing(less) + [LinkProofs.NONE])[i := Entry(i, name)];
      assert LinkProofs.Dropped(hung, i) == Nodes(n, names);
    }
  }

  /** The name space with r empty slots added to the root directory. */
  ghost function Spare(node: seq<Node>, r: nat): (m: seq<Node>)
    requires ROOT < |node|
    ensures |m| == |node|
  {
    if r == 0 then node else LinkProofs.Padded(Spare(node, r - 1), ROOT)
  }

  lemma {:induction false} SpareSound(node: seq<Node>, r: nat)
    requires Sound(node)
    ensures Sound(Spare(node, r))
    ensures Spare(node, r) == node[ROOT := node[ROOT].(entries := node[ROOT].entries + Nones(r))]
  {
    if r == 0 {
      assert node[ROOT].entries + Nones(0) == node[ROOT].entries;
    } else {
      SpareSound(node, r - 1);
      LinkProofs.PaddedSound(Spare(node, r - 1), ROOT);
      assert Nones(r) == Nones(r - 1) + [LinkProofs.NONE];
      assert node[ROOT].entries + Nones(r) == node[ROOT].entries + Nones(r - 1) + [LinkProofs.NONE];
    }
  }

  ghost function Nones(r: nat): seq<Entry> { seq(r, _ => LinkProofs.NONE) }

  lemma ZeroRecord()
    ensures Record(Zeros(DIRENT)) == LinkProofs.NONE
  {
    assert CStr(Zeros(DIRENT)[2..], DIRSIZ) == [];
  }

  lemma EntriesPadded(c: seq<byte>, r: nat)
    requires |c| % DIRENT == 0
    ensures Entries(c + Zeros(DIRENT * r)) == Entries(c) + Nones(r)
  {
    ZeroRecord();
    hide Record;
    var c' := c + Zeros(DIRENT * r);
    forall k | 0 <= k < |c'| / DIRENT ensures Entries(c')[k] == (Entries(c) + Nones(r))[k] {
      if k < |c| / DIRENT {
        assert c'[DIRENT * k..DIRENT * k + DIRENT] == c[DIRENT * k..DIRENT * k + DIRENT];
      } else {
        assert c'[DIRENT * k..DIRENT * k + DIRENT] == Zeros(DIRENT);
      }
    }
  }

  lemma ResizeBytes(v: Image, i: nat, size: word)
    requires i < |v.inodes| && forall j | 0 <= j < |v.inodes| :: v.inodes[j].Valid()
    ensures forall j | 0 <= j < |v.inodes| :: SameBytes(v, Resized(v, i, size), j)
  {
    var v' := Resized(v, i, size);
    forall j, l | IsSlot(v, j, l) ensures Slot(v', j, l) == Slot(v, j, l) {
    }
    hide Slot;
  }

  lemma FinalRoot(v: Image, es: seq<Entry>)
    requires RootIs(v, es) && Rounded(DIRENT * |es|) <= MAXFILE * BSIZE
    requires forall j | 0 <= j < |v.inodes| :: v.inodes[j].Valid()
    ensures var v', r := Final(v, |es|), (Rounded(DIRENT * |es|) - DIRENT * |es|) / DIRENT;
            Entries(Content(v', ROOT)) == es + Nones(r)
  {
    hide Entries;
    hide ByteAt;
    hide Tight;
    var size := DIRENT * |es|;
    var v', r := Final(v, |es|), (Rounded(size) - size) / DIRENT;
    ResizeBytes(v, ROOT, Rounded(size));
    assert SameBytes(v, v', ROOT);
    assert Rounded(size) - size == DIRENT * r;
    assert Content(v', ROOT) == Content(v, ROOT) + Zeros(DIRENT * r);
    EntriesPadded(Content(v, ROOT), r);
  }

  ghost function HostNames(files: seq<HostFile>): (names: seq<string>)
    ensures |names| == |files|
  {
    seq(|files|, j requires 0 <= j < |files| => Stored(HostName(files[j].arg)))
  }

  /** The name space that mkfs makes of these files. */
  ghost function HostTree(n: nat, files: seq<HostFile>): seq<Node>
    requires |files| + 2 <= n
  {
    var size := DIRENT * (|files| + 2);
    Spare(Nodes(n, HostNames(files)), (Rounded(size) - size) / DIRENT)
  }

  lemma ListingIs(files: seq<HostFile>)
    requires |files| + 2 <= 0x1_0000
    ensures Listing(HostNames(files)) == RootEntries(files, |files|)
  {
    hide Stored;
  }

  lemma FinalRepresents(v: Image, files: seq<HostFile>)
    requires Stage(v, files, |files|) && |files| + 2 <= 0x1_0000
    requires Rounded(DIRENT * (|files| + 2)) <= MAXFILE * BSIZE
    requires forall j | 0 <= j < |v.inodes| :: v.inodes[j].Valid()
    ensures Represents(Final(v, |files| + 2), HostTree(|v.inodes|, files)) && Sound(HostTree(|v.inodes|, files))
  {
    hide Entries;
    hide Content;
    hide ByteAt;
    hide Tight;
    hide Sound;
    hide Spare;
    var n, k := |v.inodes|, |files|;
    var size := DIRENT * (k + 2);
    var v', r := Final(v, k + 2), (Rounded(size) - size) / DIRENT;
    var names := HostNames(files);
    NodesSound(n, names);
    SpareSound(Nodes(n, names), r);
    ListingIs(files);
    FinalRoot(v, RootEntries(files, k));
    hide Listing;
    hide RootEntries;
    hide HostNames;
    forall i | 0 <= i < n ensures Matches(v', HostTree(n, files), i) {
      if 2 <= i < k + 2 { assert FileIs(v, i - 2 + 2, files[i - 2].contents); }
    }
  }

  /** What mkfs leaves on the disk. */
  ghost predicate Outcome(sb: Super, fs: Image, files: seq<HostFile>) {
    && |files| + 2 <= |fs.inodes|
    && (WellFormed(sb, fs) <==> DIRENT * (|files| + 2) % BSIZE != 0)
    && (forall j | 0 <= j < |files| :: FileIs(fs, j + 2, files[j].contents))
    && (|files| + 2 <= 0x1_0000 && Rounded(DIRENT * (|files| + 2)) <= MAXFILE * BSIZE ==>
          Represents(fs, HostTree(|fs.inodes|, files)) && Sound(HostTree(|fs.inodes|, files)))
  }

  lemma FinalFiles(v: Image, files: seq<HostFile>)
    requires Stage(v, files, |files|) && forall j | 0 <= j < |v.inodes| :: v.inodes[j].Valid()
    ensures forall j | 0 <= j < |files| :: FileIs(Final(v, |files| + 2), j + 2, files[j].contents)
  {
    hide RootEntries;
    hide Tight;
    hide ByteAt;
    hide Entries;
    hide Content;
    var k := |files|;
    RootSize(v, RootEntries(files, k));
    var v' := Final(v, k + 2);
    ResizeBytes(v, ROOT, Rounded(DIRENT * (k + 2)));
    ResizeOthers(v, ROOT, Rounded(DIRENT * (k + 2)));
    hide OtherSlots;
    hide SameBytes;
    assert Others(v, v', ROOT);
    hide FileIs;
    hide Others;
    forall j | 0 <= j < k ensures FileIs(v', j + 2, files[j].contents) {
      FileOther(v, v', ROOT, j + 2, files[j].contents);
    }
  }

  lemma FinalOutcome(sb: Super, v: Image, files: seq<HostFile>)
    requires WellFormed(sb, v) && Stage(v, files, |files|)
    ensures Outcome(sb, Final(v, |files| + 2), files)
  {
    assert forall j | 0 <= j < |v.inodes| :: v.inodes[j].Valid();
    hide WellFormed;
    hide Sound;
    hide Represents;
    hide RootIs;
    hide FileIs;
    hide HostTree;
    hide RootEntries;
    var k := |files|;
    RootSize(v, RootEntries(files, k));
    FinalWellFormed(sb, v, RootEntries(files, k));
    FinalFiles(v, files);
    if k + 2 <= 0x1_0000 && Rounded(DIRENT * (k + 2)) <= MAXFILE * BSIZE { FinalRepresents(v, files); }
  }

  lemma RootSize(v: Image, es: seq<Entry>)
    requires RootIs(v, es)
    ensures DIRENT * |es| <= MAXFILE * BSIZE
  {
  }
}
