/** A file with as many links as a 16-bit count can say, in directories that fit their files. */
module SysCrowd {
  import opened Blocks
  import opened FsLayout
  import opened LinkModel
  import opened DirModel
  import opened SysCode

  const DIRS := 15
  const SLOTS := 4369
  const CROWDED := 17

  /** A name of two characters, different for each k. */
  ghost function NameOf(k: nat): string
    requires k < SLOTS
  {
    [(1 + k / 128) as char, (128 + k % 128) as char]
  }

  ghost function RootSlots(): (es: seq<Entry>)
    ensures |es| == DIRS + 2
  {
    [Entry(ROOT, "."), Entry(ROOT, "..")] + seq(DIRS, k requires 0 <= k < DIRS => Entry(k + 2, NameOf(k)))
  }

  ghost function DirSlots(d: nat): (es: seq<Entry>)
    ensures |es| == SLOTS + 2
  {
    [Entry(d, "."), Entry(ROOT, "..")] + seq(SLOTS, k requires 0 <= k < SLOTS => Entry(CROWDED, NameOf(k)))
  }

  /** The root, fifteen directories in it, and a file that all their slots name. */
  ghost function Crowd(): (node: seq<Node>)
    ensures |node| == CROWDED + 1 && node[0].kind.Free?
    ensures node[ROOT] == Node(Dir, 1 + DIRS, RootSlots(), 1)
    ensures forall d | ROOT < d < CROWDED :: node[d] == Node(Dir, 1, DirSlots(d), 0)
    ensures node[CROWDED] == Node(File, 0xFFFF, [], 1)
  {
    seq(CROWDED + 1, d requires 0 <= d <= CROWDED =>
      if d == 0 then Node(Free, 0, [], 0)
      else if d == ROOT then Node(Dir, 1 + DIRS, RootSlots(), 1)
      else if d < CROWDED then Node(Dir, 1, DirSlots(d), 0)
      else Node(File, 0xFFFF, [], 1))
  }

  lemma {:induction false} CrowdNaming(d: nat, i: nat, k: nat)
    requires k <= SLOTS + 2
    ensures Naming(DirSlots(d), i, k) == if i == CROWDED && k > 2 then k - 2 else 0
  {
    if k > 2 { CrowdNaming(d, i, k - 1); }
  }

  lemma {:induction false} RootNaming(i: nat, k: nat)
    requires k <= DIRS + 2
    ensures Naming(RootSlots(), i, k) == if 2 <= i < k then 1 else 0
  {
    if k > 2 { RootNaming(i, k - 1); }
  }

  lemma CrowdShare(i: nat, d: nat)
    requires d <= CROWDED && i > 0
    ensures Share(Crowd()[d], i) ==
            if d == ROOT then (if 2 <= i < CROWDED then 1 else 0)
            else if ROOT < d < CROWDED && i == CROWDED then SLOTS else 0
  {
    hide Crowd;
    hide Naming;
    if d == ROOT {
      RootNaming(i, DIRS + 2);
    } else if ROOT < d < CROWDED {
      CrowdNaming(d, i, SLOTS + 2);
    }
  }

  lemma {:induction false} CrowdLinks(i: nat, d: nat)
    requires d <= CROWDED + 1 && i > 0
    ensures Links(Crowd(), i, d) ==
            if i == CROWDED then SLOTS * (if d <= 2 then 0 else if d <= CROWDED then d - 2 else DIRS)
            else if 2 <= i < CROWDED && d >= 2 then 1 else 0
  {
    hide Crowd;
    hide Share;
    if d > 0 {
      CrowdLinks(i, d - 1);
      CrowdShare(i, d - 1);
    }
  }

  lemma {:induction false} CrowdSubdirs(es: seq<Entry>, k: nat)
    requires k <= |es| && (es == RootSlots() || forall j | 2 <= j < |es| :: es[j].inum == CROWDED)
    ensures Subdirs(Crowd(), es, k) == if es == RootSlots() && k > 2 then k - 2 else 0
  {
    if k > 2 { CrowdSubdirs(es, k - 1); }
  }

  lemma CrowdShaped()
    ensures Shaped(Crowd())
  {
    hide Crowd;
    var node := Crowd();
    forall d | 0 <= d < |node| ensures ShapedAt(node, d) {
    }
  }

  lemma CrowdCounted()
    ensures Counted(Crowd())
  {
    hide Crowd;
    hide Links;
    hide Subdirs;
    hide RootSlots;
    var node := Crowd();
    CrowdSubdirs(RootSlots(), DIRS + 2);
    forall d | ROOT < d < CROWDED ensures Subdirs(node, node[d].entries, |node[d].entries|) == 0 {
      CrowdSubdirs(DirSlots(d), SLOTS + 2);
      assert DirSlots(d) != RootSlots();
    }
    hide DirSlots;
    forall i | 0 < i < |node|
      ensures Links(node, i, |node|) == if i == ROOT then 0 else if i == CROWDED then 0xFFFF else 1
    {
      CrowdLinks(i, |node|);
    }
  }

  lemma CrowdSound()
    ensures Sound(Crowd())
  {
    CrowdShaped();
    CrowdCounted();
    hide Crowd;
    hide Shaped;
    hide Counted;
  }

  /** One more link, and the counts are wrong. */
  lemma OneTooMany(name: string, node: seq<Node>)
    requires Hooked(Crowd(), ROOT, CROWDED, name, node)
    ensures Sound(Crowd()) && !Sound(node)
    ensures forall d | 0 <= d < |Crowd()| :: DIRENT * |Crowd()[d].entries| <= MAXFILE * BSIZE
  {
    CrowdSound();
    hide Sound;
    hide Hooked;
    HookSound(Crowd(), ROOT, CROWDED, name, node);
  }
}
