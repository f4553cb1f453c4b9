/** Two-level page tables as the hardware reads them, and the flat map they stand for. */
module VmModel {

  const PTES := 1024         // entries of a directory or a table
  const NPAGES := 0x10_0000  // virtual pages
  const UPAGES := 0x8_0000   // virtual pages below KERNBASE

  /** A physical page as 32-bit words.  Pages are named by frame number, and a pointer to a
      page by the number of its frame; 0 is the null pointer. */
  type Page = p: seq<nat> | |p| == PTES witness seq(PTES, i => 0)
  type Memory = seq<Page>

  predicate Present(w: nat) { w % 2 == 1 }

  function Frame(w: nat): nat { w / 4096 }

  function Flags(w: nat): nat { w % 4096 }

  function WithP(perm: nat): nat { if perm % 2 == 1 then perm else perm + 1 }

  /** The entry `pa | perm | PTE_P` for a page-aligned pa. */
  function Pte(frame: nat, perm: nat): (w: nat)
    requires perm < 4096
    ensures Present(w) && Frame(w) == frame && Flags(w) == WithP(perm) && w != 0
  {
    frame * 4096 + WithP(perm)
  }

  function Pdx(v: nat): (i: nat)
    requires v < NPAGES
    ensures i < PTES
  {
    v / 1024
  }

  function Ptx(v: nat): (i: nat)
    ensures i < PTES
  {
    v % 1024
  }

  lemma SamePage(u: nat, v: nat)
    requires u < NPAGES && v < NPAGES && Pdx(u) == Pdx(v) && Ptx(u) == Ptx(v)
    ensures u == v
  {
  }

  predicate Writable(w: nat) { Flags(w) / 2 % 2 == 1 }

  predicate OfUser(w: nat) { Flags(w) / 4 % 2 == 1 }

  /** PTE_PS */
  predicate Large(w: nat) { Flags(w) / 128 % 2 == 1 }

  /** A directory entry for a table that leaves every permission to the table: PTE_P, PTE_W and
      PTE_U are set, the cache bits and PTE_PS are not. */
  predicate Open(w: nat) { Flags(w) % 32 == 7 && !Large(w) }

  /** The table that entry i of directory d leads to, or 0. */
  ghost function TableAt(mem: Memory, d: nat, i: nat): nat {
    if d < |mem| && i < PTES && Present(mem[d][i]) && Frame(mem[d][i]) < |mem| then Frame(mem[d][i]) else 0
  }

  /** The present entry for virtual page v, or 0. */
  ghost function Lookup(mem: Memory, d: nat, v: nat): nat
    requires v < NPAGES
  {
    var t := TableAt(mem, d, Pdx(v));
    if t != 0 && Present(mem[t][Ptx(v)]) then mem[t][Ptx(v)] else 0
  }

  /** Every present directory entry leads to a frame of memory and restricts nothing. */
  ghost predicate Rooted(mem: Memory, d: nat) {
    d < |mem| && forall i | 0 <= i < PTES && Present(mem[d][i]) :: TableAt(mem, d, i) != 0 && Open(mem[d][i])
  }

  lemma RootedAdds(mem: Memory, mem': Memory, d: nat, i: nat, t: nat)
    requires Rooted(mem, d) && i < PTES && 0 < t < |mem| == |mem'| && mem'[d] == mem[d][i := Pte(t, 6)]
    ensures Rooted(mem', d)
  {
    assert Flags(Pte(t, 6)) == 7 && Open(Pte(t, 6));
    hide Flags;
    hide Open;
    hide Pte;
    hide Present;
    hide Frame;
    forall j | 0 <= j < PTES && Present(mem'[d][j]) ensures TableAt(mem', d, j) != 0 && Open(mem'[d][j]) {
      assert j != i ==> mem'[d][j] == mem[d][j] && TableAt(mem, d, j) != 0;
    }
  }

  /** What the processor lets user code do with page v: a permission counts only if the
      directory entry and the table entry both give it. */
  ghost predicate UserReads(mem: Memory, d: nat, v: nat)
    requires v < NPAGES
  {
    && d < |mem|
    && var e := mem[d][Pdx(v)];
       && Present(e) && OfUser(e) && !Large(e) && Frame(e) < |mem|
       && var w := mem[Frame(e)][Ptx(v)]; Present(w) && OfUser(w)
  }

  ghost predicate UserWrites(mem: Memory, d: nat, v: nat)
    requires v < NPAGES
  {
    && UserReads(mem, d, v) && Writable(mem[d][Pdx(v)]) && Writable(mem[Frame(mem[d][Pdx(v)])][Ptx(v)])
  }

  /** The processor grants what the flat map says. */
  lemma UserAccess(mem: Memory, d: nat, v: nat)
    requires Rooted(mem, d) && v < NPAGES
    ensures UserReads(mem, d, v) <==> Lookup(mem, d, v) != 0 && OfUser(Lookup(mem, d, v))
    ensures UserWrites(mem, d, v) <==> UserReads(mem, d, v) && Writable(Lookup(mem, d, v))
  {
    var e := mem[d][Pdx(v)];
    if Present(e) {
      assert TableAt(mem, d, Pdx(v)) != 0 && Open(e);
      OpenGives(e);
    }
    hide Flags;
    hide OfUser;
    hide Writable;
    hide Large;
    hide Open;
    hide Frame;
    hide Present;
  }

  lemma OpenGives(w: nat)
    requires Open(w)
    ensures OfUser(w) && Writable(w) && !Large(w)
  {
    var f := Flags(w);
    hide Flags;
    assert f == 32 * (f / 32) + 7;
    assert f / 2 == 2 * (8 * (f / 32) + 1) + 1 && f / 4 == 2 * (4 * (f / 32)) + 1;
  }

  /** A directory, its tables, and the flat map from virtual pages to present entries. */
  datatype View = View(dir: nat, tab: seq<nat>, look: seq<nat>)

  ghost function ViewOf(mem: Memory, d: nat): (s: View)
    ensures s.dir == d && |s.tab| == PTES && |s.look| == NPAGES
  {
    View(d, seq(PTES, i requires 0 <= i < PTES => TableAt(mem, d, i)),
         seq(NPAGES, v requires 0 <= v < NPAGES => Lookup(mem, d, v)))
  }

  lemma SameView(s: View, s': View)
    requires s.dir == s'.dir && |s.tab| == |s'.tab| && |s.look| == |s'.look|
    requires forall i | 0 <= i < |s.tab| :: s.tab[i] == s'.tab[i]
    requires forall v | 0 <= v < |s.look| :: s.look[v] == s'.look[v]
    ensures s == s'
  {
    assert s.tab == s'.tab && s.look == s'.look;
  }

  ghost predicate Shaped(s: View) { |s.tab| == PTES && |s.look| == NPAGES }

  /** Frame f is among those that kalloc hands out. */
  ghost predicate InRam(lo: nat, hi: nat, f: nat) { 0 < lo <= f < hi }

  /** User page v is mapped, to frame f. */
  ghost predicate Maps(s: View, v: nat, f: nat) {
    v < UPAGES && v < |s.look| && s.look[v] != 0 && Frame(s.look[v]) == f
  }

  ghost predicate IsTable(s: View, f: nat) {
    f != 0 && exists i :: 0 <= i < |s.tab| && s.tab[i] == f
  }

  /** Directory, tables and user pages are frames of RAM, all different. */
  ghost predicate Sound(lo: nat, hi: nat, s: View) {
    && Shaped(s) && InRam(lo, hi, s.dir)
    && (forall f | IsTable(s, f) :: InRam(lo, hi, f) && f != s.dir)
    && (forall i, j | 0 <= i < j < PTES && s.tab[i] != 0 :: s.tab[i] != s.tab[j])
    && (forall v | 0 <= v < NPAGES && s.look[v] != 0 :: s.tab[Pdx(v)] != 0)
    && (forall v, f | Maps(s, v, f) :: InRam(lo, hi, f) && f != s.dir && !IsTable(s, f))
    && (forall u, v, f | Maps(s, u, f) && Maps(s, v, f) :: u == v)
  }

  ghost function Tables(s: View): (r: set<nat>)
    ensures forall f :: f in r <==> IsTable(s, f)
  {
    set i | 0 <= i < |s.tab| && s.tab[i] != 0 :: s.tab[i]
  }

  ghost function UserFrames(s: View): (r: set<nat>)
    ensures forall f :: f in r <==> exists v :: Maps(s, v, f)
  {
    set v: nat | v < UPAGES && v < |s.look| && Maps(s, v, Frame(s.look[v])) :: Frame(s.look[v])
  }

  /** The frames that belong to an address space. */
  ghost function Owned(s: View): set<nat> {
    {s.dir} + Tables(s) + UserFrames(s)
  }

  // -------------------------------------------------- memory writes and the view

  /** The view depends on the directory and its tables only. */
  lemma ViewFrame(mem: Memory, mem': Memory, d: nat)
    requires |mem| == |mem'| && d < |mem| && mem'[d] == mem[d]
    requires forall f: nat | IsTable(ViewOf(mem, d), f) && f < |mem| :: mem'[f] == mem[f]
    ensures ViewOf(mem', d) == ViewOf(mem, d)
  {
    var s, s' := ViewOf(mem, d), ViewOf(mem', d);
    forall v | 0 <= v < NPAGES ensures s'.look[v] == s.look[v] {
      var i := Pdx(v);
      assert s.tab[i] != 0 ==> IsTable(s, s.tab[i]);
    }
    SameView(s, s');
  }

  ghost predicate NoneTo(s: View, i: nat) {
    forall v | 0 <= v < |s.look| && v < NPAGES && Pdx(v) == i :: s.look[v] == 0
  }

  /** A cleared page becomes the table for entry i: no translation changes. */
  lemma AddTable(mem: Memory, mem': Memory, d: nat, i: nat, t: nat, w: nat)
    requires d < |mem| && 0 < t < |mem| && t != d && i < PTES && !Present(mem[d][i])
    requires !IsTable(ViewOf(mem, d), t) && !IsTable(ViewOf(mem, d), d)
    requires Present(w) && Frame(w) == t
    requires mem' == mem[t := seq(PTES, k => 0)][d := mem[d][i := w]]
    ensures ViewOf(mem', d) == ViewOf(mem, d).(tab := ViewOf(mem, d).tab[i := t])
    ensures NoneTo(ViewOf(mem, d), i)
  {
    var s, s' := ViewOf(mem, d), ViewOf(mem', d);
    hide Present;
    hide Frame;
    assert !Present(0) by { ZeroAbsent(); }
    forall v | 0 <= v < NPAGES ensures s'.look[v] == s.look[v] && (Pdx(v) == i ==> s.look[v] == 0) {
      var k := Pdx(v);
      assert k != i && s.tab[k] != 0 ==> IsTable(s, s.tab[k]);
    }
    SameView(s', s.(tab := s.tab[i := t]));
  }

  lemma ZeroAbsent()
    ensures !Present(0)
  {
  }

  function Shown(w: nat): nat { if Present(w) then w else 0 }

  /** Writing one table entry changes one translation. */
  lemma SetEntry(lo: nat, mem: Memory, mem': Memory, d: nat, v: nat, w: nat)
    requires Sound(lo, |mem|, ViewOf(mem, d)) && v < NPAGES && ViewOf(mem, d).tab[Pdx(v)] != 0
    requires var t := ViewOf(mem, d).tab[Pdx(v)]; t < |mem| && mem' == mem[t := mem[t][Ptx(v) := w]]
    ensures ViewOf(mem', d) == ViewOf(mem, d).(look := ViewOf(mem, d).look[v := Shown(w)])
  {
    var s, s' := ViewOf(mem, d), ViewOf(mem', d);
    var t := s.tab[Pdx(v)];
    assert IsTable(s, t);
    hide Present;
    hide Frame;
    hide Pdx;
    hide Ptx;
    forall u | 0 <= u < NPAGES ensures s'.look[u] == if u == v then Shown(w) else s.look[u] {
      if u != v {
        if Pdx(u) == Pdx(v) && Ptx(u) == Ptx(v) { SamePage(u, v); }
        assert Pdx(u) != Pdx(v) && s.tab[Pdx(u)] != 0 ==> s.tab[Pdx(u)] != t;
      }
    }
    SameView(s', s.(look := s.look[v := Shown(w)]));
  }

  // ------------------------------------------------------- the view as a value

  lemma AddTableSound(lo: nat, hi: nat, s: View, i: nat, t: nat)
    requires Sound(lo, hi, s) && i < PTES && s.tab[i] == 0 && InRam(lo, hi, t) && t !in Owned(s)
    ensures Sound(lo, hi, s.(tab := s.tab[i := t])) && Owned(s.(tab := s.tab[i := t])) == Owned(s) + {t}
  {
    var s' := s.(tab := s.tab[i := t]);
    hide Frame;
    forall f ensures IsTable(s', f) <==> IsTable(s, f) || f == t {
      if IsTable(s, f) {
        var j :| 0 <= j < |s.tab| && s.tab[j] == f;
        assert s'.tab[j] == f;
      }
      if f == t { assert s'.tab[i] == f; }
    }
    assert forall v, f :: Maps(s', v, f) <==> Maps(s, v, f);
    assert forall v, f | Maps(s, v, f) :: f in UserFrames(s);
    forall j, k | 0 <= j < k < PTES && s'.tab[j] != 0 ensures s'.tab[j] != s'.tab[k] {
      assert !IsTable(s, t);
    }
  }

  /** Mapping page v, which was not mapped, to a frame that is not owned yet. */
  lemma MapSound(lo: nat, hi: nat, s: View, v: nat, w: nat)
    requires Sound(lo, hi, s) && v < NPAGES && s.look[v] == 0 && s.tab[Pdx(v)] != 0 && w != 0
    requires v < UPAGES ==> InRam(lo, hi, Frame(w)) && Frame(w) !in Owned(s)
    ensures Sound(lo, hi, s.(look := s.look[v := w]))
    ensures Owned(s.(look := s.look[v := w])) == Owned(s) + if v < UPAGES then {Frame(w)} else {}
  {
    var s' := s.(look := s.look[v := w]);
    hide Frame;
    hide Pdx;
    assert forall f :: IsTable(s', f) <==> IsTable(s, f);
    forall u, f ensures Maps(s', u, f) <==> if u == v then v < UPAGES && f == Frame(w) else Maps(s, u, f) {
    }
    assert forall u, f | Maps(s, u, f) :: f in UserFrames(s);
    assert UserFrames(s') == UserFrames(s) + if v < UPAGES then {Frame(w)} else {} by {
      if v < UPAGES { assert Maps(s', v, Frame(w)); }
      forall f | f in UserFrames(s) ensures f in UserFrames(s') {
        var u :| Maps(s, u, f);
        assert Maps(s', u, f);
      }
    }
  }

  lemma UnmapSound(lo: nat, hi: nat, s: View, v: nat)
    requires Sound(lo, hi, s) && v < UPAGES && s.look[v] != 0
    ensures Sound(lo, hi, s.(look := s.look[v := 0]))
    ensures Owned(s.(look := s.look[v := 0])) == Owned(s) - {Frame(s.look[v])}
    ensures Frame(s.look[v]) in Owned(s)
  {
    var s' := s.(look := s.look[v := 0]);
    var g := Frame(s.look[v]);
    hide Frame;
    hide Pdx;
    assert forall f :: IsTable(s', f) <==> IsTable(s, f);
    forall u, f ensures Maps(s', u, f) <==> u != v && Maps(s, u, f) {
    }
    assert Maps(s, v, g);
    forall f ensures f in UserFrames(s') <==> f in UserFrames(s) && f != g {
      if f in UserFrames(s) && f != g {
        var u :| Maps(s, u, f);
        assert Maps(s', u, f);
      }
    }
  }
}
