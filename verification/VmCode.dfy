/** kalloc.c and the page-table code of vm.c. */
module VmCode {
  import opened Common
  import opened VmModel
  import opened VmSpace

  const NFRAMES := 0xE000    // PHYSTOP / PGSIZE
  const PGSIZE := 4096
  const KERNBASE := 0x8000_0000
  const PTE_W := 2
  const PTE_U := 4

  ghost function FreeSet(free: seq<nat>): (r: set<nat>)
    ensures forall f :: f in r <==> f in free
  {
    set f | f in free
  }

  function Zeros(): Page { seq(PTES, i => 0) }

  function Junk(): Page { seq(PTES, i => 0x0101_0101) }

  ghost function Link(free: seq<nat>, i: nat): nat {
    if i < |free| then free[i] else 0
  }

  /** The free list starts at head and is linked through word 0 of its pages. */
  ghost predicate Listed(lo: nat, mem: Memory, head: nat, free: seq<nat>) {
    && head == Link(free, 0)
    && (forall i | 0 <= i < |free| :: InRam(lo, |mem|, free[i]))
    && (forall i | 0 <= i < |free| :: mem[free[i]][0] == Link(free, i + 1))
    && (forall i, j | 0 <= i < j < |free| :: free[i] != free[j])
  }

  /** Memory may differ only on the frames in s. */
  ghost predicate Outside(mem: Memory, mem': Memory, s: set<nat>) {
    |mem'| == |mem| && forall f | 0 <= f < |mem| && f !in s :: mem'[f] == mem[f]
  }

  lemma ListedFrame(lo: nat, mem: Memory, mem': Memory, head: nat, free: seq<nat>, s: set<nat>)
    requires Listed(lo, mem, head, free) && Outside(mem, mem', s) && s !! FreeSet(free)
    ensures Listed(lo, mem', head, free)
  {
  }

  lemma ListedPop(lo: nat, mem: Memory, head: nat, free: seq<nat>)
    requires Listed(lo, mem, head, free) && free != []
    ensures InRam(lo, |mem|, head) && head !in free[1..] && Listed(lo, mem, mem[head][0], free[1..])
  {
    var rest := free[1..];
    assert mem[free[0]][0] == Link(free, 1);
    forall i | 0 <= i < |rest| ensures mem[rest[i]][0] == Link(rest, i + 1) {
      assert rest[i] == free[i + 1];
      assert mem[free[i + 1]][0] == Link(free, i + 2);
    }
  }

  lemma ListedPush(lo: nat, mem: Memory, mem': Memory, head: nat, free: seq<nat>, f: nat)
    requires Listed(lo, mem, head, free) && InRam(lo, |mem|, f) && f !in free
    requires Outside(mem, mem', {f}) && mem'[f][0] == head
    ensures Listed(lo, mem', f, [f] + free)
  {
    var more := [f] + free;
    forall i | 0 <= i < |more| ensures mem'[more[i]][0] == Link(more, i + 1) {
      if i > 0 {
        assert more[i] == free[i - 1];
        assert mem[free[i - 1]][0] == Link(free, i);
      }
    }
  }

  datatype Outcome = Value(n: nat) | Panic

  /** Pages that [va, va + size) meets. */
  function Pages(va: nat, size: nat): (n: nat)
    requires 0 < size
    ensures 0 < n
  {
    (va + size - 1) / PGSIZE - va / PGSIZE + 1
  }

  /** look' is look with pages a .. a + k, none of which was mapped, mapped to f .. f + k. */
  ghost predicate Mapped(look: seq<nat>, look': seq<nat>, a: nat, k: nat, f: nat, perm: nat)
    requires perm < 4096
  {
    && |look'| == |look|
    && (forall v | 0 <= v < |look| && !(a <= v < a + k) :: look'[v] == look[v])
    && (forall v | 0 <= v < |look| && a <= v < a + k :: look[v] == 0 && look'[v] == Pte(f + v - a, perm))
  }

  ghost predicate ForUser(a: nat, f: nat, g: nat) { f <= g && a + (g - f) < UPAGES }

  /** The frames that the first k pages from a hand to a user address space. */
  ghost function Given(a: nat, k: nat, f: nat): (r: set<nat>)
  {
    set g: nat | f <= g < f + k && ForUser(a, f, g)
  }

  /** Tables stay where they are; more may have come. */
  ghost predicate Extends(s: View, s': View) {
    && s'.dir == s.dir && |s'.tab| == |s.tab| && |s'.look| == |s.look|
    && forall i | 0 <= i < |s.tab| && s.tab[i] != 0 :: s'.tab[i] == s.tab[i]
  }

  /** PGROUNDUP, as a page number. */
  function RoundUp(sz: nat): nat { (sz + PGSIZE - 1) / PGSIZE }

  /** look' is look without the pages from lo up to hi. */
  ghost predicate Cleared(look: seq<nat>, look': seq<nat>, lo: nat, hi: nat) {
    && |look'| == |look|
    && forall v | 0 <= v < |look| :: look'[v] == if lo <= v < hi then 0 else look[v]
  }

  /** look' is look with the unmapped pages from lo up to a mapped to frames that were on
      the free list, with the given flags and contents. */
  ghost predicate Fresh(look: seq<nat>, look': seq<nat>, lo: nat, a: nat, mem: Memory, free: seq<nat>,
                        flags: nat -> nat, pages: nat -> Page) {
    && |look'| == |look|
    && (forall v: nat | v < |look| && !(lo <= v < a) :: look'[v] == look[v])
    && (forall v: nat | v < |look| && lo <= v < a :: look[v] == 0 && FreshAt(look'[v], mem, free, flags(v), pages(v)))
  }

  ghost predicate FreshAt(w: nat, mem: Memory, free: seq<nat>, flags: nat, page: Page) {
    w != 0 && Flags(w) == flags && Frame(w) in free && Frame(w) < |mem| && mem[Frame(w)] == page
  }

  ghost predicate SomeMapped(look: seq<nat>, lo: nat, hi: nat) {
    exists v :: lo <= v < hi && v < |look| && look[v] != 0
  }

  /** The pages that allocuvm maps are the user's to read and write. */
  lemma FreshIsUsers(mem: Memory, d: nat, look: seq<nat>, lo: nat, hi: nat, free: seq<nat>, pages: nat -> Page, v: nat)
    requires Rooted(mem, d) && lo <= v < hi && v < NPAGES && |look| == NPAGES
    requires Fresh(look, ViewOf(mem, d).look, lo, hi, mem, free, _ => 7, pages)
    ensures UserReads(mem, d, v) && UserWrites(mem, d, v)
  {
    hide Rooted;
    hide UserReads;
    hide UserWrites;
    var w := ViewOf(mem, d).look[v];
    assert FreshAt(w, mem, free, 7, pages(v));
    assert Flags(w) == 7;
    UserAccess(mem, d, v);
  }

  /** No page of the kernel is the user's. */
  lemma KernelIsKernels(data: nat, mem: Memory, d: nat, v: nat)
    requires 0x100 < data < NFRAMES && Rooted(mem, d) && v < NPAGES && Lookup(mem, d, v) == KernEntry(data, 4, v)
    ensures !UserReads(mem, d, v) && !UserWrites(mem, d, v)
  {
    hide Rooted;
    KernelOnly(data, 4, v);
    UserAccess(mem, d, v);
  }

  lemma {:induction false} KernelOnly(data: nat, k: nat, v: nat)
    requires 0x100 < data < NFRAMES && k <= 4
    ensures KernEntry(data, k, v) == 0 || !OfUser(KernEntry(data, k, v))
  {
    if k > 0 { KernelOnly(data, k - 1, v); }
  }

  /** The child of copyuvm may do with a page what the parent may. */
  lemma CopyIsUsers(data: nat, mem: Memory, mem': Memory, d: nat, c: nat, n: nat, v: nat)
    requires 0x100 < data < NFRAMES && Rooted(mem, d) && Rooted(mem', c) && v < n <= UPAGES
    requires Copied(data, ViewOf(mem, d).look, ViewOf(mem', c).look, n, mem, mem') && Lookup(mem, d, v) != 0
    ensures UserReads(mem', c, v) <==> UserReads(mem, d, v)
    ensures UserWrites(mem', c, v) <==> UserWrites(mem, d, v)
  {
    hide Rooted;
    hide UserReads;
    hide UserWrites;
    var w, w' := ViewOf(mem, d).look[v], ViewOf(mem', c).look[v];
    assert w' != 0 && Flags(w') == FlagsOf(ViewOf(mem, d).look, v) == Flags(w);
    UserAccess(mem, d, v);
    UserAccess(mem', c, v);
  }

  datatype Extent = Extent(virt: nat, phys: nat, n: nat, perm: nat)

  /** Entry k of kmap, in pages; `data` is the frame of the symbol of that name. */
  function Kmap(data: nat, k: nat): Extent
    requires 0x100 < data < NFRAMES && k < 4
  {
    match k
    case 0 => Extent(0x8_0000, 0, 0x100, PTE_W)
    case 1 => Extent(0x8_0100, 0x100, data - 0x100, 0)
    case 2 => Extent(0x8_0000 + data, data, NFRAMES - data, PTE_W)
    case 3 => Extent(0xF_E000, 0xF_E000, 0x2000, PTE_W)
  }

  /** What the first k entries of kmap say about virtual page v. */
  ghost function KernEntry(data: nat, k: nat, v: nat): nat
    requires 0x100 < data < NFRAMES && k <= 4
  {
    if k == 0 then 0
    else
      var q := Kmap(data, k - 1);
      if q.virt <= v < q.virt + q.n then Pte(q.phys + v - q.virt, q.perm) else KernEntry(data, k - 1, v)
  }

  const KTAB := UPAGES / PTES   // the first kernel table
  const KFRAMES := 65           // a directory and the kernel's 64 tables

  /** The first k entries of kmap need table i. */
  ghost predicate NeedsTab(data: nat, k: nat, i: nat) {
    match k
    case 0 => false
    case 1 => i == KTAB
    case 2 => KTAB <= i <= KTAB + (data - 1) / PTES
    case 3 => KTAB <= i < KTAB + NFRAMES / PTES
    case _ => KTAB <= i < KTAB + NFRAMES / PTES || 1016 <= i
  }

  ghost function KTabs(data: nat, k: nat): set<nat> {
    set i: nat | i < PTES && NeedsTab(data, k, i)
  }

  /** Exactly those tables are there. */
  ghost predicate KernTabs(data: nat, k: nat, s: View) {
    && 0x100 < data < NFRAMES && k <= 4 && |s.tab| == PTES
    && forall i | 0 <= i < PTES :: s.tab[i] == 0 <==> !NeedsTab(data, k, i)
  }

  lemma KTabsSize(data: nat, k: nat)
    requires 0x100 < data < NFRAMES && k <= 4
    ensures |KTabs(data, k)| <= KFRAMES - 1 && (k == 4 ==> |KTabs(data, k)| == KFRAMES - 1)
    ensures k == 0 ==> |KTabs(data, k)| == 0
  {
    hide Range;
    assert (data - 1) / PTES < NFRAMES / PTES;
    var low, high := Range(KTAB, NFRAMES / PTES), Range(1016, 8);
    assert KTabs(data, 4) == low + high && low !! high;
    assert k == 0 ==> KTabs(data, k) == {};
    SubsetSize(KTabs(data, k), KTabs(data, 4));
  }

  /** An entry of kmap spans the tables it adds, and some of those before. */
  lemma KTabsNext(data: nat, k: nat, i: nat)
    requires 0x100 < data < NFRAMES && k < 4 && i < PTES
    ensures var q := Kmap(data, k);
            NeedsTab(data, k + 1, i) <==> NeedsTab(data, k, i) || Spans(q.virt, q.virt + q.n, i)
  {
    var q := Kmap(data, k);
    assert (0x8_0000 + data - 1) / PTES == KTAB + (data - 1) / PTES;
    assert (0x8_0000 + data) / PTES == KTAB + data / PTES;
  }

  lemma KernMissing(data: nat, k: nat, s: View)
    requires k < 4 && KernTabs(data, k, s)
    ensures var q := Kmap(data, k);
            |MissingTabs(s, q.virt, q.virt + q.n)| == |KTabs(data, k + 1)| - |KTabs(data, k)|
  {
    hide Spans;
    hide NeedsTab;
    hide Kmap;
    var q := Kmap(data, k);
    forall i: nat | i < PTES
      ensures NeedsTab(data, k + 1, i) <==> NeedsTab(data, k, i) || Spans(q.virt, q.virt + q.n, i)
    {
      KTabsNext(data, k, i);
    }
    assert KTabs(data, k + 1) == KTabs(data, k) + MissingTabs(s, q.virt, q.virt + q.n);
    assert KTabs(data, k) !! MissingTabs(s, q.virt, q.virt + q.n);
  }

  lemma KernHung(data: nat, k: nat, s: View, s': View)
    requires k < 4 && KernTabs(data, k, s)
    requires var q := Kmap(data, k); Hung(s, s', q.virt, q.virt + q.n)
    ensures KernTabs(data, k + 1, s')
  {
    hide Spans;
    hide NeedsTab;
    hide Kmap;
    forall i | 0 <= i < PTES ensures s'.tab[i] == 0 <==> !NeedsTab(data, k + 1, i) {
      KTabsNext(data, k, i);
    }
  }

  /** What mapping entry k of kmap comes to, with n frames free. */
  lemma KernSettled(data: nat, k: nat, s: View, s': View, b: nat, r: MapResult, n: nat, n': nat)
    requires k < 4 && KernTabs(data, k, s)
    requires var q := Kmap(data, k);
             && q.virt + q.n <= |s.look| && (forall v | q.virt <= v < q.virt + q.n :: s.look[v] == 0)
             && Settled(s, s', q.virt, q.virt + q.n, b, r, n, n')
    ensures !r.Remap? && (r.NoMemory? <==> n < |KTabs(data, k + 1)| - |KTabs(data, k)|)
    ensures r.Done? ==> n' == n - (|KTabs(data, k + 1)| - |KTabs(data, k)|) && KernTabs(data, k + 1, s')
  {
    var q := Kmap(data, k);
    KernMissing(data, k, s);
    hide KTabs;
    hide Kmap;
    hide MissingTabs;
    if r.Done? { KernHung(data, k, s, s'); }
    hide Hung;
    hide KernTabs;
  }

  ghost predicate KernLook(data: nat, k: nat, look: seq<nat>) {
    0x100 < data < NFRAMES && k <= 4 && |look| == NPAGES && forall v: nat | v < NPAGES ::
      look[v] == KernEntry(data, k, v)
  }

  ghost predicate Distinct(free: seq<nat>) {
    forall i, j | 0 <= i < j < |free| :: free[i] != free[j]
  }

  ghost function FlagsOf(look: seq<nat>, v: nat): nat {
    if v < |look| then Flags(look[v]) else 0
  }

  ghost function PageOf(mem: Memory, look: seq<nat>, v: nat): Page {
    if v < |look| && Frame(look[v]) < |mem| then mem[Frame(look[v])] else Zeros()
  }

  /** The child's first n pages hold what the parent's held, with the same flags; above
      them it has only the kernel's mappings. */
  ghost predicate Copied(data: nat, parent: seq<nat>, child: seq<nat>, n: nat, mem: Memory, mem': Memory)
    requires 0x100 < data < NFRAMES
  {
    && |child| == |parent| == NPAGES
    && (forall v: nat | v < n && v < UPAGES ::
          child[v] != 0 && Flags(child[v]) == FlagsOf(parent, v) && PageOf(mem', child, v) == PageOf(mem, parent, v))
    && (forall v: nat | n <= v < NPAGES :: child[v] == KernEntry(data, 4, v))
  }

  /** The frame that a non-null pointer names. */
  ghost function One(f: nat): set<nat> { if f == 0 then {} else {f} }

  /** The frames of the user pages from lo up to hi. */
  ghost function FramesIn(s: View, lo: nat, hi: nat): (r: set<nat>)
    ensures forall f :: f in r <==> exists v: nat :: lo <= v < hi && Maps(s, v, f)
  {
    set v: nat | lo <= v < hi && v < |s.look| && Maps(s, v, Frame(s.look[v])) :: Frame(s.look[v])
  }

  /** A call of mappages: memory, address space and free list when it started, and what it is
      to map. */
  datatype MapJob = MapJob(mem: Memory, s: View, free: seq<nat>, lo: nat, hi: nat, f: nat, perm: nat)

  /** Where it stands at page a. */
  ghost predicate Mapping(w: MapJob, mem: Memory, s: View, free: seq<nat>, d: nat, a: nat) {
    && w.perm < 4096 && w.lo <= a && Mapped(w.s.look, s.look, w.lo, a - w.lo, w.f, w.perm) && Extends(w.s, s)
    && FreeSet(free) <= FreeSet(w.free) && Outside(w.mem, mem, {d} + Tables(s))
    && Booked(w.s, s, w.lo, a, w.hi, |w.free|, |free|)
  }

  lemma MappingStart(w: MapJob, d: nat)
    requires w.perm < 4096 && w.lo <= w.hi <= |w.s.look|
    ensures Mapping(w, w.mem, w.s, w.free, d, w.lo)
  {
    MappedNone(w.s.look, w.lo, w.f, w.perm);
    OutsideSame(w.mem, {d} + Tables(w.s));
    ExtendsSame(w.s);
    BookStart(w.s, w.lo, w.hi, |w.free|);
  }

  lemma MappingIs(w: MapJob, mem: Memory, s: View, free: seq<nat>, d: nat, a: nat)
    requires Mapping(w, mem, s, free, d, a)
    ensures w.lo <= a <= w.hi && w.perm < 4096
    ensures Mapped(w.s.look, s.look, w.lo, a - w.lo, w.f, w.perm) && Extends(w.s, s)
    ensures FreeSet(free) <= FreeSet(w.free) && Outside(w.mem, mem, {d} + Tables(s))
  {
  }

  lemma MappingEnd(w: MapJob, mem: Memory, s: View, free: seq<nat>, d: nat)
    requires Mapping(w, mem, s, free, d, w.hi)
    ensures Settled(w.s, s, w.lo, w.hi, w.hi, Done, |w.free|, |free|)
  {
    BookEnd(w.s, s, w.lo, w.hi, |w.free|, |free|);
  }

  /** One more page, by mapOne's result. */
  lemma MappingNext(w: MapJob, mem: Memory, s: View, free: seq<nat>, mem': Memory, s': View, free': seq<nat>,
                    d: nat, a: nat, r: MapResult)
    requires Mapping(w, mem, s, free, d, a) && a < w.hi && a < NPAGES && Shaped(w.s) && Shaped(s) && Shaped(s')
    requires Extends(s, s') && FreeSet(free') <= FreeSet(free) && Outside(mem, mem', {d} + Tables(s'))
    requires s.look[a] != 0 ==> s.tab[Pdx(a)] != 0
    requires r.Remap? <==> s.look[a] != 0
    requires r.NoMemory? <==> s.tab[Pdx(a)] == 0 && free == []
    requires s'.tab == s.tab[Pdx(a) := s'.tab[Pdx(a)]]
    requires if r.NoMemory? then s'.tab == s.tab else s'.tab[Pdx(a)] != 0
    requires s'.look == if r.Done? then s.look[a := Pte(w.f + a - w.lo, w.perm)] else s.look
    requires |free'| == |free| - if s.tab[Pdx(a)] == 0 && !r.NoMemory? then 1 else 0
    ensures Mapping(w, mem', s', free', d, if r.Done? then a + 1 else a)
    ensures !r.Done? ==> Settled(w.s, s', w.lo, w.hi, a, r, |w.free|, |free'|)
  {
    hide Outside;
    hide Extends;
    hide Settled;
    hide Booked;
    hide Mapped;
    hide Pte;
    hide Pdx;
    hide FreeSet;
    hide Tables;
    MappedSame(w.s.look, s.look, w.lo, a - w.lo, w.f, w.perm);
    MappingBook(w, s, s', a, |free|, |free'|, r);
    MappingFrame(w, mem, s, mem', s', d);
    if r.Done? { MappedNext(w.s.look, s.look, s'.look, w.lo, a - w.lo, w.f, w.perm); }
  }

  lemma MappingFrame(w: MapJob, mem: Memory, s: View, mem': Memory, s': View, d: nat)
    requires Extends(w.s, s) && Extends(s, s')
    requires Outside(w.mem, mem, {d} + Tables(s)) && Outside(mem, mem', {d} + Tables(s'))
    ensures Extends(w.s, s') && Outside(w.mem, mem', {d} + Tables(s'))
  {
    ExtendsTables(w.s, s, s');
    hide Extends;
    OutsideBoth(w.mem, mem, mem', {d} + Tables(s), {d} + Tables(s'), {d} + Tables(s'));
  }

  lemma MappingBook(w: MapJob, s: View, s': View, a: nat, n: nat, n': nat, r: MapResult)
    requires Booked(w.s, s, w.lo, a, w.hi, |w.free|, n) && a < w.hi && a < NPAGES
    requires Shaped(w.s) && Shaped(s) && Shaped(s') && s.look[a] == w.s.look[a]
    requires s.look[a] != 0 ==> s.tab[Pdx(a)] != 0
    requires r.Remap? <==> s.look[a] != 0
    requires r.NoMemory? <==> s.tab[Pdx(a)] == 0 && n == 0
    requires s'.tab == s.tab[Pdx(a) := s'.tab[Pdx(a)]]
    requires if r.NoMemory? then s'.tab == s.tab else s'.tab[Pdx(a)] != 0
    requires n' == n - if s.tab[Pdx(a)] == 0 && !r.NoMemory? then 1 else 0
    ensures Booked(w.s, s', w.lo, if r.Done? then a + 1 else a, w.hi, |w.free|, n')
    ensures !r.Done? ==> Settled(w.s, s', w.lo, w.hi, a, r, |w.free|, n')
  {
    BookNext(w.s, s, s', w.lo, a, w.hi, |w.free|, n, n', r);
  }

  class Machine {
    const first: nat         // frame of the first page after the kernel
    const data: nat          // frame where the kernel's writable data starts
    var mem: Memory
    var freelist: nat
    ghost var free: seq<nat> // the free list, head first

    ghost predicate Ok()
      reads this
    {
      |mem| == NFRAMES && 0x100 < data < NFRAMES && Listed(first, mem, freelist, free)
    }

    /** d is the directory of an address space none of whose frames is free. */
    ghost predicate Live(d: nat)
      reads this
    {
      && Ok() && Rooted(mem, d) && Sound(first, NFRAMES, ViewOf(mem, d))
      && FreeSet(free) !! Owned(ViewOf(mem, d))
    }

    /** The free frames and those of d's address space. */
    ghost function Pool(d: nat): set<nat>
      reads this
    {
      FreeSet(free) + Owned(ViewOf(mem, d))
    }

    constructor (first: nat, data: nat, mem: Memory)
      requires 0 < first && 0x100 < data < NFRAMES && |mem| == NFRAMES
      ensures Ok() && free == [] && this.mem == mem && this.first == first && this.data == data
    {
      this.first := first;
      this.data := data;
      this.mem := mem;
      freelist := 0;
      free := [];
    }

    // --------------------------------------------------------------- kalloc.c

    method Kalloc() returns (f: nat)
      requires Ok()
      modifies this`freelist, this`free
      ensures Ok()
      ensures if old(free) == [] then f == 0 && free == [] else f == old(free)[0] && f != 0 && free == old(free)[1..]
      ensures f != 0 ==> InRam(first, NFRAMES, f) && f !in free
    {
      f := freelist;
      if f != 0 {
        ListedPop(first, mem, freelist, free);
        freelist := mem[f][0];
        free := free[1..];
      }
    }

    method Kfree(f: nat)
      requires Ok() && InRam(first, NFRAMES, f) && f !in free
      modifies this
      ensures Ok() && free == [f] + old(free) && Outside(old(mem), mem, {f})
    {
      mem := mem[f := Junk()];
      mem := mem[f := mem[f][0 := freelist]];
      ListedPush(first, old(mem), mem, freelist, free, f);
      freelist := f;
      free := [f] + free;
    }

    // ---------------------------------------------------------------- walking

    /** walkpgdir(): the table page for virtual page v, or 0 (null). */
    method Walk(d: nat, v: nat, alloc: bool) returns (t: nat)
      requires Live(d) && v < NPAGES
      modifies if alloc then {this} else {}
      ensures Live(d) && Pool(d) == old(Pool(d))
      ensures ViewOf(mem, d) == old(ViewOf(mem, d)).(tab := old(ViewOf(mem, d)).tab[Pdx(v) := t])
      ensures !alloc || t == 0 || old(ViewOf(mem, d)).tab[Pdx(v)] != 0 ==> mem == old(mem) && free == old(free)
      ensures t == 0 <==> old(ViewOf(mem, d)).tab[Pdx(v)] == 0 && (!alloc || old(free) == [])
      ensures |free| == |old(free)| - if old(ViewOf(mem, d)).tab[Pdx(v)] == 0 && t != 0 then 1 else 0
      ensures FreeSet(free) <= FreeSet(old(free))
      ensures t in Tables(ViewOf(mem, d)) || t == 0
      ensures Outside(old(mem), mem, {d} + One(t))
    {
      hide Pte;
      hide Frame;
      hide Sound;
      hide Listed;
      if Present(mem[d][Pdx(v)]) {
        t := Frame(mem[d][Pdx(v)]);
        SameTab(ViewOf(mem, d), Pdx(v), t);
      } else {
        SameTab(ViewOf(mem, d), Pdx(v), 0);
        if !alloc {
          return 0;
        }
        ghost var before := free;
        t := Kalloc();
        if t == 0 {
          return 0;
        }
        ghost var m0 := mem;
        mem := mem[t := Zeros()];
        mem := mem[d := mem[d][Pdx(v) := Pte(t, PTE_W + PTE_U)]];
        WalkAdds(first, m0, mem, d, Pdx(v), t, freelist, before, free);
      }
    }

    /** One turn of the loop of mappages(). */
    method MapOne(d: nat, v: nat, f: nat, perm: nat) returns (r: MapResult)
      requires Live(d) && v < NPAGES && perm < 4096
      requires v < UPAGES ==> InRam(first, NFRAMES, f) && f !in Pool(d)
      modifies this
      ensures Live(d) && Extends(old(ViewOf(mem, d)), ViewOf(mem, d))
      ensures r.Remap? <==> old(ViewOf(mem, d)).look[v] != 0
      ensures r.NoMemory? <==> old(ViewOf(mem, d)).tab[Pdx(v)] == 0 && old(free) == []
      ensures r.NoMemory? ==> mem == old(mem) && free == old(free)
      ensures ViewOf(mem, d).tab == old(ViewOf(mem, d)).tab[Pdx(v) := ViewOf(mem, d).tab[Pdx(v)]]
      ensures !r.NoMemory? ==> ViewOf(mem, d).tab[Pdx(v)] != 0
      ensures ViewOf(mem, d).look == if r.Done? then old(ViewOf(mem, d)).look[v := Pte(f, perm)]
              else old(ViewOf(mem, d)).look
      ensures Pool(d) == old(Pool(d)) + if r.Done? && v < UPAGES then {f} else {}
      ensures |free| == |old(free)| - if old(ViewOf(mem, d)).tab[Pdx(v)] == 0 && !r.NoMemory? then 1 else 0
      ensures FreeSet(free) <= FreeSet(old(free))
      ensures Outside(old(mem), mem, {d} + Tables(ViewOf(mem, d)))
    {
      hide Pte;
      hide Frame;
      hide Present;
      hide Sound;
      hide Listed;
      hide ViewOf;
      hide Rooted;
      hide Outside;
      var t := Walk(d, v, true);
      ghost var s := ViewOf(mem, d);
      OutsideMore(old(mem), mem, {d} + One(t), {d} + Tables(s));
      if t == 0 {
        SameTab(old(ViewOf(mem, d)), Pdx(v), t);
        NoTable(d, v);
        return NoMemory;
      }
      TablePage(first, mem, d, v, t);
      if Present(mem[t][Ptx(v)]) {
        return Remap;
      }
      ghost var m := mem;
      mem := mem[t := mem[t][Ptx(v) := Pte(f, perm)]];
      OutsideOne(m, mem[t], t);
      OutsideThen(old(mem), m, mem, {d} + Tables(s), {t});
      EntryAdds(first, m, mem, d, v, Pte(f, perm), freelist, free);
      r := Done;
    }

    /** mappages(): page a + j maps to frame f + j, for the k pages reached; the others
        translate as before. */
    method Mappages(d: nat, va: nat, size: nat, f: nat, perm: nat) returns (r: MapResult, ghost k: nat)
      requires Live(d) && 0 < size && va + size <= WORD && perm < 4096
      requires forall g | g in Given(va / PGSIZE, Pages(va, size), f) :: InRam(first, NFRAMES, g) && g !in Pool(d)
      modifies this
      ensures Live(d) && Extends(old(ViewOf(mem, d)), ViewOf(mem, d))
      ensures k <= Pages(va, size) && (r.Done? <==> k == Pages(va, size))
      ensures Mapped(old(ViewOf(mem, d)).look, ViewOf(mem, d).look, va / PGSIZE, k, f, perm)
      ensures va / PGSIZE + Pages(va, size) <= NPAGES
      ensures var a := va / PGSIZE;
              Settled(old(ViewOf(mem, d)), ViewOf(mem, d), a, a + Pages(va, size), a + k, r, |old(free)|, |free|)
      ensures Pool(d) == old(Pool(d)) + Given(va / PGSIZE, k, f)
      ensures FreeSet(free) <= FreeSet(old(free))
      ensures Outside(old(mem), mem, {d} + Tables(ViewOf(mem, d)))
    {
      hide Pte;
      hide Frame;
      hide Live;
      hide ViewOf;
      hide Pool;
      hide Given;
      hide Pages;
      hide Outside;
      hide Extends;
      hide Mapping;
      hide Mapped;
      hide Settled;
      hide Pdx;
      LastPage(va, size);
      var a := va / PGSIZE;
      var last := (va + size - 1) % WORD / PGSIZE;
      k := 0;
      var pa := f;
      MappedNone(ViewOf(mem, d).look, a, f, perm);
      ghost var w := MapJob(mem, ViewOf(mem, d), free, a, last + 1, f, perm);
      MappingStart(w, d);
      while true
        invariant 0 <= k && a == va / PGSIZE + k && pa == f + k && a <= last < NPAGES
                  && last == va / PGSIZE + Pages(va, size) - 1
        invariant Live(d) && Pool(d) == old(Pool(d)) + Given(va / PGSIZE, k, f)
        invariant Mapping(w, mem, ViewOf(mem, d), free, d, a)
        decreases last - a
      {
        GivenNext(va / PGSIZE, k, Pages(va, size), f);
        TabOfMapped(d, a);
        ghost var m, s, free1 := mem, ViewOf(mem, d), free;
        r := MapOne(d, a, pa, perm);
        MappingNext(w, m, s, free1, mem, ViewOf(mem, d), free, d, a, r);
        if !r.Done? {
          MappingIs(w, mem, ViewOf(mem, d), free, d, a);
          return;
        }
        k := k + 1;
        if a == last {
          MappingIs(w, mem, ViewOf(mem, d), free, d, a + 1);
          MappingEnd(w, mem, ViewOf(mem, d), free, d);
          return;
        }
        a := a + 1;
        pa := pa + 1;
      }
    }

    // ------------------------------------------------------- user pages, freeing

    /** The present page v of deallocuvm's loop: freed, then unmapped. */
    method FreePage(d: nat, v: nat, t: nat)
      requires Live(d) && v < UPAGES && t == ViewOf(mem, d).tab[Pdx(v)] && t != 0 && ViewOf(mem, d).look[v] != 0
      modifies this
      ensures Live(d) && Pool(d) == old(Pool(d))
      ensures ViewOf(mem, d) == old(ViewOf(mem, d)).(look := old(ViewOf(mem, d)).look[v := 0])
      ensures free == [Frame(old(ViewOf(mem, d)).look[v])] + old(free)
      ensures Outside(old(mem), mem, {t, Frame(old(ViewOf(mem, d)).look[v])})
    {
      hide Frame;
      hide Present;
      hide Sound;
      hide Listed;
      hide Lookup;
      hide ViewOf;
      ghost var s := ViewOf(mem, d);
      TablePage(first, mem, d, v, t);
      var pa := Frame(mem[t][Ptx(v)]);
      UserPage(first, NFRAMES, s, v, pa);
      Kfree(pa);
      ghost var m := mem;
      mem := mem[t := mem[t][Ptx(v) := 0]];
      PageFreed(first, old(mem), m, mem, d, v, freelist, free);
    }

    /** deallocuvm(): the pages from newsz up to oldsz are unmapped and their frames freed,
        exactly as if every page of the range had been looked at. */
    method Deallocuvm(d: nat, oldsz: nat, newsz: nat) returns (r: nat)
      requires Live(d) && oldsz <= KERNBASE
      modifies this
      ensures r == if newsz >= oldsz then oldsz else newsz
      ensures Live(d) && Pool(d) == old(Pool(d)) && ViewOf(mem, d).tab == old(ViewOf(mem, d)).tab
      ensures Cleared(old(ViewOf(mem, d)).look, ViewOf(mem, d).look, RoundUp(newsz), RoundUp(oldsz))
      ensures FreeSet(free) == FreeSet(old(free)) + FramesIn(old(ViewOf(mem, d)), RoundUp(newsz), RoundUp(oldsz))
      ensures Outside(old(mem), mem, Tables(ViewOf(mem, d)) + FreeSet(free))
    {
      hide Live;
      hide Pool;
      hide ViewOf;
      hide Frame;
      hide Present;
      hide Cleared;
      hide Outside;
      hide Ok;
      hide Sound;
      hide Rooted;
      hide Owned;
      hide Distinct;
      hide FramesIn;
      ghost var look0 := ViewOf(mem, d).look;
      ClearedNone(look0, RoundUp(newsz), RoundUp(oldsz));
      OutsideSame(mem, Tables(ViewOf(mem, d)) + FreeSet(free));
      ghost var s0, f0 := ViewOf(mem, d), free;
      ParentBefore(d);
      if newsz >= oldsz {
        DeallocFrees(d, s0, f0, RoundUp(newsz), RoundUp(oldsz));
        return oldsz;
      }
      var a := RoundUp(newsz);
      while a * PGSIZE < oldsz
        invariant Live(d) && Pool(d) == old(Pool(d)) && ViewOf(mem, d).tab == old(ViewOf(mem, d)).tab
        invariant Cleared(look0, ViewOf(mem, d).look, RoundUp(newsz), Min(a, RoundUp(oldsz)))
        invariant FreeSet(old(free)) <= FreeSet(free)
        invariant Outside(old(mem), mem, Tables(ViewOf(mem, d)) + FreeSet(free))
        decreases RoundUp(oldsz) - a
      {
        var t := Walk(d, a, false);
        SameTab(ViewOf(mem, d), Pdx(a), t);
        if t == 0 {
          ClearedSkip(d, look0, RoundUp(newsz), a, RoundUp(oldsz));
          a := (Pdx(a) + 1) * 1024 - 1;
        } else {
          EntryShown(d, a, t);
          if Present(mem[t][Ptx(a)]) {
            ghost var s, m, fr := ViewOf(mem, d), mem, free;
            FreePage(d, a, t);
            ClearedNext(look0, s.look, ViewOf(mem, d).look, RoundUp(newsz), a, RoundUp(oldsz));
            OutsideFreed(old(mem), m, mem, s, ViewOf(mem, d), a, t, fr, free);
          } else {
            ClearedNext(look0, ViewOf(mem, d).look, ViewOf(mem, d).look, RoundUp(newsz), a, RoundUp(oldsz));
          }
        }
        a := a + 1;
      }
      DeallocFrees(d, s0, f0, RoundUp(newsz), RoundUp(oldsz));
      return newsz;
    }

    /** No table, so nothing is mapped in the rest of its four megabytes. */
    lemma ClearedSkip(d: nat, look0: seq<nat>, lo: nat, a: nat, hi: nat)
      requires Live(d) && lo <= a < hi <= UPAGES && ViewOf(mem, d).tab[Pdx(a)] == 0
      requires Cleared(look0, ViewOf(mem, d).look, lo, a)
      ensures a < (Pdx(a) + 1) * 1024
      ensures Cleared(look0, ViewOf(mem, d).look, lo, Min((Pdx(a) + 1) * 1024, hi))
    {
      var s := ViewOf(mem, d);
      forall v | a <= v < (Pdx(a) + 1) * 1024 && v < NPAGES ensures s.look[v] == 0 {
        assert Pdx(v) == Pdx(a);
      }
    }

    lemma EntryShown(d: nat, v: nat, t: nat)
      requires Live(d) && v < NPAGES && t == ViewOf(mem, d).tab[Pdx(v)] && t != 0
      ensures t < |mem| && (Present(mem[t][Ptx(v)]) <==> ViewOf(mem, d).look[v] != 0)
    {
      TablePage(first, mem, d, v, t);
    }

    /** freevm(): every frame of the address space is free again. */
    method Freevm(d: nat)
      requires Live(d)
      modifies this
      ensures Ok() && FreeSet(free) == old(Pool(d)) && Outside(old(mem), mem, old(Pool(d)))
    {
      hide Sound;
      hide Listed;
      hide Frame;
      hide Present;
      hide ViewOf;
      hide Outside;
      hide TabsBelow;
      hide Cleared;
      hide Rooted;
      var _ := Deallocuvm(d, KERNBASE, 0);
      ghost var s, m, f0 := ViewOf(mem, d), mem, FreeSet(free);
      NoUsers(old(ViewOf(mem, d)).look, s);
      TabsAre(first, NFRAMES, s);
      OutsideMore(old(mem), mem, Tables(s) + f0, old(Pool(d)));
      var i := 0;
      while i < PTES
        invariant i <= PTES && Ok() && |m| == NFRAMES && InRam(first, NFRAMES, d) && mem[d] == m[d]
        invariant FreeSet(free) == f0 + TabsBelow(s, i)
        invariant Outside(old(mem), mem, old(Pool(d)))
      {
        TabsNext(first, NFRAMES, s, i);
        TabAt(m, d, i);
        if Present(mem[d][i]) {
          ghost var before := mem;
          Kfree(Frame(mem[d][i]));
          OutsideKeeps(before, mem, {s.tab[i]}, d);
          OutsideThen(old(mem), before, mem, old(Pool(d)), {s.tab[i]});
        }
        i := i + 1;
      }
      ghost var before := mem;
      Kfree(d);
      OutsideThen(old(mem), before, mem, old(Pool(d)), {d});
    }

    // ------------------------------------------------------ user pages, growing

    /** kalloc, fill, mappages: a page of the given contents at user page a.  If only the
        mapping failed, the caller still holds frame f. */
    method NewPage(d: nat, a: nat, contents: Page, perm: nat) returns (r: MapResult, f: nat)
      requires Live(d) && a < UPAGES && perm < 4096
      modifies this
      ensures Live(d) && Extends(old(ViewOf(mem, d)), ViewOf(mem, d))
      ensures ViewOf(mem, d).look == if r.Done? then old(ViewOf(mem, d)).look[a := Pte(f, perm)]
              else old(ViewOf(mem, d)).look
      ensures r.Done? ==> f < NFRAMES && old(ViewOf(mem, d)).look[a] == 0 && mem[f] == contents
                          && Pool(d) == old(Pool(d))
      ensures r.Done? ==> |free| == |old(free)| - Cost(old(ViewOf(mem, d)), a, a + 1)
      ensures r.Done? ==> Hung(old(ViewOf(mem, d)), ViewOf(mem, d), a, a + 1)
      ensures r.NoMemory? <==> |old(free)| < Cost(old(ViewOf(mem, d)), a, a + 1)
      ensures r.NoMemory? ==> free == [] && f !in Pool(d) && Pool(d) + One(f) == old(Pool(d))
      ensures r.Remap? <==> old(free) != [] && old(ViewOf(mem, d)).look[a] != 0
      ensures f != 0 ==> f in old(free) && InRam(first, NFRAMES, f)
      ensures One(f) <= old(Pool(d))
      ensures f == 0 ==> r.NoMemory? && mem == old(mem)
      ensures FreeSet(free) <= FreeSet(old(free))
      ensures Outside(old(mem), mem, {d} + One(f) + Tables(ViewOf(mem, d)))
    {
      hide Sound;
      hide Listed;
      hide Frame;
      hide Pte;
      hide ViewOf;
      hide Given;
      hide Mapped;
      hide Rooted;
      hide Outside;
      hide Extends;
      hide Owned;
      hide Settled;
      hide Cost;
      hide Hung;
      ZeroNotOwned(d);
      OneCost(ViewOf(mem, d), a);
      TabOfMapped(d, a);
      OutsideSame(mem, {d} + One(0) + Tables(ViewOf(mem, d)));
      ExtendsSame(ViewOf(mem, d));
      f := Kalloc();
      if f == 0 {
        return NoMemory, 0;
      }
      ghost var m := mem;
      mem := mem[f := contents];
      OutsideOne(m, contents, f);
      Filled(first, m, mem, d, f, freelist, old(free), free);
      GivenOne(a, f);
      ghost var k, look, m1, s, n := 0, ViewOf(mem, d).look, mem, ViewOf(mem, d), |free|;
      r, k := Mappages(d, a * PGSIZE, PGSIZE, f, perm);
      SettledOne(s, ViewOf(mem, d), a, a + k, r, n, |free|);
      MappedOne(look, ViewOf(mem, d).look, a, k, f, perm);
      OutsideBoth(m, m1, mem, {f}, {d} + Tables(ViewOf(mem, d)), {d} + One(f) + Tables(ViewOf(mem, d)));
      if r.Done? {
        UserPage(first, NFRAMES, ViewOf(mem, d), a, f);
        OutsideKeeps(m1, mem, {d} + Tables(ViewOf(mem, d)), f);
      }
    }

    /** A cleared page from the free list is an address space that maps nothing. */
    lemma EmptySpace(m: Memory, d: nat, before: seq<nat>)
      requires |m| == NFRAMES && Listed(first, m, freelist, free) && 0x100 < data < NFRAMES
      requires before != [] && d == before[0] && free == before[1..] && InRam(first, NFRAMES, d) && d !in free
      requires mem == m[d := Zeros()]
      ensures Live(d) && Pool(d) == FreeSet(before) && KernLook(data, 0, ViewOf(mem, d).look)
      ensures KernTabs(data, 0, ViewOf(mem, d))
    {
      ListedFrame(first, m, mem, freelist, free, {d});
      ZeroView(mem, d);
      assert before == [d] + free;
    }

    /** The frames of the pages that went are the ones that were freed. */
    lemma DeallocFrees(d: nat, s0: View, f0: seq<nat>, lo: nat, hi: nat)
      requires Live(d) && Sound(first, NFRAMES, s0) && FreeSet(f0) !! Owned(s0) && hi <= UPAGES
      requires Pool(d) == FreeSet(f0) + Owned(s0)
      requires ViewOf(mem, d).tab == s0.tab && s0.dir == d && Cleared(s0.look, ViewOf(mem, d).look, lo, hi)
      ensures FreeSet(free) == FreeSet(f0) + FramesIn(s0, lo, hi)
    {
      var s := ViewOf(mem, d);
      ClearedOwned(first, s0, s, lo, hi);
      hide Sound;
      assert FreeSet(free) == Pool(d) - Owned(s);
    }

    lemma LiveOk(d: nat)
      requires Live(d)
      ensures Ok() && 0x100 < data < NFRAMES
    {
    }

    lemma PoolFree(d: nat)
      ensures FreeSet(free) <= Pool(d)
    {
    }

    lemma ParentBefore(d: nat)
      requires Live(d)
      ensures Ok() && |mem| == NFRAMES && Rooted(mem, d) && Sound(first, NFRAMES, ViewOf(mem, d))
      ensures FreeSet(free) !! Owned(ViewOf(mem, d)) && Distinct(free) && 0x100 < data < NFRAMES
      ensures Pool(d) == FreeSet(free) + Owned(ViewOf(mem, d))
    {
    }

    /** The parent's entry for page v, or one that is not present. */
    method ParentEntry(d: nat, v: nat, ghost m0: Memory) returns (w: nat)
      requires Live(d) && v < UPAGES && ViewOf(mem, d) == ViewOf(m0, d) && |m0| == |mem|
      requires forall f | f in Owned(ViewOf(m0, d)) && f < |mem| :: mem[f] == m0[f]
      ensures Present(w) <==> ViewOf(m0, d).look[v] != 0
      ensures Present(w) ==>
                var look := ViewOf(m0, d).look;
                && look[v] == w && Flags(w) < 4096 && WithP(Flags(w)) == FlagsOf(look, v)
                && Frame(w) < |mem| && mem[Frame(w)] == PageOf(m0, look, v)
    {
      hide ViewOf;
      hide Owned;
      ZeroAbsent();
      var t := Walk(d, v, false);
      SameTab(ViewOf(m0, d), Pdx(v), t);
      if t == 0 {
        NoTable(d, v);
        return 0;
      }
      EntryShown(d, v, t);
      w := mem[t][Ptx(v)];
      if Present(w) {
        TablePage(first, mem, d, v, t);
        UserPage(first, NFRAMES, ViewOf(mem, d), v, Frame(w));
        SetP(w);
      }
    }

    lemma TabOfMapped(d: nat, v: nat)
      requires Live(d) && v < NPAGES
      ensures ViewOf(mem, d).look[v] != 0 ==> ViewOf(mem, d).tab[Pdx(v)] != 0
    {
    }

    lemma NoTable(d: nat, v: nat)
      requires Live(d) && v < NPAGES && ViewOf(mem, d).tab[Pdx(v)] == 0
      ensures ViewOf(mem, d).look[v] == 0
    {
    }

    lemma SpacesApart(c: nat, d: nat, free0: seq<nat>)
      requires Pool(c) == FreeSet(free0) && FreeSet(free0) !! Owned(ViewOf(mem, d))
      ensures Owned(ViewOf(mem, c)) !! Owned(ViewOf(mem, d))
    {
    }

    lemma LiveSound(d: nat)
      requires Live(d)
      ensures |mem| == NFRAMES && Sound(first, NFRAMES, ViewOf(mem, d))
    {
    }

    lemma PoolHas(d: nat, pool: set<nat>)
      requires Pool(d) <= pool
      ensures {d} + Tables(ViewOf(mem, d)) <= pool
    {
    }

    lemma ZeroNotOwned(d: nat)
      requires Live(d)
      ensures 0 !in Pool(d)
    {
    }

    /** The failure paths of allocuvm's loop; f is 0 unless the caller holds that frame. */
    method GiveUp(d: nat, oldsz: nat, newsz: nat, f: nat)
      requires Live(d) && oldsz <= newsz <= KERNBASE
      requires f != 0 ==> InRam(first, NFRAMES, f) && f !in Pool(d)
      modifies this
      ensures Live(d) && Pool(d) == old(Pool(d)) + One(f)
      ensures ViewOf(mem, d).tab == old(ViewOf(mem, d)).tab
      ensures Cleared(old(ViewOf(mem, d)).look, ViewOf(mem, d).look, RoundUp(oldsz), RoundUp(newsz))
      ensures Outside(old(mem), mem, old(Pool(d)) + One(f))
    {
      hide Sound;
      hide Listed;
      hide ViewOf;
      hide Cleared;
      hide Outside;
      hide Rooted;
      var _ := Deallocuvm(d, newsz, oldsz);
      ghost var m, s := mem, ViewOf(mem, d);
      OutsideMore(old(mem), mem, Tables(s) + FreeSet(free), old(Pool(d)) + One(f));
      if f != 0 {
        Kfree(f);
        OutsideThen(old(mem), m, mem, old(Pool(d)) + One(f), {f});
        Freed(first, m, mem, d, f);
      }
    }

    /** allocuvm(): on success every new page is a zeroed frame of its own, writable by the
        user; on failure nothing is mapped from oldsz up to newsz, and elsewhere the
        translation is as before. */
    method Allocuvm(d: nat, oldsz: nat, newsz: nat) returns (r: Outcome)
      requires Live(d)
      modifies this
      ensures newsz >= KERNBASE ==> r == Value(0) && mem == old(mem) && free == old(free)
      ensures oldsz > newsz && newsz < KERNBASE ==> r == Value(oldsz) && mem == old(mem) && free == old(free)
      ensures Live(d) && Extends(old(ViewOf(mem, d)), ViewOf(mem, d))
      ensures r.Value? ==> Pool(d) == old(Pool(d)) && Outside(old(mem), mem, old(Pool(d)))
      ensures oldsz <= newsz < KERNBASE ==>
                var s, lo, hi := old(ViewOf(mem, d)), RoundUp(oldsz), RoundUp(newsz);
                if Short(s, lo, hi, |old(free)|) then
                  r == Value(0) && Cleared(s.look, ViewOf(mem, d).look, lo, hi)
                else if SomeMapped(s.look, lo, hi) then r == Panic
                else
                  && r == Value(newsz)
                  && Fresh(s.look, ViewOf(mem, d).look, lo, hi, mem, old(free), _ => 7, _ => Zeros())
    {
      hide Live;
      hide ViewOf;
      hide Pool;
      hide Pte;
      hide Frame;
      hide Outside;
      hide Extends;
      hide Fresh;
      hide Cleared;
      hide SomeMapped;
      hide FreeSet;
      hide Tables;
      hide Zeros;
      hide FirstMapped;
      hide Growing;
      hide Short;
      hide Cost;
      hide Hung;
      hide Pdx;
      OutsideSame(mem, Pool(d));
      ExtendsSame(ViewOf(mem, d));
      if newsz >= KERNBASE {
        return Value(0);
      }
      if newsz < oldsz {
        return Value(oldsz);
      }
      var a := RoundUp(oldsz);
      ghost var s0, flags, pages := ViewOf(mem, d), (v: nat) => 7, (v: nat) => Zeros();
      FreshNone(s0.look, a, mem, free, flags, pages);
      ghost var lo, hi := RoundUp(oldsz), RoundUp(newsz);
      RoundUps(oldsz, newsz);
      GrowStart(s0, lo, hi, |free|);
      while a * PGSIZE < newsz
        invariant Growing(s0, ViewOf(mem, d), lo, a, hi, |old(free)|, |free|)
        invariant RoundUp(oldsz) <= a <= RoundUp(newsz)
        invariant Live(d) && Pool(d) == old(Pool(d)) && Extends(s0, ViewOf(mem, d))
        invariant Fresh(s0.look, ViewOf(mem, d).look, RoundUp(oldsz), a, mem, old(free), flags, pages)
        invariant Outside(old(mem), mem, old(Pool(d)))
        invariant FreeSet(free) <= FreeSet(old(free))
        decreases newsz - a * PGSIZE
      {
        ghost var s, m, n := ViewOf(mem, d), mem, |free|;
        FreshSame(s0.look, s.look, lo, a, m, old(free), flags, pages);
        TabOfMapped(d, a);
        var q, f := NewPage(d, a, Zeros(), PTE_W + PTE_U);
        GrowNext(s0, s, ViewOf(mem, d), lo, a, hi, |old(free)|, n, |free|, q);
        ExtendsTables(s0, s, ViewOf(mem, d));
        if q.Remap? {
          FreshBeyond(s0.look, s.look, RoundUp(oldsz), a, RoundUp(newsz), m, old(free), flags, pages);
          return Panic;
        }
        ghost var s1, m1 := ViewOf(mem, d), mem;
        PoolHas(d, old(Pool(d)));
        OutsideThen(old(mem), m, mem, old(Pool(d)), {d} + One(f) + Tables(s1));
        if q.NoMemory? {
          GiveUp(d, oldsz, newsz, f);
          ExtendsTables(s0, s1, ViewOf(mem, d));
          OutsideThen(old(mem), m1, mem, old(Pool(d)), old(Pool(d)));
          FreshCleared(s0.look, s1.look, ViewOf(mem, d).look, RoundUp(oldsz), a, RoundUp(newsz), m, old(free), flags,
                       pages);
          return Value(0);
        }
        LiveSound(d);
        FreshNext(first, s0.look, s, s1, RoundUp(oldsz), a, f, m, mem, old(free), flags, pages, PTE_W + PTE_U);
        a := a + 1;
      }
      GrowEnd(s0, ViewOf(mem, d), lo, hi, |old(free)|, |free|);
      NoneMapped(s0.look, lo, hi);
      return Value(newsz);
    }

    // ------------------------------------------------------ whole address spaces

    /** Entry k of kmap. */
    method MapKernel(d: nat, k: nat) returns (ok: bool)
      requires Live(d) && k < 4 && 0x100 < data < NFRAMES
      requires KernLook(data, k, ViewOf(mem, d).look) && KernTabs(data, k, ViewOf(mem, d))
      modifies this
      ensures Live(d) && Pool(d) == old(Pool(d)) && Outside(old(mem), mem, old(Pool(d)))
      ensures ok <==> |old(free)| >= |KTabs(data, k + 1)| - |KTabs(data, k)|
      ensures ok ==> |free| == |old(free)| - (|KTabs(data, k + 1)| - |KTabs(data, k)|)
      ensures ok ==> KernLook(data, k + 1, ViewOf(mem, d).look) && KernTabs(data, k + 1, ViewOf(mem, d))
    {
      hide Live;
      hide ViewOf;
      hide Pool;
      hide Outside;
      hide KernLook;
      hide Kmap;
      hide Mapped;
      hide Pte;
      hide KTabs;
      hide KernTabs;
      hide Settled;
      hide Extends;
      var q := Kmap(data, k);
      ghost var s, n, n1 := ViewOf(mem, d), 0, |free|;
      KmapGiven(data, k);
      var r;
      r, n := Mappages(d, q.virt * PGSIZE, q.n * PGSIZE, q.phys, q.perm);
      KernTurn(data, k, s, ViewOf(mem, d), n, r, n1, |free|);
      PoolHas(d, old(Pool(d)));
      OutsideMore(old(mem), mem, {d} + Tables(ViewOf(mem, d)), old(Pool(d)));
      ok := r.Done?;
    }

    /** A cleared page as a directory. */
    method NewDirectory() returns (d: nat)
      requires Ok()
      modifies this
      ensures d == 0 <==> old(free) == []
      ensures d == 0 ==> Ok() && free == old(free)
      ensures d != 0 ==> Live(d) && Pool(d) == FreeSet(old(free)) && |free| == |old(free)| - 1
      ensures d != 0 ==> KernLook(data, 0, ViewOf(mem, d).look) && KernTabs(data, 0, ViewOf(mem, d))
      ensures 0x100 < data < NFRAMES && Outside(old(mem), mem, FreeSet(old(free)))
    {
      hide Live;
      hide ViewOf;
      hide Pool;
      hide Outside;
      hide KernLook;
      hide KernTabs;
      d := Kalloc();
      OutsideSame(mem, FreeSet(old(free)));
      if d == 0 {
        return;
      }
      ghost var m := mem;
      mem := mem[d := Zeros()];
      OutsideOne(m, Zeros(), d);
      EmptySpace(m, d, old(free));
      OutsideThen(m, m, mem, FreeSet(old(free)), {d});
    }

    /** setupkvm(): a directory with exactly the kernel's mappings, made of frames that were
        free; or null with all of them free again, exactly if there are fewer than a directory
        and the kernel's tables need. */
    method Setupkvm() returns (d: nat)
      requires Ok()
      modifies this
      ensures d == 0 <==> |old(free)| < KFRAMES
      ensures d != 0 ==> Live(d) && Pool(d) == FreeSet(old(free)) && KernLook(data, 4, ViewOf(mem, d).look)
      ensures d != 0 ==> |free| == |old(free)| - KFRAMES && KernTabs(data, 4, ViewOf(mem, d))
      ensures d == 0 ==> Ok() && FreeSet(free) == FreeSet(old(free))
      ensures Outside(old(mem), mem, FreeSet(old(free)))
    {
      hide Live;
      hide Ok;
      hide ViewOf;
      hide Pool;
      hide Outside;
      hide KernLook;
      hide Kmap;
      hide Mapped;
      hide Pte;
      hide KTabs;
      hide KernTabs;
      hide Zeros;
      hide FreeSet;
      hide Owned;
      d := NewDirectory();
      if d == 0 {
        return;
      }
      KTabsSize(data, 0);
      KTabsSize(data, 4);
      var k := 0;
      while k < 4
        invariant k <= 4 && Live(d) && Pool(d) == FreeSet(old(free)) && KernLook(data, k, ViewOf(mem, d).look)
        invariant Outside(old(mem), mem, FreeSet(old(free))) && 0x100 < data < NFRAMES
        invariant KernTabs(data, k, ViewOf(mem, d)) && |free| == |old(free)| - 1 - |KTabs(data, k)|
      {
        ghost var m1 := mem;
        KTabsSize(data, k + 1);
        var ok := MapKernel(d, k);
        OutsideThen(old(mem), m1, mem, FreeSet(old(free)), FreeSet(old(free)));
        if !ok {
          ghost var m2 := mem;
          Freevm(d);
          OutsideThen(old(mem), m2, mem, FreeSet(old(free)), FreeSet(old(free)));
          return 0;
        }
        k := k + 1;
      }
    }

    /** The failure path of copyuvm: free the page in hand, if any, and the child. */
    method Abandon(d: nat, f: nat)
      requires Live(d) && (f != 0 ==> InRam(first, NFRAMES, f) && f !in Pool(d))
      modifies this
      ensures Ok() && FreeSet(free) == old(Pool(d)) + One(f) && Outside(old(mem), mem, old(Pool(d)) + One(f))
    {
      hide Sound;
      hide Listed;
      hide ViewOf;
      hide Outside;
      hide Rooted;
      OutsideSame(mem, One(f));
      if f != 0 {
        Kfree(f);
        Freed(first, old(mem), mem, d, f);
      }
      ghost var m, pool := mem, Pool(d);
      assert pool == old(Pool(d)) + One(f);
      Freevm(d);
      OutsideBoth(old(mem), m, mem, One(f), pool, pool);
    }

    /** The parent's tables and pages are outside the frames the child is made of. */
    lemma ParentLive(d: nat, m0: Memory, free0: seq<nat>)
      requires Ok() && |m0| == NFRAMES && Rooted(m0, d) && Sound(first, NFRAMES, ViewOf(m0, d))
               && FreeSet(free0) !! Owned(ViewOf(m0, d))
      requires FreeSet(free) <= FreeSet(free0) && Outside(m0, mem, FreeSet(free0))
      ensures Live(d) && ViewOf(mem, d) == ViewOf(m0, d)
      ensures forall f | f in Owned(ViewOf(m0, d)) && f < |mem| :: mem[f] == m0[f]
    {
      ViewFrame(m0, mem, d);
    }

    /** copyuvm(): the child maps the same pages with the same flags and the same contents,
        to frames that were free; or null, and the free frames are those there were before.
        In either case the parent is as before. */
    method Copyuvm(d: nat, sz: nat) returns (r: Outcome)
      requires Live(d) && sz <= KERNBASE
      modifies this
      ensures RoundUp(sz) <= UPAGES
      ensures var n := RoundUp(sz);
              var e := FirstHole(old(ViewOf(mem, d)).look, 0, n);
              && (r == Value(0) <==> |old(free)| < KFRAMES + UserNeed(e))
              && (r.Panic? <==> r != Value(0) && e < n)
      ensures r.Value? ==> Live(d) && ViewOf(mem, d) == old(ViewOf(mem, d))
      ensures r.Value? ==> Outside(old(mem), mem, FreeSet(old(free)))
      ensures r.Value? && r.n != 0 ==>
                && Live(r.n) && Pool(r.n) == FreeSet(old(free)) && Owned(ViewOf(mem, r.n)) !! Owned(ViewOf(mem, d))
                && Copied(data, old(ViewOf(mem, d)).look, ViewOf(mem, r.n).look, RoundUp(sz), old(mem), mem)
      ensures r == Value(0) ==> FreeSet(free) == FreeSet(old(free))
    {
      hide Live;
      hide Ok;
      hide ViewOf;
      hide Pool;
      hide Outside;
      hide KernLook;
      hide Fresh;
      hide Copied;
      hide Pte;
      hide Frame;
      hide Flags;
      hide Present;
      hide Distinct;
      hide FreeSet;
      hide Tables;
      hide FirstMapped;
      hide Growing;
      hide Cost;
      hide Hung;
      hide Pdx;
      hide KTabs;
      hide KernTabs;
      hide Sound;
      hide Rooted;
      hide Owned;
      hide PageOf;
      hide FlagsOf;
      hide WithP;
      hide UserNeed;
      hide RoundUp;
      ghost var s0, m0, f0 := ViewOf(mem, d), mem, free;
      ParentBefore(d);
      RoundUps(sz, sz);
      var c := Setupkvm();
      if c == 0 {
        ParentLive(d, m0, f0);
        return Value(0);
      }
      ghost var base, flags, pages := ViewOf(mem, c).look, (v: nat) => FlagsOf(s0.look, v),
        (v: nat) => PageOf(m0, s0.look, v);
      FreshNone(base, 0, mem, f0, flags, pages);
      PoolFree(c);
      ghost var sc, n0, hi := ViewOf(mem, c), |free|, RoundUp(sz);
      GrowStart(sc, 0, hi, n0);
      var i := 0;
      Turns(sz, i);
      while i * PGSIZE < sz
        invariant 0 <= i <= hi && (i * PGSIZE < sz <==> i < hi)
        invariant Live(c) && Pool(c) == FreeSet(f0) && FreeSet(free) <= FreeSet(f0)
        invariant FirstHole(s0.look, 0, hi) == FirstHole(s0.look, i, hi)
        invariant Growing(sc, ViewOf(mem, c), 0, i, hi, n0, |free|)
        invariant Outside(m0, mem, FreeSet(f0))
        invariant Fresh(base, ViewOf(mem, c).look, 0, i, mem, f0, flags, pages)
      {
        LiveOk(c);
        ParentLive(d, m0, f0);
        ghost var m, s := mem, ViewOf(mem, c);
        var w := ParentEntry(d, i, m0);
        if !Present(w) {
          CopyPanics(data, sc, ViewOf(mem, c), i, hi, n0, |free|);
          return Panic;
        }
        FreshZero(data, base, s.look, i, mem, f0, flags, pages);
        TabOfMapped(c, i);
        FreshSame(base, s.look, 0, i, mem, f0, flags, pages);
        ghost var n := |free|;
        var q, f := NewPage(c, i, mem[Frame(w)], Flags(w));
        assert !q.Remap?;
        GrowNext(sc, s, ViewOf(mem, c), 0, i, hi, n0, n, |free|, q);
        PoolHas(c, FreeSet(f0));
        OutsideThen(m0, m, mem, FreeSet(f0), {c} + One(f) + Tables(ViewOf(mem, c)));
        if q.NoMemory? {
          CopyShort(data, sc, i, FirstHole(s0.look, 0, hi), n0);
          ghost var m1 := mem;
          Abandon(c, f);
          OutsideThen(m0, m1, mem, FreeSet(f0), FreeSet(f0));
          ParentLive(d, m0, f0);
          return Value(0);
        }
        LiveSound(c);
        FreshNext(first, base, s, ViewOf(mem, c), 0, i, f, m, mem, f0, flags, pages, Flags(w));
        i := i + 1;
        Turns(sz, i);
      }
      LiveOk(c);
      ParentLive(d, m0, f0);
      CopyPanics(data, sc, ViewOf(mem, c), i, hi, n0, |free|);
      FreshCopied(data, base, s0.look, ViewOf(mem, c).look, i, m0, mem, f0);
      SpacesApart(c, d, f0);
      r := Value(c);
    }
  }

  lemma KernUserCost(data: nat, s: View, k: nat)
    requires Shaped(s) && KernTabs(data, 4, s) && k <= UPAGES
    ensures Cost(s, 0, k) == UserNeed(k)
  {
    UserCost(s, k);
  }

  /** The frames have lasted for the first i pages. */
  lemma CopyPanics(data: nat, s0: View, s: View, i: nat, hi: nat, n0: nat, n: nat)
    requires Shaped(s0) && KernTabs(data, 4, s0) && hi <= UPAGES && Growing(s0, s, 0, i, hi, n0, n)
    ensures n0 >= UserNeed(i)
  {
    hide Cost;
    hide KernTabs;
    KernUserCost(data, s0, i);
  }

  /** They have not lasted for page i, and so not for e pages either. */
  lemma CopyShort(data: nat, s0: View, i: nat, e: nat, n0: nat)
    requires Shaped(s0) && KernTabs(data, 4, s0) && i < e <= UPAGES && n0 < Cost(s0, 0, i + 1)
    ensures n0 < UserNeed(e)
  {
    hide Cost;
    hide KernTabs;
    CostMore(s0, 0, i + 1, e);
    KernUserCost(data, s0, e);
  }

  lemma KernTurn(data: nat, k: nat, s: View, s': View, n: nat, r: MapResult, n0: nat, n1: nat)
    requires 0x100 < data < NFRAMES && k < 4 && KernTabs(data, k, s) && KernLook(data, k, s.look)
    requires var q := Kmap(data, k);
             && n <= q.n && (r.Done? ==> n == q.n) && q.perm < 4096
             && Mapped(s.look, s'.look, q.virt, n, q.phys, q.perm)
             && Settled(s, s', q.virt, q.virt + q.n, q.virt + n, r, n0, n1)
    ensures !r.Remap? && (r.NoMemory? <==> n0 < |KTabs(data, k + 1)| - |KTabs(data, k)|)
    ensures r.Done? ==>
              && n1 == n0 - (|KTabs(data, k + 1)| - |KTabs(data, k)|)
              && KernTabs(data, k + 1, s') && KernLook(data, k + 1, s'.look)
  {
    hide KTabs;
    hide KernTabs;
    hide Settled;
    hide Kmap;
    hide KernLook;
    hide Mapped;
    KernNext(data, k, s.look, s'.look, n);
    KernSettled(data, k, s, s', Kmap(data, k).virt + n, r, n0, n1);
  }

  lemma Turns(sz: nat, i: nat)
    ensures i * PGSIZE < sz <==> i < RoundUp(sz)
  {
  }

  lemma RoundUps(a: nat, b: nat)
    requires a <= b <= KERNBASE
    ensures RoundUp(a) <= RoundUp(b) <= UPAGES
  {
  }

  lemma FreshSame(look: seq<nat>, look': seq<nat>, lo: nat, a: nat, mem: Memory, free: seq<nat>,
                  flags: nat -> nat, pages: nat -> Page)
    requires Fresh(look, look', lo, a, mem, free, flags, pages) && a < |look|
    ensures |look'| == |look| && look'[a] == look[a]
  {
  }

  lemma NoneMapped(look: seq<nat>, lo: nat, hi: nat)
    requires lo <= hi <= |look| && FirstMapped(look, lo, hi) == hi
    ensures !SomeMapped(look, lo, hi)
  {
  }

  lemma SameTab(s: View, i: nat, t: nat)
    requires i < |s.tab| && s.tab[i] == t
    ensures s.(tab := s.tab[i := t]) == s
  {
    assert s.tab[i := t] == s.tab;
  }

  /** The first free page, cleared and hung into entry i, leaves the machine sound. */
  lemma WalkAdds(lo: nat, mem: Memory, mem': Memory, d: nat, i: nat, t: nat, head: nat, before: seq<nat>,
                 free: seq<nat>)
    requires |mem| == NFRAMES && Rooted(mem, d) && Sound(lo, NFRAMES, ViewOf(mem, d))
    requires i < PTES && !Present(mem[d][i]) && before != [] && t == before[0] && free == before[1..]
    requires InRam(lo, NFRAMES, t) && t !in free && Listed(lo, mem, head, free)
    requires FreeSet(before) !! Owned(ViewOf(mem, d))
    requires d != t && mem' == mem[t := Zeros()][d := mem[d][i := Pte(t, PTE_W + PTE_U)]]
    ensures var s, s' := ViewOf(mem, d), ViewOf(mem', d);
            && s' == s.(tab := s.tab[i := t]) && Rooted(mem', d) && Sound(lo, NFRAMES, s')
            && Listed(lo, mem', head, free) && FreeSet(free) !! Owned(s')
            && FreeSet(free) + Owned(s') == FreeSet(before) + Owned(s)
  {
    var s := ViewOf(mem, d);
    assert t in FreeSet(before);
    RootedAdds(mem, mem', d, i, t);
    hide Rooted;
    AddTable(mem, mem', d, i, t, Pte(t, PTE_W + PTE_U));
    AddTableSound(lo, NFRAMES, s, i, t);
    ListedFrame(lo, mem, mem', head, free, {d, t});
    assert FreeSet(before) == FreeSet(free) + {t};
  }

  lemma TablePage(lo: nat, mem: Memory, d: nat, v: nat, t: nat)
    requires Sound(lo, |mem|, ViewOf(mem, d)) && v < NPAGES && t == ViewOf(mem, d).tab[Pdx(v)] && t != 0
    ensures t < |mem| && t != d && IsTable(ViewOf(mem, d), t)
    ensures ViewOf(mem, d).look[v] == Shown(mem[t][Ptx(v)])
            && (Present(mem[t][Ptx(v)]) <==> ViewOf(mem, d).look[v] != 0)
  {
    assert IsTable(ViewOf(mem, d), t);
  }

  /** Writing the entry of an unmapped page leaves the machine sound. */
  lemma EntryAdds(lo: nat, mem: Memory, mem': Memory, d: nat, v: nat, w: nat, head: nat, free: seq<nat>)
    requires |mem| == NFRAMES && Rooted(mem, d) && Sound(lo, NFRAMES, ViewOf(mem, d)) && Listed(lo, mem, head, free)
    requires FreeSet(free) !! Owned(ViewOf(mem, d))
    requires v < NPAGES && ViewOf(mem, d).tab[Pdx(v)] != 0 && ViewOf(mem, d).look[v] == 0 && Present(w) && w != 0
    requires v < UPAGES ==> InRam(lo, NFRAMES, Frame(w)) && Frame(w) !in FreeSet(free) + Owned(ViewOf(mem, d))
    requires var t := ViewOf(mem, d).tab[Pdx(v)]; t < |mem| && mem' == mem[t := mem[t][Ptx(v) := w]]
    ensures var s, s' := ViewOf(mem, d), ViewOf(mem', d);
            && s' == s.(look := s.look[v := w]) && Rooted(mem', d) && Sound(lo, NFRAMES, s')
            && Listed(lo, mem', head, free) && FreeSet(free) !! Owned(s')
            && FreeSet(free) + Owned(s') == FreeSet(free) + Owned(s) + if v < UPAGES then {Frame(w)} else {}
  {
    hide Frame;
    hide Pdx;
    hide Ptx;
    hide Lookup;
    var s := ViewOf(mem, d);
    var t := s.tab[Pdx(v)];
    assert IsTable(s, t);
    SetEntry(lo, mem, mem', d, v, w);
    MapSound(lo, NFRAMES, s, v, w);
    ListedFrame(lo, mem, mem', head, free, {t});
  }

  lemma LastPage(va: nat, size: nat)
    requires 0 < size && va + size <= WORD
    ensures va / PGSIZE <= (va + size - 1) % WORD / PGSIZE < NPAGES
    ensures (va + size - 1) % WORD / PGSIZE == va / PGSIZE + Pages(va, size) - 1
  {
  }

  lemma MappedNone(look: seq<nat>, a: nat, f: nat, perm: nat)
    requires perm < 4096
    ensures Mapped(look, look, a, 0, f, perm) && Given(a, 0, f) == {}
  {
  }

  lemma MappedNext(look: seq<nat>, look1: seq<nat>, look2: seq<nat>, a: nat, k: nat, f: nat, perm: nat)
    requires perm < 4096 && Mapped(look, look1, a, k, f, perm) && a + k < |look| && look1[a + k] == 0
    requires look2 == look1[a + k := Pte(f + k, perm)]
    ensures Mapped(look, look2, a, k + 1, f, perm)
  {
    hide Pte;
  }

  lemma GivenNext(a: nat, k: nat, n: nat, f: nat)
    requires k < n
    ensures Given(a, k + 1, f) == Given(a, k, f) + if a + k < UPAGES then {f + k} else {}
    ensures a + k < UPAGES ==> f + k !in Given(a, k, f) && f + k in Given(a, n, f)
  {
    assert ForUser(a, f, f + k) == (a + k < UPAGES);
  }

  lemma MappedSame(look: seq<nat>, look': seq<nat>, a: nat, k: nat, f: nat, perm: nat)
    requires perm < 4096 && Mapped(look, look', a, k, f, perm) && a + k < |look|
    ensures |look'| == |look| && look'[a + k] == look[a + k]
  {
  }

  lemma ExtendsTables(s: View, s1: View, s2: View)
    requires Extends(s, s1) && Extends(s1, s2)
    ensures Extends(s, s2) && Tables(s1) <= Tables(s2)
  {
    forall f | IsTable(s1, f) ensures IsTable(s2, f) {
      var i :| 0 <= i < |s1.tab| && s1.tab[i] == f;
      assert s2.tab[i] == f;
    }
  }

  lemma SetP(w: nat)
    requires Present(w)
    ensures Flags(w) < 4096 && WithP(Flags(w)) == Flags(w)
  {
  }

  lemma UserPage(lo: nat, hi: nat, s: View, v: nat, f: nat)
    requires Sound(lo, hi, s) && v < UPAGES && s.look[v] != 0 && Frame(s.look[v]) == f
    ensures InRam(lo, hi, f) && f != s.dir && !IsTable(s, f) && f in Owned(s)
  {
    hide Frame;
    assert Maps(s, v, f);
  }

  lemma PageFreed(lo: nat, mem: Memory, m: Memory, mem': Memory, d: nat, v: nat, head: nat, free: seq<nat>)
    requires |mem| == NFRAMES && Rooted(mem, d) && Sound(lo, NFRAMES, ViewOf(mem, d)) && v < UPAGES
    requires ViewOf(mem, d).look[v] != 0 && ViewOf(mem, d).tab[Pdx(v)] != 0
    requires var f := Frame(ViewOf(mem, d).look[v]);
             Outside(mem, m, {f}) && Listed(lo, m, head, free) && free != [] && free[0] == f
               && FreeSet(free[1..]) !! Owned(ViewOf(mem, d))
    requires var t := ViewOf(mem, d).tab[Pdx(v)]; t < |m| && mem' == m[t := m[t][Ptx(v) := 0]]
    ensures var s, s' := ViewOf(mem, d), ViewOf(mem', d);
            && s' == s.(look := s.look[v := 0]) && Rooted(mem', d) && Sound(lo, NFRAMES, s')
            && Listed(lo, mem', head, free) && FreeSet(free) !! Owned(s')
            && FreeSet(free) + Owned(s') == FreeSet(free[1..]) + Owned(s)
  {
    var s := ViewOf(mem, d);
    var t, f := s.tab[Pdx(v)], Frame(s.look[v]);
    hide Frame;
    hide Pdx;
    hide Ptx;
    UserPage(lo, NFRAMES, s, v, f);
    assert IsTable(s, t);
    ViewFrame(mem, m, d);
    SetEntry(lo, m, mem', d, v, 0);
    UnmapSound(lo, NFRAMES, s, v);
    assert FreeSet(free) == FreeSet(free[1..]) + {f} by {
      assert free == [f] + free[1..];
    }
    hide Sound;
    ListedFrame(lo, m, mem', head, free, {t});
  }

  lemma ClearedNone(look: seq<nat>, lo: nat, hi: nat)
    ensures Cleared(look, look, lo, Min(lo, hi)) && (hi <= lo ==> Cleared(look, look, lo, hi))
  {
  }

  lemma ClearedNext(look: seq<nat>, look1: seq<nat>, look2: seq<nat>, lo: nat, a: nat, hi: nat)
    requires Cleared(look, look1, lo, a) && lo <= a < |look| && a < hi
    requires look2 == look1[a := 0] || (look2 == look1 && look1[a] == 0)
    ensures Cleared(look, look2, lo, Min(a + 1, hi))
  {
  }

  lemma OutsideSame(mem: Memory, s: set<nat>)
    ensures Outside(mem, mem, s)
  {
  }

  lemma OutsideFreed(mem: Memory, m: Memory, mem': Memory, s: View, s': View, v: nat, t: nat, free: seq<nat>,
                     free': seq<nat>)
    requires v < |s.look| && v < NPAGES && Pdx(v) < |s.tab| && t == s.tab[Pdx(v)] && t != 0
             && s' == s.(look := s.look[v := 0])
    requires Outside(mem, m, Tables(s) + FreeSet(free)) && Outside(m, mem', {t, Frame(s.look[v])})
    requires free' == [Frame(s.look[v])] + free
    ensures Outside(mem, mem', Tables(s') + FreeSet(free')) && FreeSet(free) <= FreeSet(free')
  {
    assert IsTable(s', t);
    assert Frame(s.look[v]) in FreeSet(free');
    assert forall f :: IsTable(s, f) <==> IsTable(s', f);
  }

  lemma NoUsers(look: seq<nat>, s: View)
    requires Cleared(look, s.look, RoundUp(0), RoundUp(KERNBASE))
    ensures Owned(s) == {s.dir} + Tables(s)
  {
    forall v, f ensures !Maps(s, v, f) {
    }
  }

  ghost function TabsBelow(s: View, i: nat): (r: set<nat>) {
    set j | 0 <= j < i && j < |s.tab| && s.tab[j] != 0 :: s.tab[j]
  }

  lemma TabsAre(lo: nat, hi: nat, s: View)
    requires Sound(lo, hi, s)
    ensures InRam(lo, hi, s.dir) && s.dir !in Tables(s)
    ensures TabsBelow(s, 0) == {} && TabsBelow(s, PTES) == Tables(s)
  {
  }

  lemma TabsNext(lo: nat, hi: nat, s: View, i: nat)
    requires Sound(lo, hi, s) && i < PTES
    ensures TabsBelow(s, i + 1) == TabsBelow(s, i) + if s.tab[i] != 0 then {s.tab[i]} else {}
    ensures s.tab[i] != 0 ==> s.tab[i] !in TabsBelow(s, i) && InRam(lo, hi, s.tab[i]) && s.tab[i] in Tables(s)
                              && s.tab[i] != s.dir
  {
    assert s.tab[i] != 0 ==> IsTable(s, s.tab[i]);
  }

  lemma TabAt(mem: Memory, d: nat, i: nat)
    requires Rooted(mem, d) && i < PTES
    ensures d < |mem| && (Present(mem[d][i]) <==> ViewOf(mem, d).tab[i] != 0)
    ensures Present(mem[d][i]) ==> Frame(mem[d][i]) == ViewOf(mem, d).tab[i]
  {
  }

  lemma OutsideMore(mem: Memory, mem': Memory, s: set<nat>, s': set<nat>)
    requires Outside(mem, mem', s) && s <= s'
    ensures Outside(mem, mem', s')
  {
  }

  lemma OutsideThen(mem: Memory, m: Memory, mem': Memory, s: set<nat>, s': set<nat>)
    requires Outside(mem, m, s) && Outside(m, mem', s') && s' <= s
    ensures Outside(mem, mem', s)
  {
  }

  lemma OutsideOne(mem: Memory, p: Page, f: nat)
    requires f < |mem|
    ensures Outside(mem, mem[f := p], {f})
  {
  }

  lemma OutsideBoth(mem: Memory, m: Memory, mem': Memory, s: set<nat>, s': set<nat>, all: set<nat>)
    requires Outside(mem, m, s) && Outside(m, mem', s') && s + s' <= all
    ensures Outside(mem, mem', all)
  {
  }

  lemma ExtendsSame(s: View)
    ensures Extends(s, s)
  {
  }

  lemma OutsideKeeps(mem: Memory, mem': Memory, s: set<nat>, f: nat)
    requires Outside(mem, mem', s) && f !in s && f < |mem|
    ensures f < |mem'| && mem'[f] == mem[f]
  {
  }

  /** Filling a page taken from the free list disturbs neither the list nor the tables. */
  lemma Filled(lo: nat, mem: Memory, mem': Memory, d: nat, f: nat, head: nat, before: seq<nat>, free: seq<nat>)
    requires |mem| == NFRAMES && Rooted(mem, d) && Sound(lo, NFRAMES, ViewOf(mem, d)) && Listed(lo, mem, head, free)
    requires before != [] && f == before[0] && free == before[1..] && f < |mem| && f !in free
    requires FreeSet(before) !! Owned(ViewOf(mem, d)) && Outside(mem, mem', {f})
    ensures ViewOf(mem', d) == ViewOf(mem, d) && Rooted(mem', d) && Listed(lo, mem', head, free)
    ensures FreeSet(before) == FreeSet(free) + {f} && f !in Owned(ViewOf(mem, d))
    ensures FreeSet(free) !! Owned(ViewOf(mem, d))
  {
    assert before == [f] + free;
    assert f in FreeSet(before);
    ViewFrame(mem, mem', d);
    ListedFrame(lo, mem, mem', head, free, {f});
  }

  lemma GivenOne(a: nat, f: nat)
    requires a < UPAGES
    ensures Pages(a * PGSIZE, PGSIZE) == 1 && a * PGSIZE / PGSIZE == a && Given(a, 1, f) == {f} && Given(a, 0, f) == {}
  {
    assert ForUser(a, f, f);
  }

  lemma MappedOne(look: seq<nat>, look': seq<nat>, a: nat, k: nat, f: nat, perm: nat)
    requires k <= 1 && perm < 4096 && a < |look| && Mapped(look, look', a, k, f, perm)
    ensures look' == if k == 1 then look[a := Pte(f, perm)] else look
    ensures k == 1 ==> look[a] == 0
  {
    hide Pte;
  }

  lemma Freed(lo: nat, mem: Memory, mem': Memory, d: nat, f: nat)
    requires Rooted(mem, d) && Sound(lo, |mem|, ViewOf(mem, d)) && f !in Owned(ViewOf(mem, d))
             && Outside(mem, mem', {f})
    ensures ViewOf(mem', d) == ViewOf(mem, d) && Rooted(mem', d)
  {
    ViewFrame(mem, mem', d);
  }

  lemma FreshNone(look: seq<nat>, a: nat, mem: Memory, free: seq<nat>, flags: nat -> nat, pages: nat -> Page)
    ensures Fresh(look, look, a, a, mem, free, flags, pages)
  {
  }

  lemma FreshBeyond(look: seq<nat>, look': seq<nat>, lo: nat, a: nat, hi: nat, mem: Memory, free: seq<nat>,
                    flags: nat -> nat, pages: nat -> Page)
    requires Fresh(look, look', lo, a, mem, free, flags, pages) && lo <= a < hi && a < |look'| && look'[a] != 0
    ensures SomeMapped(look, lo, hi)
  {
    assert look[a] == look'[a];
  }

  lemma FreshCleared(look: seq<nat>, look1: seq<nat>, look2: seq<nat>, lo: nat, a: nat, hi: nat, mem: Memory,
                     free: seq<nat>, flags: nat -> nat, pages: nat -> Page)
    requires Fresh(look, look1, lo, a, mem, free, flags, pages) && a <= hi && Cleared(look1, look2, lo, hi)
    ensures Cleared(look, look2, lo, hi)
  {
    hide FreshAt;
  }

  /** The next page is mapped; the earlier ones keep their contents. */
  lemma FreshNext(first: nat, look: seq<nat>, s: View, s': View, lo: nat, a: nat, f: nat, mem: Memory, mem': Memory,
                  free: seq<nat>,
                  flags: nat -> nat, pages: nat -> Page, perm: nat)
    requires Sound(first, |mem'|, s') && perm < 4096 && a < UPAGES
    requires Fresh(look, s.look, lo, a, mem, free, flags, pages) && lo <= a < |s.look| && s.look[a] == 0
    requires s'.look == s.look[a := Pte(f, perm)] && flags(a) == WithP(perm)
    requires f in free && f < |mem'| && mem'[f] == pages(a) && Outside(mem, mem', {s'.dir} + One(f) + Tables(s'))
    ensures Fresh(look, s'.look, lo, a + 1, mem', free, flags, pages)
  {
    hide Pte;
    hide Flags;
    hide Frame;
    hide WithP;
    assert Maps(s', a, f);
    forall v: nat | v < |look| && lo <= v < a ensures FreshAt(s'.look[v], mem', free, flags(v), pages(v)) {
      var g := Frame(s.look[v]);
      assert FreshAt(s.look[v], mem, free, flags(v), pages(v));
      assert Maps(s', v, g);
      assert g != f && g != s'.dir && !IsTable(s', g);
    }
  }

  lemma ZeroView(mem: Memory, d: nat)
    requires |mem| == NFRAMES && d < |mem| && mem[d] == Zeros()
    ensures var s := ViewOf(mem, d);
            && (forall i | 0 <= i < PTES :: s.tab[i] == 0) && (forall v | 0 <= v < NPAGES :: s.look[v] == 0)
            && Owned(s) == {d} && Rooted(mem, d) && (forall f :: !IsTable(s, f)) && forall v, f :: !Maps(s, v, f)
  {
    ZeroAbsent();
    hide Present;
    hide Frame;
    var s := ViewOf(mem, d);
    forall v | 0 <= v < NPAGES ensures s.look[v] == 0 {
      assert s.tab[Pdx(v)] == 0;
    }
  }

  lemma KmapGiven(data: nat, k: nat)
    requires 0x100 < data < NFRAMES && k < 4
    ensures var q := Kmap(data, k);
            && UPAGES <= q.virt && 0 < q.n && q.virt + q.n <= NPAGES && q.perm < 4096
            && q.virt * PGSIZE / PGSIZE == q.virt && Pages(q.virt * PGSIZE, q.n * PGSIZE) == q.n
            && forall j: nat :: Given(q.virt, j, q.phys) == {}
  {
    var q := Kmap(data, k);
    assert forall g :: !ForUser(q.virt, q.phys, g);
  }

  /** The ranges of kmap do not meet, so none is mapped twice. */
  lemma {:induction false} KmapApart(data: nat, k: nat, j: nat, v: nat)
    requires 0x100 < data < NFRAMES && j <= k < 4 && Kmap(data, k).virt <= v
    ensures KernEntry(data, j, v) == 0
  {
    if j > 0 {
      KmapApart(data, k, j - 1, v);
      assert Kmap(data, j - 1).virt + Kmap(data, j - 1).n <= Kmap(data, k).virt;
    }
  }

  lemma KernUser(data: nat, k: nat, v: nat)
    requires 0x100 < data < NFRAMES && k <= 4 && v < UPAGES
    ensures KernEntry(data, k, v) == 0
  {
    if k > 0 {
      KmapGiven(data, k - 1);
      KernUser(data, k - 1, v);
    }
  }

  lemma KernNext(data: nat, k: nat, look: seq<nat>, look': seq<nat>, n: nat)
    requires k < 4 && KernLook(data, k, look)
    requires var q := Kmap(data, k); n <= q.n && q.perm < 4096 && Mapped(look, look', q.virt, n, q.phys, q.perm)
    ensures |look'| == |look| && forall v | 0 <= v < UPAGES :: look'[v] == 0
    ensures var q := Kmap(data, k); q.virt + q.n <= |look| && forall v | q.virt <= v < q.virt + q.n :: look[v] == 0
    ensures n == Kmap(data, k).n ==> KernLook(data, k + 1, look')
  {
    KmapGiven(data, k);
    hide Kmap;
    hide Pte;
    hide Given;
    var q := Kmap(data, k);
    forall v: nat | q.virt <= v < q.virt + q.n ensures look[v] == 0 {
      KmapApart(data, k, k, v);
    }
    forall v: nat | v < UPAGES ensures look'[v] == 0 {
      KernUser(data, k, v);
    }
    if n == q.n {
      forall v: nat | v < NPAGES ensures look'[v] == KernEntry(data, k + 1, v) {
      }
    }
  }

  // ------------------------------------------------------------------ counting

  lemma {:induction false} FreeCount(free: seq<nat>)
    requires Distinct(free)
    ensures |FreeSet(free)| == |free|
  {
    if free != [] {
      FreeCount(free[1..]);
      assert free == [free[0]] + free[1..];
      assert FreeSet(free) == {free[0]} + FreeSet(free[1..]);
      assert free[0] !in free[1..];
    }
  }

  lemma FreshZero(data: nat, base: seq<nat>, look: seq<nat>, i: nat, mem: Memory, free: seq<nat>, flags: nat -> nat,
                  pages: nat -> Page)
    requires KernLook(data, 4, base) && Fresh(base, look, 0, i, mem, free, flags, pages) && i < UPAGES
    ensures |look| == NPAGES && look[i] == 0
  {
    KernUser(data, 4, i);
  }

  lemma FreshCopied(data: nat, base: seq<nat>, parent: seq<nat>, child: seq<nat>, n: nat, mem: Memory, mem': Memory,
                    free: seq<nat>)
    requires KernLook(data, 4, base) && |parent| == NPAGES
    requires Fresh(base, child, 0, n, mem', free, (v: nat) => FlagsOf(parent, v), (v: nat) => PageOf(mem, parent, v))
    ensures 0x100 < data < NFRAMES && Copied(data, parent, child, n, mem, mem')
  {
    hide FlagsOf;
  }

  lemma ClearedOwned(first: nat, s: View, s': View, lo: nat, hi: nat)
    requires Sound(first, NFRAMES, s) && hi <= UPAGES && s'.dir == s.dir && s'.tab == s.tab
             && Cleared(s.look, s'.look, lo, hi)
    ensures Owned(s') == Owned(s) - FramesIn(s, lo, hi) && FramesIn(s, lo, hi) <= Owned(s)
  {
    hide Frame;
    assert forall f :: IsTable(s', f) <==> IsTable(s, f);
    forall v: nat, f: nat ensures Maps(s', v, f) <==> Maps(s, v, f) && !(lo <= v < hi) {
    }
    forall f ensures f in UserFrames(s') <==> f in UserFrames(s) && f !in FramesIn(s, lo, hi) {
      if f in UserFrames(s) && f !in FramesIn(s, lo, hi) {
        var v :| Maps(s, v, f);
        assert Maps(s', v, f);
      }
    }
  }
}
