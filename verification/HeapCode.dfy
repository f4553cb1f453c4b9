/** malloc, free and morecore of umalloc.c, on headers in memory. */
module HeapCode {
  import opened Common
  import opened HeapModel

  datatype Header = Header(ptr: int, size: nat)

  function Next(i: nat, n: nat): nat
    requires i < n
  {
    if i + 1 == n then 0 else i + 1
  }

  /** The headers of the free blocks form one cycle in address order. */
  ghost predicate Linked(hdr: map<int, Header>, free: seq<Block>) {
    |free| > 0 && forall i | 0 <= i < |free| :: LinkAt(hdr, free, i)
  }

  ghost predicate LinkAt(hdr: map<int, Header>, free: seq<Block>, i: int)
    requires 0 <= i < |free|
  {
    free[i].addr in hdr && hdr[free[i].addr] == Header(free[Next(i, |free|)].addr, free[i].size)
  }

  /** The header writes of free() once it has found p. */
  function Relinked(hdr: map<int, Header>, p: int, bp: int): (h: map<int, Header>)
    requires p in hdr && bp in hdr && hdr[p].ptr in hdr && p != bp
  {
    var next := hdr[p].ptr;
    var h1 := if bp + hdr[bp].size == next
              then hdr[bp := Header(hdr[next].ptr, hdr[bp].size + hdr[next].size)]
              else hdr[bp := Header(next, hdr[bp].size)];
    if p + h1[p].size == bp
    then h1[p := Header(h1[bp].ptr, h1[p].size + h1[bp].size)]
    else h1[p := Header(bp, h1[p].size)]
  }

  /** What RelinkedLinks assumes of the block that is put back after free[k]. */
  ghost predicate CanRelink(hdr: map<int, Header>, free: seq<Block>, k: int, b: Block, r: seq<Block>) {
    && Ordered(free) && Linked(hdr, free) && b.addr in hdr && hdr[b.addr].size == b.size > 0
    && Place(free, b.addr, k) && free[0].addr < b.addr
    && (forall i | 0 <= i < |free| :: free[i].addr != b.addr)
    && Merges(free, k, b, r) && r[0].addr == free[0].addr
  }

  /** Headers other than those of free[k] and b are not touched. */
  lemma RelinkedFrame(hdr: map<int, Header>, p: int, bp: int, a: int)
    requires p in hdr && bp in hdr && hdr[p].ptr in hdr && p != bp && a != p && a != bp
    ensures a in Relinked(hdr, p, bp) <==> a in hdr
    ensures a in hdr ==> Relinked(hdr, p, bp)[a] == hdr[a]
  {
  }

  lemma RelinkedBelow(hdr: map<int, Header>, free: seq<Block>, k: int, b: Block, r: seq<Block>, i: int)
    requires CanRelink(hdr, free, k, b, r) && 0 <= i < Spot(free, k, b) && i != k
    ensures free[k].addr in hdr && hdr[free[k].addr].ptr in hdr
    ensures var h := Relinked(hdr, free[k].addr, b.addr);
            r[i].addr in h && h[r[i].addr] == Header(r[Next(i, |r|)].addr, r[i].size)
  {
    assert LinkAt(hdr, free, k) && LinkAt(hdr, free, Next(k, |free|)) && LinkAt(hdr, free, i);
    RelinkedFrame(hdr, free[k].addr, b.addr, free[i].addr);
    hide Relinked;
    assert r[i] == free[i] && i < k;
  }

  lemma RelinkedAbove(hdr: map<int, Header>, free: seq<Block>, k: int, b: Block, r: seq<Block>, i: int)
    requires CanRelink(hdr, free, k, b, r) && Spot(free, k, b) < i < |r|
    ensures free[k].addr in hdr && hdr[free[k].addr].ptr in hdr
    ensures var h := Relinked(hdr, free[k].addr, b.addr);
            r[i].addr in h && h[r[i].addr] == Header(r[Next(i, |r|)].addr, r[i].size)
  {
    var j := i + |free| - |r|;
    assert r[i] == free[j] && k < j;
    assert LinkAt(hdr, free, k) && LinkAt(hdr, free, Next(k, |free|)) && LinkAt(hdr, free, j);
    RelinkedFrame(hdr, free[k].addr, b.addr, free[j].addr);
    hide Relinked;
  }

  lemma RelinkedValues(hdr: map<int, Header>, p: int, bp: int)
    requires p in hdr && bp in hdr && hdr[p].ptr in hdr && p != bp && hdr[p].ptr != bp
    ensures var h, next := Relinked(hdr, p, bp), hdr[p].ptr;
            var up, down := bp + hdr[bp].size == next, p + hdr[p].size == bp;
            var after := if up then hdr[next].ptr else next;
            var size := if up then hdr[bp].size + hdr[next].size else hdr[bp].size;
            && p in h && bp in h
            && h[p] == (if down then Header(after, hdr[p].size + size) else Header(bp, hdr[p].size))
            && h[bp] == Header(after, size)
  {
  }

  /** The block after the merged one in the new list. */
  lemma AfterSpot(hdr: map<int, Header>, free: seq<Block>, k: int, b: Block, r: seq<Block>)
    requires CanRelink(hdr, free, k, b, r)
    ensures var n, at := |free|, Spot(free, k, b);
            r[Next(at, |r|)].addr ==
            if JoinsNext(free, k, b) then free[Next(k + 1, n)].addr else free[Next(k, n)].addr
  {
    hide Joined;
    hide Grown;
  }

  /** The two headers that free() rewrites. */
  lemma RelinkedHere(hdr: map<int, Header>, free: seq<Block>, k: int, b: Block, r: seq<Block>)
    requires CanRelink(hdr, free, k, b, r)
    ensures free[k].addr in hdr && hdr[free[k].addr].ptr in hdr
    ensures var h, at := Relinked(hdr, free[k].addr, b.addr), Spot(free, k, b);
            && r[at].addr in h && h[r[at].addr] == Header(r[Next(at, |r|)].addr, r[at].size)
            && (at == k + 1 ==> r[k] == free[k] && free[k].addr in h
                                && h[free[k].addr] == Header(b.addr, free[k].size) && r[at].addr == b.addr)
  {
    var n, at, p := |free|, Spot(free, k, b), free[k].addr;
    assert LinkAt(hdr, free, k) && LinkAt(hdr, free, Next(k, n));
    RelinkedValues(hdr, p, b.addr);
    AfterSpot(hdr, free, k, b, r);
    hide Relinked;
    var up := b.addr + b.size == hdr[p].ptr;
    assert up == JoinsNext(free, k, b) by {
      if k + 1 == n { assert free[0].addr < b.addr; }
    }
    assert r[at] == Joined(free, k, b);
  }

  lemma RelinkedLinks(hdr: map<int, Header>, free: seq<Block>, k: int, b: Block, r: seq<Block>)
    requires CanRelink(hdr, free, k, b, r)
    ensures free[k].addr in hdr && hdr[free[k].addr].ptr in hdr
    ensures Linked(Relinked(hdr, free[k].addr, b.addr), r)
  {
    hide Relinked;
    hide Ordered;
    hide Joined;
    hide Linked;
    RelinkedHere(hdr, free, k, b, r);
    var h, at := Relinked(hdr, free[k].addr, b.addr), Spot(free, k, b);
    forall i | 0 <= i < |r| ensures r[i].addr in h && h[r[i].addr] == Header(r[Next(i, |r|)].addr, r[i].size) {
      if i > at {
        RelinkedAbove(hdr, free, k, b, r, i);
      } else if i < at && i != k {
        RelinkedBelow(hdr, free, k, b, r, i);
      }
    }
    hide CanRelink;
    LinkedIf(h, r);
  }

  lemma LinkedIf(h: map<int, Header>, r: seq<Block>)
    requires |r| > 0
    requires forall i | 0 <= i < |r| :: r[i].addr in h && h[r[i].addr] == Header(r[Next(i, |r|)].addr, r[i].size)
    ensures Linked(h, r)
  {
    forall i | 0 <= i < |r| ensures LinkAt(h, r, i) {
    }
  }

  // ------------------------------------------------------------- request sizes

  const UNIT := 8           // sizeof(Header)

  /** malloc's nunits, in 32-bit unsigned arithmetic. */
  function Units(nbytes: nat): (n: nat)
    requires nbytes < WORD
    ensures 0 < n
  {
    (nbytes + UNIT - 1) % WORD / UNIT + 1
  }

  /** A block of Units(nbytes) units has room for nbytes after its header exactly when the
      rounding does not wrap around. */
  lemma UnitsSuffice(nbytes: nat)
    requires nbytes < WORD
    ensures (Units(nbytes) - 1) * UNIT >= nbytes <==> nbytes <= WORD - UNIT
  {
  }

  /** The argument morecore passes to sbrk, a signed 32-bit integer. */
  function SbrkArg(nu: nat): int {
    var n := nu * UNIT % WORD;
    if n < WORD / 2 then n else n - WORD
  }

  function CoreUnits(nunits: nat): nat {
    if nunits < 4096 then 4096 else nunits
  }

  /** morecore asks sbrk for the memory it then uses exactly when the request is below two
      gigabytes, or wraps around to one unit. */
  lemma SbrkAsks(nbytes: nat)
    requires nbytes < WORD
    ensures SbrkArg(CoreUnits(Units(nbytes))) == CoreUnits(Units(nbytes)) * UNIT
            <==> nbytes <= WORD / 2 - 2 * UNIT || nbytes > WORD - UNIT
  {
  }

  /** The process's memory after sbrk(arg) has returned the old break at hp: grown by arg
      bytes, or cut down by -arg unless that is more than there is. */
  ghost function AfterSbrk(obtained: set<int>, hp: int, arg: int): set<int> {
    if arg >= 0 then obtained + Span(hp, arg / UNIT)
    else if hp + arg / UNIT > 0 then set u | u in obtained && u < hp + arg / UNIT
    else obtained
  }

  /** sbrk has given the n units that morecore uses exactly if it was asked for them. */
  lemma SbrkGives(obtained: set<int>, hp: int, nu: nat)
    requires nu > 0 && forall u | u in obtained :: u < hp
    ensures AfterSbrk(obtained, hp, SbrkArg(nu)) == obtained + Span(hp, nu) <==> SbrkArg(nu) == nu * UNIT
  {
    var arg := SbrkArg(nu);
    assert arg <= nu * UNIT;
    hide SbrkArg;
    var got, used := AfterSbrk(obtained, hp, arg), obtained + Span(hp, nu);
    if arg < nu * UNIT {
      var u := if arg >= 0 then hp + arg / UNIT else hp;
      assert u in used && u !in got;
    }
  }

  ghost function Span(addr: int, n: nat): (s: set<int>)
    ensures forall u :: u in s <==> Block(addr, n).Has(u)
  {
    set u | addr <= u < addr + n && Block(addr, n).Has(u)
  }

  /** The memory obtained lies above base, and splits into the blocks of the free list and
      the live blocks. */
  ghost predicate Sound(base: int, free: seq<Block>, live: map<int, nat>, obtained: set<int>) {
    && 0 < base && |free| > 0 && free[0] == Block(base, 0)
    && (forall u | u in obtained :: base < u)
    && Ordered(free) && Partition(free, live, obtained)
  }

  /** Every live block still has its size in its header. */
  ghost predicate Headed(hdr: map<int, Header>, live: map<int, nat>) {
    forall a | a in live :: a in hdr && hdr[a].size == live[a]
  }

  /** Headers outside the free list, and other than bp's, are as they were. */
  ghost predicate Untouched(hdr: map<int, Header>, hdr': map<int, Header>, free: seq<Block>, bp: int) {
    forall a | a in hdr && a != bp && !IsNode(free, a) :: a in hdr' && hdr'[a] == hdr[a]
  }

  /** d positions after position i, in a cycle of n. */
  ghost function Wrap(i: nat, d: nat, n: nat): nat
    requires i < n && d <= n
  {
    if i + d < n then i + d else i + d - n
  }

  /** Some free block has room for n units. */
  ghost predicate Fits(free: seq<Block>, n: nat) {
    exists i :: 1 <= i < |free| && free[i].size >= n
  }

  lemma FullCircle(free: seq<Block>, at: nat, d: nat)
    requires Ordered(free) && at < |free| && 1 <= d <= |free| && free[Wrap(at, d, |free|)].addr == free[at].addr
    ensures d == |free|
  {
    assert Wrap(at, d, |free|) == at;
  }

  lemma AllSmall(free: seq<Block>, at: nat, n: nat)
    requires at < |free| && forall t | 1 <= t <= |free| :: free[Wrap(at, t, |free|)].size < n
    ensures !Fits(free, n)
  {
    var m := |free|;
    forall i | 1 <= i < m ensures free[i].size < n {
      var t := if i > at then i - at else i + m - at;
      assert Wrap(at, t, m) == i;
    }
  }

  class Heap {
    const base: int
    var hdr: map<int, Header>  // header words in memory
    var freep: int             // 0 until the first malloc
    ghost var free: seq<Block>
    ghost var at: nat          // freep's position in free
    ghost var live: map<int, nat>
    ghost var claimed: set<int>  // the memory of the free and the live blocks
    ghost var obtained: set<int> // the memory sbrk has given

    /** The lists are sound for the memory they claim. */
    ghost predicate Coherent()
      reads `hdr, `freep, `free, `at, `live, `claimed
    {
      && Sound(base, free, live, claimed) && Headed(hdr, live)
      && (freep == 0 ==> free == [Block(base, 0)] && live == map[])
      && (freep != 0 ==> at < |free| && freep == free[at].addr && Linked(hdr, free))
    }

    /** And they claim exactly what sbrk has given. */
    ghost predicate Valid()
      reads this
    {
      Coherent() && claimed == obtained
    }

    constructor (base: int)
      requires 0 < base
      ensures Valid() && this.base == base && freep == 0 && live == map[] && obtained == {} && free == [Block(base, 0)]
    {
      this.base := base;
      hdr := map[];
      freep := 0;
      free := [Block(base, 0)];
      at := 0;
      live := map[];
      claimed := {};
      obtained := {};
    }

    /** The first statements of malloc: base becomes the only node of the list. */
    method Setup()
      requires Valid()
      modifies this
      ensures Valid() && freep != 0
      ensures free == old(free) && live == old(live) && claimed == old(claimed) && obtained == old(obtained)
      ensures old(freep) != 0 ==> at == old(at) && hdr == old(hdr) && freep == old(freep)
    {
      if freep == 0 {
        hdr := hdr[base := Header(base, 0)];
        freep := base;
        at := 0;
      }
    }

    /** The search loop of free(): it stops at the free block below bp. */
    method FindPlace(bp: int, ghost k: int) returns (p: int)
      requires Ordered(free) && free[0].addr == base && freep != 0 && base < bp && Place(free, bp, k)
      requires at < |free| && freep == free[at].addr && Linked(hdr, free)
      requires forall i | 0 <= i < |free| :: free[i].addr != bp
      ensures p == free[k].addr
    {
      ghost var i, n := at, |free|;
      p := freep;
      assert LinkAt(hdr, free, i);
      while !(bp > p && bp < hdr[p].ptr)
        invariant 0 <= i < n && p == free[i].addr && p in hdr && hdr[p].ptr == free[Next(i, n)].addr
        decreases if i <= k then k - i else k - i + n
      {
        if p >= hdr[p].ptr && (bp > p || bp < hdr[p].ptr) {
          break;
        }
        p := hdr[p].ptr;
        i := Next(i, n);
        assert LinkAt(hdr, free, i);
      }
    }

    /** The header writes of free(). */
    method WriteLinks(p: int, bp: int)
      requires p in hdr && bp in hdr && hdr[p].ptr in hdr && p != bp
      modifies this`hdr
      ensures hdr == Relinked(old(hdr), p, bp)
    {
      var next := hdr[p].ptr;
      if bp + hdr[bp].size == next {
        hdr := hdr[bp := Header(hdr[next].ptr, hdr[bp].size + hdr[next].size)];
      } else {
        hdr := hdr[bp := Header(next, hdr[bp].size)];
      }
      if p + hdr[p].size == bp {
        hdr := hdr[p := Header(hdr[bp].ptr, hdr[p].size + hdr[bp].size)];
      } else {
        hdr := hdr[p := Header(bp, hdr[p].size)];
      }
    }

    /** free() on a block that no free block overlaps: its memory joins the list, merged
        with the neighbours it touches, and freep moves to the block below it. */
    method Release(bp: int, ghost b: Block) returns (ghost k: int)
      requires 0 < base && freep != 0 && Ordered(free) && free[0] == Block(base, 0)
      requires at < |free| && freep == free[at].addr && Linked(hdr, free)
      requires Apart(free, b) && b.addr == bp && bp in hdr && hdr[bp].size == b.size
      modifies this
      ensures Place(old(free), bp, k) && free == Inserted(old(free), k, b)
      ensures Ordered(free) && free[0] == Block(base, 0) && Linked(hdr, free)
      ensures freep != 0 && at < |free| && freep == free[at].addr
      ensures live == old(live) && claimed == old(claimed) && obtained == old(obtained)
      ensures Untouched(old(hdr), hdr, old(free), bp)
    {
      k := ReleaseFacts(hdr, free, b);
      hide Inserted;
      hide Relinked;
      hide Ordered;
      hide Apart;
      hide Linked;
      hide Untouched;
      hide Place;
      var p := FindPlace(bp, k);
      WriteLinks(p, bp);
      free := Inserted(free, k, b);
      freep := p;
      at := k;
    }

    /** free(): the block stops being live, the rest of the heap is as before. */
    method Free(ap: int)
      requires Valid() && ap - 1 in live
      modifies this
      ensures Valid()
      ensures live == old(live) - {ap - 1} && obtained == old(obtained)
    {
      var bp := ap - 1;
      ghost var b := Block(bp, live[bp]);
      LiveApart(base, free, live, claimed, bp);
      hide Apart;
      hide Partition;
      hide Inserted;
      hide Untouched;
      ghost var free0, hdr0 := free, hdr;
      ghost var k := Release(bp, b);
      FreeSound(base, free0, live, claimed, k, bp);
      FreeHeaded(base, hdr0, hdr, free0, live, claimed, bp);
      live := live - {bp};
    }

    /** morecore(): the units that sbrk was to give join the free list, which then has a block
        of at least nu units.  The heap stays valid exactly if sbrk was asked for them. */
    method Morecore(nu: nat, grant: Option<int>) returns (ok: bool)
      requires Valid() && freep != 0 && nu > 0
      requires grant.Some? ==> base < grant.value && forall u | u in obtained :: u < grant.value
      modifies this
      ensures Coherent() && freep != 0 && live == old(live)
      ensures ok == grant.Some?
      ensures ok ==>
                var n := CoreUnits(nu);
                && Fits(free, nu) && claimed == old(claimed) + Span(grant.value, n)
                && obtained == AfterSbrk(old(obtained), grant.value, SbrkArg(n))
                && (Valid() <==> SbrkArg(n) == n * UNIT)
      ensures !ok ==> Valid() && obtained == old(obtained) && free == old(free) && hdr == old(hdr) && at == old(at)
                      && freep == old(freep)
    {
      hide Coherent;
      hide Apart;
      hide Partition;
      hide Inserted;
      hide Ordered;
      hide Place;
      hide Span;
      hide AfterSbrk;
      hide SbrkArg;
      if grant.None? { return false; }
      var hp, n := grant.value, CoreUnits(nu);
      ghost var k := AddCore(hp, n);
      InsertedBig(old(free), k, Block(hp, n));
      SbrkGives(obtained, hp, n);
      obtained := AfterSbrk(obtained, hp, SbrkArg(n));
      ok := true;
    }

    /** What morecore does with the n units it takes to be at hp. */
    method AddCore(hp: int, n: nat) returns (ghost k: int)
      requires Coherent() && freep != 0 && n > 0
      requires base < hp && forall u | u in claimed :: u < hp
      modifies this
      ensures Coherent() && freep != 0 && live == old(live)
      ensures claimed == old(claimed) + Span(hp, n) && obtained == old(obtained)
      ensures Apart(old(free), Block(hp, n)) && Place(old(free), hp, k) && Ordered(old(free))
      ensures free == Inserted(old(free), k, Block(hp, n))
    {
      ghost var b := Block(hp, n);
      ghost var free0 := free;
      hide Apart;
      hide Partition;
      hide Inserted;
      hide Untouched;
      hide Linked;
      hide Headed;
      hide Ordered;
      hide Place;
      hide Span;
      FreshHeader(base, hdr, free, live, claimed, hp, n);
      hdr := hdr[hp := Header(0, n)];
      ghost var hdr0 := hdr;
      k := Release(hp, b);
      GrowSound(base, free0, live, claimed, k, b);
      GrowHeaded(base, hdr0, hdr, free0, live, claimed, hp);
      claimed := claimed + Span(hp, n);
    }

    /** malloc() looks at p, d blocks after freep; the blocks in between are too small. */
    ghost predicate Searching(prevp: int, p: int, d: nat, n: nat)
      reads this
    {
      && Coherent() && freep != 0 && 1 <= d <= |free|
      && prevp == free[Wrap(at, d - 1, |free|)].addr && p == free[Wrap(at, d, |free|)].addr
      && p in hdr && hdr[p].size == free[Wrap(at, d, |free|)].size
      && forall t | 1 <= t < d :: free[Wrap(at, t, |free|)].size < n
    }

    /** malloc(): nunits consecutive units that were free or are new from sbrk become live.
        sbrk is asked only if no free block is large enough, and only its refusal makes
        malloc fail.  The block has room for the request, and the heap is valid afterwards,
        exactly for the sizes given. */
    method Malloc(nbytes: nat, grant: Option<int>) returns (r: Option<int>)
      requires Valid() && nbytes < WORD
      requires grant.Some? ==> base < grant.value && forall u | u in obtained :: u < grant.value
      modifies this
      ensures Coherent()
      ensures Valid() <==>
                Fits(old(free), Units(nbytes)) || grant.None? || nbytes <= WORD / 2 - 2 * UNIT || nbytes > WORD - UNIT
      ensures r.Some? ==> r.value - 1 !in old(live) && live == old(live)[r.value - 1 := Units(nbytes)]
      ensures r.Some? ==> ((live[r.value - 1] - 1) * UNIT >= nbytes <==> nbytes <= WORD - UNIT)
      ensures r.None? ==> live == old(live)
      ensures Fits(old(free), Units(nbytes)) ==> r.Some? && obtained == old(obtained)
      ensures !Fits(old(free), Units(nbytes)) ==> r.Some? == grant.Some?
      ensures !Fits(old(free), Units(nbytes)) ==>
                obtained == if grant.None? then old(obtained)
                            else AfterSbrk(old(obtained), grant.value, SbrkArg(CoreUnits(Units(nbytes))))
    {
      hide Units;
      hide SbrkArg;
      hide CoreUnits;
      hide Fits;
      hide AfterSbrk;
      hide Coherent;
      hide Searching;
      hide Wrap;
      SbrkAsks(nbytes);
      UnitsSuffice(nbytes);
      var n := Units(nbytes);
      Setup();
      SearchStart(n);
      var prevp, p := freep, hdr[freep].ptr;
      ghost var d: nat, grown := 1, false;
      ghost var core := CoreUnits(n);
      while hdr[p].size < n
        invariant Searching(prevp, p, d, n) && p in hdr && d <= |free| && live == old(live)
        invariant !grown ==> free == old(free) && claimed == obtained == old(obtained)
        invariant grown ==> grant.Some? && Fits(free, n) && !Fits(old(free), n)
        invariant grown ==> obtained == AfterSbrk(old(obtained), grant.value, SbrkArg(core))
        invariant grown ==> (claimed == obtained <==> SbrkArg(core) == core * UNIT)
        decreases !grown, |free| - d
      {
        if p == freep {
          SearchDone(prevp, p, d, n);
          var ok := Morecore(n, grant);
          if !ok {
            return None;
          }
          grown := true;
          SearchStart(n);
          prevp, p, d := freep, hdr[freep].ptr, 1;
        } else {
          SearchStep(prevp, p, d, n);
          prevp, p, d := p, hdr[p].ptr, d + 1;
        }
      }
      SearchFits(prevp, p, d, n);
      var a := Carve(prevp, p, n, Wrap(at, d, |free|));
      r := Some(a + 1);
    }

    /** The block at p is large enough: take it whole, or take its tail. */
    method Carve(prevp: int, p: int, n: nat, ghost i: int) returns (a: int)
      requires Coherent() && freep != 0 && n > 0 && 1 <= i < |free| && n <= free[i].size
      requires prevp == free[i - 1].addr && p == free[i].addr
      modifies this
      ensures Coherent() && claimed == old(claimed) && obtained == old(obtained) && a !in old(live)
              && live == old(live)[a := n]
    {
      hide Sound;
      hide Headed;
      hide Linked;
      hide Carved;
      hide Ordered;
      ghost var hdr0 := hdr;
      CarveFacts(base, hdr, free, live, claimed, i, n);
      if hdr[p].size == n {
        hdr := hdr[prevp := Header(hdr[p].ptr, hdr[prevp].size)];
        a := p;
      } else {
        hdr := hdr[p := Header(hdr[p].ptr, hdr[p].size - n)];
        a := p + hdr[p].size;
        hdr := hdr[a := Header(if a in hdr then hdr[a].ptr else 0, n)];
      }
      freep := prevp;
      at := i - 1;
      CarvedLinked(hdr0, hdr, free, i, n, a);
      CarvedHeaded(base, hdr0, hdr, free, live, claimed, i, n, a);
      live := live[a := n];
      free := Carved(free, i, n);
    }

    lemma SearchStart(n: nat)
      requires Coherent() && freep != 0
      ensures freep in hdr && hdr[freep].ptr in hdr && 1 <= |free| && Searching(freep, hdr[freep].ptr, 1, n)
    {
      var m := |free|;
      assert LinkAt(hdr, free, at) && LinkAt(hdr, free, Next(at, m));
      assert Wrap(at, 1, m) == Next(at, m);
    }

    lemma SearchStep(prevp: int, p: int, d: nat, n: nat)
      requires Searching(prevp, p, d, n) && hdr[p].size < n && p != freep
      ensures d < |free| && hdr[p].ptr in hdr && Searching(p, hdr[p].ptr, d + 1, n)
    {
      var i, m := Wrap(at, d, |free|), |free|;
      assert LinkAt(hdr, free, i) && LinkAt(hdr, free, Next(i, m));
      assert d < m;
      assert Wrap(at, d + 1, m) == Next(i, m);
    }

    /** Back at freep, every free block has been found too small. */
    lemma SearchDone(prevp: int, p: int, d: nat, n: nat)
      requires Searching(prevp, p, d, n) && hdr[p].size < n && p == freep
      ensures Coherent() && freep != 0 && !Fits(free, n)
    {
      assert Ordered(free);
      hide Sound;
      hide Headed;
      hide Linked;
      FullCircle(free, at, d);
      hide Ordered;
      AllSmall(free, at, n);
    }

    lemma SearchFits(prevp: int, p: int, d: nat, n: nat)
      requires Searching(prevp, p, d, n) && hdr[p].size >= n > 0
      ensures Coherent() && freep != 0 && at < |free| && d <= |free| && Fits(free, n)
      ensures var i := Wrap(at, d, |free|);
              1 <= i < |free| && n <= free[i].size && prevp == free[i - 1].addr && p == free[i].addr
    {
      assert free[0].size == 0;
      hide Sound;
      hide Headed;
      hide Linked;
    }
  }

  /** Everything Release needs to know about the new headers and the new list. */
  lemma ReleaseFacts(hdr: map<int, Header>, free: seq<Block>, b: Block) returns (k: int)
    requires Ordered(free) && Linked(hdr, free) && Apart(free, b) && b.addr in hdr && hdr[b.addr].size == b.size
    requires free[0].size == 0 && 0 < free[0].addr
    ensures Place(free, b.addr, k) && (forall i | 0 <= i < |free| :: free[i].addr != b.addr)
    ensures 0 <= k < |free| && free[k].addr in hdr && hdr[free[k].addr].ptr in hdr
    ensures var r, h, p := Inserted(free, k, b), Relinked(hdr, free[k].addr, b.addr), free[k].addr;
            && Ordered(r) && r[0] == free[0] && Linked(h, r) && k < |r| && r[k].addr == p && p != 0
            && Untouched(hdr, h, free, b.addr)
  {
    k := PlaceOf(free, b);
    ApartPlace(free, b, k);
    NotNode(free, b);
    var r := Inserted(free, k, b);
    InsertedMerges(free, k, b);
    InsertedOrdered(free, k, b);
    hide Inserted;
    RelinkedLinks(hdr, free, k, b, r);
    hide Relinked;
    var p := free[k].addr;
    forall a | a in hdr && a != b.addr && !IsNode(free, a)
      ensures a in Relinked(hdr, p, b.addr) && Relinked(hdr, p, b.addr)[a] == hdr[a]
    {
      RelinkedFrame(hdr, p, b.addr, a);
    }
  }

  ghost predicate IsNode(free: seq<Block>, a: int) {
    exists i :: 0 <= i < |free| && free[i].addr == a
  }

  lemma {:induction false} PlaceOf(free: seq<Block>, b: Block) returns (k: int)
    requires Ordered(free) && Apart(free, b)
    ensures Place(free, b.addr, k)
  {
    k := 0;
    while k + 1 < |free| && free[k + 1].addr < b.addr
      invariant 0 <= k < |free| && free[k].addr < b.addr
    {
      k := k + 1;
    }
    if k + 1 < |free| {
      assert b.Has(b.addr);
      assert free[k + 1].Has(free[k + 1].addr);
      assert InFree(free, free[k + 1].addr);
    }
  }

  lemma NotNode(free: seq<Block>, b: Block)
    requires Ordered(free) && Apart(free, b)
    ensures forall i | 0 <= i < |free| :: free[i].addr != b.addr
  {
    forall i | 0 <= i < |free| ensures free[i].addr != b.addr {
      assert b.Has(b.addr);
      if i > 0 {
        assert free[i].Has(free[i].addr);
        assert InFree(free, free[i].addr);
      }
    }
  }

  lemma LiveApart(base: int, free: seq<Block>, live: map<int, nat>, obtained: set<int>, a: int)
    requires Sound(base, free, live, obtained) && a in live
    ensures Apart(free, Block(a, live[a]))
  {
    var b := Block(a, live[a]);
    assert b.Has(a);
    assert InLive(live, a);
    forall u | b.Has(u) ensures !InFree(free, u) {
      assert InLive(live, u);
    }
  }

  /** No live block starts where a free one does. */
  lemma LiveNotNodes(base: int, free: seq<Block>, live: map<int, nat>, obtained: set<int>)
    requires Sound(base, free, live, obtained)
    ensures forall a | a in live :: !IsNode(free, a)
  {
    forall a | a in live ensures !IsNode(free, a) {
      LiveApart(base, free, live, obtained, a);
      NotNode(free, Block(a, live[a]));
    }
  }

  lemma FreeSound(base: int, free: seq<Block>, live: map<int, nat>, obtained: set<int>, k: int, a: int)
    requires Sound(base, free, live, obtained) && a in live && Place(free, a, k)
    ensures Sound(base, Inserted(free, k, Block(a, live[a])), live - {a}, obtained)
  {
    var b := Block(a, live[a]);
    LiveApart(base, free, live, obtained, a);
    InsertedOrdered(free, k, b);
    FreePartition(free, live, obtained, k, a);
    InsertedFirst(free, k, b);
    hide Apart;
    hide Partition;
    hide Inserted;
  }

  lemma InsertedFirst(free: seq<Block>, k: int, b: Block)
    requires Ordered(free) && Apart(free, b) && Place(free, b.addr, k)
    ensures |Inserted(free, k, b)| > 0 && Inserted(free, k, b)[0] == free[0]
  {
  }

  lemma FreeHeaded(base: int, hdr: map<int, Header>, hdr': map<int, Header>, free: seq<Block>, live: map<int, nat>,
                   obtained: set<int>, bp: int)
    requires Sound(base, free, live, obtained) && Headed(hdr, live) && Untouched(hdr, hdr', free, bp)
    ensures Headed(hdr', live - {bp})
  {
    LiveNotNodes(base, free, live, obtained);
    hide Sound;
    hide IsNode;
  }

  lemma GrowHeaded(base: int, hdr: map<int, Header>, hdr': map<int, Header>, free: seq<Block>, live: map<int, nat>,
                   obtained: set<int>, bp: int)
    requires Sound(base, free, live, obtained) && Headed(hdr, live) && Untouched(hdr, hdr', free, bp) && bp !in live
    ensures Headed(hdr', live)
  {
    FreeHeaded(base, hdr, hdr', free, live, obtained, bp);
    assert live - {bp} == live;
  }

  /** Writing the header of new memory changes no header of the heap. */
  lemma FreshHeader(base: int, hdr: map<int, Header>, free: seq<Block>, live: map<int, nat>, obtained: set<int>,
                    hp: int, n: nat)
    requires Sound(base, free, live, obtained) && Linked(hdr, free) && Headed(hdr, live)
    requires base < hp && n > 0 && forall u | u in obtained :: u < hp
    ensures Apart(free, Block(hp, n)) && hp !in live
    ensures Linked(hdr[hp := Header(0, n)], free) && Headed(hdr[hp := Header(0, n)], live)
  {
    NotNode(free, Block(hp, n));
    var hdr' := hdr[hp := Header(0, n)];
    forall i | 0 <= i < |free| ensures LinkAt(hdr', free, i) {
      assert LinkAt(hdr, free, i);
    }
    assert hp in live ==> InLive(live, hp) by {
      if hp in live { assert Block(hp, live[hp]).Has(hp); }
    }
  }

  lemma GrowSound(base: int, free: seq<Block>, live: map<int, nat>, obtained: set<int>, k: int, b: Block)
    requires Sound(base, free, live, obtained) && Apart(free, b) && Place(free, b.addr, k)
    requires base < b.addr && forall u | u in obtained :: u < b.addr
    ensures Sound(base, Inserted(free, k, b), live, obtained + Span(b.addr, b.size))
  {
    InsertedOrdered(free, k, b);
    InsertedFirst(free, k, b);
    GrowPartition(free, live, obtained, k, b, Span(b.addr, b.size));
    hide Apart;
    hide Partition;
    hide Inserted;
  }

  lemma InsertedBig(free: seq<Block>, k: int, b: Block)
    requires Ordered(free) && Apart(free, b) && Place(free, b.addr, k)
    ensures Fits(Inserted(free, k, b), b.size)
  {
    InsertedMerges(free, k, b);
    var r, at := Inserted(free, k, b), Spot(free, k, b);
    assert r[at].size >= b.size;
  }

  // ------------------------------------------------------------------ carving

  /** What Carve leaves in the headers, for either branch. */
  ghost predicate CarvedHeaders(h: map<int, Header>, h': map<int, Header>, free: seq<Block>, i: int, n: nat, a: int)
    requires 1 <= i < |free|
  {
    var p, prev := free[i].addr, free[i - 1].addr;
    && p in h && prev in h && a in h' && h'[a].size == n
    && (if free[i].size == n
        then a == p && h' == h[prev := Header(h[p].ptr, h[prev].size)]
        else n < free[i].size && a == p + free[i].size - n
             && (forall x | x != p && x != a :: (x in h' <==> x in h) && (x in h ==> h'[x] == h[x]))
             && p in h' && h'[p] == Header(h[p].ptr, free[i].size - n))
  }

  lemma CarveFacts(base: int, h: map<int, Header>, free: seq<Block>, live: map<int, nat>, obtained: set<int>, i: int,
                   n: nat)
    requires Sound(base, free, live, obtained) && Linked(h, free) && 1 <= i < |free| && 0 < n <= free[i].size
    ensures free[i].addr in h && h[free[i].addr].size == free[i].size && free[i - 1].addr in h && free[i - 1].addr != 0
    ensures Sound(base, Carved(free, i, n), live[Piece(free, i, n).addr := n], obtained)
    ensures Piece(free, i, n).addr !in live && Ordered(free)
    ensures i - 1 < |Carved(free, i, n)| && Carved(free, i, n)[i - 1].addr == free[i - 1].addr
  {
    assert LinkAt(h, free, i) && LinkAt(h, free, i - 1);
    MallocPartition(free, live, obtained, i, n);
    CarvedOrdered(free, i, n);
    assert free[0].addr == base;
    hide Partition;
  }

  lemma CarvedLinked(h: map<int, Header>, h': map<int, Header>, free: seq<Block>, i: int, n: nat, a: int)
    requires Ordered(free) && Linked(h, free) && 1 <= i < |free| && 0 < n <= free[i].size
    requires CarvedHeaders(h, h', free, i, n, a)
    ensures Linked(h', Carved(free, i, n))
  {
    if free[i].size == n {
      TakenLinked(h, free, i);
    } else {
      SplitLinked(h, h', free, i, n, a);
    }
  }

  /** Taking a whole block unlinks its node. */
  lemma TakenLinked(h: map<int, Header>, free: seq<Block>, i: int)
    requires Ordered(free) && Linked(h, free) && 1 <= i < |free|
    ensures free[i].addr in h && free[i - 1].addr in h
    ensures var p, prev := free[i].addr, free[i - 1].addr;
            Linked(h[prev := Header(h[p].ptr, h[prev].size)], Carved(free, i, free[i].size))
  {
    LinkedAt(h, free, i);
    LinkedAt(h, free, i - 1);
    var p, prev := free[i].addr, free[i - 1].addr;
    var h' := h[prev := Header(h[p].ptr, h[prev].size)];
    var r := Carved(free, i, free[i].size);
    hide Ordered;
    hide Linked;
    RemovedIs(free, i);
    hide Carved;
    forall j | 0 <= j < |r| ensures r[j].addr in h' && h'[r[j].addr] == Header(r[Next(j, |r|)].addr, r[j].size) {
      TakenAt(h, free, i, r, j);
    }
    LinkedIf(h', r);
  }

  /** r is free without block i. */
  ghost predicate Removed(free: seq<Block>, i: int, r: seq<Block>)
    requires 1 <= i < |free|
  {
    && |r| == |free| - 1
    && (forall j | 0 <= j < i :: r[j] == free[j])
    && (forall j | i <= j < |r| :: r[j] == free[j + 1])
  }

  lemma RemovedIs(free: seq<Block>, i: int)
    requires 1 <= i < |free|
    ensures Removed(free, i, Carved(free, i, free[i].size))
  {
  }

  lemma LinkedAt(h: map<int, Header>, free: seq<Block>, i: int)
    requires Linked(h, free) && 0 <= i < |free|
    ensures free[i].addr in h && h[free[i].addr] == Header(free[Next(i, |free|)].addr, free[i].size)
  {
    assert LinkAt(h, free, i);
  }

  lemma Distinct(free: seq<Block>, i: int, j: int)
    requires Ordered(free) && 0 <= i < |free| && 0 <= j < |free| && i != j
    ensures free[i].addr != free[j].addr
  {
  }

  lemma TakenAt(h: map<int, Header>, free: seq<Block>, i: int, r: seq<Block>, j: int)
    requires Ordered(free) && Linked(h, free) && 1 <= i < |free| && Removed(free, i, r) && 0 <= j < |r|
    ensures free[i].addr in h && free[i - 1].addr in h
    ensures var p, prev := free[i].addr, free[i - 1].addr;
            var h' := h[prev := Header(h[p].ptr, h[prev].size)];
            r[j].addr in h' && h'[r[j].addr] == Header(r[Next(j, |r|)].addr, r[j].size)
  {
    hide Linked;
    hide Ordered;
    LinkedAt(h, free, i);
    LinkedAt(h, free, i - 1);
    var o := if j < i then j else j + 1;
    LinkedAt(h, free, o);
    if o != i - 1 { Distinct(free, o, i - 1); }
  }

  /** Taking the tail of a block leaves the node where it is. */
  lemma SplitLinked(h: map<int, Header>, h': map<int, Header>, free: seq<Block>, i: int, n: nat, a: int)
    requires Ordered(free) && Linked(h, free) && 1 <= i < |free| && 0 < n < free[i].size
    requires CarvedHeaders(h, h', free, i, n, a)
    ensures Linked(h', Carved(free, i, n))
  {
    var r := Carved(free, i, n);
    assert |r| == |free| && forall j | 0 <= j < |r| :: r[j].addr == free[j].addr;
    forall j | 0 <= j < |r| ensures r[j].addr in h' && h'[r[j].addr] == Header(r[Next(j, |r|)].addr, r[j].size) {
      assert LinkAt(h, free, j);
      if j > i { assert free[i].addr + free[i].size < free[j].addr; }
      if j < i { assert free[j].addr < free[i].addr; }
    }
    LinkedIf(h', r);
  }

  lemma CarvedHeaded(base: int, h: map<int, Header>, h': map<int, Header>, free: seq<Block>, live: map<int, nat>,
                     obtained: set<int>, i: int, n: nat, a: int)
    requires Sound(base, free, live, obtained) && Headed(h, live) && 1 <= i < |free| && 0 < n <= free[i].size
    requires CarvedHeaders(h, h', free, i, n, a)
    ensures Headed(h', live[a := n])
  {
    LiveNotNodes(base, free, live, obtained);
    hide Sound;
    assert !(free[i].addr in live) by { assert IsNode(free, free[i].addr); }
    assert !(free[i - 1].addr in live) by { assert IsNode(free, free[i - 1].addr); }
  }

  // ------------------------------------------------------------ no fragmentation

  /** A unit just above a free block is not free: adjacent free blocks have been merged. */
  lemma GapAbove(free: seq<Block>, i: int)
    requires Ordered(free) && 1 <= i < |free|
    ensures !InFree(free, free[i].addr + free[i].size)
  {
    var u := free[i].addr + free[i].size;
    forall j | 1 <= j < |free| ensures !free[j].Has(u) {
      if j < i { assert free[j].addr + free[j].size < free[i].addr; }
      if j > i { assert u < free[j].addr; }
    }
  }

  /** Once everything has been freed, in whatever order, contiguous memory is one free block
      again. */
  lemma AllFreed(base: int, free: seq<Block>, lo: int, n: nat)
    requires Sound(base, free, map[], Span(lo, n)) && n > 0
    ensures free == [Block(base, 0), Block(lo, n)]
  {
    assert lo in Span(lo, n) && InFree(free, lo);
    var i :| 1 <= i < |free| && free[i].Has(lo);
    GapAbove(free, i);
    var b := free[i];
    assert b.Has(b.addr) && InFree(free, b.addr);
    assert b.Has(b.addr + b.size - 1) && InFree(free, b.addr + b.size - 1);
    assert b == Block(lo, n);
    forall j | 1 <= j < |free| ensures free[j].addr == lo {
      assert free[j].Has(free[j].addr);
      assert InFree(free, free[j].addr);
      assert b.Has(free[j].addr);
      if j != i { Overlap(free, i, j); }
    }
    if |free| > 2 { Distinct(free, 1, 2); }
  }

  lemma Overlap(free: seq<Block>, i: int, j: int)
    requires Ordered(free) && 1 <= i < |free| && 1 <= j < |free| && i != j
    ensures !free[i].Has(free[j].addr)
  {
  }

  // ------------------------------------------------------- requests that are too large

  /** malloc(0xffffffff) on a fresh heap returns a block with no room after its header. */
  method EmptyBlock() returns (h: Heap)
    ensures fresh(h) && h.Valid() && exists a :: a in h.live && h.live[a] == 1
  {
    h := new Heap(1);
    var r := h.Malloc(0xFFFF_FFFF, Some(2));
  }

  /** malloc of two gigabytes on a fresh heap returns a block that sbrk never gave. */
  method UngivenBlock() returns (h: Heap)
    ensures fresh(h) && h.obtained == {} && h.live != map[] && !h.Valid()
  {
    h := new Heap(1);
    var r := h.Malloc(0x8000_0000, Some(2));
  }
}
