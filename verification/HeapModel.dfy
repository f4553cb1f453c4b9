/** umalloc.c's free list as a value: blocks in address order, with `base` first. */
module HeapModel {

  /** A block of memory in units of sizeof(Header), its header included. */
  datatype Block = Block(addr: int, size: nat) {
    ghost predicate Has(u: int) { addr <= u < addr + size }
  }

  /** free[0] is base, which holds no memory.  Addresses rise strictly, and no two blocks
      touch: adjacent free blocks have been merged. */
  ghost predicate Ordered(free: seq<Block>) {
    && |free| > 0 && free[0].size == 0
    && (forall i | 1 <= i < |free| :: free[i].size > 0)
    && (forall i, j | 0 <= i < j < |free| :: free[i].addr + free[i].size < free[j].addr)
  }

  ghost predicate InFree(free: seq<Block>, u: int) {
    exists i :: 1 <= i < |free| && free[i].Has(u)
  }

  ghost predicate InLive(live: map<int, nat>, u: int) {
    exists a :: a in live && Block(a, live[a]).Has(u)
  }

  /** The live blocks and the free blocks partition the memory obtained from sbrk. */
  ghost predicate Partition(free: seq<Block>, live: map<int, nat>, obtained: set<int>) {
    && (forall u :: u in obtained <==> InFree(free, u) || InLive(live, u))
    && (forall u :: !(InFree(free, u) && InLive(live, u)))
    && (forall a, b, u :: a in live && b in live && a != b && Block(a, live[a]).Has(u) ==> !Block(b, live[b]).Has(u))
    && (forall a | a in live :: live[a] > 0)
  }

  /** Where a block that is not free belongs: after the last free block below it. */
  ghost predicate Place(free: seq<Block>, addr: int, k: int) {
    && 0 <= k < |free| && free[k].addr < addr
    && (k + 1 < |free| ==> addr < free[k + 1].addr)
  }

  ghost predicate JoinsNext(free: seq<Block>, k: int, b: Block) {
    0 <= k < |free| - 1 && b.addr + b.size == free[k + 1].addr
  }

  ghost predicate JoinsPrev(free: seq<Block>, k: int, b: Block) {
    0 <= k < |free| && free[k].addr + free[k].size == b.addr
  }

  /** The block with the free neighbour above it merged in. */
  ghost function Grown(free: seq<Block>, k: int, b: Block): Block {
    if JoinsNext(free, k, b) then b.(size := b.size + free[k + 1].size) else b
  }

  /** The list after malloc() has carved n units off the end of block i. */
  ghost function Carved(free: seq<Block>, i: int, n: nat): seq<Block>
    requires 0 <= i < |free| && n <= free[i].size
  {
    if free[i].size == n then free[..i] + free[i + 1..]
    else free[i := free[i].(size := free[i].size - n)]
  }

  /** The block that malloc() carves off. */
  ghost function Piece(free: seq<Block>, i: int, n: nat): Block
    requires 0 <= i < |free| && n <= free[i].size
  {
    Block(free[i].addr + free[i].size - n, n)
  }

  // ------------------------------------------------------------------- free

  /** A block overlapping no free block, and above base, has one place in the list. */
  ghost predicate Apart(free: seq<Block>, b: Block) {
    && b.size > 0 && |free| > 0 && free[0].addr < b.addr
    && forall u :: !(b.Has(u) && InFree(free, u))
  }

  lemma ApartPlace(free: seq<Block>, b: Block, k: int)
    requires Ordered(free) && Apart(free, b) && Place(free, b.addr, k)
    ensures free[k].addr + free[k].size <= b.addr
    ensures k + 1 < |free| ==> b.addr + b.size <= free[k + 1].addr
  {
    assert b.Has(b.addr);
    assert !InFree(free, b.addr);
    if k > 0 {
      assert !free[k].Has(b.addr);
    }
    if k + 1 < |free| {
      assert free[k + 1].Has(free[k + 1].addr);
      assert InFree(free, free[k + 1].addr);
      assert !b.Has(free[k + 1].addr);
    }
  }

  /** Position of b's memory in the new list, and the block it is in. */
  ghost function Spot(free: seq<Block>, k: int, b: Block): int {
    if JoinsPrev(free, k, b) then k else k + 1
  }

  ghost function Joined(free: seq<Block>, k: int, b: Block): Block
    requires 0 <= k < |free|
  {
    var b' := Grown(free, k, b);
    if JoinsPrev(free, k, b) then free[k].(size := free[k].size + b'.size) else b'
  }

  /** The first block of the old list that stays above b's memory. */
  ghost function Above(free: seq<Block>, k: int, b: Block): int {
    if JoinsNext(free, k, b) then k + 2 else k + 1
  }

  /** The list after free() has put block b back after position k. */
  ghost function Inserted(free: seq<Block>, k: int, b: Block): seq<Block>
    requires 0 <= k < |free|
  {
    free[..Spot(free, k, b)] + [Joined(free, k, b)] + free[Above(free, k, b)..]
  }

  /** r is free with b's memory merged in: equal below the spot, shifted above it. */
  ghost predicate Merges(free: seq<Block>, k: int, b: Block, r: seq<Block>)
    requires 0 <= k < |free|
  {
    var at := Spot(free, k, b);
    && |r| == |free| + 1 - (if JoinsNext(free, k, b) then 1 else 0) - (if JoinsPrev(free, k, b) then 1 else 0)
    && at < |r|
    && (forall i | 0 <= i < at :: r[i] == free[i])
    && r[at] == Joined(free, k, b)
    && (forall i | at < i < |r| :: r[i] == free[i + |free| - |r|])
  }

  lemma InsertedMerges(free: seq<Block>, k: int, b: Block)
    requires 0 <= k < |free|
    ensures Merges(free, k, b, Inserted(free, k, b))
  {
    var at, up := Spot(free, k, b), Above(free, k, b);
    assert 0 <= at <= up <= |free|;
    Spliced(free, at, Joined(free, k, b), up);
    hide Joined;
  }

  lemma Spliced(a: seq<Block>, at: int, x: Block, up: int)
    requires 0 <= at <= up <= |a|
    ensures var r := a[..at] + [x] + a[up..];
            && |r| == |a| + 1 + at - up && (forall i | 0 <= i < at :: r[i] == a[i]) && r[at] == x
            && (forall i | at < i < |r| :: r[i] == a[i + |a| - |r|])
  {
  }

  lemma MergesOrdered(free: seq<Block>, k: int, b: Block, r: seq<Block>)
    requires Ordered(free) && Place(free, b.addr, k) && b.size > 0
    requires free[k].addr + free[k].size <= b.addr && (k + 1 < |free| ==> b.addr + b.size <= free[k + 1].addr)
    requires k == 0 ==> !JoinsPrev(free, k, b)
    requires Merges(free, k, b, r)
    ensures Ordered(r) && r[0].addr == free[0].addr
  {
    var at, shift := Spot(free, k, b), |free| - |r|;
    SpotEnds(free, k, b, r);
    hide Joined;
    hide Grown;
    hide JoinsNext;
    hide JoinsPrev;
    forall i, j | 0 <= i < j < |r| ensures r[i].addr + r[i].size < r[j].addr {
      if i < at && at < j { assert r[j] == free[j + shift] && i < j + shift; }
    }
  }

  /** The merged block lies strictly between its neighbours in the new list. */
  lemma SpotEnds(free: seq<Block>, k: int, b: Block, r: seq<Block>)
    requires Ordered(free) && Place(free, b.addr, k) && b.size > 0
    requires free[k].addr + free[k].size <= b.addr && (k + 1 < |free| ==> b.addr + b.size <= free[k + 1].addr)
    requires k == 0 ==> !JoinsPrev(free, k, b)
    requires Merges(free, k, b, r)
    ensures var at, shift := Spot(free, k, b), |free| - |r|;
            && 1 <= at && at <= k + 1 && r[at].size > 0 && -1 <= shift <= 1
            && (forall i | 0 <= i < at :: free[i].addr + free[i].size < r[at].addr)
            && k <= at + shift
            && (forall j | at < j < |r| :: r[at].addr + r[at].size < r[j].addr)
  {
  }

  lemma InsertedOrdered(free: seq<Block>, k: int, b: Block)
    requires Ordered(free) && Apart(free, b) && Place(free, b.addr, k)
    ensures Ordered(Inserted(free, k, b))
    ensures Inserted(free, k, b)[0].addr == free[0].addr
  {
    ApartPlace(free, b, k);
    InsertedMerges(free, k, b);
    hide Inserted;
    MergesOrdered(free, k, b, Inserted(free, k, b));
  }

  lemma HasJoined(free: seq<Block>, k: int, b: Block, u: int)
    requires 0 <= k < |free|
    ensures b.Has(u) ==> Joined(free, k, b).Has(u)
    ensures JoinsPrev(free, k, b) && free[k].Has(u) ==> Joined(free, k, b).Has(u)
    ensures JoinsNext(free, k, b) && free[k + 1].Has(u) ==> Joined(free, k, b).Has(u)
  {
  }

  /** Every unit of the old list and of b is in the new list. */
  lemma MergesKeeps(free: seq<Block>, k: int, b: Block, r: seq<Block>, u: int)
    requires Ordered(free) && Place(free, b.addr, k) && Merges(free, k, b, r)
    requires InFree(free, u) || b.Has(u)
    ensures InFree(r, u)
  {
    var at, shift := Spot(free, k, b), |free| - |r|;
    HasJoined(free, k, b, u);
    hide Joined;
    hide Ordered;
    if b.Has(u) {
      assert r[at].Has(u);
    } else {
      var i :| 1 <= i < |free| && free[i].Has(u);
      if i < at { assert r[i].Has(u); }
      else if i == k || (i == k + 1 && JoinsNext(free, k, b)) { assert r[at].Has(u); }
      else { assert r[i - shift].Has(u); }
    }
  }

  lemma JoinedHas(free: seq<Block>, k: int, b: Block, u: int)
    requires 0 <= k < |free| && Joined(free, k, b).Has(u) && !b.Has(u)
    ensures (JoinsPrev(free, k, b) && free[k].Has(u)) || (JoinsNext(free, k, b) && free[k + 1].Has(u))
  {
  }

  /** Every unit of the new list was in the old one or in b. */
  lemma MergesOnly(free: seq<Block>, k: int, b: Block, r: seq<Block>, u: int)
    requires Ordered(free) && Place(free, b.addr, k) && Merges(free, k, b, r) && InFree(r, u)
    requires k == 0 ==> !JoinsPrev(free, k, b)
    ensures InFree(free, u) || b.Has(u)
  {
    hide Ordered;
    hide Joined;
    var at, shift := Spot(free, k, b), |free| - |r|;
    var i :| 1 <= i < |r| && r[i].Has(u);
    if i < at { assert free[i].Has(u); }
    else if i > at { assert free[i + shift].Has(u); }
    else if !b.Has(u) {
      JoinedHas(free, k, b, u);
    }
  }

  lemma InsertedHolds(free: seq<Block>, k: int, b: Block, u: int)
    requires Ordered(free) && Apart(free, b) && Place(free, b.addr, k)
    ensures InFree(Inserted(free, k, b), u) <==> InFree(free, u) || b.Has(u)
  {
    InsertedMerges(free, k, b);
    hide Inserted;
    hide Merges;
    var r := Inserted(free, k, b);
    if InFree(free, u) || b.Has(u) { MergesKeeps(free, k, b, r, u); }
    if InFree(r, u) { MergesOnly(free, k, b, r, u); }
  }

  /** free() gives a live block's memory back to the free list: still a partition. */
  lemma FreePartition(free: seq<Block>, live: map<int, nat>, obtained: set<int>, k: int, a: int)
    requires Ordered(free) && Partition(free, live, obtained) && a in live
    requires Apart(free, Block(a, live[a])) && Place(free, a, k)
    ensures Partition(Inserted(free, k, Block(a, live[a])), live - {a}, obtained)
  {
    var b := Block(a, live[a]);
    var free' := Inserted(free, k, b);
    forall u ensures InFree(free', u) <==> InFree(free, u) || b.Has(u) {
      InsertedHolds(free, k, b, u);
    }
    forall u ensures InLive(live - {a}, u) <==> InLive(live, u) && !b.Has(u) {
      if InLive(live, u) && !b.Has(u) {
        var x :| x in live && Block(x, live[x]).Has(u);
        assert x in live - {a};
      }
    }
  }

  /** Memory fresh from sbrk joins the free list: a partition of more memory. */
  lemma GrowPartition(free: seq<Block>, live: map<int, nat>, obtained: set<int>, k: int, b: Block, more: set<int>)
    requires Ordered(free) && Partition(free, live, obtained)
    requires Apart(free, b) && Place(free, b.addr, k)
    requires forall u :: u in more <==> b.Has(u)
    requires more !! obtained
    ensures Partition(Inserted(free, k, b), live, obtained + more)
  {
    var free' := Inserted(free, k, b);
    forall u ensures InFree(free', u) <==> InFree(free, u) || b.Has(u) {
      InsertedHolds(free, k, b, u);
    }
  }

  // ----------------------------------------------------------------- malloc

  lemma CarvedOrdered(free: seq<Block>, i: int, n: nat)
    requires Ordered(free) && 1 <= i < |free| && 0 < n <= free[i].size
    ensures Ordered(Carved(free, i, n)) && Carved(free, i, n)[0] == free[0]
  {
  }

  lemma CarvedHolds(free: seq<Block>, i: int, n: nat, u: int)
    requires Ordered(free) && 1 <= i < |free| && 0 < n <= free[i].size
    ensures InFree(Carved(free, i, n), u) <==> InFree(free, u) && !Piece(free, i, n).Has(u)
  {
    var r := Carved(free, i, n);
    var gone := free[i].size == n;
    if InFree(free, u) && !Piece(free, i, n).Has(u) {
      var j :| 1 <= j < |free| && free[j].Has(u);
      if j < i { assert r[j].Has(u); }
      else if j == i { assert r[i].Has(u); }
      else if gone { assert r[j - 1].Has(u); } else { assert r[j].Has(u); }
    }
    if InFree(r, u) {
      var j :| 1 <= j < |r| && r[j].Has(u);
      if j < i { assert free[j].Has(u); }
      else if gone { assert free[j + 1].Has(u); } else { assert free[j].Has(u); }
    }
  }

  /** malloc() moves a piece of a free block to the live blocks: still a partition, so the
      piece overlaps no other live block. */
  lemma MallocPartition(free: seq<Block>, live: map<int, nat>, obtained: set<int>, i: int, n: nat)
    requires Ordered(free) && Partition(free, live, obtained) && 1 <= i < |free| && 0 < n <= free[i].size
    ensures Piece(free, i, n).addr !in live
    ensures Partition(Carved(free, i, n), live[Piece(free, i, n).addr := n], obtained)
  {
    var b := Piece(free, i, n);
    var free' := Carved(free, i, n);
    var live' := live[b.addr := n];
    forall u ensures InFree(free', u) <==> InFree(free, u) && !b.Has(u) {
      CarvedHolds(free, i, n, u);
    }
    forall u ensures b.Has(u) ==> InFree(free, u) {
      if b.Has(u) { assert free[i].Has(u); }
    }
    assert b.Has(b.addr);
    assert b.addr in live ==> Block(b.addr, live[b.addr]).Has(b.addr);
    assert !InLive(live, b.addr);
    forall u ensures InLive(live', u) <==> InLive(live, u) || b.Has(u) {
      if InLive(live, u) {
        var a :| a in live && Block(a, live[a]).Has(u);
        assert a in live' && live'[a] == live[a];
      }
      if b.Has(u) { assert b.addr in live'; }
    }
    forall x, y, u | x in live' && y in live' && x != y && Block(x, live'[x]).Has(u)
      ensures !Block(y, live'[y]).Has(u)
    {
      if y == b.addr { assert InLive(live, u); }
      if x == b.addr && Block(y, live'[y]).Has(u) { assert InLive(live, u); }
    }
  }
}
