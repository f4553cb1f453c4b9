/** The buffer cache's list and its agreement with a plain block store. */
module BioModel {
  import opened Common
  import opened Blocks

  datatype Buf = Buf(dev: nat, blockno: nat, valid: bool, dirty: bool, refcnt: nat, data: Block)

  // -------------------------------------------------------- the circular list

  /** Position i of the circle: the head h sits before the first buffer and after the last. */
  ghost function Node(h: nat, order: seq<nat>, i: int): nat {
    if 0 <= i < |order| then order[i] else h
  }

  ghost predicate Distinct(h: nat, order: seq<nat>) {
    && (forall i | 0 <= i < |order| :: order[i] < h)
    && (forall i, j | 0 <= i < j < |order| :: order[i] != order[j])
  }

  /** next and prev link the buffers in `order` and the head into one circle. */
  ghost predicate Ring(h: nat, next: seq<nat>, prev: seq<nat>, order: seq<nat>) {
    && |next| == |prev| == h + 1 && Distinct(h, order)
    && (forall i | -1 <= i < |order| :: next[Node(h, order, i)] == Node(h, order, i + 1))
    && (forall i | 0 <= i <= |order| :: prev[Node(h, order, i)] == Node(h, order, i - 1))
  }

  ghost function Without(order: seq<nat>, k: int): seq<nat>
    requires 0 <= k < |order|
  {
    order[..k] + order[k + 1..]
  }

  lemma NodeLess(h: nat, order: seq<nat>, k: int, i: int)
    requires 0 <= k < |order| && -1 <= i <= |order| - 1
    ensures Node(h, Without(order, k), i) == Node(h, order, if i < k then i else i + 1)
  {
  }

  lemma NodesDiffer(h: nat, order: seq<nat>, i: int, j: int)
    requires Distinct(h, order) && -1 <= i < j <= |order| && !(i == -1 && j == |order|)
    ensures Node(h, order, i) != Node(h, order, j)
  {
  }

  /** Taking the buffer at position k out of the circle. */
  lemma Unlinked(h: nat, next: seq<nat>, prev: seq<nat>, order: seq<nat>, k: int, next': seq<nat>, prev': seq<nat>)
    requires Ring(h, next, prev, order) && 0 <= k < |order|
    requires next' == next[Node(h, order, k - 1) := Node(h, order, k + 1)]
    requires prev' == prev[Node(h, order, k + 1) := Node(h, order, k - 1)]
    ensures Ring(h, next', prev', Without(order, k))
  {
    var less := Without(order, k);
    forall i | -1 <= i < |less| ensures next'[Node(h, less, i)] == Node(h, less, i + 1) {
      var o := if i < k then i else i + 1;
      NodeLess(h, order, k, i);
      NodeLess(h, order, k, i + 1);
      if o != k - 1 && !(o == |order| && k == 0) { Apart(h, order, o, k - 1); }
      assert o < |order| ==> next[Node(h, order, o)] == Node(h, order, o + 1);
    }
    forall i | 0 <= i <= |less| ensures prev'[Node(h, less, i)] == Node(h, less, i - 1) {
      var o := if i < k then i else i + 1;
      NodeLess(h, order, k, i);
      NodeLess(h, order, k, i - 1);
      if o != k + 1 { Apart(h, order, o, k + 1); }
      assert prev[Node(h, order, o)] == Node(h, order, o - 1);
    }
  }

  lemma Apart(h: nat, order: seq<nat>, i: int, j: int)
    requires Distinct(h, order) && -1 <= i <= |order| && -1 <= j <= |order| && i != j
    requires !(i == -1 && j == |order|) && !(j == -1 && i == |order|)
    ensures Node(h, order, i) != Node(h, order, j)
  {
    if i < j { NodesDiffer(h, order, i, j); } else { NodesDiffer(h, order, j, i); }
  }

  /** Putting buffer b right after the head. */
  lemma Pushed(h: nat, next: seq<nat>, prev: seq<nat>, order: seq<nat>, b: nat, next': seq<nat>, prev': seq<nat>)
    requires Ring(h, next, prev, order) && b < h && b !in order
    requires var n := next[b := Node(h, order, 0)]; next' == n[h := b]
    requires var p := prev[b := h]; prev' == p[Node(h, order, 0) := b]
    ensures Ring(h, next', prev', [b] + order)
  {
    var more := [b] + order;
    forall i | -1 <= i < |more| ensures next'[Node(h, more, i)] == Node(h, more, i + 1) {
      if i > 0 {
        assert Node(h, more, i) == Node(h, order, i - 1) && Node(h, more, i + 1) == Node(h, order, i);
        assert next[Node(h, order, i - 1)] == Node(h, order, i);
      }
    }
    forall i | 0 <= i <= |more| ensures prev'[Node(h, more, i)] == Node(h, more, i - 1) {
      if i > 1 {
        assert Node(h, more, i) == Node(h, order, i - 1) && Node(h, more, i - 1) == Node(h, order, i - 2);
        assert prev[Node(h, order, i - 1)] == Node(h, order, i - 2);
        Apart(h, order, i - 1, 0);
      }
    }
  }

  // ------------------------------------------------- agreement with the store

  predicate HasKey(b: Buf, dev: nat, blockno: nat) { b.dev == dev && b.blockno == blockno }

  /** b has the contents of block x of the disk. */
  ghost predicate Holds(b: Buf, x: nat) { b.valid && HasKey(b, 1, x) }

  ghost predicate Cached(buf: seq<Buf>, x: nat) {
    exists i :: 0 <= i < |buf| && Holds(buf[i], x)
  }

  ghost predicate Pinned(buf: seq<Buf>, x: nat) {
    exists i :: 0 <= i < |buf| && Holds(buf[i], x) && buf[i].dirty
  }

  /** At most one buffer for a block; device 0 marks buffers never used. */
  ghost predicate Keyed(buf: seq<Buf>) {
    forall i, j | 0 <= i < j < |buf| && buf[i].dev != 0 :: !HasKey(buf[j], buf[i].dev, buf[i].blockno)
  }

  /** Each buffer has the last value written to its block, the disk has it too unless the
      buffer is dirty or being changed, and the dirty buffers are those of the logged
      blocks. */
  ghost predicate Agrees(buf: seq<Buf>, touched: seq<bool>, disk: seq<Block>, store: seq<Block>, pins: set<nat>) {
    && |touched| == |buf| && |disk| == |store|
    && (forall i | 0 <= i < |buf| && buf[i].valid :: Current(buf[i], touched[i], disk, store))
    && (forall x: nat | x < |store| && !Cached(buf, x) :: disk[x] == store[x])
    && (forall i | 0 <= i < |buf| && buf[i].dirty :: buf[i].valid && buf[i].blockno in pins)
    && (forall x | x in pins :: Pinned(buf, x))
  }

  ghost predicate Current(b: Buf, touched: bool, disk: seq<Block>, store: seq<Block>) {
    && b.dev == 1 && b.blockno < |store| == |disk| && b.data == store[b.blockno]
    && (b.dirty || touched || disk[b.blockno] == b.data)
  }

  /** A buffer's count is the number of processes using it, and one of these holds its lock
      if it is locked or being changed. */
  ghost predicate Counted(buf: seq<Buf>, users: seq<set<nat>>, lock: seq<Option<nat>>, touched: seq<bool>) {
    && |users| == |lock| == |touched| == |buf|
    && (forall i | 0 <= i < |buf| :: buf[i].refcnt == |users[i]|)
    && (forall i | 0 <= i < |buf| && lock[i].Some? :: lock[i].value in users[i])
    && (forall i | 0 <= i < |buf| && touched[i] :: lock[i].Some? && buf[i].valid)
  }

  /** Released later means nearer to the head. */
  ghost predicate ByRelease(order: seq<nat>, stamp: seq<nat>, clock: nat) {
    && (forall b | 0 <= b < |stamp| :: b in order && stamp[b] < clock)
    && (forall i | 0 <= i < |order| :: order[i] < |stamp|)
    && (forall i, j | 0 <= i < j < |order| :: stamp[order[i]] > stamp[order[j]])
  }

  lemma AtMostOne(buf: seq<Buf>, i: int, j: int)
    requires Keyed(buf) && 0 <= i < |buf| && 0 <= j < |buf| && buf[i].dev != 0
             && HasKey(buf[j], buf[i].dev, buf[i].blockno)
    ensures i == j
  {
  }

  /** Changing no key and no contents: only who uses the buffer. */
  lemma SameContents(buf: seq<Buf>, b: int, r: nat, touched: seq<bool>, disk: seq<Block>, store: seq<Block>,
                     pins: set<nat>)
    requires 0 <= b < |buf| && Keyed(buf) && Agrees(buf, touched, disk, store, pins)
    ensures var buf' := buf[b := buf[b].(refcnt := r)]; Keyed(buf') && Agrees(buf', touched, disk, store, pins)
  {
    var buf' := buf[b := buf[b].(refcnt := r)];
    forall i | 0 <= i < |buf| ensures buf'[i] == buf[i].(refcnt := buf'[i].refcnt) {
    }
    forall x: nat | Cached(buf, x) ensures Cached(buf', x) {
      var i :| 0 <= i < |buf| && Holds(buf[i], x);
      assert Holds(buf'[i], x);
    }
    forall x | x in pins ensures Pinned(buf', x) {
      var i :| 0 <= i < |buf| && Holds(buf[i], x) && buf[i].dirty;
      assert Holds(buf'[i], x);
    }
  }

  /** Recycling a clean, unused buffer loses nothing. */
  lemma Recycled(buf: seq<Buf>, b: int, b': Buf, touched: seq<bool>, disk: seq<Block>, store: seq<Block>,
                 pins: set<nat>)
    requires 0 <= b < |buf| && Keyed(buf) && Agrees(buf, touched, disk, store, pins) && !buf[b].dirty && !touched[b]
    requires forall i | 0 <= i < |buf| :: !HasKey(buf[i], b'.dev, b'.blockno)
    requires !b'.valid && !b'.dirty && b'.dev != 0
    ensures Keyed(buf[b := b']) && Agrees(buf[b := b'], touched, disk, store, pins)
  {
    var buf' := buf[b := b'];
    forall x: nat | Cached(buf, x) && !Holds(buf[b], x) ensures Cached(buf', x) {
      var i :| 0 <= i < |buf| && Holds(buf[i], x);
      assert Holds(buf'[i], x);
    }
    forall x | x in pins ensures Pinned(buf', x) {
      var i :| 0 <= i < |buf| && Holds(buf[i], x) && buf[i].dirty;
      assert Holds(buf'[i], x);
    }
  }

  /** A buffer whose key stays gets new contents or flags. */
  lemma Rewritten(buf: seq<Buf>, b: int, b': Buf, touched: seq<bool>, touched': seq<bool>, disk: seq<Block>,
                  disk': seq<Block>,
                  store: seq<Block>, store': seq<Block>, pins: set<nat>, pins': set<nat>)
    requires 0 <= b < |buf| && Keyed(buf) && Agrees(buf, touched, disk, store, pins)
    requires b'.dev == buf[b].dev == 1 && b'.blockno == buf[b].blockno && b'.valid
    requires |touched'| == |touched| && forall i | 0 <= i < |buf| && i != b :: touched'[i] == touched[i]
    requires |disk'| == |disk| && |store'| == |store|
    requires forall x: nat | x < |store| && x != b'.blockno :: disk'[x] == disk[x] && store'[x] == store[x]
    requires forall x | x != b'.blockno :: x in pins' <==> x in pins
    requires b'.blockno in pins' <==> b'.dirty
    requires Current(b', touched'[b], disk', store')
    ensures Keyed(buf[b := b']) && Agrees(buf[b := b'], touched', disk', store', pins')
  {
    var buf' := buf[b := b'];
    assert Holds(buf'[b], b'.blockno);
    forall i | 0 <= i < |buf| && i != b && buf[i].valid ensures buf[i].blockno != b'.blockno {
      if buf[i].blockno == b'.blockno { AtMostOne(buf, i, b); }
    }
    forall x: nat | Cached(buf, x) ensures Cached(buf', x) {
      var i :| 0 <= i < |buf| && Holds(buf[i], x);
      assert i != b ==> Holds(buf'[i], x);
    }
    forall x | x in pins' ensures Pinned(buf', x) {
      if x != b'.blockno {
        var i :| 0 <= i < |buf| && Holds(buf[i], x) && buf[i].dirty;
        assert Holds(buf'[i], x);
      }
    }
  }

  lemma NoUsers(buf: seq<Buf>, users: seq<set<nat>>, lock: seq<Option<nat>>, touched: seq<bool>, b: int)
    requires Counted(buf, users, lock, touched) && 0 <= b < |buf| && buf[b].refcnt == 0
    ensures users[b] == {} && lock[b].None? && !touched[b]
  {
  }

  /** A block whose buffer is not valid yet is on the disk. */
  lemma UncachedIs(buf: seq<Buf>, b: int, touched: seq<bool>, disk: seq<Block>, store: seq<Block>, pins: set<nat>)
    requires Keyed(buf) && Agrees(buf, touched, disk, store, pins) && 0 <= b < |buf| && !buf[b].valid
    requires buf[b].dev == 1 && buf[b].blockno < |disk|
    ensures disk[buf[b].blockno] == store[buf[b].blockno] && buf[b].blockno !in pins
  {
    var x := buf[b].blockno;
    forall i | 0 <= i < |buf| ensures !Holds(buf[i], x) {
      if HasKey(buf[i], 1, x) { AtMostOne(buf, b, i); }
    }
    assert !Cached(buf, x);
    assert !Pinned(buf, x);
  }

  lemma PinnedIs(buf: seq<Buf>, b: int, touched: seq<bool>, disk: seq<Block>, store: seq<Block>, pins: set<nat>)
    requires Keyed(buf) && Agrees(buf, touched, disk, store, pins) && 0 <= b < |buf| && buf[b].valid
    ensures buf[b].blockno in pins <==> buf[b].dirty
  {
    var x := buf[b].blockno;
    if x in pins {
      assert Pinned(buf, x);
      var i :| 0 <= i < |buf| && Holds(buf[i], x) && buf[i].dirty;
      AtMostOne(buf, i, b);
    }
  }

  lemma Position(order: seq<nat>, b: nat) returns (k: int)
    requires b in order
    ensures 0 <= k < |order| && order[k] == b
  {
    k :| 0 <= k < |order| && order[k] == b;
  }

  lemma WithoutAt(order: seq<nat>, k: int, i: int)
    requires 0 <= k < |order| && 0 <= i < |order| - 1
    ensures |Without(order, k)| == |order| - 1 && Without(order, k)[i] == order[if i < k then i else i + 1]
  {
  }

  lemma WithoutIn(order: seq<nat>, k: int, c: nat)
    requires Distinct(|order|, order) && 0 <= k < |order|
    ensures c in Without(order, k) <==> c in order && c != order[k]
  {
    var less := Without(order, k);
    if c in order && c != order[k] {
      var j := Position(order, c);
      WithoutAt(order, k, if j < k then j else j - 1);
    }
    if c in less {
      var j := Position(less, c);
      WithoutAt(order, k, j);
    }
  }

  lemma Restamped(order: seq<nat>, stamp: seq<nat>, clock: nat, k: int)
    requires ByRelease(order, stamp, clock) && 0 <= k < |order| == |stamp| && Distinct(|order|, order)
    ensures var b := order[k];
            && b !in Without(order, k) && |Without(order, k)| == |order| - 1
            && ByRelease([b] + Without(order, k), stamp[b := clock], clock + 1)
  {
    var b, less := order[k], Without(order, k);
    var more, stamp' := [b] + less, stamp[b := clock];
    hide Without;
    assert |less| == |order| - 1 by { if |order| > 1 { WithoutAt(order, k, 0); } else { OnlyOne(order, k); } }
    WithoutIn(order, k, b);
    forall c | 0 <= c < |stamp| ensures c in more && stamp'[c] < clock + 1 {
      WithoutIn(order, k, c);
    }
    forall i | 0 <= i < |less|
      ensures less[i] < |stamp| && less[i] != b && less[i] == order[if i < k then i else i + 1]
    {
      WithoutAt(order, k, i);
    }
    forall i, j | 0 <= i < j < |more| ensures stamp'[more[i]] > stamp'[more[j]] {
      assert more[j] == less[j - 1];
      if i > 0 { assert more[i] == less[i - 1]; }
    }
  }

  lemma OnlyOne(order: seq<nat>, k: int)
    requires 0 <= k < |order| <= 1
    ensures Without(order, k) == []
  {
  }

  lemma CountedShape(buf: seq<Buf>, users: seq<set<nat>>, lock: seq<Option<nat>>, touched: seq<bool>)
    requires Counted(buf, users, lock, touched)
    ensures |users| == |lock| == |touched| == |buf|
  {
  }

  lemma CountedAdd(buf: seq<Buf>, users: seq<set<nat>>, lock: seq<Option<nat>>, touched: seq<bool>, b: int, b': Buf,
                   p: nat)
    requires Counted(buf, users, lock, touched) && 0 <= b < |buf| && b < |users| && p !in users[b]
    requires b'.refcnt == buf[b].refcnt + 1 && (b'.valid == buf[b].valid || buf[b].refcnt == 0)
    ensures Counted(buf[b := b'], users[b := users[b] + {p}], lock, touched)
  {
    assert |users[b] + {p}| == |users[b]| + 1;
    if buf[b].refcnt == 0 { NoUsers(buf, users, lock, touched, b); }
  }

  lemma CountedSame(buf: seq<Buf>, users: seq<set<nat>>, lock: seq<Option<nat>>, touched: seq<bool>,
                    touched': seq<bool>, b: int, b': Buf)
    requires Counted(buf, users, lock, touched) && 0 <= b < |buf| && b < |lock| && lock[b].Some?
    requires b'.refcnt == buf[b].refcnt && b'.valid && |touched'| == |touched|
    requires forall i | 0 <= i < |touched| && i != b :: touched'[i] == touched[i]
    ensures Counted(buf[b := b'], users, lock, touched')
  {
  }

  /** What Agrees says of one valid buffer. */
  lemma ValidIs(buf: seq<Buf>, b: int, touched: seq<bool>, disk: seq<Block>, store: seq<Block>, pins: set<nat>)
    requires Keyed(buf) && Agrees(buf, touched, disk, store, pins) && 0 <= b < |buf| && buf[b].valid
    ensures |touched| == |buf| && |disk| == |store| && Current(buf[b], touched[b], disk, store)
    ensures buf[b].blockno in pins <==> buf[b].dirty
  {
    PinnedIs(buf, b, touched, disk, store, pins);
  }

  /** Where a buffer is in the circle, and its neighbours. */
  lemma LinksAt(h: nat, next: seq<nat>, prev: seq<nat>, order: seq<nat>, stamp: seq<nat>, clock: nat,
                b: nat) returns (k: int)
    requires Ring(h, next, prev, order) && ByRelease(order, stamp, clock) && b < |stamp| == h
    ensures 0 <= k < |order| && order[k] == b && |next| == |prev| == h + 1 && Distinct(h, order)
    ensures next[b] == Node(h, order, k + 1) && prev[b] == Node(h, order, k - 1)
    ensures next[b] <= h && prev[b] <= h && next[b] != b && prev[b] != b
  {
    k := Position(order, b);
    assert next[Node(h, order, k)] == Node(h, order, k + 1);
    assert prev[Node(h, order, k)] == Node(h, order, k - 1);
    Apart(h, order, k, k + 1);
    Apart(h, order, k - 1, k);
  }

  lemma HeadNext(h: nat, next: seq<nat>, prev: seq<nat>, order: seq<nat>)
    requires Ring(h, next, prev, order)
    ensures |next| == |prev| == h + 1 && next[h] == Node(h, order, 0) && next[h] <= h
  {
    assert next[Node(h, order, -1)] == Node(h, order, 0);
  }

  lemma StampsPast(order: seq<nat>, stamp: seq<nat>, clock: nat)
    requires ByRelease(order, stamp, clock)
    ensures forall c | 0 <= c < |stamp| :: stamp[c] < clock
  {
  }
}
