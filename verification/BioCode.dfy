/** bio.c over memide.c.  Each method is one step that its locks make atomic, so any
    interleaving of processes is a sequence of these calls. */
module BioCode {
  import opened Common
  import opened Blocks
  import opened BioModel

  class Cache {
    const n: nat                  // NBUF; n is also the index of the list head
    var buf: seq<Buf>
    var next: seq<nat>
    var prev: seq<nat>
    var lock: seq<Option<nat>>    // sleep-locks: the process that holds each
    var disk: seq<Block>
    ghost var order: seq<nat>     // buffers from the head on
    ghost var stamp: seq<nat>     // when each buffer was last released to zero
    ghost var clock: nat
    ghost var users: seq<set<nat>> // processes between bget and the end of brelse
    ghost var touched: seq<bool>  // changed since it last agreed with the disk or was logged
    ghost var store: seq<Block>   // last value written to each block
    ghost var pins: set<nat>      // blocks in the log header

    ghost predicate Valid()
      reads this
    {
      && |buf| == |stamp| == |order| == n && Ring(n, next, prev, order) && ByRelease(order, stamp, clock)
      && Keyed(buf) && Agrees(buf, touched, disk, store, pins) && Counted(buf, users, lock, touched)
    }

    /** p holds the lock of buffer b. */
    ghost predicate Holding(p: nat, b: nat)
      reads this
    {
      b < |lock| && lock[b] == Some(p)
    }

    constructor (n: nat, disk: seq<Block>, junk: Block)
      ensures Valid() && this.n == n && this.disk == disk && store == disk && pins == {}
      ensures forall i | 0 <= i < n :: users[i] == {} && lock[i].None?
    {
      this.n := n;
      this.disk := disk;
      store := disk;
      pins := {};
      buf := seq(n, _ => Buf(0, 0, false, false, 0, junk));
      users := seq(n, _ => {});
      lock := seq(n, _ => None);
      touched := seq(n, _ => false);
      stamp := seq(n, i => i);
      clock := n;
      order := [];
      next := seq(n + 1, _ => n);
      prev := seq(n + 1, _ => n);
      new;
      BuildList();
      forall c | 0 <= c < n ensures c in order {
        assert order[n - 1 - c] == c;
      }
    }

    /** The loop of binit(). */
    method BuildList()
      requires |next| == |prev| == n + 1
      modifies this`next, this`prev, this`order
      ensures Ring(n, next, prev, order) && |order| == n
      ensures forall i | 0 <= i < n :: order[i] == n - 1 - i
    {
      prev := prev[n := n];
      next := next[n := n];
      order := [];
      var b := 0;
      while b < n
        invariant b <= n && Ring(n, next, prev, order) && |order| == b
        invariant forall i | 0 <= i < b :: order[i] == b - 1 - i
      {
        ghost var next0, prev0 := next, prev;
        assert next[Node(n, order, -1)] == Node(n, order, 0);
        next := next[b := next[n]];
        prev := prev[b := n];
        prev := prev[next[n] := b];
        next := next[n := b];
        Pushed(n, next0, prev0, order, b, next, prev);
        order := [b] + order;
        b := b + 1;
      }
    }

    /** The first loop of bget(). */
    method FindCached(dev: nat, blockno: nat) returns (r: Option<nat>)
      requires Valid()
      ensures r.Some? ==> r.value < n && HasKey(buf[r.value], dev, blockno)
      ensures r.None? ==> forall i | 0 <= i < n :: !HasKey(buf[i], dev, blockno)
    {
      hide Agrees;
      hide Counted;
      hide Keyed;
      assert next[Node(n, order, -1)] == Node(n, order, 0);
      var b := next[n];
      ghost var i := 0;
      while b != n
        invariant 0 <= i <= n && b == Node(n, order, i)
        invariant forall j | 0 <= j < i :: !HasKey(buf[order[j]], dev, blockno)
        decreases n - i
      {
        if HasKey(buf[b], dev, blockno) {
          return Some(b);
        }
        assert next[Node(n, order, i)] == Node(n, order, i + 1);
        b := next[b];
        i := i + 1;
      }
      forall c | 0 <= c < n ensures !HasKey(buf[c], dev, blockno) {
        assert c in order;
      }
      r := None;
    }

    ghost predicate Unused(b: Buf) { b.refcnt == 0 && !b.dirty }

    /** The second loop of bget(): the unused clean buffer released longest ago. */
    method FindUnused() returns (r: Option<nat>)
      requires Valid()
      ensures r.Some? ==> r.value < n && Unused(buf[r.value])
      ensures r.Some? ==> forall i | 0 <= i < n && Unused(buf[i]) :: stamp[r.value] <= stamp[i]
      ensures r.None? ==> forall i | 0 <= i < n :: !Unused(buf[i])
    {
      hide Agrees;
      hide Counted;
      hide Keyed;
      assert prev[Node(n, order, n)] == Node(n, order, n - 1);
      var b := prev[n];
      ghost var i := n - 1;
      while b != n
        invariant -1 <= i < n && b == Node(n, order, i)
        invariant forall j | i < j < n :: !Unused(buf[order[j]])
        decreases i
      {
        if buf[b].refcnt == 0 && !buf[b].dirty {
          forall c | 0 <= c < n && Unused(buf[c]) ensures stamp[b] <= stamp[c] {
            assert c in order;
          }
          return Some(b);
        }
        assert prev[Node(n, order, i)] == Node(n, order, i - 1);
        b := prev[b];
        i := i - 1;
      }
      forall c | 0 <= c < n ensures !Unused(buf[c]) {
        assert c in order;
      }
      r := None;
    }

    /** bget() up to the release of bcache.lock.  A block already cached keeps its buffer; a
        recycled buffer is the unused clean one released longest ago; None is the panic. */
    method Bget(p: nat, dev: nat, blockno: nat) returns (r: Option<nat>)
      requires Valid() && dev != 0
      requires forall i | 0 <= i < n && HasKey(buf[i], dev, blockno) :: p !in users[i]
      modifies this`buf, this`users
      ensures Valid()
      ensures r.Some? ==>
                var b := r.value;
                && b < n && HasKey(buf[b], dev, blockno) && users == old(users)[b := old(users)[b] + {p}]
                && (forall i | 0 <= i < n && i != b :: buf[i] == old(buf)[i])
                && (HasKey(old(buf)[b], dev, blockno) ==> buf[b] == old(buf)[b].(refcnt := buf[b].refcnt))
                && (!HasKey(old(buf)[b], dev, blockno) ==>
                      && !buf[b].valid && Unused(old(buf)[b]) && old(users)[b] == {}
                      && (forall i | 0 <= i < n :: !HasKey(old(buf)[i], dev, blockno))
                      && (forall i | 0 <= i < n && Unused(old(buf)[i]) :: stamp[b] <= stamp[i]))
      ensures r.None? ==> buf == old(buf) && users == old(users)
                          && forall i | 0 <= i < n :: !HasKey(buf[i], dev, blockno) && !Unused(buf[i])
    {
      hide Ring;
      hide ByRelease;
      hide Agrees;
      hide Keyed;
      hide Counted;
      CountedShape(buf, users, lock, touched);
      r := FindCached(dev, blockno);
      if r.Some? {
        var b := r.value;
        CountedAdd(buf, users, lock, touched, b, buf[b].(refcnt := buf[b].refcnt + 1), p);
        SameContents(buf, b, buf[b].refcnt + 1, touched, disk, store, pins);
        buf := buf[b := buf[b].(refcnt := buf[b].refcnt + 1)];
        users := users[b := users[b] + {p}];
        return;
      }
      r := FindUnused();
      if r.Some? {
        var b := r.value;
        var taken := Buf(dev, blockno, false, false, 1, buf[b].data);
        NoUsers(buf, users, lock, touched, b);
        CountedAdd(buf, users, lock, touched, b, taken, p);
        Recycled(buf, b, taken, touched, disk, store, pins);
        buf := buf[b := taken];
        users := users[b := users[b] + {p}];
      }
    }

    /** acquiresleep() gets the lock of a buffer that p got from bget(). */
    method Lock(p: nat, b: nat)
      requires Valid() && b < n && p in users[b] && lock[b].None?
      modifies this`lock
      ensures Valid() && lock == old(lock)[b := Some(p)]
    {
      lock := lock[b := Some(p)];
    }

    /** iderw(): the panics are exactly for a lock not held, nothing to do, another device and
        a block beyond the disk. */
    method Iderw(p: nat, b: nat) returns (ok: bool)
      requires b < |buf| && b < |lock|
      modifies this`buf, this`disk
      ensures ok <==> lock[b] == Some(p) && (!old(buf)[b].valid || old(buf)[b].dirty)
                      && old(buf)[b].dev == 1 && old(buf)[b].blockno < |old(disk)|
      ensures !ok ==> buf == old(buf) && disk == old(disk)
      ensures ok ==>
                buf == old(buf)[b := old(buf)[b].(valid := true, dirty := false,
                  data := if old(buf)[b].dirty then old(buf)[b].data else old(disk)[old(buf)[b].blockno])]
      ensures ok ==>
                disk == if old(buf)[b].dirty then old(disk)[old(buf)[b].blockno := old(buf)[b].data] else old(disk)
    {
      if lock[b] != Some(p) { return false; }
      if buf[b].valid && !buf[b].dirty { return false; }
      if buf[b].dev != 1 { return false; }
      if buf[b].blockno >= |disk| { return false; }
      var bn := buf[b].blockno;
      if buf[b].dirty {
        buf := buf[b := buf[b].(dirty := false)];
        disk := disk[bn := buf[b].data];
      } else {
        buf := buf[b := buf[b].(data := disk[bn])];
      }
      buf := buf[b := buf[b].(valid := true)];
      return true;
    }

    /** The rest of bread(): the buffer has the last value written to its block.  The panic is
        exactly for a buffer to be filled from another device or from beyond the disk. */
    method Bread(p: nat, b: nat) returns (ok: bool)
      requires Valid() && Holding(p, b) && b < n
      modifies this`buf, this`disk
      ensures Valid() && disk == old(disk)
      ensures ok <==> old(buf)[b].valid || (old(buf)[b].dev == 1 && old(buf)[b].blockno < |disk|)
      ensures !ok ==> buf == old(buf)
      ensures ok ==> buf[b].valid && buf[b].blockno < |store| && buf[b].data == store[buf[b].blockno]
      ensures buf == old(buf)[b := buf[b]] && HasKey(buf[b], old(buf)[b].dev, old(buf)[b].blockno)
    {
      hide Ring;
      hide ByRelease;
      hide Keyed;
      if buf[b].valid {
        ValidIs(buf, b, touched, disk, store, pins);
        return true;
      }
      ok := Iderw(p, b);
      if ok {
        UncachedIs(old(buf), b, touched, disk, store, pins);
        Rewritten(old(buf), b, buf[b], touched, touched, disk, disk, store, store, pins, pins);
      }
      hide Agrees;
    }

    /** The lock holder changes the contents. */
    method Overwrite(p: nat, b: nat, data: Block)
      requires Valid() && Holding(p, b) && b < n && buf[b].valid
      modifies this`buf, this`store, this`touched
      ensures Valid() && touched == old(touched)[b := true]
      ensures buf == old(buf)[b := old(buf)[b].(data := data)] && store == old(store)[buf[b].blockno := data]
    {
      hide Ring;
      hide ByRelease;
      hide Keyed;
      hide Agrees;
      hide Counted;
      var bn := buf[b].blockno;
      ValidIs(buf, b, touched, disk, store, pins);
      ghost var store', touched' := store[bn := data], touched[b := true];
      CountedSame(buf, users, lock, touched, touched', b, buf[b].(data := data));
      Rewritten(buf, b, buf[b].(data := data), touched, touched', disk, disk, store, store', pins, pins);
      buf := buf[b := buf[b].(data := data)];
      store := store';
      touched := touched';
    }

    /** log_write() pins the buffer; its block is then in the log header. */
    method LogPin(p: nat, b: nat)
      requires Valid() && Holding(p, b) && b < n && buf[b].valid
      modifies this`buf, this`touched, this`pins
      ensures Valid() && pins == old(pins) + {buf[b].blockno} && touched == old(touched)[b := false]
      ensures buf == old(buf)[b := old(buf)[b].(dirty := true)]
    {
      hide Ring;
      hide ByRelease;
      hide Keyed;
      hide Agrees;
      hide Counted;
      ValidIs(buf, b, touched, disk, store, pins);
      ghost var touched', pins' := touched[b := false], pins + {buf[b].blockno};
      CountedSame(buf, users, lock, touched, touched', b, buf[b].(dirty := true));
      Rewritten(buf, b, buf[b].(dirty := true), touched, touched', disk, disk, store, store, pins, pins');
      buf := buf[b := buf[b].(dirty := true)];
      touched := touched';
      pins := pins';
    }

    /** bwrite(): the disk gets the contents; if the block was in the log header, this is its
        installation. */
    method Bwrite(p: nat, b: nat)
      requires Valid() && Holding(p, b) && b < n && buf[b].valid
      modifies this`buf, this`disk, this`touched, this`pins
      ensures Valid() && pins == old(pins) - {buf[b].blockno} && touched == old(touched)[b := false]
      ensures buf == old(buf)[b := old(buf)[b].(dirty := false)] && disk == old(disk)[buf[b].blockno := buf[b].data]
    {
      hide Ring;
      hide ByRelease;
      hide Keyed;
      hide Agrees;
      hide Counted;
      ValidIs(buf, b, touched, disk, store, pins);
      ghost var touched', pins' := touched[b := false], pins - {buf[b].blockno};
      ghost var disk' := disk[buf[b].blockno := buf[b].data];
      Rewritten(buf, b, buf[b].(dirty := false), touched, touched', disk, disk', store, store, pins, pins');
      CountedSame(buf, users, lock, touched, touched', b, buf[b].(dirty := false));
      buf := buf[b := buf[b].(dirty := true)];
      var ok := Iderw(p, b);
      touched := touched';
      pins := pins';
      assert buf == old(buf)[b := old(buf)[b].(dirty := false)];
    }

    /** releasesleep() at the start of brelse(); by then a change has been logged or written. */
    method Unlock(p: nat, b: nat)
      requires Valid() && Holding(p, b) && b < n && !touched[b]
      modifies this`lock
      ensures Valid() && lock == old(lock)[b := None]
    {
      lock := lock[b := None];
    }

    /** The rest of brelse(), under bcache.lock. */
    method Drop(p: nat, b: nat)
      requires Valid() && b < n && p in users[b] && !Holding(p, b)
      modifies this`buf, this`users, this`next, this`prev, this`order, this`stamp, this`clock
      ensures Valid() && users == old(users)[b := old(users)[b] - {p}]
      ensures buf == old(buf)[b := old(buf)[b].(refcnt := old(buf)[b].refcnt - 1)]
      ensures users[b] == {} ==> order[0] == b
                                 && (forall i | 0 <= i < n && i != b :: stamp[i] == old(stamp)[i] < stamp[b])
      ensures users[b] != {} ==> order == old(order) && stamp == old(stamp)
    {
      hide Ring;
      hide ByRelease;
      hide Agrees;
      hide Keyed;
      ghost var users' := users[b := users[b] - {p}];
      assert |users'[b]| == |users[b]| - 1;
      SameContents(buf, b, buf[b].refcnt - 1, touched, disk, store, pins);
      buf := buf[b := buf[b].(refcnt := buf[b].refcnt - 1)];
      users := users';
      if buf[b].refcnt == 0 {
        MoveToFront(b);
      }
    }

    /** The list surgery of brelse(). */
    method MoveToFront(b: nat)
      requires |stamp| == |order| == n && Ring(n, next, prev, order) && ByRelease(order, stamp, clock) && b < n
      modifies this`next, this`prev, this`order, this`stamp, this`clock
      ensures |stamp| == |order| == n && Ring(n, next, prev, order) && ByRelease(order, stamp, clock)
      ensures order[0] == b && forall i | 0 <= i < n && i != b :: stamp[i] == old(stamp)[i] < stamp[b]
    {
      hide Ring;
      hide ByRelease;
      hide Distinct;
      hide Without;
      ghost var k := LinksAt(n, next, prev, order, stamp, clock, b);
      ghost var less := Without(order, k);
      prev := prev[next[b] := prev[b]];
      next := next[prev[b] := next[b]];
      Unlinked(n, old(next), old(prev), order, k, next, prev);
      ghost var next1, prev1 := next, prev;
      HeadNext(n, next, prev, less);
      next := next[b := next[n]];
      prev := prev[b := n];
      prev := prev[next[n] := b];
      next := next[n := b];
      StampsPast(order, stamp, clock);
      Restamped(order, stamp, clock, k);
      Pushed(n, next1, prev1, less, b, next, prev);
      order := [b] + less;
      stamp := stamp[b := clock];
      clock := clock + 1;
    }
  }
}
