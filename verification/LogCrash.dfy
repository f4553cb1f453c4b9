/** Crash atomicity of commit() and idempotence of recovery: what every prefix
    of their disk writes stands for. */
module LogCrash {
  import opened Blocks
  import opened Log

  lemma Concat3<T>(a: seq<T>, b: seq<T>, c: seq<T>)
    ensures a + b + c == a + (b + c)
  {
  }

  lemma Concat5<T>(t: seq<T>, a: seq<T>, b: seq<T>, c: seq<T>, d: seq<T>)
    ensures t + a + b + c + d == t + (a + b + c + d)
  {
    Concat3(t, a, b);
    Concat3(t, a + b, c);
    Concat3(t, a + b + c, d);
  }

  lemma ApplyNone(d: Disk)
    ensures InRange([], |d|) && Apply(d, []) == d
  {
  }

  lemma ApplySnoc(d: Disk, ws: seq<Write>, w: Write)
    requires InRange(ws, |d|) && w.blockno < |d|
    ensures InRange(ws + [w], |d|)
    ensures Apply(d, ws + [w]) == Apply(d, ws)[w.blockno := w.data]
  {
    assert (ws + [w])[..|ws|] == ws;
  }

  lemma {:induction false} ApplyConcat(d: Disk, a: seq<Write>, b: seq<Write>)
    requires InRange(a, |d|) && InRange(b, |d|)
    ensures InRange(a + b, |d|)
    ensures Apply(d, a + b) == Apply(Apply(d, a), b)
    decreases |b|
  {
    if b == [] {
      assert a + b == a;
    } else {
      var b' := b[..|b| - 1];
      ApplyConcat(d, a, b');
      assert (a + b)[..|a + b| - 1] == a + b';
    }
  }

  /** The disk after k log blocks have been installed. */
  lemma {:induction false} InstallState(d: Disk, lh: seq<word>, data: seq<Block>, k: nat)
    requires |lh| == |data| && k <= |lh| && NoDup(lh)
    requires forall b <- lh :: b < |d|
    ensures InRange(InstallWrites(lh, data)[..k], |d|)
    ensures var d' := Apply(d, InstallWrites(lh, data)[..k]);
            forall x: word | x < |d| ::
              d'[x] == if x in lh && IndexOf(lh, x) < k then data[IndexOf(lh, x)] else d[x]
    decreases k
  {
    var ws := InstallWrites(lh, data);
    if k > 0 {
      InstallState(d, lh, data, k - 1);
      assert ws[..k] == ws[..k - 1] + [Write(lh[k - 1], data[k - 1])];
      assert lh[k - 1] in lh;
      ApplySnoc(d, ws[..k - 1], Write(lh[k - 1], data[k - 1]));
      IndexOfUnique(lh, k - 1);
    } else {
      assert ws[..k] == [];
    }
  }

  /** The disk after k cached blocks have been copied into the log. */
  lemma {:induction false} LogState(c: Config, d: Disk, data: seq<Block>, k: nat)
    requires c.Valid() && |d| == c.nblocks && |data| <= c.size - 1 && k <= |data|
    ensures InRange(LogWrites(c, data)[..k], |d|)
    ensures var d' := Apply(d, LogWrites(c, data)[..k]);
            forall x | 0 <= x < |d| ::
              d'[x] == if c.start + 1 <= x < c.start + 1 + k then data[x - c.start - 1] else d[x]
    decreases k
  {
    var ws := LogWrites(c, data);
    if k > 0 {
      LogState(c, d, data, k - 1);
      assert ws[..k] == ws[..k - 1] + [Write(c.start + k, data[k - 1])];
      ApplySnoc(d, ws[..k - 1], Write(c.start + k, data[k - 1]));
    } else {
      assert ws[..k] == [];
    }
  }

  lemma RecoverInRange(c: Config, d: Disk)
    requires DiskOk(c, d)
    ensures InRange(RecoverWrites(c, d), |d|)
  {
    var lh := Decode(d[c.start]);
    forall t | 0 <= t < |lh| ensures lh[t] < |d| {
      assert lh[t] in lh;
    }
  }

  /** A crash anywhere in recovery loses nothing: the disk still stands for the
      same image, and a recovery that completes leaves exactly that image in
      the home blocks and an empty log. */
  lemma RecoverPrefix(c: Config, d: Disk, k: nat)
    requires DiskOk(c, d) && k <= |RecoverWrites(c, d)|
    ensures InRange(RecoverWrites(c, d)[..k], |d|)
    ensures var d' := Apply(d, RecoverWrites(c, d)[..k]);
            && DiskOk(c, d') && Durable(c, d') == Durable(c, d)
            && (k == |RecoverWrites(c, d)| ==>
                  && Decode(d'[c.start]) == []
                  && HomeImage(c, d') == Durable(c, d))
  {
    hide GetWord;
    hide Decode;
    hide EncodeOver;
    hide HeaderFits;
    hide Durable;
    hide HomeImage;
    var lh := Decode(d[c.start]);
    var n := |lh|;
    var data := Slots(c, d, n);
    var ws := RecoverWrites(c, d);
    if k <= n {
      InstallState(d, lh, data, k);
      assert ws[..k] == InstallWrites(lh, data)[..k];
      PartlyInstalled(c, d, Apply(d, ws[..k]), k);
    } else {
      InstallState(d, lh, data, n);
      assert ws[..n] == InstallWrites(lh, data)[..n];
      var w := Write(c.start, EncodeOver(d[c.start], []));
      assert ws[..k] == ws[..n] + [w];
      ApplySnoc(d, ws[..n], w);
      Cleared(c, d, Apply(d, ws[..n]));
    }
  }

  /** Installing a prefix of the logged blocks changes no durable content. */
  lemma PartlyInstalled(c: Config, d: Disk, d': Disk, k: nat)
    requires DiskOk(c, d) && |d'| == |d|
    requires var lh := Decode(d[c.start]);
             forall x: word | x < |d| ::
               d'[x] == if x in lh && IndexOf(lh, x) < k then Slot(c, d, IndexOf(lh, x)) else d[x]
    ensures DiskOk(c, d') && Durable(c, d') == Durable(c, d)
  {
    hide GetWord;
    hide Decode;
    hide HeaderFits;
    var lh := Decode(d[c.start]);
    var h: word := c.start;
    assert h !in lh;
    assert d'[h] == d[h];
    forall b | b in c.Homes() ensures DurableAt(c, d', b) == DurableAt(c, d, b) {
      var w: word := b;
      if w in lh {
        var s: word := c.start + 1 + IndexOf(lh, w);
        assert s !in lh;
        assert d'[s] == d[s];
      }
    }
  }

  /** Clearing the header after every block is installed. */
  lemma Cleared(c: Config, d: Disk, d': Disk)
    requires DiskOk(c, d) && |d'| == |d|
    requires var lh := Decode(d[c.start]);
             forall x: word | x < |d| ::
               d'[x] == if x in lh && IndexOf(lh, x) < |lh| then Slot(c, d, IndexOf(lh, x)) else d[x]
    ensures var d2 := d'[c.start := EncodeOver(d[c.start], [])];
            && DiskOk(c, d2)
            && Decode(d2[c.start]) == []
            && Durable(c, d2) == Durable(c, d)
            && HomeImage(c, d2) == Durable(c, d)
  {
    hide GetWord;
    hide Decode;
    hide EncodeOver;
    hide HeaderFits;
    DecodeEncode(d[c.start], []);
    var d2 := d'[c.start := EncodeOver(d[c.start], [])];
    assert DiskOk(c, d2);
    forall b | b in c.Homes() ensures DurableAt(c, d2, b) == d2[b] == DurableAt(c, d, b) {
      var w: word := b;
      assert d'[w] == d2[w];
    }
  }

  /** Once the header is on disk, the rest of commit is a recovery. */
  lemma CommitTail(c: Config, d: Disk, lh: seq<word>, data: seq<Block>)
    requires DiskOk(c, d) && |lh| == |data| && LoggableList(c, lh)
    ensures var head := LogWrites(c, data) + [Write(c.start, EncodeOver(d[c.start], lh))];
            && InRange(head, |d|)
            && var d2 := Apply(d, head);
            && DiskOk(c, d2)
            && CommitWrites(c, d, lh, data) == head + RecoverWrites(c, d2)
            && Durable(c, d2) == Overlay(HomeImage(c, d), lh, data)
  {
    hide GetWord;
    hide PutWord;
    hide Decode;
    hide EncodeOver;
    hide HeaderFits;
    hide Durable;
    hide HomeImage;
    hide Overlay;
    hide InstallWrites;
    var n := |lh|;
    var a := LogWrites(c, data);
    var full := EncodeOver(d[c.start], lh);
    LogState(c, d, data, n);
    assert a[..n] == a;
    var head := a + [Write(c.start, full)];
    ApplySnoc(d, a, Write(c.start, full));
    var d2 := Apply(d, head);
    DecodeEncode(d[c.start], lh);
    LogArea(c, d, d2, lh, data);
    Logged(c, d, d2, lh, data);
    assert RecoverWrites(c, d2) == InstallWrites(lh, data) + [Write(c.start, EncodeOver(full, []))] by {
      assert Slots(c, d2, n) == data;
    }
    Concat3(head, InstallWrites(lh, data), [Write(c.start, EncodeOver(full, []))]);
  }

  lemma LogArea(c: Config, d: Disk, d2: Disk, lh: seq<word>, data: seq<Block>)
    requires c.Valid() && |d| == |d2| == c.nblocks && |lh| == |data| <= c.size - 1
    requires forall x | 0 <= x < |d| ::
               d2[x] == if x == c.start then d2[c.start]
                        else if c.start + 1 <= x < c.start + 1 + |lh| then data[x - c.start - 1]
                        else d[x]
    ensures forall t | 0 <= t < |lh| :: Slot(c, d2, t) == data[t]
    ensures forall x | 0 <= x < |d| && c.Home(x) :: d2[x] == d[x]
  {
  }

  /** A disk that holds the whole transaction in its log stands for the new image. */
  lemma Logged(c: Config, d: Disk, d2: Disk, lh: seq<word>, data: seq<Block>)
    requires c.Valid() && |d| == |d2| == c.nblocks && |lh| == |data| && LoggableList(c, lh)
    requires HeaderFits(d2[c.start]) && Decode(d2[c.start]) == lh
    requires forall t | 0 <= t < |lh| :: Slot(c, d2, t) == data[t]
    requires forall x | 0 <= x < |d| && c.Home(x) :: d2[x] == d[x]
    ensures DiskOk(c, d2)
    ensures Durable(c, d2) == Overlay(HomeImage(c, d), lh, data)
  {
    hide GetWord;
    hide Decode;
    hide HeaderFits;
    forall b | b in c.Homes() ensures DurableAt(c, d2, b) == Overlay(HomeImage(c, d), lh, data)[b] {
      var w: word := b;
    }
  }

  /** A crash after k writes of commit leaves a disk that stands for the image
      before the transaction (k within the log copy) or for the image with every
      logged block applied (from the header write on), and for nothing else. */
  lemma CommitPrefix(c: Config, d: Disk, lh: seq<word>, data: seq<Block>, k: nat)
    requires DiskOk(c, d) && |lh| == |data| && LoggableList(c, lh)
    requires Decode(d[c.start]) == []
    requires k <= |CommitWrites(c, d, lh, data)|
    ensures InRange(CommitWrites(c, d, lh, data)[..k], |d|)
    ensures var d' := Apply(d, CommitWrites(c, d, lh, data)[..k]);
            && DiskOk(c, d')
            && Durable(c, d') == (if k <= |lh| then HomeImage(c, d) else Overlay(HomeImage(c, d), lh, data))
            && (k <= |lh| ==> Decode(d'[c.start]) == [] && HomeImage(c, d') == HomeImage(c, d))
            && (k == |CommitWrites(c, d, lh, data)| ==>
                  && Decode(d'[c.start]) == []
                  && HomeImage(c, d') == Overlay(HomeImage(c, d), lh, data))
  {
    if k <= |lh| {
      CommitPrefixLog(c, d, lh, data, k);
    } else {
      CommitPrefixInstall(c, d, lh, data, k);
    }
  }

  /** Up to the header write only log blocks change. */
  lemma CommitPrefixLog(c: Config, d: Disk, lh: seq<word>, data: seq<Block>, k: nat)
    requires DiskOk(c, d) && |lh| == |data| && LoggableList(c, lh)
    requires Decode(d[c.start]) == [] && k <= |lh|
    ensures |lh| < |CommitWrites(c, d, lh, data)| && InRange(CommitWrites(c, d, lh, data)[..k], |d|)
    ensures var d' := Apply(d, CommitWrites(c, d, lh, data)[..k]);
            && DiskOk(c, d') && Durable(c, d') == HomeImage(c, d)
            && Decode(d'[c.start]) == [] && HomeImage(c, d') == HomeImage(c, d)
  {
    hide GetWord;
    hide PutWord;
    hide Decode;
    hide EncodeOver;
    hide HeaderFits;
    var ws := CommitWrites(c, d, lh, data);
    LogState(c, d, data, k);
    assert ws[..k] == LogWrites(c, data)[..k];
    var d' := Apply(d, ws[..k]);
    assert d'[c.start] == d[c.start];
    assert DiskOk(c, d');
    assert HomeImage(c, d') == HomeImage(c, d);
    assert Durable(c, d') == HomeImage(c, d');
  }

  lemma CommitPrefixInstall(c: Config, d: Disk, lh: seq<word>, data: seq<Block>, k: nat)
    requires DiskOk(c, d) && |lh| == |data| && LoggableList(c, lh)
    requires Decode(d[c.start]) == [] && |lh| < k <= |CommitWrites(c, d, lh, data)|
    ensures InRange(CommitWrites(c, d, lh, data)[..k], |d|)
    ensures var d' := Apply(d, CommitWrites(c, d, lh, data)[..k]);
            && DiskOk(c, d') && Durable(c, d') == Overlay(HomeImage(c, d), lh, data)
            && (k == |CommitWrites(c, d, lh, data)| ==>
                  Decode(d'[c.start]) == [] && HomeImage(c, d') == Overlay(HomeImage(c, d), lh, data))
  {
    hide GetWord;
    hide PutWord;
    hide Decode;
    hide EncodeOver;
    hide HeaderFits;
    var n := |lh|;
    var ws := CommitWrites(c, d, lh, data);
    CommitTail(c, d, lh, data);
    var head := LogWrites(c, data) + [Write(c.start, EncodeOver(d[c.start], lh))];
    var d2 := Apply(d, head);
    var tail := RecoverWrites(c, d2);
    RecoverPrefix(c, d2, k - n - 1);
    assert ws[..k] == head + tail[..k - n - 1];
    ApplyConcat(d, head, tail[..k - n - 1]);
  }

  /** The disk after recoveries that crash after ks[0], ks[1], ... writes. */
  ghost function CrashedRecoveries(c: Config, d: Disk, ks: seq<nat>): (r: Disk)
    requires DiskOk(c, d)
    ensures DiskOk(c, r) && Durable(c, r) == Durable(c, d)
    decreases |ks|
  {
    if ks == [] then d
    else
      var ws := RecoverWrites(c, d);
      var k := if ks[0] <= |ws| then ks[0] else |ws|;
      RecoverPrefix(c, d, k);
      CrashedRecoveries(c, Apply(d, ws[..k]), ks[1..])
  }

  ghost function Recovered(c: Config, d: Disk): (r: Disk)
    requires DiskOk(c, d)
    ensures |r| == |d|
  {
    RecoverInRange(c, d);
    Apply(d, RecoverWrites(c, d))
  }

  /** Crash atomicity: whatever write of commit the first crash hits, and however
      many recoveries crash after it, one recovery that completes leaves in the
      home blocks either the old image or the whole transaction. */
  lemma CrashAtomicity(c: Config, d: Disk, lh: seq<word>, data: seq<Block>, k: nat, ks: seq<nat>)
    requires DiskOk(c, d) && |lh| == |data| && LoggableList(c, lh)
    requires Decode(d[c.start]) == []
    requires k <= |CommitWrites(c, d, lh, data)|
    ensures InRange(CommitWrites(c, d, lh, data)[..k], |d|)
    ensures var crashed := Apply(d, CommitWrites(c, d, lh, data)[..k]);
            && DiskOk(c, crashed)
            && var final := Recovered(c, CrashedRecoveries(c, crashed, ks));
               && HomeImage(c, final) == (if k <= |lh| then HomeImage(c, d) else Overlay(HomeImage(c, d), lh, data))
               && DiskOk(c, final) && Decode(final[c.start]) == []
  {
    CommitPrefix(c, d, lh, data, k);
    var crashed := Apply(d, CommitWrites(c, d, lh, data)[..k]);
    var d' := CrashedRecoveries(c, crashed, ks);
    var ws := RecoverWrites(c, d');
    RecoverPrefix(c, d', |ws|);
    assert ws[..|ws|] == ws;
  }

  /** A second complete recovery changes no home block. */
  lemma RecoveryIdempotent(c: Config, d: Disk)
    requires DiskOk(c, d)
    ensures DiskOk(c, Recovered(c, d))
    ensures HomeImage(c, Recovered(c, Recovered(c, d))) == HomeImage(c, Recovered(c, d)) == Durable(c, d)
  {
    var ws := RecoverWrites(c, d);
    RecoverPrefix(c, d, |ws|);
    assert ws[..|ws|] == ws;
    var d1 := Recovered(c, d);
    var ws1 := RecoverWrites(c, d1);
    RecoverPrefix(c, d1, |ws1|);
    assert ws1[..|ws1|] == ws1;
  }
}
