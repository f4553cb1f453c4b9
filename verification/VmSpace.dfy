/** How many frames a range of new pages needs: one each, and one for each table that is
    missing. */
module VmSpace {
  import opened Common
  import opened VmModel

  /** Some page from lo up to hi belongs to table i. */
  ghost predicate Spans(lo: nat, hi: nat, i: nat) {
    lo < hi && lo / PTES <= i <= (hi - 1) / PTES
  }

  /** The tables that the pages from lo up to hi need and that are not there. */
  ghost function MissingTabs(s: View, lo: nat, hi: nat): set<nat> {
    set i: nat | i < |s.tab| && Spans(lo, hi, i) && s.tab[i] == 0
  }

  /** s' has exactly those tables in addition. */
  ghost predicate Hung(s: View, s': View, lo: nat, hi: nat) {
    |s'.tab| == |s.tab| && forall i | 0 <= i < |s.tab| :: s'.tab[i] == 0 <==> s.tab[i] == 0 && !Spans(lo, hi, i)
  }

  ghost function Cost(s: View, lo: nat, hi: nat): int {
    hi - lo + |MissingTabs(s, lo, hi)|
  }

  lemma SpansNext(lo: nat, a: nat, i: nat)
    requires lo <= a
    ensures Spans(lo, a + 1, i) <==> Spans(lo, a, i) || i == a / PTES
  {
  }

  lemma HungNone(s: View, lo: nat)
    ensures Hung(s, s, lo, lo) && MissingTabs(s, lo, lo) == {}
  {
  }

  /** The next page needs its table, if that is still missing. */
  lemma MissingNext(s: View, s1: View, lo: nat, a: nat)
    requires Hung(s, s1, lo, a) && lo <= a && a / PTES < |s.tab|
    ensures |MissingTabs(s, lo, a + 1)| == |MissingTabs(s, lo, a)| + if s1.tab[a / PTES] == 0 then 1 else 0
  {
    hide Spans;
    var m, m' := MissingTabs(s, lo, a), MissingTabs(s, lo, a + 1);
    forall i: nat | i < |s.tab| ensures Spans(lo, a + 1, i) <==> Spans(lo, a, i) || i == a / PTES {
      SpansNext(lo, a, i);
    }
    if s1.tab[a / PTES] == 0 {
      assert m' == m + {a / PTES} && a / PTES !in m;
    } else {
      assert m' == m;
    }
  }

  lemma HungNext(s: View, s1: View, s2: View, lo: nat, a: nat, t: nat)
    requires Hung(s, s1, lo, a) && lo <= a && a / PTES < |s.tab|
    requires t != 0 && s2.tab == s1.tab[a / PTES := t]
    ensures Hung(s, s2, lo, a + 1)
  {
    hide Spans;
    forall i: nat | i < |s.tab| ensures Spans(lo, a + 1, i) <==> Spans(lo, a, i) || i == a / PTES {
      SpansNext(lo, a, i);
    }
  }

  lemma MissingMore(s: View, lo: nat, a: nat, hi: nat)
    requires a <= hi
    ensures |MissingTabs(s, lo, a)| <= |MissingTabs(s, lo, hi)|
  {
    forall i: nat | Spans(lo, a, i) ensures Spans(lo, hi, i) {
    }
    SubsetSize(MissingTabs(s, lo, a), MissingTabs(s, lo, hi));
  }

  /** The first mapped page from lo up to hi, or hi. */
  ghost function FirstMapped(look: seq<nat>, lo: nat, hi: nat): (v: nat)
    requires lo <= hi <= |look|
    ensures lo <= v <= hi && (v < hi ==> look[v] != 0) && forall u | lo <= u < v :: look[u] == 0
    decreases hi - lo
  {
    if lo == hi || look[lo] != 0 then lo else FirstMapped(look, lo + 1, hi)
  }

  /** The first page that is not mapped, or n. */
  ghost function FirstHole(look: seq<nat>, v: nat, n: nat): (r: nat)
    requires v <= n <= |look|
    ensures v <= r <= n && (r < n ==> look[r] == 0) && forall u | v <= u < r :: look[u] != 0
    decreases n - v
  {
    if v == n || look[v] == 0 then v else FirstHole(look, v + 1, n)
  }

  datatype MapResult = Done | NoMemory | Remap

  /** The pages from lo up to a are mapped, with tables taken from n0 free frames, of which n
      are left; no page among them was mapped before. */
  ghost predicate Booked(s0: View, s: View, lo: nat, a: nat, hi: nat, n0: nat, n: nat) {
    && lo <= a <= hi <= |s0.look| && Hung(s0, s, lo, a) && n == n0 - |MissingTabs(s0, lo, a)|
    && FirstMapped(s0.look, lo, hi) == FirstMapped(s0.look, a, hi)
  }

  /** What mapping the pages from lo up to hi comes to, with n0 frames free: it goes on to the
      first page that is mapped, unless the tables up to there are more than the frames. */
  ghost predicate Settled(s0: View, s: View, lo: nat, hi: nat, a: nat, r: MapResult, n0: nat, n: nat) {
    && lo <= a <= hi <= |s0.look| && Hung(s0, s, lo, a) && n == n0 - |MissingTabs(s0, lo, a)|
    && var e := FirstMapped(s0.look, lo, hi);
       && r == (if n0 < |MissingTabs(s0, lo, e)| then NoMemory else if e < hi then Remap else Done)
       && (!r.NoMemory? ==> a == e)
  }

  lemma BookStart(s: View, lo: nat, hi: nat, n: nat)
    requires lo <= hi <= |s.look|
    ensures Booked(s, s, lo, lo, hi, n, n)
  {
    HungNone(s, lo);
  }

  lemma BookNext(s0: View, s: View, s': View, lo: nat, a: nat, hi: nat, n0: nat, n: nat, n': nat, r: MapResult)
    requires Booked(s0, s, lo, a, hi, n0, n) && a < hi && a < NPAGES && PTES == |s.tab| == |s'.tab|
    requires |s.look| == |s0.look| && s.look[a] == s0.look[a] && (s.look[a] != 0 ==> s.tab[Pdx(a)] != 0)
    requires r.Remap? <==> s.look[a] != 0
    requires r.NoMemory? <==> s.tab[Pdx(a)] == 0 && n == 0
    requires s'.tab == s.tab[Pdx(a) := s'.tab[Pdx(a)]]
    requires if r.NoMemory? then s'.tab == s.tab else s'.tab[Pdx(a)] != 0
    requires n' == n - if s.tab[Pdx(a)] == 0 && !r.NoMemory? then 1 else 0
    ensures if r.Done? then Booked(s0, s', lo, a + 1, hi, n0, n') else Settled(s0, s', lo, hi, a, r, n0, n')
  {
    assert Pdx(a) == a / PTES;
    hide Spans;
    hide MissingTabs;
    MissingNext(s0, s, lo, a);
    if r.Remap? {
      assert forall i | 0 <= i < |s.tab| :: s'.tab[i] == 0 <==> s.tab[i] == 0;
    } else if r.NoMemory? {
      MissingMore(s0, lo, a + 1, FirstMapped(s0.look, lo, hi));
    } else {
      HungNext(s0, s, s', lo, a, s'.tab[a / PTES]);
      hide Hung;
    }
  }

  lemma BookEnd(s0: View, s: View, lo: nat, hi: nat, n0: nat, n: nat)
    requires Booked(s0, s, lo, hi, hi, n0, n)
    ensures Settled(s0, s, lo, hi, hi, Done, n0, n)
  {
  }

  /** One page: its own table may be missing. */
  lemma SettledOne(s0: View, s: View, a: nat, b: nat, r: MapResult, n0: nat, n: nat)
    requires Settled(s0, s, a, a + 1, b, r, n0, n) && a < NPAGES && Shaped(s0)
    requires s0.look[a] != 0 ==> s0.tab[Pdx(a)] != 0
    ensures r.Remap? <==> s0.look[a] != 0
    ensures r.NoMemory? <==> n0 + 1 < Cost(s0, a, a + 1)
    ensures r.NoMemory? ==> n0 == n == 0
    ensures r.Done? ==> n == n0 + 1 - Cost(s0, a, a + 1) && Hung(s0, s, a, a + 1)
    ensures 1 <= Cost(s0, a, a + 1) <= 2 && (s0.look[a] != 0 ==> Cost(s0, a, a + 1) == 1)
  {
    HungNone(s0, a);
    MissingNext(s0, s0, a, a);
    hide MissingTabs;
    hide Hung;
  }

  lemma CostThen(s: View, s1: View, lo: nat, a: nat)
    requires Hung(s, s1, lo, a) && lo <= a && a / PTES < |s.tab|
    ensures Cost(s, lo, a + 1) == Cost(s, lo, a) + Cost(s1, a, a + 1)
  {
    MissingNext(s, s1, lo, a);
    HungNone(s1, a);
    MissingNext(s1, s1, a, a);
  }

  /** The pages up to a, and then page a. */
  lemma HungThen(s: View, s1: View, s2: View, lo: nat, a: nat)
    requires Hung(s, s1, lo, a) && Hung(s1, s2, a, a + 1) && lo <= a && a / PTES < |s.tab|
    ensures Hung(s, s2, lo, a + 1)
  {
    hide Spans;
    forall i: nat | i < |s.tab| ensures Spans(lo, a + 1, i) <==> Spans(lo, a, i) || Spans(a, a + 1, i) {
      SpansNext(lo, a, i);
      SpansNext(a, a, i);
      SpansSelf(a, i);
    }
  }

  lemma SpansSelf(a: nat, i: nat)
    ensures !Spans(a, a, i)
  {
  }

  lemma CostMore(s: View, lo: nat, a: nat, hi: nat)
    requires a <= hi
    ensures Cost(s, lo, a) <= Cost(s, lo, hi)
  {
    MissingMore(s, lo, a, hi);
  }

  lemma OneCost(s: View, a: nat)
    requires a < NPAGES && Shaped(s)
    ensures Cost(s, a, a + 1) == 1 + if s.tab[Pdx(a)] == 0 then 1 else 0
  {
    HungNone(s, a);
    MissingNext(s, s, a, a);
  }

  // ------------------------------------------------------------- pages one by one

  /** New pages from lo up to a, each with a frame of its own, taken from n0 free frames of
      which n are left. */
  ghost predicate Growing(s0: View, s: View, lo: nat, a: nat, hi: nat, n0: nat, n: nat) {
    && lo <= a <= hi <= |s0.look| && Hung(s0, s, lo, a) && n == n0 - Cost(s0, lo, a)
    && FirstMapped(s0.look, lo, hi) == FirstMapped(s0.look, a, hi)
  }

  /** Past the first mapped page, if there is one: that page still takes a frame. */
  ghost function Stop(look: seq<nat>, lo: nat, hi: nat): nat
    requires lo <= hi <= |look|
  {
    var e := FirstMapped(look, lo, hi);
    if e < hi then e + 1 else hi
  }

  /** The frames do not last for the pages from lo up to hi. */
  ghost predicate Short(s: View, lo: nat, hi: nat, n: nat) {
    lo <= hi <= |s.look| && n < Cost(s, lo, Stop(s.look, lo, hi))
  }

  lemma GrowStart(s: View, lo: nat, hi: nat, n: nat)
    requires lo <= hi <= |s.look|
    ensures Growing(s, s, lo, lo, hi, n, n)
  {
    HungNone(s, lo);
  }

  lemma GrowNext(s0: View, s: View, s': View, lo: nat, a: nat, hi: nat, n0: nat, n: nat, n': nat, r: MapResult)
    requires Growing(s0, s, lo, a, hi, n0, n) && a < hi && a < NPAGES && Shaped(s0) && Shaped(s)
    requires s.look[a] == s0.look[a] && (s.look[a] != 0 ==> s.tab[Pdx(a)] != 0)
    requires r.NoMemory? <==> n < Cost(s, a, a + 1)
    requires r.Remap? <==> n > 0 && s.look[a] != 0
    requires r.Done? ==> n' == n - Cost(s, a, a + 1) && Hung(s, s', a, a + 1)
    ensures r.Done? ==> Growing(s0, s', lo, a + 1, hi, n0, n')
    ensures r.NoMemory? ==> n0 < Cost(s0, lo, a + 1) && Short(s0, lo, hi, n0)
    ensures r.Remap? ==> !Short(s0, lo, hi, n0) && FirstMapped(s0.look, lo, hi) < hi
  {
    assert Pdx(a) == a / PTES;
    OneCost(s, a);
    CostThen(s0, s, lo, a);
    if r.Done? {
      HungThen(s0, s, s', lo, a);
    } else if r.NoMemory? {
      CostMore(s0, lo, a + 1, Stop(s0.look, lo, hi));
    }
  }

  lemma GrowEnd(s0: View, s: View, lo: nat, hi: nat, n0: nat, n: nat)
    requires Growing(s0, s, lo, hi, hi, n0, n)
    ensures !Short(s0, lo, hi, n0) && FirstMapped(s0.look, lo, hi) == hi
  {
  }

  /** What e user pages take where none has a table yet: a frame each, and one for each 1024. */
  function UserNeed(e: nat): nat { e + (e + PTES - 1) / PTES }

  /** Where no user page has a table yet, k pages take k frames and one for each 1024. */
  lemma UserCost(s: View, k: nat)
    requires Shaped(s) && k <= UPAGES && forall i | 0 <= i < UPAGES / PTES :: s.tab[i] == 0
    ensures Cost(s, 0, k) == UserNeed(k)
  {
    hide Range;
    var n := (k + PTES - 1) / PTES;
    assert k > 0 ==> (k - 1) / PTES == n - 1;
    forall i: nat | i < |s.tab| ensures i in MissingTabs(s, 0, k) <==> i < n {
    }
    assert MissingTabs(s, 0, k) == Range(0, n);
  }
}
