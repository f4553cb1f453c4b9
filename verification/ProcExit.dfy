/** The steps of releasesleep, wait, exit and fork that change owners, exits, the process
    tree or pids. */
module ProcExit {
  import opened Common
  import opened ProcMachine
  import opened ProcInv
  import opened ProcTree

  // ------------------------------------------------------------------- starts

  lemma StartKeeps(q: Proc, op: Pc, i: nat)
    requires q.pc == Idle && (op.RelWant? || op.ExitWant?)
    ensures KeepsExit(q, q.(pc := op), i) && KeepsBuilding(q, q.(pc := op))
    ensures op.RelWant? ==> KeepsTree(q, q.(pc := op))
  {
  }

  lemma SameKeeps(q: Proc, i: nat)
    ensures KeepsExit(q, q, i) && KeepsBuilding(q, q) && KeepsTree(q, q)
  {
  }

  /** Only slot p changes. */
  ghost predicate OneChange(s: State, s': State, p: nat) {
    && p < |s.procs| && SameSize(s, s')
    && s'.nextpid == s.nextpid && s'.reaped == s.reaped
    && forall q | 0 <= q < |s.procs| && q != p :: s'.procs[q] == s.procs[q]
  }

  lemma OneKeepExit(s: State, s': State, p: nat)
    requires NoLostExit(s) && OneChange(s, s', p) && KeepsExit(s.procs[p], s'.procs[p], p)
    ensures NoLostExit(s')
  {
    hide KeepsExit;
    hide NoLostExit;
    forall q | 0 <= q < |s.procs| ensures KeepsExit(s.procs[q], s'.procs[q], q) { SameKeeps(s.procs[q], q); }
    KeepExit(s, s');
  }

  lemma OneKeepBuilding(s: State, s': State, p: nat)
    requires Building(s) && OneChange(s, s', p) && KeepsBuilding(s.procs[p], s'.procs[p])
    ensures Building(s')
  {
    hide KeepsBuilding;
    hide Building;
    forall q | 0 <= q < |s.procs| ensures KeepsBuilding(s.procs[q], s'.procs[q]) { SameKeeps(s.procs[q], q); }
    KeepBuilding(s, s');
  }

  lemma OneKeepTree(s: State, s': State, p: nat)
    requires Tree(s) && OneChange(s, s', p) && KeepsTree(s.procs[p], s'.procs[p])
    ensures Tree(s')
  {
    hide KeepsTree;
    hide Tree;
    forall q | 0 <= q < |s.procs| ensures KeepsTree(s.procs[q], s'.procs[q]) { SameKeeps(s.procs[q], q); }
    KeepTree(s, s');
  }

  lemma OneKeepPids(s: State, s': State, p: nat)
    requires Pids(s) && OneChange(s, s', p) && s'.procs[p].pid == s.procs[p].pid
    requires s'.procs[p].state != UNUSED ==> s.procs[p].state != UNUSED
    ensures Pids(s')
  {
    hide Pids;
    KeepPids(s, s');
  }

  lemma StartRest(s: State, p: nat, op: Pc)
    requires Rest(s) && p < |s.procs| && s.procs[p].pc == Idle && Startable(s, p, op)
    ensures Rest(SetPc(s, p, op))
  {
    hide Owning;
    hide NoLostExit;
    hide Building;
    hide Tree;
    hide Pids;
    var s' := SetPc(s, p, op);
    if op.RelWant? || op.ExitWant? {
      StartKeeps(s.procs[p], op, p);
      hide KeepsExit;
      hide KeepsBuilding;
      hide KeepsTree;
      StartOwning(s, p, op);
      OneKeepExit(s, s', p);
      OneKeepBuilding(s, s', p);
      OneKeepPids(s, s', p);
      if op.RelWant? {
        OneKeepTree(s, s', p);
      } else {
        StartExitTree(s, p);
      }
    } else {
      StartQuiet(s, p, op);
      QuietRest(s, s');
    }
  }

  lemma StartOwning(s: State, p: nat, op: Pc)
    requires Owning(s) && p < |s.procs| && s.procs[p].pc == Idle && Startable(s, p, op)
    ensures Owning(SetPc(s, p, op))
  {
  }

  lemma StartExitTree(s: State, p: nat)
    requires Tree(s) && p < |s.procs| && p != INIT
    ensures Tree(SetPc(s, p, ExitWant))
  {
    forall q | 0 <= q < |s.procs| ensures TreeAt(SetPc(s, p, ExitWant), q) {
      assert TreeAt(s, q);
    }
  }

  // ------------------------------------------------- acquiresleep, releasesleep

  /** Slot q keeps everything the process tree, exits and pids depend on. */
  ghost predicate Keeps(q: Proc, q': Proc, i: nat) {
    && KeepsExit(q, q', i) && KeepsBuilding(q, q') && KeepsTree(q, q')
    && (q'.state == UNUSED <==> q.state == UNUSED) && q'.pid == q.pid
  }

  lemma WokenKeeps(q: Proc, chan: Chan, i: nat)
    ensures Keeps(q, Woken(q, chan), i)
  {
  }

  lemma LockKeepsSelf(s: State, p: nat, a: Action)
    requires p < |s.procs| && CanLock(s, p, a) && s.procs[p].state == RUNNING
    ensures Keeps(s.procs[p], DoLock(s, p, a).procs[p], p)
  {
    var q, q' := s.procs[p], DoLock(s, p, a).procs[p];
    assert KeepsExit(q, q', p);
    assert KeepsBuilding(q, q');
    assert KeepsTree(q, q');
  }

  lemma LockKeeps(s: State, p: nat, a: Action, q: nat)
    requires p < |s.procs| && CanLock(s, p, a) && s.procs[p].state == RUNNING && q < |s.procs|
    ensures Keeps(s.procs[q], DoLock(s, p, a).procs[q], q)
  {
    if q == p {
      LockKeepsSelf(s, p, a);
    } else {
      SameKeeps(s.procs[q], q);
      if a.WakeLock? { WokenKeeps(s.procs[q], LockChan(s.procs[p].pc.l), q); }
      hide KeepsExit;
      hide KeepsBuilding;
      hide KeepsTree;
    }
  }

  lemma AllKeeps(s: State, s': State)
    requires NoLostExit(s) && Building(s) && Tree(s) && Pids(s)
    requires SameSize(s, s') && s'.nextpid == s.nextpid && s'.reaped == s.reaped
    requires forall q | 0 <= q < |s.procs| :: Keeps(s.procs[q], s'.procs[q], q)
    ensures NoLostExit(s') && Building(s') && Tree(s') && Pids(s')
  {
    hide NoLostExit;
    hide Building;
    hide Tree;
    hide Pids;
    hide KeepsExit;
    hide KeepsBuilding;
    hide KeepsTree;
    KeepExit(s, s');
    KeepBuilding(s, s');
    KeepTree(s, s');
    KeepPids(s, s');
  }

  lemma LockOwning(s: State, p: nat, a: Action)
    requires Shape(s) && Owning(s) && p < |s.procs| && CanLock(s, p, a)
    ensures Owning(DoLock(s, p, a))
  {
    hide PcOk;
    var s' := DoLock(s, p, a);
    if a.ClearLock? {
      assert Releasing(s.procs[p].pc, s.procs[p].pc.l);
    }
    forall q, l: nat | 0 <= q < |s.procs| && Releasing(s'.procs[q].pc, l) ensures l in s'.procs[q].held {
      assert q != p && Releasing(s.procs[q].pc, l);
    }
  }

  lemma LockRest(s: State, p: nat, a: Action)
    requires Shape(s) && Rest(s) && p < |s.procs| && CanLock(s, p, a) && s.procs[p].state == RUNNING
    ensures Rest(DoLock(s, p, a))
  {
    hide Owning;
    hide NoLostExit;
    hide Building;
    hide Tree;
    hide Pids;
    hide Keeps;
    var s' := DoLock(s, p, a);
    LockOwning(s, p, a);
    forall q | 0 <= q < |s.procs| ensures Keeps(s.procs[q], s'.procs[q], q) {
      LockKeeps(s, p, a, q);
    }
    AllKeeps(s, s');
  }

  // --------------------------------------------------------------- wait and exit

  lemma WaitOwning(s: State, p: nat, a: Action)
    requires Owning(s) && p < |s.procs| && CanWait(s, p, a)
    ensures Owning(DoWait(s, p, a))
  {
    var s' := DoWait(s, p, a);
    forall q, l: nat | 0 <= q < |s.procs| && Releasing(s'.procs[q].pc, l) ensures l in s.procs[q].held {
      WaitPcs(s, p, a, q);
      assert Releasing(s.procs[q].pc, l);
    }
    hide Releasing;
    hide Owning;
    hide CanWait;
    forall q | 0 <= q < |s.procs| ensures s'.procs[q].held == s.procs[q].held { WaitHeld(s, p, a, q); }
    assert s'.locks == s.locks by { WaitHeld(s, p, a, p); }
    hide DoWait;
    KeepOwning(s, s');
  }

  lemma WaitHeld(s: State, p: nat, a: Action, q: nat)
    requires p < |s.procs| && CanWait(s, p, a) && q < |s.procs|
    ensures var s' := DoWait(s, p, a); SameSize(s, s') && s'.procs[q].held == s.procs[q].held && s'.locks == s.locks
  {
  }

  /** Wait and exit steps move other threads only to NoThread, and their own away from
      releasesleep. */
  lemma WaitPcs(s: State, p: nat, a: Action, q: nat)
    requires p < |s.procs| && CanWait(s, p, a) && q < |s.procs|
    ensures var pc := DoWait(s, p, a).procs[q].pc;
            if q == p then !pc.RelWant? && !pc.RelClear? && Base(pc) == pc
            else pc == s.procs[q].pc || pc.NoThread?
  {
  }

  lemma WaitLeaveKeeps(s: State, p: nat, a: Action)
    requires p < |s.procs| && CanWait(s, p, a) && s.procs[p].state == RUNNING && (a.WaitLeave? || a.MarkWait?)
    ensures Keeps(s.procs[p], DoWait(s, p, a).procs[p], p)
  {
  }

  lemma WaitLeaveRest(s: State, p: nat, a: Action)
    requires Rest(s) && p < |s.procs| && CanWait(s, p, a) && s.procs[p].state == RUNNING
             && (a.WaitLeave? || a.MarkWait?)
    ensures Rest(DoWait(s, p, a))
  {
    hide Owning;
    hide NoLostExit;
    hide Building;
    hide Tree;
    hide Pids;
    var s' := DoWait(s, p, a);
    WaitOwning(s, p, a);
    WaitLeaveKeeps(s, p, a);
    forall q | 0 <= q < |s.procs| ensures Keeps(s.procs[q], s'.procs[q], q) {
      if q != p { SameKeeps(s.procs[q], q); }
    }
    hide Keeps;
    AllKeeps(s, s');
  }

  ghost predicate AloneLeaving(s: State, p: nat) {
    forall q | 0 <= q < |s.procs| && q != p :: !Leaving(s.procs[q].pc) && !s.procs[q].pc.WaitMark?
  }

  lemma WaitNoneKeeps(q: Proc)
    requires q.pc.WaitScan?
    ensures KeepsBuilding(q, q.(pc := WaitMark)) && KeepsTree(q, q.(pc := WaitMark))
  {
  }

  /** wait goes to sleep only when it has seen that no child has exited. */
  lemma WaitNoneRest(s: State, p: nat)
    requires Rest(s) && p < |s.procs| && CanWait(s, p, WaitNone) && AloneLeaving(s, p)
    ensures Rest(DoWait(s, p, WaitNone))
  {
    hide Owning;
    hide NoLostExit;
    hide Building;
    hide Tree;
    hide Pids;
    hide KeepsBuilding;
    hide KeepsTree;
    var s' := DoWait(s, p, WaitNone);
    WaitOwning(s, p, WaitNone);
    WaitNoneExit(s, p);
    WaitNoneKeeps(s.procs[p]);
    OneKeepBuilding(s, s', p);
    OneKeepTree(s, s', p);
    OneKeepPids(s, s', p);
  }

  /** While p's CPU holds ptable.lock, no other process is leaving. */
  lemma NobodyLeaves(s: State, c: nat, p: nat)
    requires Shape(s) && Locking(s) && Scheduling(s) && Runs(s, c, p) && HoldsAt(s.procs[p].pc).pt
    ensures AloneLeaving(s, p)
  {
    forall q | 0 <= q < |s.procs| && q != p ensures !Leaving(s.procs[q].pc) && !s.procs[q].pc.WaitMark? {
      if Leaving(s.procs[q].pc) || s.procs[q].pc.WaitMark? {
        OnCpu(s, q);
        assert false;
      }
    }
  }

  /** A thread inside a critical section of ptable.lock, other than a parked one, runs. */
  lemma OnCpu(s: State, q: nat)
    requires Scheduling(s) && q < |s.procs| && (Leaving(s.procs[q].pc) || s.procs[q].pc.WaitMark?)
    ensures s.procs[q].on.Some? && Runs(s, s.procs[q].on.value, q)
    ensures CpuHolds(s, s.cpus[s.procs[q].on.value]).pt
  {
    assert ProcFits(s.procs[q], q);
    var x := s.procs[q].on.value;
    assert Occupies(s, x, q);
    assert CpuProc(s, s.cpus[x]);
  }

  lemma WaitNoneExit(s: State, p: nat)
    requires NoLostExit(s) && p < |s.procs| && CanWait(s, p, WaitNone)
    requires AloneLeaving(s, p)
    ensures NoLostExit(DoWait(s, p, WaitNone))
  {
    var s' := DoWait(s, p, WaitNone);
    forall z: nat, r: nat | r < |s'.procs| && ZombieChild(s'.procs, r, z) ensures !WaitAsleep(s'.procs[r], r) {
      assert ZombieChild(s.procs, r, z);
    }
  }

  // wait reaps an exited child

  /** Nobody's parent is an exited process. */
  lemma ZombieHasNoKids(s: State, z: nat)
    requires Building(s) && Tree(s) && z < |s.procs| && s.procs[z].state == ZOMBIE && s.procs[z].pc.Dead?
    ensures forall q | 0 <= q < |s.procs| :: s.procs[q].parent != Some(z)
  {
    assert Child(s.procs[z].pc) == None;
    forall q | 0 <= q < |s.procs| ensures s.procs[q].parent != Some(z) {
      assert TreeAt(s, q);
    }
  }

  lemma ReapExit(s: State, p: nat, z: nat)
    requires NoLostExit(s) && p < |s.procs| && CanWait(s, p, WaitReap(z)) && z != p
    ensures NoLostExit(DoWait(s, p, WaitReap(z)))
  {
    hide NoLostExit;
    var s' := DoWait(s, p, WaitReap(z));
    forall q | 0 <= q < |s.procs| ensures KeepsExit(s.procs[q], s'.procs[q], q) {}
    KeepExit(s, s');
  }

  lemma ReapBuilding(s: State, p: nat, z: nat)
    requires Building(s) && p < |s.procs| && CanWait(s, p, WaitReap(z)) && z != p && s.procs[z].pc.Dead?
    ensures Building(DoWait(s, p, WaitReap(z)))
  {
    hide Building;
    var s' := DoWait(s, p, WaitReap(z));
    forall q | 0 <= q < |s.procs| ensures KeepsBuilding(s.procs[q], s'.procs[q]) {}
    KeepBuilding(s, s');
  }

  lemma ReapTree(s: State, p: nat, z: nat)
    requires Tree(s) && p < |s.procs| && CanWait(s, p, WaitReap(z)) && z != p
    requires forall q | 0 <= q < |s.procs| :: s.procs[q].parent != Some(z)
    ensures Tree(DoWait(s, p, WaitReap(z)))
  {
    var s' := DoWait(s, p, WaitReap(z));
    assert TreeAt(s, z);
    forall q | 0 <= q < |s.procs| ensures TreeAt(s', q) {
      assert TreeAt(s, q);
    }
  }

  lemma ReapPids(s: State, p: nat, z: nat)
    requires Pids(s) && p < |s.procs| && CanWait(s, p, WaitReap(z)) && z != p
    ensures Pids(DoWait(s, p, WaitReap(z)))
  {
  }

  lemma ReapRest(s: State, p: nat, z: nat)
    requires Rest(s) && p < |s.procs| && CanWait(s, p, WaitReap(z)) && z != p && s.procs[z].pc.Dead?
    ensures Rest(DoWait(s, p, WaitReap(z)))
  {
    hide Owning;
    hide NoLostExit;
    hide Building;
    hide Tree;
    hide Pids;
    ZombieHasNoKids(s, z);
    WaitOwning(s, p, WaitReap(z));
    ReapExit(s, p, z);
    ReapBuilding(s, p, z);
    ReapTree(s, p, z);
    ReapPids(s, p, z);
  }

  // exit wakes its parent

  lemma WakeParentExit(s: State, p: nat)
    requires NoLostExit(s) && p < |s.procs| && CanWait(s, p, WakeParent) && AloneLeaving(s, p)
             && s.procs[p].state == RUNNING
    ensures NoLostExit(DoWait(s, p, WakeParent))
  {
    var s' := DoWait(s, p, WakeParent);
    forall z: nat, r: nat | r < |s'.procs| && ZombieChild(s'.procs, r, z) ensures !WaitAsleep(s'.procs[r], r) {
      assert ZombieChild(s.procs, r, z);
    }
  }

  lemma WakeParentKeeps(s: State, p: nat, q: nat)
    requires p < |s.procs| && CanWait(s, p, WakeParent) && s.procs[p].state == RUNNING && q < |s.procs|
    ensures var s' := DoWait(s, p, WakeParent);
            && KeepsBuilding(s.procs[q], s'.procs[q]) && KeepsTree(s.procs[q], s'.procs[q])
            && (s'.procs[q].state == UNUSED <==> s.procs[q].state == UNUSED) && s'.procs[q].pid == s.procs[q].pid
  {
  }

  lemma WakeParentRest(s: State, p: nat)
    requires Rest(s) && p < |s.procs| && CanWait(s, p, WakeParent) && AloneLeaving(s, p) && s.procs[p].state == RUNNING
    ensures Rest(DoWait(s, p, WakeParent))
  {
    hide Owning;
    hide NoLostExit;
    hide Building;
    hide Tree;
    hide Pids;
    hide KeepsBuilding;
    hide KeepsTree;
    var s' := DoWait(s, p, WakeParent);
    WaitOwning(s, p, WakeParent);
    WakeParentExit(s, p);
    forall q | 0 <= q < |s.procs|
      ensures KeepsBuilding(s.procs[q], s'.procs[q]) && KeepsTree(s.procs[q], s'.procs[q])
      ensures (s'.procs[q].state == UNUSED <==> s.procs[q].state == UNUSED) && s'.procs[q].pid == s.procs[q].pid
    {
      WakeParentKeeps(s, p, q);
    }
    KeepBuilding(s, s');
    KeepTree(s, s');
    KeepPids(s, s');
  }

  // exit passes its children to init

  /** What exit's loop over the process table does. */
  ghost predicate Reparenting(s: State, s': State, p: nat) {
    && p < |s.procs| && SameSize(s, s') && s'.nextpid == s.nextpid && s'.reaped == s.reaped
    && (forall q | 0 <= q < |s.procs| ::
        s'.procs[q].parent == if s.procs[q].parent == Some(p) then Some(INIT) else s.procs[q].parent)
    && (forall q | 0 <= q < |s.procs| :: s'.procs[q].pc == if q == p then ExitMark else s.procs[q].pc)
    && (forall q | 0 <= q < |s.procs| :: s'.procs[q].pid == s.procs[q].pid && s'.procs[q].chan == s.procs[q].chan)
    && (forall q | 0 <= q < |s.procs| ::
          s'.procs[q].state == s.procs[q].state || (s.procs[q].state == SLEEPING && s'.procs[q].state == RUNNABLE))
    && (HasZombie(s.procs, p) ==> forall q | 0 <= q < |s.procs| && s'.procs[q].chan == ProcChan(INIT) ::
        s'.procs[q].state != SLEEPING)
  }

  lemma IsReparenting(s: State, p: nat)
    requires p < |s.procs| && CanWait(s, p, Reparent) && s.procs[p].state == RUNNING
    ensures Reparenting(s, DoWait(s, p, Reparent), p)
  {
    hide HasZombie;
  }

  lemma ReparentExit(s: State, s': State, p: nat)
    requires NoLostExit(s) && Tree(s) && Reparenting(s, s', p) && AloneLeaving(s, p) && p != INIT
    requires s.procs[p].pc.ExitReparent?
    ensures NoLostExit(s')
  {
    forall z: nat, r: nat | r < |s'.procs| && ZombieChild(s'.procs, r, z) ensures !WaitAsleep(s'.procs[r], r) {
      if s.procs[z].parent == Some(p) {
        assert ZombieChild(s.procs, p, z);
        assert HasZombie(s.procs, p);
      } else {
        assert ZombieChild(s.procs, r, z);
      }
    }
    assert TreeAt(s, p);
  }

  lemma ReparentBuilding(s: State, s': State, p: nat)
    requires Building(s) && Reparenting(s, s', p) && s.procs[p].pc.ExitReparent?
    ensures Building(s')
  {
    hide HasZombie;
    assert Child(s.procs[p].pc) == None && Child(ExitMark) == None;
    assert !Linked(s.procs[p].pc) && !Linked(ExitMark);
    hide Child;
    hide Linked;
    forall q | 0 <= q < |s.procs| ensures KeepsBuilding(s.procs[q], s'.procs[q]) {
    }
    KeepBuilding(s, s');
  }

  lemma ReparentTree(s: State, s': State, p: nat)
    requires Tree(s) && Reparenting(s, s', p) && p != INIT && s.procs[p].pc.ExitReparent?
    ensures Tree(s')
  {
    hide HasZombie;
    assert TreeAt(s, p) && InExit(s.procs[p].pc);
    assert TreeAt(s, INIT) && !s.procs[INIT].pc.ExitMark?;
    hide InExit;
    forall q | 0 <= q < |s.procs| ensures TreeAt(s', q) {
      assert TreeAt(s, q);
    }
  }

  lemma ReparentPids(s: State, s': State, p: nat)
    requires Pids(s) && Reparenting(s, s', p)
    ensures Pids(s')
  {
    hide HasZombie;
    KeepPids(s, s');
  }

  lemma ReparentRest(s: State, p: nat)
    requires Rest(s) && p < |s.procs| && CanWait(s, p, Reparent) && AloneLeaving(s, p)
    requires s.procs[p].state == RUNNING && p != INIT
    ensures Rest(DoWait(s, p, Reparent))
  {
    hide Owning;
    hide NoLostExit;
    hide Building;
    hide Tree;
    hide Pids;
    hide Reparenting;
    hide AloneLeaving;
    IsReparenting(s, p);
    WaitOwning(s, p, Reparent);
    hide DoWait;
    var s' := DoWait(s, p, Reparent);
    ReparentExit(s, s', p);
    ReparentTree(s, s', p);
    ReparentBuilding(s, s', p);
    ReparentPids(s, s', p);
  }

  // exit becomes a zombie

  lemma ZombieExit(s: State, p: nat)
    requires NoLostExit(s) && p < |s.procs| && CanWait(s, p, MarkZombie) && s.procs[p].state == RUNNING
    ensures NoLostExit(DoWait(s, p, MarkZombie))
  {
    var s' := DoWait(s, p, MarkZombie);
    forall z: nat, r: nat | r < |s'.procs| && ZombieChild(s'.procs, r, z) ensures !WaitAsleep(s'.procs[r], r) {
      if z != p {
        assert ZombieChild(s.procs, r, z);
      }
    }
  }

  lemma ZombieTree(s: State, p: nat)
    requires Tree(s) && p < |s.procs| && CanWait(s, p, MarkZombie) && s.procs[p].state == RUNNING
    ensures Tree(DoWait(s, p, MarkZombie))
  {
    assert TreeAt(s, p) && InExit(s.procs[p].pc);
    var s' := DoWait(s, p, MarkZombie);
    forall q | 0 <= q < |s.procs| ensures TreeAt(s', q) {
      assert TreeAt(s, q);
    }
  }

  lemma ZombieRest(s: State, p: nat)
    requires Rest(s) && p < |s.procs| && CanWait(s, p, MarkZombie) && s.procs[p].state == RUNNING
    ensures Rest(DoWait(s, p, MarkZombie))
  {
    hide Owning;
    hide NoLostExit;
    hide Building;
    hide Tree;
    hide Pids;
    var s' := DoWait(s, p, MarkZombie);
    WaitOwning(s, p, MarkZombie);
    ZombieExit(s, p);
    ZombieTree(s, p);
    assert KeepsBuilding(s.procs[p], s'.procs[p]);
    OneKeepBuilding(s, s', p);
    OneKeepPids(s, s', p);
  }
}
