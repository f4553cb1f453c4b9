/** The steps of fork and kill keep owners, exits, the process tree and pids. */
module ProcFork {
  import opened Common
  import opened ProcMachine
  import opened ProcInv
  import opened ProcProofs
  import opened ProcTree
  import opened ProcExit

  lemma ForkPcs(s: State, p: nat, a: Action, q: nat)
    requires p < |s.procs| && CanFork(s, p, a) && q < |s.procs|
    ensures var s' := DoFork(s, p, a);
            && SameSize(s, s') && s'.locks == s.locks && s'.procs[q].held == s.procs[q].held
            && var pc := s'.procs[q].pc;
               if q == p then !pc.RelWant? && !pc.RelClear? && Base(pc) == pc && !Leaving(pc) && !pc.WaitMark?
                   && !InExit(pc)
               else pc == s.procs[q].pc || pc.NoThread? || pc.Fresh?
  {
  }

  lemma ForkOwning(s: State, p: nat, a: Action)
    requires Owning(s) && p < |s.procs| && CanFork(s, p, a)
    ensures Owning(DoFork(s, p, a))
  {
    hide Owning;
    hide CanFork;
    hide DoFork;
    var s' := DoFork(s, p, a);
    ForkPcs(s, p, a, p);
    forall q | 0 <= q < |s.procs| ensures s'.procs[q].held == s.procs[q].held { ForkPcs(s, p, a, q); }
    forall q, l: nat | 0 <= q < |s.procs| && Releasing(s'.procs[q].pc, l) ensures l in s.procs[q].held {
      ForkPcs(s, p, a, q);
      assert Releasing(s.procs[q].pc, l);
      StillHeld(s, q, l);
    }
    KeepOwning(s, s');
  }

  lemma StillHeld(s: State, q: nat, l: nat)
    requires Owning(s) && q < |s.procs| && Releasing(s.procs[q].pc, l)
    ensures l in s.procs[q].held
  {
  }

  lemma ForkStates(s: State, p: nat, a: Action, q: nat)
    requires p < |s.procs| && CanFork(s, p, a) && q < |s.procs| && s.procs[p].state == RUNNING
    requires Filled(s.procs[p], a).Some? ==> Filled(s.procs[p], a).value != p
    ensures var s' := DoFork(s, p, a);
            && (s'.procs[q].state == ZOMBIE ==> s.procs[q].state == ZOMBIE)
            && (s'.procs[q].state == SLEEPING ==> s.procs[q].state == SLEEPING)
            && s'.procs[q].chan == s.procs[q].chan
            && (s'.procs[q].parent == s.procs[q].parent || (a.CopyOk? && Filled(s.procs[p], a) == Some(q)))
  {
  }

  lemma ForkExit(s: State, p: nat, a: Action)
    requires NoLostExit(s) && p < |s.procs| && CanFork(s, p, a) && s.procs[p].state == RUNNING
    requires Filled(s.procs[p], a).Some? ==>
               var np := Filled(s.procs[p], a).value;
               np != p && np < |s.procs| && s.procs[np].state == (if a.AllocProc? then UNUSED else EMBRYO)
                 && s.procs[np].pc != ExitMark && s.procs[np].pc != ExitReparent
    ensures NoLostExit(DoFork(s, p, a))
  {
    hide NoLostExit;
    hide CanFork;
    hide DoFork;
    hide InExit;
    var s' := DoFork(s, p, a);
    ForkPcs(s, p, a, p);
    forall q | 0 <= q < |s.procs| ensures KeepsExit(s.procs[q], s'.procs[q], q) {
      ForkPcs(s, p, a, q);
      ForkStates(s, p, a, q);
    }
    KeepExit(s, s');
  }

  // ------------------------------------------------------------------ building

  /** Slots p and np change, nothing else. */
  ghost predicate TwoChange(s: State, s': State, p: nat, np: nat) {
    && p < |s.procs| && np < |s.procs| && p != np && SameSize(s, s')
    && s'.procs[p].state == s.procs[p].state == RUNNING && s'.procs[p].parent == s.procs[p].parent
       && s'.procs[p].pid == s.procs[p].pid
    && (forall q | 0 <= q < |s.procs| && q != p && q != np :: s'.procs[q] == s.procs[q])
    && Child(s.procs[np].pc) == None && Child(s'.procs[np].pc) == None
  }

  lemma AllocBuilding(s: State, s': State, p: nat, np: nat)
    requires Building(s) && TwoChange(s, s', p, np)
    requires s.procs[np].state == UNUSED && s'.procs[np].state == EMBRYO && s'.procs[np].parent == None
    requires Child(s.procs[p].pc) == None && Child(s'.procs[p].pc) == Some(np) && !Linked(s'.procs[p].pc)
    ensures Building(s')
  {
    hide Child;
    hide Linked;
    forall q | 0 <= q < |s.procs| && q != p && Child(s.procs[q].pc).Some? ensures Child(s.procs[q].pc) != Some(np) {
    }
  }

  lemma CopyFailBuilding(s: State, s': State, p: nat, np: nat)
    requires Building(s) && TwoChange(s, s', p, np)
    requires s.procs[np].state == EMBRYO && s'.procs[np].state == UNUSED
    requires Child(s.procs[p].pc) == Some(np) && !Linked(s.procs[p].pc) && Child(s'.procs[p].pc) == None
    ensures Building(s')
  {
    hide Child;
    hide Linked;
    forall q | 0 <= q < |s.procs| && q != p && Child(s.procs[q].pc).Some? ensures Child(s.procs[q].pc) != Some(np) {
    }
  }

  lemma CopyOkBuilding(s: State, s': State, p: nat, np: nat)
    requires Building(s) && TwoChange(s, s', p, np)
    requires s.procs[np].state == EMBRYO && s'.procs[np].state == EMBRYO && s'.procs[np].parent == Some(p)
    requires Child(s.procs[p].pc) == Some(np) && !Linked(s.procs[p].pc) && Child(s'.procs[p].pc) == Some(np)
             && Linked(s'.procs[p].pc)
    ensures Building(s')
  {
    hide Child;
    hide Linked;
    forall q | 0 <= q < |s.procs| && q != p && Child(s.procs[q].pc).Some? ensures Child(s.procs[q].pc) != Some(np) {
    }
  }

  lemma RunBuilding(s: State, s': State, p: nat, np: nat)
    requires Building(s) && TwoChange(s, s', p, np)
    requires s.procs[np].state == EMBRYO && s'.procs[np].state == RUNNABLE
    requires Child(s.procs[p].pc) == Some(np) && Child(s'.procs[p].pc) == None
    ensures Building(s')
  {
    hide Child;
    hide Linked;
    forall q | 0 <= q < |s.procs| && q != p && Child(s.procs[q].pc).Some? ensures Child(s.procs[q].pc) != Some(np) {
    }
  }

  // ------------------------------------------------------------- tree and pids

  lemma ForkTree(s: State, s': State, p: nat, np: nat)
    requires Tree(s) && TwoChange(s, s', p, np)
    requires !InExit(s'.procs[p].pc) && !InExit(s'.procs[np].pc) && !s.procs[p].pc.ExitMark?
    requires s.procs[np].state == UNUSED || s.procs[np].state == EMBRYO
    requires s'.procs[np].parent == Some(p) || (s'.procs[np].parent == s.procs[np].parent && !Started(s'.procs[np]))
    requires s'.procs[np].state == UNUSED ==> s'.procs[np].parent == None
    requires s'.procs[np].state != ZOMBIE
    ensures Tree(s')
  {
    assert !s'.procs[p].pc.ExitMark? && !s'.procs[np].pc.ExitMark?;
    hide InExit;
    hide Child;
    assert TreeAt(s, np) && TreeAt(s, p);
    forall q | 0 <= q < |s.procs| ensures TreeAt(s', q) {
      assert TreeAt(s, q);
    }
  }

  lemma AllocPids(s: State, s': State, p: nat, np: nat)
    requires Pids(s) && TwoChange(s, s', p, np) && s'.reaped == s.reaped
    requires s'.nextpid == s.nextpid + 1 && s'.procs[np].pid == s.nextpid
    ensures Pids(s')
  {
    hide Child;
  }

  /** The facts the lemmas above need about each step of fork that fills a slot. */
  lemma ForkFacts(s: State, p: nat, a: Action)
    requires p < |s.procs| && CanFork(s, p, a) && s.procs[p].state == RUNNING && Filled(s.procs[p], a).Some?
    requires var np := Filled(s.procs[p], a).value;
             np < |s.procs| && np != p && (s.procs[np].pc.NoThread? || s.procs[np].pc.Fresh?)
    ensures var np, s' := Filled(s.procs[p], a).value, DoFork(s, p, a);
            && TwoChange(s, s', p, np) && s'.reaped == s.reaped
            && !InExit(s'.procs[p].pc) && !InExit(s'.procs[np].pc) && !s.procs[p].pc.ExitMark?
  {
    ForkTwoChange(s, p, a);
    hide TwoChange;
    hide Child;
  }

  lemma ForkTwoChange(s: State, p: nat, a: Action)
    requires p < |s.procs| && CanFork(s, p, a) && s.procs[p].state == RUNNING && Filled(s.procs[p], a).Some?
    requires var np := Filled(s.procs[p], a).value;
             np < |s.procs| && np != p && (s.procs[np].pc.NoThread? || s.procs[np].pc.Fresh?)
    ensures TwoChange(s, DoFork(s, p, a), p, Filled(s.procs[p], a).value)
  {
  }

  lemma AllocRest(s: State, p: nat, np: nat)
    requires Rest(s) && p < |s.procs| && CanFork(s, p, AllocProc(np)) && s.procs[p].state == RUNNING
    requires np != p && s.procs[np].pc.NoThread?
    ensures Rest(DoFork(s, p, AllocProc(np)))
  {
    hide Owning;
    hide NoLostExit;
    hide Building;
    hide Pids;
    hide TwoChange;
    hide InExit;
    var a := AllocProc(np);
    var s' := DoFork(s, p, a);
    assert TreeAt(s, np);
    hide Tree;
    ForkFacts(s, p, a);
    ForkOwning(s, p, a);
    ForkExit(s, p, a);
    AllocBuilding(s, s', p, np);
    ForkTree(s, s', p, np);
    AllocPids(s, s', p, np);
  }

  lemma ChildFacts(s: State, p: nat, a: Action)
    requires Building(s) && p < |s.procs| && CanFork(s, p, a) && (a.CopyFail? || a.CopyOk? || a.RunChild?)
    ensures var np := s.procs[p].pc.np;
            && Child(s.procs[p].pc) == Some(np) && np != p && s.procs[np].state == EMBRYO
            && (Linked(s.procs[p].pc) <==> a.RunChild?)
            && s.procs[np].parent == if a.RunChild? then Some(p) else None
  {
  }

  lemma FillTree(s: State, p: nat, a: Action, np: nat)
    requires Building(s) && Tree(s) && p < |s.procs| && CanFork(s, p, a) && s.procs[p].state == RUNNING
    requires (a.CopyFail? || a.CopyOk? || a.RunChild?) && np == s.procs[p].pc.np && s.procs[np].pc.Fresh?
    ensures TwoChange(s, DoFork(s, p, a), p, np) && Tree(DoFork(s, p, a))
  {
    ChildFacts(s, p, a);
    hide Building;
    hide Tree;
    ForkFacts(s, p, a);
    hide TwoChange;
    hide InExit;
    hide Child;
    ForkTree(s, DoFork(s, p, a), p, np);
  }

  lemma FillBuilding(s: State, p: nat, a: Action, np: nat)
    requires Building(s) && p < |s.procs| && CanFork(s, p, a) && TwoChange(s, DoFork(s, p, a), p, np)
    requires (a.CopyFail? || a.CopyOk? || a.RunChild?) && np == s.procs[p].pc.np
    ensures Building(DoFork(s, p, a))
  {
    ChildFacts(s, p, a);
    hide Building;
    hide TwoChange;
    var s' := DoFork(s, p, a);
    if a.CopyFail? {
      CopyFailBuilding(s, s', p, np);
    } else if a.CopyOk? {
      CopyOkBuilding(s, s', p, np);
    } else {
      RunBuilding(s, s', p, np);
    }
  }

  lemma FillRest(s: State, p: nat, a: Action)
    requires Rest(s) && p < |s.procs| && CanFork(s, p, a) && s.procs[p].state == RUNNING
    requires a.CopyFail? || a.CopyOk? || a.RunChild?
    requires s.procs[s.procs[p].pc.np].pc.Fresh?
    ensures Rest(DoFork(s, p, a))
  {
    hide Owning;
    hide NoLostExit;
    hide Tree;
    hide Pids;
    hide Building;
    hide TwoChange;
    hide Child;
    hide Linked;
    var np := s.procs[p].pc.np;
    var s' := DoFork(s, p, a);
    ChildFacts(s, p, a);
    FillTree(s, p, a, np);
    FillBuilding(s, p, a, np);
    ForkOwning(s, p, a);
    ForkExit(s, p, a);
    FillPids(s, s', p, np);
  }

  lemma FillPids(s: State, s': State, p: nat, np: nat)
    requires Pids(s) && TwoChange(s, s', p, np) && s'.reaped == s.reaped && s'.nextpid == s.nextpid
    requires s.procs[np].state == EMBRYO && s'.procs[np].pid == s.procs[np].pid
    ensures Pids(s')
  {
    hide Child;
    KeepPids(s, s');
  }

  lemma KillKeeps(s: State, p: nat, a: Action, q: nat)
    requires p < |s.procs| && CanFork(s, p, a) && (a.Kill? || a.AllocNone?) && q < |s.procs|
    ensures Keeps(s.procs[q], DoFork(s, p, a).procs[q], q)
  {
  }

  lemma KillRest(s: State, p: nat, a: Action)
    requires Rest(s) && p < |s.procs| && CanFork(s, p, a) && (a.Kill? || a.AllocNone?)
    ensures Rest(DoFork(s, p, a))
  {
    hide Owning;
    hide NoLostExit;
    hide Building;
    hide Tree;
    hide Pids;
    hide Keeps;
    var s' := DoFork(s, p, a);
    ForkOwning(s, p, a);
    forall q | 0 <= q < |s.procs| ensures Keeps(s.procs[q], s'.procs[q], q) {
      KillKeeps(s, p, a, q);
    }
    AllKeeps(s, s');
  }
}
