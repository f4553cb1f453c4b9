/** The loops over the process table in proc.c. */
module ProcCode {
  import opened Common
  import opened ProcMachine

  class ProcTable {
    const procs: array<Proc>

    constructor (n: nat)
      ensures procs.Length == n && fresh(procs)
    {
      procs := new Proc[n](_ => Proc(UNUSED, NoChan, None, 0, false, NoThread, false, {}, None));
    }

    /** wakeup1 (proc.c:457-465). */
    method WakeupAll(chan: Chan)
      modifies procs
      ensures procs[..] == Wakeup1(old(procs[..]), chan)
    {
      var i := 0;
      while i < procs.Length
        invariant 0 <= i <= procs.Length
        invariant forall j | 0 <= j < i :: procs[j] == Woken(old(procs[j]), chan)
        invariant forall j | i <= j < procs.Length :: procs[j] == old(procs[j])
      {
        if procs[i].state == SLEEPING && procs[i].chan == chan {
          procs[i] := procs[i].(state := RUNNABLE);
        }
        i := i + 1;
      }
    }

    /** exit's loop (proc.c:255-262): each abandoned child goes to init, which is woken for
        each one that has already exited. */
    method PassChildren(p: nat)
      requires p != INIT && INIT < procs.Length
      modifies procs
      ensures procs[..] == Reparented(old(procs[..]), p)
    {
      ghost var ps := procs[..];
      ghost var woke := false;
      var i := 0;
      while i < procs.Length
        invariant 0 <= i <= procs.Length
        invariant woke <==> exists z: nat :: z < i && ZombieChild(ps, p, z)
        invariant forall j | 0 <= j < procs.Length ::
                    procs[j] == (var q := if j < i then Adopted(ps[j], p) else ps[j];
                                 if woke then Woken(q, ProcChan(INIT)) else q)
      {
        if procs[i].parent == Some(p) {
          procs[i] := procs[i].(parent := Some(INIT));
          if procs[i].state == ZOMBIE {
            assert ZombieChild(ps, p, i);
            WakeupAll(ProcChan(INIT));
            woke := true;
          }
        }
        i := i + 1;
      }
      assert HasZombie(ps, p) <==> woke;
    }

    /** The search of allocproc (proc.c:81-86): the first free slot, if there is one. */
    method FindUnused() returns (r: Option<nat>)
      ensures r.Some? ==> r.value < procs.Length && procs[r.value].state == UNUSED
                          && forall j | 0 <= j < r.value :: procs[j].state != UNUSED
      ensures r.None? ==> forall j | 0 <= j < procs.Length :: procs[j].state != UNUSED
    {
      var i := 0;
      while i < procs.Length
        invariant 0 <= i <= procs.Length
        invariant forall j | 0 <= j < i :: procs[j].state != UNUSED
      {
        if procs[i].state == UNUSED { return Some(i); }
        i := i + 1;
      }
      r := None;
    }

    /** The scan of wait (proc.c:282-301): the first exited child, and whether p has any
        children at all. */
    method ScanChildren(p: nat) returns (z: Option<nat>, havekids: bool)
      ensures z.Some? ==> ZombieChild(procs[..], p, z.value)
                             && forall j: nat | j < z.value :: !ZombieChild(procs[..], p, j)
      ensures z.None? ==> !HasZombie(procs[..], p) && (havekids <==> HasKids(procs[..], p))
    {
      havekids := false;
      var i := 0;
      while i < procs.Length
        invariant 0 <= i <= procs.Length
        invariant forall j: nat | j < i :: !ZombieChild(procs[..], p, j)
        invariant havekids <==> exists j: nat :: j < i && procs[j].parent == Some(p)
      {
        if procs[i].parent == Some(p) {
          havekids := true;
          if procs[i].state == ZOMBIE { return Some(i), havekids; }
        }
        i := i + 1;
      }
      assert havekids ==> HasKids(procs[..], p) by {
        if havekids {
          var j: nat :| j < procs.Length && procs[j].parent == Some(p);
          assert procs[..][j].parent == Some(p);
        }
      }
      z := None;
    }

    /** One turn of the loop of wait (proc.c:279-312), up to its release or its sleep: a step of
        the machine, which one being for the scan to say. */
    method WaitTurn(p: nat) returns (r: WaitEnd, ghost a: Action)
      requires p < procs.Length && procs[p].pc.WaitScan?
      modifies procs
      ensures match r
              case Child(_) => a.WaitReap?
              case NoChild => a.WaitLeave?
              case Asleep => a.WaitNone?
      ensures forall s: State | s.procs == old(procs[..]) ::
                && CanWait(s, p, a) && procs[..] == DoWait(s, p, a).procs
                && DoWait(s, p, a).reaped == s.reaped + if r.Child? then [r.pid] else []
    {
      ghost var ps := procs[..];
      var z, havekids := ScanChildren(p);
      if z.Some? {
        var pid := procs[z.value].pid;
        procs[z.value] := procs[z.value].(pid := 0, parent := None, killed := false, state := UNUSED, pc := NoThread);
        procs[p] := procs[p].(pc := DropPt);
        assert procs[..] == ps[z.value := Reaped(ps[z.value])][p := procs[p]];
        return Child(pid), WaitReap(z.value);
      }
      if !havekids || procs[p].killed {
        procs[p] := procs[p].(pc := DropPt);
        assert procs[..] == ps[p := procs[p]];
        return NoChild, WaitLeave;
      }
      procs[p] := procs[p].(pc := WaitMark);
      assert procs[..] == ps[p := procs[p]];
      return Asleep, WaitNone;
    }

    /** allocproc under ptable.lock (proc.c:79-92), a step of the machine: the first free slot, or
        failure exactly if there is none. */
    method AllocSlot(p: nat, nextpid: nat) returns (np: Option<nat>, ghost a: Action)
      requires p < procs.Length && procs[p].pc.ForkAlloc? && procs[p].state != UNUSED
      modifies procs
      ensures a == if np.Some? then AllocProc(np.value) else AllocNone
      ensures forall s: State | s.procs == old(procs[..]) && s.nextpid == nextpid ::
                CanFork(s, p, a) && procs[..] == DoFork(s, p, a).procs
    {
      ghost var ps := procs[..];
      np := FindUnused();
      if np.None? {
        procs[p] := procs[p].(pc := DropPt);
        assert procs[..] == ps[p := procs[p]];
        return None, AllocNone;
      }
      var i := np.value;
      procs[i] := procs[i].(state := EMBRYO, pid := nextpid, pc := Fresh);
      procs[p] := procs[p].(pc := ForkDrop(i));
      assert procs[..] == ps[i := procs[i]][p := procs[p]];
      a := AllocProc(i);
    }

    /** kill's loop (proc.c:484-495): the first process with the pid is killed, and woken if it
        sleeps, a step of the machine by any other thread that is to kill it; or there is none. */
    method KillPid(pid: nat) returns (t: Option<nat>)
      modifies procs
      ensures t.None? ==> procs[..] == old(procs[..]) && forall j | 0 <= j < procs.Length :: procs[j].pid != pid
      ensures t.Some? ==> t.value < procs.Length && old(procs[t.value]).pid == pid
                          && forall j | 0 <= j < t.value :: old(procs[j]).pid != pid
      ensures t.Some? ==>
                forall s: State, p: nat | s.procs == old(procs[..]) && p < procs.Length && p != t.value
                                          && s.procs[p].pc == KillAct(t.value) ::
                  CanFork(s, p, Kill) && DoFork(s, p, Kill).procs == procs[..][p := procs[p].(pc := DropPt)]
    {
      ghost var ps := procs[..];
      var i := 0;
      while i < procs.Length
        invariant 0 <= i <= procs.Length && procs[..] == ps && forall j | 0 <= j < i :: procs[j].pid != pid
      {
        if procs[i].pid == pid {
          procs[i] := procs[i].(killed := true);
          if procs[i].state == SLEEPING {
            procs[i] := procs[i].(state := RUNNABLE);
          }
          assert procs[..] == ps[i := procs[i]];
          return Some(i);
        }
        i := i + 1;
      }
      t := None;
    }
  }

  datatype WaitEnd = Child(pid: nat) | NoChild | Asleep
}
