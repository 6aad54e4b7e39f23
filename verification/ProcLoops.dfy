/** The scans over the process table in kernel/proc.c, as loops over the table. */
module ProcLoops {
  import opened Options
  import opened ProcSystem

  /** How one scan of wait ends: a pid with its slot and status, a failed copy of the status, or nothing to reap. */
  datatype Scan = Reaped(pid: nat, slot: nat, status: int) | CopyFailed(slot: nat) | Nothing(kids: bool)

  /** A slot as freeproc leaves it. */
  predicate Empty(v: Proc)
  {
    && v.life == UNUSED && v.pid == 0 && v.parent.None? && v.chan == NoChan && !v.killed
    && v.pc.User? && v.held.None? && v.xstate == 0
  }

  /** Nothing changed but slot `q`. */
  ghost predicate SameBut(a: seq<Proc>, b: seq<Proc>, q: nat)
  {
    q < |a| == |b| && forall k | 0 <= k < |a| && k != q :: b[k] == a[k]
  }

  class Table {
    var procs: seq<Proc>
    var nextpid: nat

    /**
    allocproc: the first unused slot gets a pid and is taken; if there is no `memory` for its trapframe or page
    table it is freed again, the pid used up. None in that case and if there is no such slot.
    */
    method Allocproc(memory: bool) returns (r: Option<nat>, ghost q: nat)
      modifies this
      ensures (q == |procs| <==> forall k | 0 <= k < |old(procs)| :: old(procs)[k].life != UNUSED)
              && q <= |procs| == |old(procs)|
      ensures q < |procs| ==> old(procs)[q].life == UNUSED && forall k | 0 <= k < q :: old(procs)[k].life != UNUSED
      ensures r == if q < |procs| && memory then Some(q) else None
      ensures nextpid == old(nextpid) + if q < |procs| then 1 else 0
      ensures q < |procs| && memory ==> procs == old(procs)[q := old(procs)[q].(pid := old(nextpid), life := USED)]
      ensures q < |procs| && !memory ==> SameBut(old(procs), procs, q) && Empty(procs[q])
      ensures q == |procs| ==> procs == old(procs)
    {
      var i: nat := 0;
      while i < |procs|
        invariant i <= |procs| && procs == old(procs) && nextpid == old(nextpid)
        invariant forall k | 0 <= k < i :: procs[k].life != UNUSED
      {
        if procs[i].life == UNUSED {
          procs := procs[i := procs[i].(pid := nextpid, life := USED)];
          nextpid := nextpid + 1;
          if !memory {
            procs := procs[i := Freed()];
            return None, i;
          }
          return Some(i), i;
        }
        i := i + 1;
      }
      return None, i;
    }

    /**
    wait's scan for process `p`: the first exited child is freed and its pid returned, if its status can be
    copied out.
    */
    method WaitScanAll(p: nat, copies: bool) returns (r: Scan)
      modifies this`procs
      ensures r.Nothing? <==> forall k | 0 <= k < |old(procs)| && old(procs)[k].parent == Some(p) ::
                                old(procs)[k].life != ZOMBIE
      ensures r.Nothing? ==> procs == old(procs) && (r.kids <==> exists k ::
                                                                   0 <= k < |procs| && procs[k].parent == Some(p))
      ensures !r.Nothing? ==>
                r.slot < |old(procs)| && old(procs)[r.slot].parent == Some(p)
                && old(procs)[r.slot].life == ZOMBIE
                && forall k | 0 <= k < r.slot && old(procs)[k].parent == Some(p) ::
                     old(procs)[k].life != ZOMBIE
      ensures r.CopyFailed? ==> !copies && procs == old(procs)
      ensures r.Reaped? ==> copies && r.pid == old(procs)[r.slot].pid && r.status == old(procs)[r.slot].xstate
                            && SameBut(old(procs), procs, r.slot) && Empty(procs[r.slot])
    {
      var i: nat, kids := 0, false;
      while i < |procs|
        invariant i <= |procs| && procs == old(procs)
        invariant kids <==> exists k :: 0 <= k < i && procs[k].parent == Some(p)
        invariant forall k | 0 <= k < i && procs[k].parent == Some(p) :: procs[k].life != ZOMBIE
      {
        if procs[i].parent == Some(p) {
          kids := true;
          if procs[i].life == ZOMBIE {
            if !copies {
              return CopyFailed(i);
            }
            var pid, status := procs[i].pid, procs[i].xstate;
            procs := procs[i := Freed()];
            return Reaped(pid, i, status);
          }
        }
        i := i + 1;
      }
      return Nothing(kids);
    }

    /** wakeup(chan) by process `self`: exactly the others that sleep on `chan` become runnable. */
    method Wakeup(self: nat, chan: Chan)
      modifies this`procs
      ensures |procs| == |old(procs)|
      ensures forall k | 0 <= k < |procs| :: procs[k] == if k == self then old(procs)[k]
                else WakeOne(old(procs)[k], chan)
      ensures forall k | 0 <= k < |procs| && k != self :: !(procs[k].life == SLEEPING && procs[k].chan == chan)
    {
      var i := 0;
      while i < |procs|
        invariant i <= |procs| == |old(procs)|
        invariant forall k | 0 <= k < |procs| :: procs[k] == if k < i && k != self then WakeOne(old(procs)[k], chan)
                    else old(procs)[k]
      {
        if i != self {
          if procs[i].life == SLEEPING && procs[i].chan == chan {
            procs := procs[i := procs[i].(life := RUNNABLE)];
          }
        }
        i := i + 1;
      }
    }

    /** The body of reparent for child `i`. */
    method AdoptOne(i: nat, p: nat, init: nat)
      requires i < |procs|
      modifies this`procs
      ensures |procs| == |old(procs)| && forall k | 0 <= k < |procs| ::
                                           procs[k] == Adopted(old(procs)[k], k == i, init, k != p)
    {
      procs := procs[i := procs[i].(parent := Some(init))];
      Wakeup(p, OnWait(init));
    }

    /**
    reparent(p): its children now have parent `init`, and if there are any, all sleepers on init's channel but
    `p` are awake.
    */
    method ReparentAll(p: nat, init: nat)
      requires p < |procs| && init < |procs| && p != init
      modifies this`procs
      ensures |procs| == |old(procs)|
      ensures var any := exists k :: 0 <= k < |old(procs)| && old(procs)[k].parent == Some(p);
              forall k | 0 <= k < |procs| :: procs[k] == Adopted(old(procs)[k], old(procs)[k].parent == Some(p), init,
                                                                 any && k != p)
      ensures forall k | 0 <= k < |procs| :: procs[k].parent != Some(p)
    {
      var i := 0;
      ghost var any := false;
      while i < |procs|
        invariant i <= |procs| == |old(procs)|
        invariant any <==> exists k :: 0 <= k < i && old(procs)[k].parent == Some(p)
        invariant forall k | 0 <= k < |procs| ::
                    procs[k] == Adopted(old(procs)[k], k < i && old(procs)[k].parent == Some(p), init, any && k != p)
      {
        if procs[i].parent == Some(p) {
          ghost var before := any;
          AdoptOne(i, p, init);
          forall k | 0 <= k < |procs|
            ensures procs[k] == Adopted(old(procs)[k], k < i + 1 && old(procs)[k].parent == Some(p), init, k != p)
          {
            AdoptedTwice(old(procs)[k], k < i && old(procs)[k].parent == Some(p), k == i, init,
                         before && k != p, k != p);
          }
          any := true;
        }
        i := i + 1;
      }
    }

    /**
    kill(pid): the first process with that pid is marked and, if it sleeps, made runnable; false if there is
    none.
    */
    method Kill(pid: nat) returns (found: bool, ghost q: nat)
      modifies this`procs
      ensures found <==> exists k :: 0 <= k < |old(procs)| && old(procs)[k].pid == pid
      ensures !found ==> procs == old(procs)
      ensures found ==> q < |old(procs)| && old(procs)[q].pid == pid
                        && (forall k | 0 <= k < q :: old(procs)[k].pid != pid)
                        && procs == old(procs)[q := old(procs)[q].(killed := true,
                             life := if old(procs)[q].life == SLEEPING then RUNNABLE else old(procs)[q].life)]
    {
      var i: nat := 0;
      q := 0;
      while i < |procs|
        invariant i <= |procs| && procs == old(procs) && forall k | 0 <= k < i :: procs[k].pid != pid
      {
        if procs[i].pid == pid {
          var v := procs[i].(killed := true);
          if v.life == SLEEPING {
            v := v.(life := RUNNABLE);
          }
          procs := procs[i := v];
          return true, i;
        }
        i := i + 1;
      }
      return false, q;
    }
  }

  /** The process after reparent: given to init if it was a child, woken from init's channel if `woken`. */
  function Adopted(v: Proc, child: bool, init: nat, woken: bool): Proc
  {
    var w := if woken then WakeOne(v, OnWait(init)) else v;
    if child then w.(parent := Some(init)) else w
  }

  lemma AdoptedTwice(v: Proc, c1: bool, c2: bool, init: nat, w1: bool, w2: bool)
    ensures Adopted(Adopted(v, c1, init, w1), c2, init, w2) == Adopted(v, c1 || c2, init, w1 || w2)
  {
  }
}
