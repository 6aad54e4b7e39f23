/** What every step of ProcSystem keeps, and what follows for every run. */
module ProcSafety {
  import opened Options
  import opened ProcSystem

  // ---------------------------------------------------------------------------------------
  // The invariant, process by process
  // ---------------------------------------------------------------------------------------

  predicate HoldsWait(pc: Pc)
  {
    pc.Reparent? || pc.ReparentWake? || pc.ExitWake? || pc.WaitScan? || pc.SleepLocked?
  }

  predicate Exiting(pc: Pc)
  {
    pc.Reparent? || pc.ReparentWake? || pc.ExitWake?
  }

  /** State, position, channel and lock of process `p` go together. */
  predicate Local(v: Proc, p: nat, waitLock: Option<nat>)
  {
    && (HoldsWait(v.pc) <==> waitLock == Some(p))
    && match v.life
       case UNUSED => v.pc.User? && v.parent.None? && v.held.None? && v.pid == 0
       case USED => v.pc.User? && v.pid > 0
       case SLEEPING => v.held.None? && v.pid > 0 && ((v.pc.User? && v.chan == OnOther)
                                                      || (v.pc.Asleep? && v.chan == OnWait(p)))
       case RUNNABLE => v.held.None? && v.pid > 0 && (MayYield(v.pc) || v.pc.Asleep?)
       case RUNNING => v.pid > 0 && !v.pc.Leaving? && !v.pc.Gone?
           && v.held == if v.pc.SleepLocked? || v.pc.SleepReady? then Some(p) else None
       case ZOMBIE => v.pid > 0 && ((v.pc.Leaving? && v.held == Some(p)) || (v.pc.Gone? && v.held.None?))
  }

  /** About to sleep in wait, past the last look at the children, or asleep there. */
  predicate InSleep(v: Proc)
  {
    v.pc.SleepLocked? || v.pc.SleepReady? || (v.pc.Asleep? && v.life == SLEEPING)
  }

  /** Reparenting has dealt with process `k`. */
  predicate Passed(pc: Pc, k: nat)
  {
    (pc.Reparent? && k < pc.i) || (pc.ReparentWake? && k <= pc.i) || pc.ExitWake?
  }

  /** The holder of wait_lock still has to wake init. */
  predicate WakeDue(s: Sys)
  {
    && s.waitLock.Some? && s.waitLock.value < |s.procs| && s.procs[s.waitLock.value].pc.ReparentWake?
    && s.procs[s.waitLock.value].pc.j <= s.init
  }

  /** Process `q` as the parent of process `k`. */
  predicate ParentOk(s: Sys, q: nat, k: nat)
    requires q < |s.procs| && k < |s.procs|
  {
    var w, v := s.procs[q], s.procs[k];
    && q != k && (w.life == RUNNING || w.life == RUNNABLE || w.life == SLEEPING) && !Passed(w.pc, k)
    && (w.pc.WaitScan? && k < w.pc.i ==> w.pc.kids && v.life != ZOMBIE)
    && (v.life == ZOMBIE && InSleep(w) ==> q == s.init && WakeDue(s))
  }

  predicate ChildOk(s: Sys, k: nat)
    requires k < |s.procs|
  {
    match s.procs[k].parent
    case None => k == s.init || s.procs[k].life == UNUSED || s.procs[k].life == USED
    case Some(q) => k != s.init && q < |s.procs| && ParentOk(s, q, k)
  }

  /** After wakeup has looked at a process it is not asleep in wait. */
  predicate ExitOk(s: Sys, e: nat)
    requires e < |s.procs| && s.init < |s.procs|
  {
    var pc := s.procs[e].pc;
    && (Exiting(pc) ==> e != s.init)
    && (pc.ReparentWake? && s.init < pc.j ==> !InSleep(s.procs[s.init]))
    && (pc.ExitWake? && s.procs[e].parent.Some? && s.procs[e].parent.value < pc.j
        && s.procs[e].parent.value < |s.procs| ==>
          !InSleep(s.procs[s.procs[e].parent.value]))
  }

  predicate Forking(pc: Pc)
  {
    pc.ForkCopy? || pc.ForkLink? || pc.ForkStart?
  }

  /** A child being made belongs to one forker. */
  predicate ForkOk(s: Sys, p: nat)
    requires p < |s.procs|
  {
    var pc := s.procs[p].pc;
    Forking(pc) ==>
      && pc.c < |s.procs| && pc.c != p && s.procs[pc.c].life == USED && s.procs[pc.c].forker == p
      && s.procs[pc.c].held == (if pc.ForkCopy? then Some(p) else None)
      && s.procs[pc.c].parent == (if pc.ForkStart? then Some(p) else None)
  }

  predicate InitOk(s: Sys)
  {
    s.init < |s.procs| && s.procs[s.init].parent.None?
    && (s.procs[s.init].life == RUNNING || s.procs[s.init].life == RUNNABLE || s.procs[s.init].life == SLEEPING)
    && (s.waitLock.Some? ==> s.waitLock.value < |s.procs|)
  }

  predicate One(s: Sys, p: nat)
    requires p < |s.procs| && s.init < |s.procs|
  {
    Local(s.procs[p], p, s.waitLock) && ChildOk(s, p) && ExitOk(s, p) && ForkOk(s, p)
  }

  ghost predicate Inv(s: Sys)
  {
    InitOk(s) && forall p: nat {:trigger One(s, p)} | p < |s.procs| :: One(s, p)
  }

  lemma KeepsSchedule(s: Sys, p: nat)
    requires Inv(s) && CanSchedule(s, p)
    ensures Inv(DoSchedule(s, p))
  {
    var s' := DoSchedule(s, p);
    assert One(s, p);
    forall k: nat | k < |s.procs|
      ensures One(s', k)
    {
      assert One(s, k);
    }
  }

  lemma KeepsYield(s: Sys, p: nat)
    requires Inv(s) && CanYield(s, p)
    ensures Inv(DoYield(s, p))
  {
    var s' := DoYield(s, p);
    assert One(s, p);
    forall k: nat | k < |s.procs|
      ensures One(s', k)
    {
      assert One(s, k);
    }
  }

  lemma KeepsSleepElsewhere(s: Sys, p: nat)
    requires Inv(s) && CanSleepElsewhere(s, p)
    ensures Inv(DoSleepElsewhere(s, p))
  {
    var s' := DoSleepElsewhere(s, p);
    assert One(s, p);
    forall k: nat | k < |s.procs|
      ensures One(s', k)
    {
      assert One(s, k);
    }
  }

  lemma KeepsWakeElsewhere(s: Sys, p: nat)
    requires Inv(s) && CanWakeElsewhere(s, p)
    ensures Inv(DoWakeElsewhere(s, p))
  {
    KeepsRunnable(s, p);
  }

  lemma KeepsKill(s: Sys, p: nat, pid: nat, q: nat)
    requires Inv(s) && CanKill(s, p, pid, q)
    ensures Inv(DoKill(s, p, pid, q))
  {
    var s' := DoKill(s, p, pid, q);
    assert One(s, p);
    forall k: nat | k < |s.procs|
      ensures One(s', k)
    {
      assert One(s, k);
    }
  }

  lemma KeepsExitStart(s: Sys, p: nat)
    requires Inv(s) && CanExitStart(s, p)
    ensures Inv(DoExitStart(s, p))
  {
    var s' := DoExitStart(s, p);
    assert One(s, p);
    forall k: nat | k < |s.procs|
      ensures One(s', k)
    {
      assert One(s, k);
    }
  }

  lemma KeepsSwitchAway(s: Sys, p: nat)
    requires Inv(s) && CanSwitchAway(s, p)
    ensures Inv(DoSwitchAway(s, p))
  {
    var s' := DoSwitchAway(s, p);
    assert One(s, p);
    forall k: nat | k < |s.procs|
      ensures One(s', k)
    {
      assert One(s, k);
    }
  }

  lemma KeepsWaitStart(s: Sys, p: nat)
    requires Inv(s) && CanWaitStart(s, p)
    ensures Inv(DoWaitStart(s, p))
  {
    var s' := DoWaitStart(s, p);
    assert One(s, p);
    forall k: nat | k < |s.procs|
      ensures One(s', k)
    {
      assert One(s, k);
    }
  }

  lemma KeepsWaitGiveUp(s: Sys, p: nat)
    requires Inv(s) && CanWaitGiveUp(s, p)
    ensures Inv(DoWaitGiveUp(s, p))
  {
    var s' := DoWaitGiveUp(s, p);
    assert One(s, p);
    forall k: nat | k < |s.procs|
      ensures One(s', k)
    {
      assert One(s, k);
    }
  }

  lemma KeepsSleepLock(s: Sys, p: nat)
    requires Inv(s) && CanSleepLock(s, p)
    ensures Inv(DoSleepLock(s, p))
  {
    var s' := DoSleepLock(s, p);
    assert One(s, p);
    forall k: nat | k < |s.procs|
      ensures One(s', k)
    {
      assert One(s, k);
    }
  }

  lemma KeepsSleepUnlock(s: Sys, p: nat)
    requires Inv(s) && CanSleepUnlock(s, p)
    ensures Inv(DoSleepUnlock(s, p))
  {
    var s' := DoSleepUnlock(s, p);
    assert One(s, p);
    forall k: nat | k < |s.procs|
      ensures One(s', k)
    {
      assert One(s, k);
    }
  }

  lemma KeepsSleepSet(s: Sys, p: nat)
    requires Inv(s) && CanSleepSet(s, p)
    ensures Inv(DoSleepSet(s, p))
  {
    var s' := DoSleepSet(s, p);
    assert One(s, p);
    forall k: nat | k < |s.procs|
      ensures One(s', k)
    {
      assert One(s, k);
    }
  }

  lemma KeepsSleepReturn(s: Sys, p: nat)
    requires Inv(s) && CanSleepReturn(s, p)
    ensures Inv(DoSleepReturn(s, p))
  {
    var s' := DoSleepReturn(s, p);
    assert One(s, p);
    forall k: nat | k < |s.procs|
      ensures One(s', k)
    {
      assert One(s, k);
    }
  }

  lemma KeepsWaitAgain(s: Sys, p: nat)
    requires Inv(s) && CanWaitAgain(s, p)
    ensures Inv(DoWaitAgain(s, p))
  {
    var s' := DoWaitAgain(s, p);
    assert One(s, p);
    forall k: nat | k < |s.procs|
      ensures One(s', k)
    {
      assert One(s, k);
    }
  }

  // ---- steps that touch two processes, one process at a time ----

  /** No fork in progress is about slot `c`. */
  ghost predicate NoForker(s: Sys, c: nat)
  {
    forall k: nat {:trigger s.procs[k]} | k < |s.procs| :: !(Forking(s.procs[k].pc) && s.procs[k].pc.c == c)
  }

  predicate Quiet(pc: Pc)
  {
    pc.User? || Forking(pc)
  }

  /** Moving between positions of fork is nobody's business but the forked slot's. */
  lemma QuietJump(s: Sys, p: nat, pc: Pc, k: nat)
    requires InitOk(s) && p < |s.procs| && s.procs[p].life == RUNNING && Quiet(s.procs[p].pc) && Quiet(pc)
    requires k < |s.procs| && One(s, p) && One(s, k)
    ensures var s' := Jump(s, p, pc); ChildOk(s', k) && ExitOk(s', k) && Local(s'.procs[k], k, s'.waitLock)
  {
    hide ForkOk;
    if s.procs[k].parent.Some? {
      assert ParentOk(s, s.procs[k].parent.value, k);
    }
  }

  /** The forker lets go of the slot it was about. */
  lemma LetGo(s: Sys, p: nat)
    requires Inv(s) && p < |s.procs| && s.procs[p].life == RUNNING && Forking(s.procs[p].pc) && s.procs[p].held.None?
    ensures var c := s.procs[p].pc.c; c < |s.procs| && c != p && NoForker(Jump(s, p, User), c) && Inv(Jump(s, p, User))
  {
    hide Local, ChildOk, ExitOk;
    var s' := Jump(s, p, User);
    assert One(s, p);
    forall k: nat | k < |s.procs|
      ensures One(s', k) && !(Forking(s'.procs[k].pc) && s'.procs[k].pc.c == s.procs[p].pc.c)
    {
      assert One(s, k);
      QuietJump(s, p, User, k);
    }
  }

  /** What may be put into a slot that is being made or reaped. */
  predicate SlotFits(s: Sys, c: nat, v: Proc)
  {
    && v.pc.User? && Local(v, c, s.waitLock)
    && (v.parent.None? ==> v.life in {UNUSED, USED})
    && (v.parent.Some? ==> v.parent.value < |s.procs| && v.parent.value != c && v.life != ZOMBIE
                           && s.procs[v.parent.value].life == RUNNING && s.procs[v.parent.value].pc.User?)
  }

  /** No other process depends on a slot that is being made or reaped. */
  lemma SlotKeepsOther(s: Sys, c: nat, v: Proc, k: nat)
    requires InitOk(s) && c < |s.procs| && c != s.init && NoForker(s, c) && s.procs[c].life in {UNUSED, USED, ZOMBIE}
    requires Local(s.procs[c], c, s.waitLock) && k < |s.procs| && k != c && One(s, k)
    ensures One(Set(s, c, v), k)
  {
    assert s.procs[k].parent != Some(c);
  }

  lemma SlotKeepsSelf(s: Sys, c: nat, v: Proc)
    requires InitOk(s) && c < |s.procs| && c != s.init && SlotFits(s, c, v)
    ensures One(Set(s, c, v), c)
  {
  }

  /** A slot that nobody is the child of, and no fork is about, changes on its own. */
  lemma KeepsSlot(s: Sys, c: nat, v: Proc)
    requires Inv(s) && c < |s.procs| && c != s.init && NoForker(s, c) && s.procs[c].life in {UNUSED, USED, ZOMBIE}
    requires SlotFits(s, c, v)
    ensures Inv(Set(s, c, v))
  {
    hide SlotFits, NoForker, Local, ChildOk, ExitOk, ForkOk;
    var s' := Set(s, c, v);
    assert One(s, c);
    forall k: nat | k < |s.procs|
      ensures One(s', k)
    {
      if k == c {
        SlotKeepsSelf(s, c, v);
      } else {
        assert One(s, k);
        SlotKeepsOther(s, c, v, k);
      }
    }
  }

  /** The forker takes up slot `c`, at the next position of fork. */
  lemma TakeUp(s: Sys, p: nat, c: nat, pc: Pc)
    requires Inv(s) && p < |s.procs| && s.procs[p].life == RUNNING && s.procs[p].pc.User?
    requires c < |s.procs| && c != p && s.procs[c].life == USED && s.procs[c].forker == p && Forking(pc) && pc.c == c
    requires s.procs[c].held == (if pc.ForkCopy? then Some(p) else None)
             && s.procs[c].parent == (if pc.ForkStart? then Some(p) else None)
    ensures Inv(Jump(s, p, pc))
  {
    hide Local, ChildOk, ExitOk;
    var s' := Jump(s, p, pc);
    assert One(s, p);
    forall k: nat | k < |s.procs|
      ensures One(s', k)
    {
      assert One(s, k);
      QuietJump(s, p, pc, k);
    }
  }

  /** The invariant is about processes and wait_lock only. */
  lemma SameCore(s: Sys, s': Sys)
    requires Inv(s) && s'.procs == s.procs && s'.waitLock == s.waitLock && s'.init == s.init
    ensures Inv(s')
  {
    forall k: nat | k < |s.procs|
      ensures One(s', k)
    {
      assert One(s, k);
    }
  }

  lemma KeepsForkAlloc(s: Sys, p: nat, c: nat)
    requires Inv(s) && CanForkAlloc(s, p, c) && s.nextpid > 0
    ensures Inv(DoForkAlloc(s, p, c))
  {
    hide Inv;
    UnusedSlot(s, c);
    var s1 := Set(s, c, s.procs[c].(life := USED, pid := s.nextpid, held := Some(p), forker := p));
    KeepsSlot(s, c, s1.procs[c]);
    TakeUp(s1, p, c, ForkCopy(c));
    SameCore(Jump(s1, p, ForkCopy(c)), DoForkAlloc(s, p, c));
  }

  lemma UnusedSlot(s: Sys, c: nat)
    requires Inv(s) && c < |s.procs| && s.procs[c].life == UNUSED
    ensures c != s.init && NoForker(s, c) && Local(s.procs[c], c, s.waitLock) && s.procs[c].parent.None?
  {
    assert One(s, c);
    forall k: nat | k < |s.procs|
      ensures !(Forking(s.procs[k].pc) && s.procs[k].pc.c == c)
    {
      assert One(s, k);
    }
  }

  /** What a fork in progress may rely on. */
  lemma ForkFacts(s: Sys, p: nat)
    requires Inv(s) && p < |s.procs| && s.procs[p].life == RUNNING && Forking(s.procs[p].pc)
    ensures s.procs[p].held.None? && ForkOk(s, p) && Local(s.procs[s.procs[p].pc.c], s.procs[p].pc.c, s.waitLock)
    ensures s.procs[p].pc.c != s.init && s.waitLock != Some(p)
  {
    assert One(s, p) && One(s, s.procs[p].pc.c);
  }

  lemma KeepsForkFail(s: Sys, p: nat)
    requires Inv(s) && CanForkFail(s, p)
    ensures Inv(DoForkFail(s, p))
  {
    hide Inv;
    var c := s.procs[p].pc.c;
    ForkFacts(s, p);
    LetGo(s, p);
    var s1 := Jump(s, p, User);
    KeepsSlot(s1, c, Freed());
    assert Set(s1, c, Freed()).procs == DoForkFail(s, p).procs;
  }

  lemma KeepsForkUnlock(s: Sys, p: nat)
    requires Inv(s) && CanForkUnlock(s, p)
    ensures Inv(DoForkUnlock(s, p))
  {
    hide Inv;
    var c := s.procs[p].pc.c;
    ForkFacts(s, p);
    LetGo(s, p);
    var s1 := Jump(s, p, User);
    var s2 := Set(s1, c, s.procs[c].(held := None));
    KeepsSlot(s1, c, s2.procs[c]);
    TakeUp(s2, p, c, ForkLink(c));
    assert Jump(s2, p, ForkLink(c)).procs == DoForkUnlock(s, p).procs;
  }

  lemma KeepsForkSetParent(s: Sys, p: nat)
    requires Inv(s) && CanForkSetParent(s, p)
    ensures Inv(DoForkSetParent(s, p))
  {
    hide Inv;
    var c := s.procs[p].pc.c;
    ForkFacts(s, p);
    LetGo(s, p);
    var s1 := Jump(s, p, User);
    var s2 := Set(s1, c, s.procs[c].(parent := Some(p)));
    KeepsSlot(s1, c, s2.procs[c]);
    TakeUp(s2, p, c, ForkStart(c));
    assert Jump(s2, p, ForkStart(c)).procs == DoForkSetParent(s, p).procs;
  }

  lemma KeepsForkRun(s: Sys, p: nat)
    requires Inv(s) && CanForkRun(s, p)
    ensures Inv(DoForkRun(s, p))
  {
    hide Inv;
    var c := s.procs[p].pc.c;
    ForkFacts(s, p);
    LetGo(s, p);
    var s1 := Jump(s, p, User);
    var s2 := Set(s1, c, s.procs[c].(life := RUNNABLE));
    KeepsSlot(s1, c, s2.procs[c]);
    assert s2.procs == DoForkRun(s, p).procs;
  }

  /** wakeup looking at process `j`. */
  lemma KeepsWakeOne(s: Sys, j: nat, chan: Chan)
    requires Inv(s) && j < |s.procs| && s.procs[j].held.None?
    ensures Inv(Set(s, j, WakeOne(s.procs[j], chan)))
  {
    if s.procs[j].life == SLEEPING && s.procs[j].chan == chan {
      KeepsRunnable(s, j);
    } else {
      assert Set(s, j, s.procs[j]).procs == s.procs;
    }
  }

  lemma KeepsRunnable(s: Sys, j: nat)
    requires Inv(s) && j < |s.procs| && s.procs[j].life == SLEEPING
    ensures Inv(Set(s, j, s.procs[j].(life := RUNNABLE)))
  {
    var s' := Set(s, j, s.procs[j].(life := RUNNABLE));
    assert One(s, j);
    forall k: nat | k < |s.procs|
      ensures One(s', k)
    {
      assert One(s, k);
    }
  }

  /** Afterwards `j` is not asleep on it. */
  lemma WokenUp(s: Sys, j: nat)
    requires Inv(s) && j < |s.procs| && s.procs[j].held.None?
    ensures !InSleep(WakeOne(s.procs[j], OnWait(j)))
  {
    assert One(s, j);
  }

  lemma KeepsReparentWakeOne(s: Sys, p: nat)
    requires Inv(s) && CanReparentWakeOne(s, p)
    ensures Inv(DoReparentWakeOne(s, p))
  {
    hide Inv;
    var i, j := s.procs[p].pc.i, s.procs[p].pc.j;
    if j >= |s.procs| {
      AdvanceReparent(s, p);
    } else {
      ExitFacts(s, p);
      var s1 := s;
      if j != p {
        KeepsWakeOne(s, j, OnWait(s.init));
        WokenUp(s, j);
        s1 := Set(s, j, WakeOne(s.procs[j], OnWait(s.init)));
      }
      AdvanceReparentWake(s1, p);
    }
  }

  lemma AdvanceReparent(s: Sys, p: nat)
    requires Inv(s) && CanReparentWakeOne(s, p) && s.procs[p].pc.j >= |s.procs|
    ensures Inv(Jump(s, p, Reparent(s.procs[p].pc.i + 1)))
  {
    var s' := Jump(s, p, Reparent(s.procs[p].pc.i + 1));
    assert One(s, p);
    forall k: nat | k < |s.procs|
      ensures One(s', k)
    {
      assert One(s, k);
    }
  }

  lemma AdvanceReparentWake(s: Sys, p: nat)
    requires Inv(s) && p < |s.procs| && s.procs[p].life == RUNNING && s.procs[p].pc.ReparentWake?
             && s.procs[p].pc.j < |s.procs|
    requires s.procs[p].pc.j == s.init ==> !InSleep(s.procs[s.init])
    ensures Inv(Jump(s, p, ReparentWake(s.procs[p].pc.i, s.procs[p].pc.j + 1)))
  {
    var s' := Jump(s, p, ReparentWake(s.procs[p].pc.i, s.procs[p].pc.j + 1));
    assert One(s, p);
    forall k: nat | k < |s.procs|
      ensures One(s', k)
    {
      assert One(s, k);
    }
  }

  lemma ExitFacts(s: Sys, p: nat)
    requires Inv(s) && p < |s.procs| && s.procs[p].life == RUNNING && Exiting(s.procs[p].pc)
    ensures p != s.init && s.procs[p].parent.Some? && s.procs[p].parent.value < |s.procs|
            && s.procs[p].parent.value != p
    ensures s.waitLock == Some(p) && s.procs[p].held.None?
  {
    assert One(s, p);
  }

  lemma KeepsExitWakeOne(s: Sys, p: nat)
    requires Inv(s) && CanExitWakeOne(s, p)
    ensures Inv(DoExitWakeOne(s, p))
  {
    hide Inv;
    var j, q := s.procs[p].pc.j, s.procs[p].parent.value;
    ExitFacts(s, p);
    var s1 := s;
    if j != p {
      KeepsWakeOne(s, j, OnWait(q));
      WokenUp(s, j);
      s1 := Set(s, j, WakeOne(s.procs[j], OnWait(q)));
    }
    AdvanceExitWake(s1, p);
  }

  lemma AdvanceExitWake(s: Sys, p: nat)
    requires Inv(s) && p < |s.procs| && s.procs[p].life == RUNNING && s.procs[p].pc.ExitWake?
             && s.procs[p].pc.j < |s.procs|
    requires s.procs[p].parent == Some(s.procs[p].pc.j) ==> !InSleep(s.procs[s.procs[p].pc.j])
    ensures Inv(Jump(s, p, ExitWake(s.procs[p].pc.j + 1)))
  {
    var s' := Jump(s, p, ExitWake(s.procs[p].pc.j + 1));
    assert One(s, p);
    forall k: nat | k < |s.procs|
      ensures One(s', k)
    {
      assert One(s, k);
    }
  }

  /** The exiting process has no children left and has woken its parent. */
  lemma KeepsExitEnd(s: Sys, p: nat, status: int)
    requires Inv(s) && CanExitEnd(s, p)
    ensures Inv(DoExitEnd(s, p, status))
  {
    var s' := DoExitEnd(s, p, status);
    ExitFacts(s, p);
    assert One(s, p);
    assert !InSleep(s.procs[s.procs[p].parent.value]);
    forall k: nat | k < |s.procs|
      ensures One(s', k)
    {
      assert One(s, k);
      if s.procs[k].parent.Some? {
        var q := s.procs[k].parent.value;
        assert ParentOk(s, q, k) && One(s, q);
      }
    }
  }

  lemma KeepsReparentOne(s: Sys, p: nat)
    requires Inv(s) && CanReparentOne(s, p)
    ensures Inv(DoReparentOne(s, p))
  {
    var i := s.procs[p].pc.i;
    if i < |s.procs| && s.procs[i].parent == Some(p) {
      KeepsAdoption(s, p);
    } else {
      KeepsReparentNext(s, p);
    }
  }

  lemma KeepsReparentNext(s: Sys, p: nat)
    requires Inv(s) && CanReparentOne(s, p)
    requires var i := s.procs[p].pc.i; i < |s.procs| ==> s.procs[i].parent != Some(p)
    ensures Inv(DoReparentOne(s, p))
  {
    var s' := DoReparentOne(s, p);
    assert One(s, p);
    forall k: nat | k < |s.procs|
      ensures One(s', k)
    {
      assert One(s, k);
      if s.procs[k].parent.Some? {
        assert ParentOk(s, s.procs[k].parent.value, k);
      }
    }
  }

  /** A child becomes init's, and init is woken before wait_lock is released. */
  lemma KeepsAdoption(s: Sys, p: nat)
    requires Inv(s) && CanReparentOne(s, p)
    requires var i := s.procs[p].pc.i; i < |s.procs| && s.procs[i].parent == Some(p)
    ensures Inv(DoReparentOne(s, p))
  {
    var s' := DoReparentOne(s, p);
    var i := s.procs[p].pc.i;
    assert One(s, p) && One(s, s.init) && One(s, i);
    forall k: nat | k < |s.procs|
      ensures One(s', k)
    {
      assert One(s, k);
      AdoptionChild(s, p, k);
      AdoptionRest(s, p, k);
    }
  }

  lemma AdoptionChild(s: Sys, p: nat, k: nat)
    requires InitOk(s) && CanReparentOne(s, p) && k < |s.procs|
    requires var i := s.procs[p].pc.i; i < |s.procs| && s.procs[i].parent == Some(p) && One(s, i)
    requires One(s, p) && One(s, s.init) && One(s, k)
    ensures ChildOk(DoReparentOne(s, p), k)
  {
    hide ForkOk;
    if s.procs[k].parent.Some? {
      assert ParentOk(s, s.procs[k].parent.value, k);
    }
  }

  lemma AdoptionRest(s: Sys, p: nat, k: nat)
    requires InitOk(s) && CanReparentOne(s, p) && k < |s.procs|
    requires var i := s.procs[p].pc.i; i < |s.procs| && s.procs[i].parent == Some(p)
    requires One(s, p) && One(s, s.init) && One(s, k)
    ensures var s' := DoReparentOne(s, p); Local(s'.procs[k], k, s'.waitLock) && ExitOk(s', k) && ForkOk(s', k)
  {
    hide ParentOk;
  }

  lemma KeepsWaitLook(s: Sys, p: nat, copies: bool)
    requires Inv(s) && CanWaitLook(s, p)
    ensures Inv(DoWaitLook(s, p, copies))
  {
    var i := s.procs[p].pc.i;
    if s.procs[i].parent == Some(p) && s.procs[i].life == ZOMBIE {
      StopWaiting(s, p);
      if copies {
        hide Inv;
        var s1 := Jump(s, p, User).(waitLock := None);
        ZombieSlot(s1, i);
        KeepsSlot(s1, i, Freed());
        SameCore(Set(s1, i, Freed()), DoWaitLook(s, p, copies));
      }
    } else {
      ScanOn(s, p);
    }
  }

  lemma StopWaiting(s: Sys, p: nat)
    requires Inv(s) && p < |s.procs| && s.procs[p].life == RUNNING && s.procs[p].pc.WaitScan?
    ensures Inv(Jump(s, p, User).(waitLock := None))
  {
    var s' := Jump(s, p, User).(waitLock := None);
    assert One(s, p);
    forall k: nat | k < |s.procs|
      ensures One(s', k)
    {
      assert One(s, k);
    }
  }

  lemma ZombieSlot(s: Sys, c: nat)
    requires Inv(s) && c < |s.procs| && s.procs[c].life == ZOMBIE
    ensures c != s.init && NoForker(s, c) && s.waitLock != Some(c)
  {
    assert One(s, c);
    forall k: nat | k < |s.procs|
      ensures !(Forking(s.procs[k].pc) && s.procs[k].pc.c == c)
    {
      assert One(s, k);
    }
  }

  lemma ScanOn(s: Sys, p: nat)
    requires Inv(s) && CanWaitLook(s, p)
    requires var i := s.procs[p].pc.i; s.procs[i].parent != Some(p) || s.procs[i].life != ZOMBIE
    ensures var i := s.procs[p].pc.i;
            Inv(Jump(s, p, WaitScan(i + 1, s.procs[i].parent == Some(p) || s.procs[p].pc.kids)))
  {
    var i := s.procs[p].pc.i;
    var s' := Jump(s, p, WaitScan(i + 1, s.procs[i].parent == Some(p) || s.procs[p].pc.kids));
    assert One(s, p);
    forall k: nat | k < |s.procs|
      ensures One(s', k)
    {
      assert One(s, k);
    }
  }
}
