/** What the locks of kernel/proc.c protect: p->lock the process's own fields, wait_lock the parent pointers. */
module ProcLocks {
  import opened Options
  import opened ProcSystem
  import opened ProcSafety
  import opened ProcRuns

  /** Steps outside exit and wait. */
  predicate Early(a: Step)
  {
    || a.Schedule? || a.Yield? || a.SleepElsewhere? || a.WakeElsewhere? || a.Kill?
    || a.ForkAlloc? || a.ForkFail? || a.ForkUnlock? || a.ForkSetParent? || a.ForkRun?
  }

  predicate InExit(a: Step)
  {
    a.ExitStart? || a.ReparentOne? || a.ReparentWakeOne? || a.ExitWakeOne? || a.ExitEnd? || a.SwitchAway?
  }

  /** Everything that p->lock protects. */
  predicate SameState(v: Proc, v': Proc)
  {
    && v'.life == v.life && v'.chan == v.chan && v'.killed == v.killed && v'.pid == v.pid && v'.xstate == v.xstate
    && v'.held == v.held
  }

  /** A process that is not USED has its lock free, or holds it itself; unused slots have it free. */
  lemma HeldBy(s: Sys, k: nat)
    requires Inv(s) && k < |s.procs|
    ensures s.procs[k].held.None? || s.procs[k].held == Some(k) || (s.procs[k].life == USED && s.procs[k].pc.User?)
  {
    assert One(s, k);
  }

  /** The child that fork has in hand is locked by the forker, or not at all. */
  lemma ForkChild(s: Sys, p: nat)
    requires Inv(s) && p < |s.procs| && (s.procs[p].pc.ForkCopy? || s.procs[p].pc.ForkLink? || s.procs[p].pc.ForkStart?)
    requires s.procs[p].life == RUNNING
    ensures s.procs[p].pc.c < |s.procs| && s.procs[p].pc.c != p
    ensures s.procs[s.procs[p].pc.c].held.None? || s.procs[s.procs[p].pc.c].held == Some(p)
  {
    ForkFacts(s, p);
    assert One(s, s.procs[p].pc.c) && One(s, p);
  }

  lemma SchedulingExcluded(s: Sys, a: Step, k: nat, h: nat)
    requires Inv(s) && Enabled(s, a) && k < |s.procs| && s.procs[k].held == Some(h) && h != a.p
    requires a.Schedule? || a.Yield? || a.SleepElsewhere? || a.WakeElsewhere? || a.Kill? || a.ForkAlloc?
    ensures k < |Apply(s, a).procs| && SameState(s.procs[k], Apply(s, a).procs[k])
  {
    hide Inv;
    HeldBy(s, k);
  }

  lemma ForkExcluded(s: Sys, a: Step, k: nat, h: nat)
    requires Inv(s) && Enabled(s, a) && k < |s.procs| && s.procs[k].held == Some(h) && h != a.p
    requires a.ForkFail? || a.ForkUnlock? || a.ForkSetParent? || a.ForkRun?
    ensures k < |Apply(s, a).procs| && SameState(s.procs[k], Apply(s, a).procs[k])
  {
    hide Inv;
    HeldBy(s, k);
    ForkChild(s, a.p);
  }

  lemma ExitExcluded(s: Sys, a: Step, k: nat, h: nat)
    requires Inv(s) && Enabled(s, a) && k < |s.procs| && s.procs[k].held == Some(h) && h != a.p
    requires a.ExitStart? || a.ReparentOne? || a.ReparentWakeOne? || a.ExitWakeOne?
    ensures k < |Apply(s, a).procs| && SameState(s.procs[k], Apply(s, a).procs[k])
  {
    hide Inv;
    HeldBy(s, k);
  }

  lemma LeaveExcluded(s: Sys, a: Step, k: nat, h: nat)
    requires Inv(s) && Enabled(s, a) && k < |s.procs| && s.procs[k].held == Some(h) && h != a.p
    requires a.ExitEnd? || a.SwitchAway?
    ensures k < |Apply(s, a).procs| && SameState(s.procs[k], Apply(s, a).procs[k])
  {
    hide Inv;
    HeldBy(s, k);
  }

  lemma WaitExcluded(s: Sys, a: Step, k: nat, h: nat)
    requires Inv(s) && Enabled(s, a) && k < |s.procs| && s.procs[k].held == Some(h) && h != a.p
    requires a.WaitStart? || a.WaitLook? || a.WaitGiveUp? || a.WaitAgain?
    ensures k < |Apply(s, a).procs| && SameState(s.procs[k], Apply(s, a).procs[k])
  {
    hide Inv;
    HeldBy(s, k);
  }

  lemma SleepExcluded(s: Sys, a: Step, k: nat, h: nat)
    requires Inv(s) && Enabled(s, a) && k < |s.procs| && s.procs[k].held == Some(h) && h != a.p
    requires a.SleepLock? || a.SleepUnlock? || a.SleepSet? || a.SleepReturn?
    ensures k < |Apply(s, a).procs| && SameState(s.procs[k], Apply(s, a).procs[k])
  {
    hide Inv;
    HeldBy(s, k);
  }

  lemma StepExcluded(s: Sys, a: Step, k: nat, h: nat)
    requires Inv(s) && Enabled(s, a) && k < |s.procs| && s.procs[k].held == Some(h) && h != a.p
    ensures k < |Apply(s, a).procs| && SameState(s.procs[k], Apply(s, a).procs[k])
  {
    hide Inv, Enabled, Apply, SameState;
    match a {
      case Schedule(_) => SchedulingExcluded(s, a, k, h);
      case Yield(_) => SchedulingExcluded(s, a, k, h);
      case SleepElsewhere(_) => SchedulingExcluded(s, a, k, h);
      case WakeElsewhere(_) => SchedulingExcluded(s, a, k, h);
      case Kill(_, _, _) => SchedulingExcluded(s, a, k, h);
      case ForkAlloc(_, _) => SchedulingExcluded(s, a, k, h);
      case ForkFail(_) => ForkExcluded(s, a, k, h);
      case ForkUnlock(_) => ForkExcluded(s, a, k, h);
      case ForkSetParent(_) => ForkExcluded(s, a, k, h);
      case ForkRun(_) => ForkExcluded(s, a, k, h);
      case ExitStart(_) => ExitExcluded(s, a, k, h);
      case ReparentOne(_) => ExitExcluded(s, a, k, h);
      case ReparentWakeOne(_) => ExitExcluded(s, a, k, h);
      case ExitWakeOne(_) => ExitExcluded(s, a, k, h);
      case ExitEnd(_, _) => LeaveExcluded(s, a, k, h);
      case SwitchAway(_) => LeaveExcluded(s, a, k, h);
      case WaitStart(_) => WaitExcluded(s, a, k, h);
      case WaitLook(_, _) => WaitExcluded(s, a, k, h);
      case WaitGiveUp(_) => WaitExcluded(s, a, k, h);
      case WaitAgain(_) => WaitExcluded(s, a, k, h);
      case _ => SleepExcluded(s, a, k, h);
    }
  }

  /** In every run, while somebody holds a process's lock nobody else changes its state, channel, pid or kill mark. */
  lemma OwnLockExcludes(s: Sys, run: seq<Step>, s': Sys, a: Step, k: nat, h: nat)
    requires Initial(s) && Reaches(s, run, s') && Enabled(s', a)
    requires k < |s'.procs| && s'.procs[k].held == Some(h) && h != a.p
    ensures k < |Apply(s', a).procs| && SameState(s'.procs[k], Apply(s', a).procs[k])
  {
    hide Inv, Initial, Reaches, Pids, Enabled, Apply, SameState;
    InitialOk(s);
    RunKeeps(s, run, s');
    StepExcluded(s', a, k, h);
  }

  // ---- parents ----

  lemma EarlyParents(s: Sys, a: Step, h: nat, k: nat)
    requires Inv(s) && Enabled(s, a) && Early(a) && s.waitLock == Some(h) && h != a.p && k < |s.procs|
    ensures k < |Apply(s, a).procs| && Apply(s, a).procs[k].parent == s.procs[k].parent
  {
    hide Inv;
    if a.ForkFail? {
      ForkOrphan(s, a.p);
    }
  }

  lemma ExitParents(s: Sys, a: Step, h: nat, k: nat)
    requires Inv(s) && Enabled(s, a) && InExit(a) && s.waitLock == Some(h) && h != a.p && k < |s.procs|
    ensures k < |Apply(s, a).procs| && Apply(s, a).procs[k].parent == s.procs[k].parent
  {
    hide Inv;
    LockHolder(s, a.p);
  }

  lemma WaitParents(s: Sys, a: Step, h: nat, k: nat)
    requires Inv(s) && Enabled(s, a) && !Early(a) && !InExit(a) && s.waitLock == Some(h) && h != a.p && k < |s.procs|
    ensures k < |Apply(s, a).procs| && Apply(s, a).procs[k].parent == s.procs[k].parent
  {
    hide Inv;
    LockHolder(s, a.p);
  }

  lemma ParentsKept(s: Sys, a: Step, h: nat, k: nat)
    requires Inv(s) && Enabled(s, a) && s.waitLock == Some(h) && h != a.p && k < |s.procs|
    ensures k < |Apply(s, a).procs| && Apply(s, a).procs[k].parent == s.procs[k].parent
  {
    hide Inv, Enabled, Apply;
    if Early(a) {
      EarlyParents(s, a, h, k);
    } else if InExit(a) {
      ExitParents(s, a, h, k);
    } else {
      WaitParents(s, a, h, k);
    }
  }

  lemma LockHolder(s: Sys, p: nat)
    requires Inv(s) && p < |s.procs|
    ensures HoldsWait(s.procs[p].pc) <==> s.waitLock == Some(p)
  {
    assert One(s, p);
  }

  lemma ForkOrphan(s: Sys, p: nat)
    requires Inv(s) && CanForkFail(s, p)
    ensures s.procs[p].pc.c < |s.procs| && s.procs[s.procs[p].pc.c].parent.None?
  {
    ForkFacts(s, p);
    assert One(s, s.procs[p].pc.c);
  }

  /** In every run, while somebody holds wait_lock nobody else changes a parent pointer. */
  lemma WaitLockExcludes(s: Sys, run: seq<Step>, s': Sys, a: Step, h: nat, k: nat)
    requires Initial(s) && Reaches(s, run, s') && Enabled(s', a) && s'.waitLock == Some(h) && h != a.p && k < |s'.procs|
    ensures k < |Apply(s', a).procs| && Apply(s', a).procs[k].parent == s'.procs[k].parent
  {
    hide Inv, Initial, Reaches, Pids, Enabled, Apply;
    InitialOk(s);
    RunKeeps(s, run, s');
    ParentsKept(s', a, h, k);
  }

  // ---- sleeping in wait ----

  /** Step `a` is kill of `q`, or the look at `q` of a wakeup on its channel. */
  predicate Rouses(s: Sys, a: Step, q: nat)
    requires Enabled(s, a)
  {
    || (a.Kill? && a.q == q)
    || (a.ReparentWakeOne? && s.procs[a.p].pc.j == q == s.init)
    || (a.ExitWakeOne? && s.procs[a.p].pc.j == q && s.procs[a.p].parent == Some(q))
  }

  /** What a process asleep in wait looks like. */
  predicate Dormant(v: Proc, q: nat)
  {
    v.life == SLEEPING && v.chan == OnWait(q) && v.pc.Asleep? && v.held.None?
  }

  lemma AsleepIsDormant(s: Sys, q: nat)
    requires Inv(s) && AsleepInWait(s, q)
    ensures Dormant(s.procs[q], q)
  {
    assert One(s, q);
  }

  lemma ForkChildUsed(s: Sys, p: nat)
    requires Inv(s) && p < |s.procs| && (s.procs[p].pc.ForkCopy? || s.procs[p].pc.ForkLink? || s.procs[p].pc.ForkStart?)
    requires s.procs[p].life == RUNNING
    ensures s.procs[p].pc.c < |s.procs| && s.procs[s.procs[p].pc.c].life == USED
  {
    ForkFacts(s, p);
    assert One(s, s.procs[p].pc.c);
  }

  lemma SchedulingSleep(s: Sys, a: Step, q: nat)
    requires Enabled(s, a) && q < |s.procs| && Dormant(s.procs[q], q)
    requires a.Schedule? || a.Yield? || a.SleepElsewhere? || a.WakeElsewhere? || a.Kill? || a.ForkAlloc?
    ensures AsleepInWait(Apply(s, a), q) <==> !Rouses(s, a, q)
  {
  }

  lemma ForkSleep(s: Sys, a: Step, q: nat)
    requires Inv(s) && Enabled(s, a) && q < |s.procs| && Dormant(s.procs[q], q)
    requires a.ForkFail? || a.ForkUnlock? || a.ForkSetParent? || a.ForkRun?
    ensures AsleepInWait(Apply(s, a), q) <==> !Rouses(s, a, q)
  {
    hide Inv;
    ForkChildUsed(s, a.p);
  }

  lemma ExitSleep(s: Sys, a: Step, q: nat)
    requires Enabled(s, a) && q < |s.procs| && Dormant(s.procs[q], q)
    requires a.ExitStart? || a.ReparentOne? || a.ReparentWakeOne? || a.ExitWakeOne? || a.ExitEnd? || a.SwitchAway?
    ensures AsleepInWait(Apply(s, a), q) <==> !Rouses(s, a, q)
  {
  }

  lemma WaitSleep(s: Sys, a: Step, q: nat)
    requires Enabled(s, a) && q < |s.procs| && Dormant(s.procs[q], q)
    requires a.WaitStart? || a.WaitLook? || a.WaitGiveUp? || a.WaitAgain? || a.SleepLock? || a.SleepUnlock?
             || a.SleepSet? || a.SleepReturn?
    ensures AsleepInWait(Apply(s, a), q) <==> !Rouses(s, a, q)
  {
  }

  /** Who is asleep in wait stays so until a child's exit, an adoption by init, or a kill wakes it. */
  lemma SleepStep(s: Sys, a: Step, q: nat)
    requires Inv(s) && Enabled(s, a) && AsleepInWait(s, q)
    ensures AsleepInWait(Apply(s, a), q) <==> !Rouses(s, a, q)
  {
    hide Inv, Enabled, Apply, Rouses;
    AsleepIsDormant(s, q);
    if a.Schedule? || a.Yield? || a.SleepElsewhere? || a.WakeElsewhere? || a.Kill? || a.ForkAlloc? {
      SchedulingSleep(s, a, q);
    } else if a.ForkFail? || a.ForkUnlock? || a.ForkSetParent? || a.ForkRun? {
      ForkSleep(s, a, q);
    } else if a.ExitStart? || a.ReparentOne? || a.ReparentWakeOne? || a.ExitWakeOne? || a.ExitEnd? || a.SwitchAway? {
      ExitSleep(s, a, q);
    } else {
      WaitSleep(s, a, q);
    }
  }

  /** In every run, who is asleep in wait is woken by exactly these. */
  lemma StaysAsleep(s: Sys, run: seq<Step>, s': Sys, a: Step, q: nat)
    requires Initial(s) && Reaches(s, run, s') && Enabled(s', a) && AsleepInWait(s', q)
    ensures AsleepInWait(Apply(s', a), q) <==> !Rouses(s', a, q)
  {
    hide Inv, Initial, Reaches, Pids, Enabled, Apply, Rouses;
    InitialOk(s);
    RunKeeps(s, run, s');
    SleepStep(s', a, q);
  }

  // ---- who goes to sleep in wait ----

  ghost predicate HasKid(s: Sys, p: nat)
  {
    exists k: nat :: k < |s.procs| && s.procs[k].parent == Some(p)
  }

  /** A scan that has seen a child: there is one. */
  ghost predicate KidsOk(s: Sys)
  {
    forall p: nat {:trigger s.procs[p]} | p < |s.procs| && s.procs[p].pc.WaitScan? && s.procs[p].pc.kids :: HasKid(s, p)
  }

  lemma KidStays(s: Sys, a: Step, p: nat)
    requires Inv(s) && Enabled(s, a) && s.waitLock == Some(p) && HasKid(s, p) && a.p != p
    ensures HasKid(Apply(s, a), p)
  {
    hide Inv, Enabled, Apply;
    var k: nat :| k < |s.procs| && s.procs[k].parent == Some(p);
    ParentsKept(s, a, p, k);
  }

  /** The scanner's own steps. */
  lemma OwnKids(s: Sys, a: Step)
    requires Inv(s) && Enabled(s, a) && KidsOk(s)
    ensures a.p < |Apply(s, a).procs|
    ensures var v := Apply(s, a).procs[a.p]; v.pc.WaitScan? && v.pc.kids ==> HasKid(Apply(s, a), a.p)
  {
    if a.WaitLook? {
      var i, p := s.procs[a.p].pc.i, a.p;
      var s' := Apply(s, a);
      if s'.procs[p].pc.WaitScan? && s'.procs[p].pc.kids {
        if s.procs[i].parent == Some(p) {
          assert s'.procs[i].parent == Some(p);
        } else {
          assert HasKid(s, p);
          var k: nat :| k < |s.procs| && s.procs[k].parent == Some(p);
          assert s'.procs[k].parent == Some(p);
        }
      }
    } else {
      NotScanning(s, a);
    }
  }

  lemma ScanRuns(s: Sys, p: nat)
    requires Inv(s) && p < |s.procs| && s.procs[p].pc.WaitScan?
    ensures s.procs[p].life == RUNNING && s.waitLock == Some(p)
  {
    assert One(s, p);
  }

  lemma EarlyNotScanning(s: Sys, a: Step)
    requires Enabled(s, a) && Early(a) && (s.procs[a.p].pc.WaitScan? ==> s.procs[a.p].life == RUNNING)
    ensures a.p < |Apply(s, a).procs|
    ensures var v := Apply(s, a).procs[a.p]; !(v.pc.WaitScan? && v.pc.kids)
  {
  }

  lemma ExitNotScanning(s: Sys, a: Step)
    requires Enabled(s, a) && InExit(a)
    ensures a.p < |Apply(s, a).procs|
    ensures var v := Apply(s, a).procs[a.p]; !(v.pc.WaitScan? && v.pc.kids)
  {
  }

  lemma WaitNotScanning(s: Sys, a: Step)
    requires Enabled(s, a) && !Early(a) && !InExit(a) && !a.WaitLook?
    ensures a.p < |Apply(s, a).procs|
    ensures var v := Apply(s, a).procs[a.p]; !(v.pc.WaitScan? && v.pc.kids)
  {
  }

  lemma NotScanning(s: Sys, a: Step)
    requires Inv(s) && Enabled(s, a) && !a.WaitLook?
    ensures a.p < |Apply(s, a).procs|
    ensures var v := Apply(s, a).procs[a.p]; !(v.pc.WaitScan? && v.pc.kids)
  {
    hide Inv, Apply;
    if s.procs[a.p].pc.WaitScan? {
      ScanRuns(s, a.p);
    }
    if Early(a) {
      EarlyNotScanning(s, a);
    } else if InExit(a) {
      ExitNotScanning(s, a);
    } else {
      WaitNotScanning(s, a);
    }
  }

  lemma EarlyOthersScan(s: Sys, a: Step, p: nat)
    requires Enabled(s, a) && Early(a) && p < |s.procs| && p != a.p
    ensures p < |Apply(s, a).procs| && (Apply(s, a).procs[p].pc.WaitScan? ==> Apply(s, a).procs[p].pc == s.procs[p].pc)
  {
  }

  lemma ExitOthersScan(s: Sys, a: Step, p: nat)
    requires Enabled(s, a) && InExit(a) && p < |s.procs| && p != a.p
    ensures p < |Apply(s, a).procs| && (Apply(s, a).procs[p].pc.WaitScan? ==> Apply(s, a).procs[p].pc == s.procs[p].pc)
  {
  }

  lemma WaitOthersScan(s: Sys, a: Step, p: nat)
    requires Enabled(s, a) && !Early(a) && !InExit(a) && p < |s.procs| && p != a.p
    ensures p < |Apply(s, a).procs| && (Apply(s, a).procs[p].pc.WaitScan? ==> Apply(s, a).procs[p].pc == s.procs[p].pc)
  {
  }

  /** Others do not get a process to where it scans. */
  lemma OthersScan(s: Sys, a: Step, p: nat)
    requires Enabled(s, a) && p < |s.procs| && p != a.p
    ensures p < |Apply(s, a).procs| && (Apply(s, a).procs[p].pc.WaitScan? ==> Apply(s, a).procs[p].pc == s.procs[p].pc)
  {
    hide Enabled, Apply;
    if Early(a) {
      EarlyOthersScan(s, a, p);
    } else if InExit(a) {
      ExitOthersScan(s, a, p);
    } else {
      WaitOthersScan(s, a, p);
    }
  }

  lemma StepKids(s: Sys, a: Step)
    requires Inv(s) && Enabled(s, a) && KidsOk(s)
    ensures KidsOk(Apply(s, a))
  {
    hide Inv, Enabled, Apply, HasKid;
    var s' := Apply(s, a);
    StepSize(s, a);
    forall p: nat | p < |s'.procs| && s'.procs[p].pc.WaitScan? && s'.procs[p].pc.kids
      ensures HasKid(s', p)
    {
      if p == a.p {
        OwnKids(s, a);
      } else {
        OthersScan(s, a, p);
        ScanRuns(s, p);
        KidStays(s, a, p);
      }
    }
  }

  lemma EarlySize(s: Sys, a: Step)
    requires Enabled(s, a) && Early(a)
    ensures |Apply(s, a).procs| == |s.procs|
  {
  }

  lemma ExitSize(s: Sys, a: Step)
    requires Enabled(s, a) && InExit(a)
    ensures |Apply(s, a).procs| == |s.procs|
  {
  }

  lemma WaitSize(s: Sys, a: Step)
    requires Enabled(s, a) && !Early(a) && !InExit(a)
    ensures |Apply(s, a).procs| == |s.procs|
  {
  }

  lemma StepSize(s: Sys, a: Step)
    requires Enabled(s, a)
    ensures |Apply(s, a).procs| == |s.procs|
  {
    hide Enabled, Apply;
    if Early(a) {
      EarlySize(s, a);
    } else if InExit(a) {
      ExitSize(s, a);
    } else {
      WaitSize(s, a);
    }
  }

  lemma {:induction false} RunKids(s: Sys, run: seq<Step>, s': Sys)
    requires Inv(s) && Pids(s) && KidsOk(s) && Reaches(s, run, s')
    ensures KidsOk(s')
    decreases |run|
  {
    hide Inv, Pids, Enabled, Apply, KidsOk;
    if run != [] {
      PidsNext(s);
      StepKids(s, run[0]);
      StepKeepsInv(s, run[0]);
      StepKeepsPids(s, run[0]);
      RunKids(Apply(s, run[0]), run[1..], s');
    }
  }

  /** In every run wait goes to sleep only with a child, and not killed. */
  lemma SleepsOnlyWithChild(s: Sys, run: seq<Step>, s': Sys, p: nat)
    requires Initial(s) && Reaches(s, run, s') && CanSleepLock(s', p)
    ensures HasKid(s', p) && !s'.procs[p].killed
  {
    InitialOk(s);
    assert KidsOk(s);
    RunKids(s, run, s');
  }
}
