/** Pids, whole runs, and what they guarantee about parents, wakeups and reaping. */
module ProcRuns {
  import opened Options
  import opened ProcSystem
  import opened ProcSafety

  predicate Once(a: seq<nat>)
  {
    forall i, j | 0 <= i < j < |a| :: a[i] != a[j]
  }

  /** A process's pid is new, and in `exited` exactly while it is a zombie. */
  predicate PidOk(s: Sys, p: nat)
    requires p < |s.procs|
  {
    var v := s.procs[p];
    v.pid < s.nextpid && v.pid !in s.reaped && (v.life == ZOMBIE <==> v.pid in s.exited)
  }

  ghost predicate Pids(s: Sys)
  {
    && s.nextpid > 0 && Once(s.exited) && Once(s.reaped)
    && (forall x | x in s.exited :: 0 < x < s.nextpid) && (forall x | x in s.reaped :: x in s.exited)
    && (forall p: nat {:trigger PidOk(s, p)} | p < |s.procs| :: PidOk(s, p))
    && (forall p: nat, q: nat {:trigger s.procs[p], s.procs[q]} | p < |s.procs| && q < |s.procs|
          && s.procs[p].pid == s.procs[q].pid > 0 :: p == q)
  }

  /** Steps that neither make nor end a process. */
  ghost predicate SamePids(s: Sys, s': Sys)
  {
    && s'.nextpid == s.nextpid && s'.exited == s.exited && s'.reaped == s.reaped && |s'.procs| == |s.procs|
    && forall p: nat {:trigger s'.procs[p]} | p < |s.procs| ::
         s'.procs[p].pid == s.procs[p].pid && (s'.procs[p].life == ZOMBIE <==> s.procs[p].life == ZOMBIE)
  }

  lemma SamePidsKeep(s: Sys, s': Sys)
    requires Pids(s) && SamePids(s, s')
    ensures Pids(s')
  {
    forall p: nat | p < |s.procs|
      ensures PidOk(s', p)
    {
      assert PidOk(s, p);
    }
  }

  lemma PidsForkAlloc(s: Sys, p: nat, c: nat)
    requires Inv(s) && Pids(s) && CanForkAlloc(s, p, c)
    ensures Pids(DoForkAlloc(s, p, c))
  {
    hide Inv;
    var s' := DoForkAlloc(s, p, c);
    assert PidOk(s, p) && PidOk(s, c);
    forall k: nat | k < |s.procs|
      ensures PidOk(s', k)
    {
      assert PidOk(s, k);
    }
    forall k: nat, l: nat | k < |s.procs| && l < |s.procs| && s'.procs[k].pid == s'.procs[l].pid > 0
      ensures k == l
    {
      assert PidOk(s, k) && PidOk(s, l);
    }
  }

  /** A slot that is given up: its pid is nobody's. */
  lemma PidsFreed(s: Sys, s': Sys, c: nat)
    requires Pids(s) && c < |s.procs| == |s'.procs| && s'.nextpid == s.nextpid && s'.exited == s.exited
    requires s'.procs[c].pid == 0 && s'.procs[c].life != ZOMBIE
    requires forall p: nat {:trigger s'.procs[p]} | p < |s.procs| && p != c ::
               s'.procs[p].pid == s.procs[p].pid && (s'.procs[p].life == ZOMBIE <==> s.procs[p].life == ZOMBIE)
    requires s'.reaped == if s.procs[c].life == ZOMBIE then s.reaped + [s.procs[c].pid] else s.reaped
    ensures Pids(s')
  {
    assert PidOk(s, c);
    forall p: nat | p < |s.procs|
      ensures PidOk(s', p)
    {
      assert PidOk(s, p);
    }
  }

  lemma PidsExitEnd(s: Sys, p: nat, status: int)
    requires Inv(s) && Pids(s) && CanExitEnd(s, p)
    ensures Pids(DoExitEnd(s, p, status))
  {
    assert One(s, p);
    hide Inv, One;
    var s' := DoExitEnd(s, p, status);
    assert PidOk(s, p);
    forall k: nat | k < |s.procs|
      ensures PidOk(s', k)
    {
      assert PidOk(s, k);
    }
  }

  lemma PidsForkFail(s: Sys, p: nat)
    requires Inv(s) && Pids(s) && CanForkFail(s, p)
    ensures Pids(DoForkFail(s, p))
  {
    ForkFacts(s, p);
    hide Inv, One;
    PidsFreed(s, DoForkFail(s, p), s.procs[p].pc.c);
  }

  lemma PidsWaitLook(s: Sys, p: nat, copies: bool)
    requires Inv(s) && Pids(s) && CanWaitLook(s, p)
    ensures Pids(DoWaitLook(s, p, copies))
  {
    hide Inv, Pids;
    var i := s.procs[p].pc.i;
    if s.procs[i].parent == Some(p) && s.procs[i].life == ZOMBIE && copies {
      PidsFreed(s, DoWaitLook(s, p, copies), i);
    } else {
      SamePidsKeep(s, DoWaitLook(s, p, copies));
    }
  }

  // ---------------------------------------------------------------------------------------
  // Runs
  // ---------------------------------------------------------------------------------------

  lemma StepKeepsInv(s: Sys, a: Step)
    requires Inv(s) && s.nextpid > 0 && Enabled(s, a)
    ensures Inv(Apply(s, a))
  {
    hide Inv;
    match a {
      case Schedule(p) => KeepsSchedule(s, p);
      case Yield(p) => KeepsYield(s, p);
      case SleepElsewhere(p) => KeepsSleepElsewhere(s, p);
      case WakeElsewhere(p) => KeepsWakeElsewhere(s, p);
      case Kill(p, pid, q) => KeepsKill(s, p, pid, q);
      case ForkAlloc(p, c) => KeepsForkAlloc(s, p, c);
      case ForkFail(p) => KeepsForkFail(s, p);
      case ForkUnlock(p) => KeepsForkUnlock(s, p);
      case ForkSetParent(p) => KeepsForkSetParent(s, p);
      case ForkRun(p) => KeepsForkRun(s, p);
      case ExitStart(p) => KeepsExitStart(s, p);
      case ReparentOne(p) => KeepsReparentOne(s, p);
      case ReparentWakeOne(p) => KeepsReparentWakeOne(s, p);
      case ExitWakeOne(p) => KeepsExitWakeOne(s, p);
      case ExitEnd(p, status) => KeepsExitEnd(s, p, status);
      case SwitchAway(p) => KeepsSwitchAway(s, p);
      case WaitStart(p) => KeepsWaitStart(s, p);
      case WaitLook(p, copies) => KeepsWaitLook(s, p, copies);
      case WaitGiveUp(p) => KeepsWaitGiveUp(s, p);
      case SleepLock(p) => KeepsSleepLock(s, p);
      case SleepUnlock(p) => KeepsSleepUnlock(s, p);
      case SleepSet(p) => KeepsSleepSet(s, p);
      case SleepReturn(p) => KeepsSleepReturn(s, p);
      case WaitAgain(p) => KeepsWaitAgain(s, p);
    }
  }

  predicate Ends(a: Step)
  {
    a.ForkAlloc? || a.ForkFail? || a.ExitEnd? || a.WaitLook?
  }

  lemma SchedulingSamePids(s: Sys, a: Step)
    requires Enabled(s, a) && (a.Schedule? || a.Yield? || a.SleepElsewhere? || a.WakeElsewhere? || a.Kill?)
    ensures SamePids(s, Apply(s, a))
  {
  }

  lemma ForkSamePids(s: Sys, a: Step)
    requires Inv(s) && Enabled(s, a) && (a.ForkUnlock? || a.ForkSetParent? || a.ForkRun?)
    ensures SamePids(s, Apply(s, a))
  {
    ForkFacts(s, a.p);
    hide Inv;
  }

  lemma ExitSamePids(s: Sys, a: Step)
    requires Enabled(s, a) && (a.ExitStart? || a.ReparentOne? || a.ReparentWakeOne? || a.ExitWakeOne? || a.SwitchAway?)
    ensures SamePids(s, Apply(s, a))
  {
  }

  lemma WaitSamePids(s: Sys, a: Step)
    requires Enabled(s, a) && (a.WaitStart? || a.WaitGiveUp? || a.WaitAgain?)
    ensures SamePids(s, Apply(s, a))
  {
  }

  lemma SleepSamePids(s: Sys, a: Step)
    requires Enabled(s, a) && (a.SleepLock? || a.SleepUnlock? || a.SleepSet? || a.SleepReturn?)
    ensures SamePids(s, Apply(s, a))
  {
  }

  lemma StepSamePids(s: Sys, a: Step)
    requires Enabled(s, a) && !Ends(a) && Inv(s)
    ensures SamePids(s, Apply(s, a))
  {
    hide Inv, Enabled, Apply, SamePids;
    if a.Schedule? || a.Yield? || a.SleepElsewhere? || a.WakeElsewhere? || a.Kill? {
      SchedulingSamePids(s, a);
    } else if a.ForkUnlock? || a.ForkSetParent? || a.ForkRun? {
      ForkSamePids(s, a);
    } else if a.WaitStart? || a.WaitGiveUp? || a.WaitAgain? {
      WaitSamePids(s, a);
    } else if a.SleepLock? || a.SleepUnlock? || a.SleepSet? || a.SleepReturn? {
      SleepSamePids(s, a);
    } else {
      ExitSamePids(s, a);
    }
  }

  lemma StepKeepsPids(s: Sys, a: Step)
    requires Inv(s) && Pids(s) && Enabled(s, a)
    ensures Pids(Apply(s, a))
  {
    hide Inv, Pids;
    match a {
      case ForkAlloc(p, c) => PidsForkAlloc(s, p, c);
      case ForkFail(p) => PidsForkFail(s, p);
      case ExitEnd(p, status) => PidsExitEnd(s, p, status);
      case WaitLook(p, copies) => PidsWaitLook(s, p, copies);
      case _ =>
        StepSamePids(s, a);
        SamePidsKeep(s, Apply(s, a));
    }
  }

  /** The table after userinit: init alone, about to run. */
  ghost predicate Initial(s: Sys)
  {
    && s.init < |s.procs| && s.waitLock.None? && s.nextpid == 2 && s.exited == [] && s.reaped == []
    && s.said == map[] && s.told == map[]
    && forall p: nat {:trigger s.procs[p]} | p < |s.procs| ::
         s.procs[p] == if p == s.init then Freed().(life := RUNNABLE, pid := 1) else Freed()
  }

  lemma InitialOk(s: Sys)
    requires Initial(s)
    ensures Inv(s) && Pids(s)
  {
    forall p: nat | p < |s.procs|
      ensures One(s, p) && PidOk(s, p)
    {
    }
  }

  /** `s'` comes from `s` by the steps `run`, in this order. */
  ghost predicate Reaches(s: Sys, run: seq<Step>, s': Sys)
    decreases |run|
  {
    if run == [] then s' == s
    else Enabled(s, run[0]) && Reaches(Apply(s, run[0]), run[1..], s')
  }

  lemma {:induction false} RunKeeps(s: Sys, run: seq<Step>, s': Sys)
    requires Inv(s) && Pids(s) && Reaches(s, run, s')
    ensures Inv(s') && Pids(s')
    decreases |run|
  {
    hide Inv, Pids, Enabled, Apply;
    if run != [] {
      PidsNext(s);
      StepKeepsInv(s, run[0]);
      StepKeepsPids(s, run[0]);
      RunKeeps(Apply(s, run[0]), run[1..], s');
    }
  }

  lemma PidsNext(s: Sys)
    requires Pids(s)
    ensures s.nextpid > 0
  {
  }

  predicate HasLife(v: Proc)
  {
    v.life == RUNNABLE || v.life == RUNNING || v.life == SLEEPING || v.life == ZOMBIE
  }

  /** Asleep in wait, on its own channel. */
  predicate AsleepInWait(s: Sys, q: nat)
  {
    q < |s.procs| && s.procs[q].life == SLEEPING && s.procs[q].chan == OnWait(q)
  }

  /** In every run, whenever wait_lock is free, every process but init has a parent that can still wait for it. */
  lemma NoOrphans(s: Sys, run: seq<Step>, s': Sys, k: nat)
    requires Initial(s) && Reaches(s, run, s') && s'.waitLock.None?
    requires k < |s'.procs| && k != s'.init && HasLife(s'.procs[k])
    ensures s'.procs[k].parent.Some? && s'.procs[k].parent.value < |s'.procs|
    ensures s'.procs[s'.procs[k].parent.value].life !in {UNUSED, USED, ZOMBIE}
  {
    InitialOk(s);
    RunKeeps(s, run, s');
    assert One(s', k);
  }

  /** In every run, whenever wait_lock is free, nobody is asleep in wait with an exited child. */
  lemma NoLostExit(s: Sys, run: seq<Step>, s': Sys, q: nat, k: nat)
    requires Initial(s) && Reaches(s, run, s') && s'.waitLock.None?
    requires k < |s'.procs| && s'.procs[k].parent == Some(q) && s'.procs[k].life == ZOMBIE
    ensures !AsleepInWait(s', q)
  {
    InitialOk(s);
    RunKeeps(s, run, s');
    assert One(s', k);
    if q < |s'.procs| {
      assert One(s', q);
    }
  }

  /** In every run a pid is reaped at most once, and only after that process exited. */
  lemma ReapedOnce(s: Sys, run: seq<Step>, s': Sys)
    requires Initial(s) && Reaches(s, run, s')
    ensures Once(s'.reaped) && Once(s'.exited) && forall x | x in s'.reaped :: x in s'.exited
    ensures forall k: nat | k < |s'.procs| && s'.procs[k].life == ZOMBIE ::
              s'.procs[k].pid in s'.exited && s'.procs[k].pid !in s'.reaped
  {
    InitialOk(s);
    RunKeeps(s, run, s');
    forall k: nat | k < |s'.procs| && s'.procs[k].life == ZOMBIE
      ensures s'.procs[k].pid in s'.exited && s'.procs[k].pid !in s'.reaped
    {
      assert PidOk(s', k);
    }
  }

  /** wait gives up without being killed only if there is no child at all. */
  lemma GivesUpOnlyChildless(s: Sys, run: seq<Step>, s': Sys, p: nat, k: nat)
    requires Initial(s) && Reaches(s, run, s') && CanWaitGiveUp(s', p) && !s'.procs[p].killed && k < |s'.procs|
    ensures s'.procs[k].parent != Some(p)
  {
    InitialOk(s);
    RunKeeps(s, run, s');
    assert One(s', k);
  }

  /** wait goes to sleep only with every child still running. */
  lemma SleepsOnlyOnLiveChildren(s: Sys, run: seq<Step>, s': Sys, p: nat, k: nat)
    requires Initial(s) && Reaches(s, run, s') && CanSleepLock(s', p) && k < |s'.procs| && s'.procs[k].parent == Some(p)
    ensures s'.procs[k].life != ZOMBIE
  {
    InitialOk(s);
    RunKeeps(s, run, s');
    assert One(s', k);
  }

  // ---------------------------------------------------------------------------------------
  // Who is killed
  // ---------------------------------------------------------------------------------------

  /** The pids that kill was called with. */
  function Named(run: seq<Step>): set<nat>
  {
    if run == [] then {} else (if run[0].Kill? then {run[0].pid} else {}) + Named(run[1..])
  }

  /** Only processes with pids in `ks` are marked as killed, and no unused slot is. */
  ghost predicate KillsOk(s: Sys, ks: set<nat>)
  {
    && (forall x | x in ks :: x < s.nextpid)
    && forall p: nat {:trigger s.procs[p]} | p < |s.procs| && s.procs[p].killed ::
         s.procs[p].life != UNUSED && s.procs[p].pid in ks
  }

  /** Steps that mark nobody and neither take nor free a slot. */
  ghost predicate SameKilled(s: Sys, s': Sys)
  {
    && s'.nextpid == s.nextpid && |s'.procs| == |s.procs|
    && forall p: nat {:trigger s'.procs[p]} | p < |s.procs| ::
         s'.procs[p].killed == s.procs[p].killed && s'.procs[p].pid == s.procs[p].pid
         && (s'.procs[p].life == UNUSED <==> s.procs[p].life == UNUSED)
  }

  lemma ForkSameKilled(s: Sys, a: Step)
    requires Inv(s) && Enabled(s, a) && (a.ForkUnlock? || a.ForkSetParent? || a.ForkRun?)
    ensures SameKilled(s, Apply(s, a))
  {
    ForkFacts(s, a.p);
    hide Inv;
  }

  lemma ExitSameKilled(s: Sys, a: Step)
    requires Enabled(s, a) && (a.ExitStart? || a.ReparentOne? || a.ReparentWakeOne? || a.ExitWakeOne?)
    ensures SameKilled(s, Apply(s, a))
  {
  }

  lemma LeaveSameKilled(s: Sys, a: Step)
    requires Inv(s) && Enabled(s, a) && (a.ExitEnd? || a.SwitchAway?)
    ensures SameKilled(s, Apply(s, a))
  {
  }

  lemma WaitSameKilled(s: Sys, a: Step)
    requires Enabled(s, a)
    requires a.WaitStart? || a.WaitGiveUp? || a.WaitAgain? || a.SleepLock? || a.SleepUnlock? || a.SleepSet?
             || a.SleepReturn?
    ensures SameKilled(s, Apply(s, a))
  {
  }

  lemma RestSameKilled(s: Sys, a: Step)
    requires Enabled(s, a) && (a.Schedule? || a.Yield? || a.SleepElsewhere? || a.WakeElsewhere?)
    ensures SameKilled(s, Apply(s, a))
  {
  }

  /** A slot that is freed or taken is not marked. */
  lemma SlotKills(s: Sys, a: Step, ks: set<nat>)
    requires Inv(s) && Enabled(s, a) && KillsOk(s, ks) && (a.ForkAlloc? || a.ForkFail? || a.WaitLook?)
    ensures KillsOk(Apply(s, a), ks)
  {
    if a.ForkFail? {
      ForkFacts(s, a.p);
    }
    hide Inv;
  }

  lemma KillKills(s: Sys, a: Step, ks: set<nat>)
    requires Inv(s) && Pids(s) && Enabled(s, a) && KillsOk(s, ks) && a.Kill?
    ensures KillsOk(Apply(s, a), ks + {a.pid})
  {
    assert PidOk(s, a.q) && One(s, a.q);
  }

  lemma StepKills(s: Sys, a: Step, ks: set<nat>)
    requires Inv(s) && Pids(s) && Enabled(s, a) && KillsOk(s, ks)
    ensures KillsOk(Apply(s, a), ks + if a.Kill? then {a.pid} else {})
  {
    hide Inv, Pids, Enabled, Apply;
    assert ks + {} == ks;
    match a {
      case Kill(_, _, _) => KillKills(s, a, ks);
      case ForkAlloc(_, _) => SlotKills(s, a, ks);
      case ForkFail(_) => SlotKills(s, a, ks);
      case WaitLook(_, _) => SlotKills(s, a, ks);
      case Schedule(_) => RestSameKilled(s, a);
      case Yield(_) => RestSameKilled(s, a);
      case SleepElsewhere(_) => RestSameKilled(s, a);
      case WakeElsewhere(_) => RestSameKilled(s, a);
      case ForkUnlock(_) => ForkSameKilled(s, a);
      case ForkSetParent(_) => ForkSameKilled(s, a);
      case ForkRun(_) => ForkSameKilled(s, a);
      case ExitStart(_) => ExitSameKilled(s, a);
      case ReparentOne(_) => ExitSameKilled(s, a);
      case ReparentWakeOne(_) => ExitSameKilled(s, a);
      case ExitWakeOne(_) => ExitSameKilled(s, a);
      case ExitEnd(_, _) => LeaveSameKilled(s, a);
      case SwitchAway(_) => LeaveSameKilled(s, a);
      case _ => WaitSameKilled(s, a);
    }
  }

  lemma {:induction false} RunKills(s: Sys, run: seq<Step>, s': Sys, ks: set<nat>)
    requires Inv(s) && Pids(s) && Reaches(s, run, s') && KillsOk(s, ks)
    ensures KillsOk(s', ks + Named(run))
    decreases |run|
  {
    hide Inv, Pids, Enabled, Apply, KillsOk;
    if run == [] {
      assert ks + Named(run) == ks;
    } else {
      var a, more := run[0], if run[0].Kill? then {run[0].pid} else {};
      PidsNext(s);
      StepKeepsInv(s, a);
      StepKeepsPids(s, a);
      StepKills(s, a, ks);
      RunKills(Apply(s, a), run[1..], s', ks + more);
      assert ks + more + Named(run[1..]) == ks + Named(run);
    }
  }

  /** In every run, whoever is marked as killed has a pid that kill was called with earlier. */
  lemma KilledWasNamed(s: Sys, run: seq<Step>, s': Sys, p: nat)
    requires Initial(s) && Reaches(s, run, s') && p < |s'.procs| && s'.procs[p].killed
    ensures s'.procs[p].pid in Named(run) && s'.procs[p].life != UNUSED
  {
    InitialOk(s);
    RunKills(s, run, s', {});
    assert {} + Named(run) == Named(run);
  }

  /** So a process that fork has just made is not killed, whoever had its slot before. */
  lemma BornUnkilled(s: Sys, run: seq<Step>, s': Sys, p: nat, c: nat)
    requires Initial(s) && Reaches(s, run, s') && CanForkAlloc(s', p, c)
    ensures var v := DoForkAlloc(s', p, c).procs[c];
            !v.killed && v.pid == s'.nextpid && v.pid !in Named(run) && v.life == USED && v.parent.None?
  {
    InitialOk(s);
    RunKeeps(s, run, s');
    RunKills(s, run, s', {});
    assert {} + Named(run) == Named(run);
    assert One(s', c);
    assert p != c;
  }
}
