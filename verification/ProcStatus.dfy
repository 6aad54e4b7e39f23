/** The exit status: what wait hands out is what the child passed to exit. */
module ProcStatus {
  import opened Options
  import opened ProcSystem
  import opened ProcSafety
  import opened ProcRuns

  predicate ZombieOk(s: Sys, p: nat)
    requires p < |s.procs|
  {
    s.procs[p].life == ZOMBIE ==> s.procs[p].pid in s.said && s.said[s.procs[p].pid] == s.procs[p].xstate
  }

  ghost predicate StatusOk(s: Sys)
  {
    && (forall x :: x in s.said <==> x in s.exited) && (forall x :: x in s.told <==> x in s.reaped)
    && (forall x | x in s.told :: x in s.said && s.told[x] == s.said[x])
    && forall p: nat {:trigger ZombieOk(s, p)} | p < |s.procs| :: ZombieOk(s, p)
  }

  /** Steps that have nothing to do with statuses. */
  ghost predicate SameStatus(s: Sys, s': Sys)
  {
    && s'.said == s.said && s'.told == s.told && |s'.procs| == |s.procs|
    && forall p: nat {:trigger s'.procs[p]} | p < |s.procs| && s'.procs[p].life == ZOMBIE ::
         s'.procs[p].xstate == s.procs[p].xstate
  }

  lemma ForkStatus(s: Sys, a: Step)
    requires Inv(s) && Enabled(s, a) && (a.ForkUnlock? || a.ForkSetParent? || a.ForkRun?)
    ensures SameStatus(s, Apply(s, a))
  {
    ForkFacts(s, a.p);
    hide Inv;
  }

  lemma ExitStatus(s: Sys, a: Step)
    requires Enabled(s, a) && (a.ExitStart? || a.ReparentOne? || a.ReparentWakeOne? || a.ExitWakeOne? || a.SwitchAway?)
    ensures SameStatus(s, Apply(s, a))
  {
  }

  lemma WaitStatus(s: Sys, a: Step)
    requires Enabled(s, a)
    requires a.WaitStart? || a.WaitGiveUp? || a.WaitAgain? || a.SleepLock? || a.SleepUnlock? || a.SleepSet?
             || a.SleepReturn?
    ensures SameStatus(s, Apply(s, a))
  {
  }

  lemma RestStatus(s: Sys, a: Step)
    requires Enabled(s, a) && (a.Schedule? || a.Yield? || a.SleepElsewhere? || a.WakeElsewhere? || a.Kill?)
    ensures SameStatus(s, Apply(s, a))
  {
  }

  lemma SameKeeps(s: Sys, s': Sys)
    requires StatusOk(s) && SameStatus(s, s') && SamePids(s, s')
    ensures StatusOk(s')
  {
    forall p: nat | p < |s'.procs|
      ensures ZombieOk(s', p)
    {
      assert ZombieOk(s, p);
    }
  }

  lemma ExitEndStatus(s: Sys, p: nat, status: int)
    requires Inv(s) && Pids(s) && StatusOk(s) && CanExitEnd(s, p)
    ensures StatusOk(DoExitEnd(s, p, status))
  {
    hide Inv;
    assert PidOk(s, p);
    var s' := DoExitEnd(s, p, status);
    forall k: nat | k < |s'.procs|
      ensures ZombieOk(s', k)
    {
      assert ZombieOk(s, k) && PidOk(s, k);
    }
  }

  lemma SlotStatus(s: Sys, a: Step)
    requires Inv(s) && StatusOk(s) && Enabled(s, a) && (a.ForkAlloc? || a.ForkFail?)
    ensures StatusOk(Apply(s, a))
  {
    if a.ForkFail? {
      ForkFacts(s, a.p);
    }
    hide Inv;
    var s' := Apply(s, a);
    forall k: nat | k < |s'.procs|
      ensures ZombieOk(s', k)
    {
      assert ZombieOk(s, k);
    }
  }

  lemma LookStatus(s: Sys, p: nat, copies: bool)
    requires Inv(s) && Pids(s) && StatusOk(s) && CanWaitLook(s, p)
    ensures StatusOk(DoWaitLook(s, p, copies))
  {
    hide Inv;
    var i, s' := s.procs[p].pc.i, DoWaitLook(s, p, copies);
    assert ZombieOk(s, i) && PidOk(s, i);
    forall k: nat | k < |s'.procs|
      ensures ZombieOk(s', k)
    {
      assert ZombieOk(s, k);
    }
  }

  lemma StepStatus(s: Sys, a: Step)
    requires Inv(s) && Pids(s) && StatusOk(s) && Enabled(s, a)
    ensures StatusOk(Apply(s, a))
  {
    hide Inv, Pids, StatusOk, Enabled, Apply, SameStatus, SamePids;
    match a {
      case ForkAlloc(_, _) => SlotStatus(s, a);
      case ForkFail(_) => SlotStatus(s, a);
      case ExitEnd(p, status) => ExitEndOf(s, a);
      case WaitLook(p, copies) => LookOf(s, a);
      case _ => QuietStatus(s, a);
    }
  }

  lemma ExitEndOf(s: Sys, a: Step)
    requires Inv(s) && Pids(s) && StatusOk(s) && Enabled(s, a) && a.ExitEnd?
    ensures StatusOk(Apply(s, a))
  {
    hide Inv, Pids, StatusOk;
    ExitEndStatus(s, a.p, a.status);
  }

  lemma LookOf(s: Sys, a: Step)
    requires Inv(s) && Pids(s) && StatusOk(s) && Enabled(s, a) && a.WaitLook?
    ensures StatusOk(Apply(s, a))
  {
    hide Inv, Pids, StatusOk;
    LookStatus(s, a.p, a.copies);
  }

  lemma QuietSame(s: Sys, a: Step)
    requires Inv(s) && Enabled(s, a) && !Ends(a)
    ensures SameStatus(s, Apply(s, a))
  {
    hide Inv, Enabled, Apply, SameStatus;
    if a.Schedule? || a.Yield? || a.SleepElsewhere? || a.WakeElsewhere? || a.Kill? {
      RestStatus(s, a);
    } else if a.ForkUnlock? || a.ForkSetParent? || a.ForkRun? {
      ForkStatus(s, a);
    } else if a.ExitStart? || a.ReparentOne? || a.ReparentWakeOne? || a.ExitWakeOne? || a.SwitchAway? {
      ExitStatus(s, a);
    } else {
      WaitStatus(s, a);
    }
  }

  lemma QuietStatus(s: Sys, a: Step)
    requires Inv(s) && StatusOk(s) && Enabled(s, a) && !Ends(a)
    ensures StatusOk(Apply(s, a))
  {
    hide Inv, StatusOk, Enabled, Apply, SameStatus, SamePids;
    StepSamePids(s, a);
    QuietSame(s, a);
    SameKeeps(s, Apply(s, a));
  }

  lemma {:induction false} RunStatus(s: Sys, run: seq<Step>, s': Sys)
    requires Inv(s) && Pids(s) && StatusOk(s) && Reaches(s, run, s')
    ensures StatusOk(s')
    decreases |run|
  {
    hide Inv, Pids, Enabled, Apply, StatusOk;
    if run != [] {
      PidsNext(s);
      StepStatus(s, run[0]);
      StepKeepsInv(s, run[0]);
      StepKeepsPids(s, run[0]);
      RunStatus(Apply(s, run[0]), run[1..], s');
    }
  }

  /** In every run the status that wait copies out for a pid is the one that process gave to exit. */
  lemma StatusIsDelivered(s: Sys, run: seq<Step>, s': Sys, x: nat)
    requires Initial(s) && Reaches(s, run, s')
    ensures x in s'.reaped <==> x in s'.told
    ensures x in s'.reaped ==> x in s'.said && s'.told[x] == s'.said[x]
  {
    InitialOk(s);
    assert StatusOk(s);
    RunStatus(s, run, s');
  }


  /** And that is the argument of its exit, once given never changed. */
  lemma SaidAtExit(s: Sys, a: Step, x: nat)
    requires Inv(s) && Pids(s) && StatusOk(s) && Enabled(s, a)
    ensures x in s.said ==> x in Apply(s, a).said && Apply(s, a).said[x] == s.said[x]
    ensures x !in s.said && x in Apply(s, a).said ==>
              a.ExitEnd? && s.procs[a.p].pid == x && Apply(s, a).said[x] == a.status
  {
    hide Inv, Enabled, Apply;
    if !Ends(a) {
      QuietSame(s, a);
    } else if a.ExitEnd? {
      SaidNow(s, a);
    } else {
      SlotsSay(s, a);
    }
  }

  lemma SaidNow(s: Sys, a: Step)
    requires Pids(s) && StatusOk(s) && Enabled(s, a) && a.ExitEnd?
    ensures s.procs[a.p].pid !in s.said && Apply(s, a).said == s.said[s.procs[a.p].pid := a.status]
  {
    assert PidOk(s, a.p);
  }

  lemma SlotsSay(s: Sys, a: Step)
    requires Enabled(s, a) && (a.ForkAlloc? || a.ForkFail? || a.WaitLook?)
    ensures Apply(s, a).said == s.said
  {
  }
}
