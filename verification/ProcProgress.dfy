/**
What fork, exit, wait, sleep and kill achieve when the other processes leave the caller alone: from every state in
which nobody holds a lock, the steps of the caller lead to what the loops over the table compute.
*/
module ProcProgress {
  import opened Options
  import opened ProcSystem
  import opened ProcRuns
  import opened ProcLoops

  predicate Only(p: nat, run: seq<Step>)
  {
    forall k | 0 <= k < |run| :: run[k].p == p
  }

  /** Steps of process `p` lead from `s0` to `s`. */
  ghost predicate Alone(p: nat, s0: Sys, s: Sys)
  {
    exists run :: Reaches(s0, run, s) && Only(p, run)
  }

  lemma AloneStart(p: nat, s: Sys)
    ensures Alone(p, s, s)
  {
    var none: seq<Step> := [];
    assert Reaches(s, none, s) && Only(p, none);
  }

  lemma {:induction false} Snoc(s0: Sys, run: seq<Step>, s: Sys, a: Step)
    requires Reaches(s0, run, s) && Enabled(s, a)
    ensures Reaches(s0, run + [a], Apply(s, a))
    decreases |run|
  {
    hide Enabled, Apply;
    if run == [] {
      assert Reaches(Apply(s, a), [], Apply(s, a));
      assert ([a])[1..] == [] && [] + [a] == [a];
    } else {
      Snoc(Apply(s0, run[0]), run[1..], s, a);
      assert (run + [a])[1..] == run[1..] + [a];
    }
  }

  lemma Then(p: nat, s0: Sys, s: Sys, a: Step)
    requires Alone(p, s0, s) && Enabled(s, a) && a.p == p
    ensures Alone(p, s0, Apply(s, a))
  {
    hide Reaches, Enabled, Apply;
    var run :| Reaches(s0, run, s) && Only(p, run);
    Snoc(s0, run, s, a);
    assert Only(p, run + [a]);
  }

  /** Nobody holds a lock. */
  predicate Unlocked(s: Sys)
  {
    forall k: nat {:trigger s.procs[k]} | k < |s.procs| :: s.procs[k].held.None?
  }

  /** Process `p` is in user code and nobody is in anyone's way. */
  predicate Ready(s: Sys, p: nat)
  {
    p < |s.procs| && s.procs[p].life == RUNNING && s.procs[p].pc.User? && s.waitLock.None? && Unlocked(s)
  }

  // ---- fork ----

  /** fork into the unused slot `c`: a runnable child with a new pid that is not killed. */
  lemma ForkAlone(s: Sys, p: nat, c: nat) returns (s': Sys)
    requires Ready(s, p) && c < |s.procs| && Empty(s.procs[c])
    ensures Alone(p, s, s') && Ready(s', p) && s' == s.(procs := s'.procs, nextpid := s.nextpid + 1)
    ensures SameBut(s.procs, s'.procs, c)
    ensures s'.procs[c] == Proc(RUNNABLE, NoChan, Some(p), s.nextpid, false, User, None, p, 0)
  {
    hide Alone;
    AloneStart(p, s);
    Then(p, s, s, ForkAlloc(p, c));
    var s1 := DoForkAlloc(s, p, c);
    Then(p, s, s1, ForkUnlock(p));
    var s2 := DoForkUnlock(s1, p);
    Then(p, s, s2, ForkSetParent(p));
    var s3 := DoForkSetParent(s2, p);
    Then(p, s, s3, ForkRun(p));
    s' := DoForkRun(s3, p);
  }

  // ---- exit ----

  /** The table after `p` woke the sleepers on `chan` from slot `j` on. */
  ghost predicate WokenFrom(a: seq<Proc>, b: seq<Proc>, p: nat, j: nat, chan: Chan)
  {
    |a| == |b| && forall k: nat {:trigger b[k]} | k < |a| && k != p ::
      b[k] == if k >= j then WakeOne(a[k], chan) else a[k]
  }

  lemma {:induction false} WakeInit(p: nat, s0: Sys, s: Sys, i: nat, j: nat) returns (s': Sys)
    requires Alone(p, s0, s) && p < |s.procs| && s.procs[p].life == RUNNING && s.procs[p].pc == ReparentWake(i, j)
    requires Unlocked(s) && j <= |s.procs|
    ensures Alone(p, s0, s') && s' == s.(procs := s'.procs) && |s'.procs| == |s.procs| && Unlocked(s')
    ensures WokenFrom(s.procs, s'.procs, p, j, OnWait(s.init)) && s'.procs[p] == s.procs[p].(pc := Reparent(i + 1))
    decreases |s.procs| - j
  {
    hide Alone;
    Then(p, s0, s, ReparentWakeOne(p));
    s' := DoReparentWakeOne(s, p);
    if j < |s.procs| {
      var s1 := s';
      s' := WakeInit(p, s0, s1, i, j + 1);
    }
  }

  /** One child given to init, and init awake. */
  lemma GiveAway(p: nat, s0: Sys, s: Sys, i: nat) returns (s': Sys)
    requires Alone(p, s0, s) && p < |s.procs| && s.procs[p].life == RUNNING && s.procs[p].pc == Reparent(i)
    requires Unlocked(s) && i < |s.procs| && s.procs[i].parent == Some(p) && i != p
    ensures Alone(p, s0, s') && s' == s.(procs := s'.procs) && |s'.procs| == |s.procs| && Unlocked(s')
    ensures forall k: nat {:trigger s'.procs[k]} | k < |s.procs| && k != p ::
              s'.procs[k] == Adopted(s.procs[k], k == i, s.init, true)
    ensures s'.procs[p] == s.procs[p].(pc := Reparent(i + 1))
  {
    hide Alone;
    Then(p, s0, s, ReparentOne(p));
    s' := WakeInit(p, s0, DoReparentOne(s, p), i, 0);
  }

  ghost predicate HasChild(a: seq<Proc>, p: nat, i: nat)
  {
    exists k: nat :: i <= k < |a| && a[k].parent == Some(p)
  }

  /** The table after reparent looked at slots from `i` on. */
  ghost predicate ReparentedFrom(a: seq<Proc>, b: seq<Proc>, p: nat, i: nat, init: nat)
  {
    |a| == |b| && forall k: nat {:trigger b[k]} | k < |a| && k != p ::
      b[k] == Adopted(a[k], k >= i && a[k].parent == Some(p), init, HasChild(a, p, i))
  }

  lemma ReparentedNone(a: seq<Proc>, b: seq<Proc>, p: nat, init: nat)
    requires SameBut(a, b, p)
    ensures ReparentedFrom(a, b, p, |a|, init)
  {
  }

  lemma ReparentedSkip(a: seq<Proc>, m: seq<Proc>, b: seq<Proc>, p: nat, i: nat, init: nat)
    requires i < |a| && a[i].parent != Some(p) && SameBut(a, m, p) && m[p].parent == a[p].parent
    requires ReparentedFrom(m, b, p, i + 1, init)
    ensures ReparentedFrom(a, b, p, i, init)
  {
    hide Adopted;
    assert forall k: nat {:trigger a[k]} | k < |a| :: m[k].parent == a[k].parent;
    assert HasChild(a, p, i) <==> HasChild(m, p, i + 1);
  }

  lemma ReparentedOne(a: seq<Proc>, m: seq<Proc>, b: seq<Proc>, p: nat, i: nat, init: nat)
    requires i < |a| == |m| && a[i].parent == Some(p) && p != init && ReparentedFrom(m, b, p, i + 1, init)
    requires forall k: nat {:trigger m[k]} | k < |a| && k != p :: m[k] == Adopted(a[k], k == i, init, true)
    ensures ReparentedFrom(a, b, p, i, init)
  {
    assert HasChild(a, p, i);
    forall k: nat | k < |a| && k != p
      ensures b[k] == Adopted(a[k], k >= i && a[k].parent == Some(p), init, true)
    {
      AdoptedTwice(a[k], k == i, k >= i + 1 && m[k].parent == Some(p), init, true, HasChild(m, p, i + 1));
    }
  }

  lemma {:induction false} ReparentAlone(p: nat, s0: Sys, s: Sys, i: nat) returns (s': Sys)
    requires Alone(p, s0, s) && p < |s.procs| && s.procs[p].life == RUNNING && s.procs[p].pc == Reparent(i)
    requires Unlocked(s) && i <= |s.procs| && p != s.init && s.procs[p].parent != Some(p)
    ensures Alone(p, s0, s') && s' == s.(procs := s'.procs) && |s'.procs| == |s.procs| && Unlocked(s')
    ensures ReparentedFrom(s.procs, s'.procs, p, i, s.init) && s'.procs[p] == s.procs[p].(pc := ExitWake(0))
    decreases |s.procs| - i
  {
    hide Alone, Adopted;
    if i < |s.procs| && s.procs[i].parent == Some(p) {
      var s1 := GiveAway(p, s0, s, i);
      s' := ReparentAlone(p, s0, s1, i + 1);
      ReparentedOne(s.procs, s1.procs, s'.procs, p, i, s.init);
    } else {
      Then(p, s0, s, ReparentOne(p));
      var s1 := DoReparentOne(s, p);
      s' := s1;
      if i < |s.procs| {
        s' := ReparentAlone(p, s0, s1, i + 1);
        ReparentedSkip(s.procs, s1.procs, s'.procs, p, i, s.init);
      } else {
        ReparentedNone(s.procs, s'.procs, p, s.init);
      }
    }
  }

  lemma {:induction false} WakeParent(p: nat, s0: Sys, s: Sys, j: nat) returns (s': Sys)
    requires Alone(p, s0, s) && p < |s.procs| && s.procs[p].life == RUNNING && s.procs[p].pc == ExitWake(j)
    requires Unlocked(s) && j <= |s.procs| && s.procs[p].parent.Some?
    ensures Alone(p, s0, s') && s' == s.(procs := s'.procs) && |s'.procs| == |s.procs| && Unlocked(s')
    ensures WokenFrom(s.procs, s'.procs, p, j, OnWait(s.procs[p].parent.value))
    ensures s'.procs[p] == s.procs[p].(pc := ExitWake(|s.procs|))
    decreases |s.procs| - j
  {
    hide Alone;
    s' := s;
    if j < |s.procs| {
      Then(p, s0, s, ExitWakeOne(p));
      s' := DoExitWakeOne(s, p);
      s' := WakeParent(p, s0, s', j + 1);
    }
  }

  /** The table after exit of `p`, whose parent is `q`: its children are init's, and those two are awake. */
  ghost predicate Exited(a: seq<Proc>, b: seq<Proc>, p: nat, q: nat, init: nat, status: int)
  {
    && p < |a| == |b| && b[p] == a[p].(life := ZOMBIE, pc := Gone, xstate := status)
    && forall k: nat {:trigger b[k]} | k < |a| && k != p ::
         b[k] == WakeOne(Adopted(a[k], a[k].parent == Some(p), init, HasChild(a, p, 0)), OnWait(q))
  }

  lemma ExitedIs(a: seq<Proc>, m1: seq<Proc>, m2: seq<Proc>, b: seq<Proc>, p: nat, q: nat, init: nat, status: int)
    requires p < |a| && SameBut(a, m1, p) && m1[p].parent == a[p].parent && |b| == |m2|
    requires (exists m: seq<Proc> :: ReparentedFrom(m1, m, p, 0, init) && WokenFrom(m, m2, p, 0, OnWait(q)))
    requires SameBut(m2, b, p) && b[p] == a[p].(life := ZOMBIE, pc := Gone, xstate := status)
    ensures Exited(a, b, p, q, init, status)
  {
    hide Adopted, WakeOne;
    var m: seq<Proc> :| ReparentedFrom(m1, m, p, 0, init) && WokenFrom(m, m2, p, 0, OnWait(q));
    assert forall k: nat {:trigger a[k]} | k < |a| :: m1[k].parent == a[k].parent;
    assert HasChild(a, p, 0) <==> HasChild(m1, p, 0);
    forall k: nat | k < |a| && k != p
      ensures b[k] == WakeOne(Adopted(a[k], a[k].parent == Some(p), init, HasChild(a, p, 0)), OnWait(q))
    {
      assert b[k] == m2[k] && m2[k] == WakeOne(m[k], OnWait(q)) && m1[k] == a[k];
    }
  }

  /** The end of exit, and the switch to the scheduler. */
  lemma LeaveAlone(p: nat, s0: Sys, s: Sys, status: int) returns (s': Sys)
    requires Alone(p, s0, s) && p < |s.procs| && s.procs[p].life == RUNNING && s.procs[p].pc == ExitWake(|s.procs|)
    requires Unlocked(s)
    ensures Alone(p, s0, s') && Unlocked(s') && SameBut(s.procs, s'.procs, p)
    ensures s'.procs[p] == s.procs[p].(life := ZOMBIE, pc := Gone, xstate := status)
    ensures s' == s.(procs := s'.procs, waitLock := None, exited := s.exited + [s.procs[p].pid],
                     said := s.said[s.procs[p].pid := status])
  {
    hide Alone;
    Then(p, s0, s, ExitEnd(p, status));
    var s1 := DoExitEnd(s, p, status);
    Then(p, s0, s1, SwitchAway(p));
    s' := DoSwitchAway(s1, p);
  }

  /** exit: the caller becomes a zombie, its children are init's, and its parent and init, if asleep in wait, wake. */
  lemma ExitAlone(s: Sys, p: nat, q: nat, status: int) returns (s': Sys)
    requires Ready(s, p) && p != s.init && s.procs[p].parent == Some(q) && q != p
    ensures Alone(p, s, s') && Unlocked(s') && Exited(s.procs, s'.procs, p, q, s.init, status)
    ensures s' == s.(procs := s'.procs, exited := s.exited + [s.procs[p].pid], said := s.said[s.procs[p].pid := status])
  {
    hide Alone, Adopted, WakeOne, ReparentedFrom, WokenFrom;
    AloneStart(p, s);
    Then(p, s, s, ExitStart(p));
    var s1 := DoExitStart(s, p);
    var s2 := ReparentAlone(p, s, s1, 0);
    var s3 := WakeParent(p, s, s2, 0);
    s' := LeaveAlone(p, s, s3, status);
    ExitedIs(s.procs, s1.procs, s3.procs, s'.procs, p, q, s.init, status);
  }

  // ---- wait ----

  predicate ZombieChild(a: seq<Proc>, p: nat, k: nat)
  {
    k < |a| && a[k].parent == Some(p) && a[k].life == ZOMBIE
  }

  /** Slot `z` is the first from `i` on with a zombie child of `p`; the table's size stands for none. */
  ghost predicate FirstZombie(a: seq<Proc>, p: nat, i: nat, z: nat)
  {
    && i <= z <= |a| && (z < |a| ==> ZombieChild(a, p, z))
    && forall k: nat {:trigger ZombieChild(a, p, k)} | i <= k < z :: !ZombieChild(a, p, k)
  }

  lemma FirstZombieKept(s: Sys, p: nat, i: nat, z: nat, pc: Pc)
    requires p < |s.procs| && FirstZombie(s.procs, p, i, z) && i < z
    ensures FirstZombie(Jump(s, p, pc).procs, p, i + 1, z) && !ZombieChild(s.procs, p, i)
  {
    var a, b := s.procs, Jump(s, p, pc).procs;
    assert !ZombieChild(a, p, i);
    forall k: nat | i + 1 <= k <= z
      ensures ZombieChild(b, p, k) <==> ZombieChild(a, p, k)
    {
    }
  }

  ghost predicate KidIn(a: seq<Proc>, p: nat, i: nat, z: nat)
  {
    exists k: nat :: i <= k < z && k < |a| && a[k].parent == Some(p)
  }

  lemma NoKid(a: seq<Proc>, p: nat, z: nat)
    ensures !KidIn(a, p, z, z)
  {
  }

  lemma KidSplit(s: Sys, p: nat, i: nat, z: nat, pc: Pc)
    requires p < |s.procs| && i < z <= |s.procs|
    ensures KidIn(s.procs, p, i, z) <==> s.procs[i].parent == Some(p) || KidIn(Jump(s, p, pc).procs, p, i + 1, z)
  {
    var a, b := s.procs, Jump(s, p, pc).procs;
    if KidIn(a, p, i, z) && a[i].parent != Some(p) {
      var k: nat :| i <= k < z && k < |a| && a[k].parent == Some(p);
      assert b[k].parent == Some(p);
    }
    if KidIn(b, p, i + 1, z) {
      var k: nat :| i + 1 <= k < z && k < |b| && b[k].parent == Some(p);
      assert a[k].parent == Some(p);
    }
  }

  lemma {:induction false} ScanAlone(p: nat, s0: Sys, s: Sys, i: nat, kids: bool, z: nat) returns (s': Sys, kids': bool)
    requires Alone(p, s0, s) && p < |s.procs| && s.procs[p].life == RUNNING && s.procs[p].pc == WaitScan(i, kids)
    requires Unlocked(s) && FirstZombie(s.procs, p, i, z)
    ensures Alone(p, s0, s') && s' == Jump(s, p, WaitScan(z, kids')) && Unlocked(s')
    ensures kids' <==> kids || KidIn(s.procs, p, i, z)
    decreases z - i
  {
    hide Alone, KidIn;
    NoKid(s.procs, p, z);
    if i == z {
      s', kids' := s, kids;
      assert s.procs[p := s.procs[p]] == s.procs;
    } else {
      var more := kids || s.procs[i].parent == Some(p);
      FirstZombieKept(s, p, i, z, WaitScan(i + 1, more));
      KidSplit(s, p, i, z, WaitScan(i + 1, more));
      Then(p, s0, s, WaitLook(p, true));
      var s1 := DoWaitLook(s, p, true);
      assert s1 == Jump(s, p, WaitScan(i + 1, more));
      s', kids' := ScanAlone(p, s0, s1, i + 1, more, z);
      assert s1.procs[p := s'.procs[p]] == s.procs[p := s'.procs[p]];
    }
  }

  /** wait with an exited child: the first one in the table is freed, and its pid recorded as reaped. */
  lemma WaitReaps(s: Sys, p: nat, z: nat) returns (s': Sys)
    requires Ready(s, p) && FirstZombie(s.procs, p, 0, z) && z < |s.procs|
    ensures Alone(p, s, s') && Ready(s', p)
    ensures s' == s.(procs := s'.procs, reaped := s.reaped + [s.procs[z].pid],
                     told := s.told[s.procs[z].pid := s.procs[z].xstate])
    ensures SameBut(s.procs, s'.procs, z) && Empty(s'.procs[z])
  {
    hide Alone, KidIn;
    AloneStart(p, s);
    Then(p, s, s, WaitStart(p));
    var s1 := DoWaitStart(s, p);
    StartScan(s, p, z, WaitScan(0, false));
    var s2, kids := ScanAlone(p, s, s1, 0, false, z);
    Then(p, s, s2, WaitLook(p, true));
    s' := DoWaitLook(s2, p, true);
    assert s.procs[p] == s.procs[p].(pc := User);
  }

  lemma StartScan(s: Sys, p: nat, z: nat, pc: Pc)
    requires p < |s.procs| && FirstZombie(s.procs, p, 0, z)
    ensures FirstZombie(s.procs[p := s.procs[p].(pc := pc)], p, 0, z)
    ensures KidIn(s.procs[p := s.procs[p].(pc := pc)], p, 0, |s.procs|) <==> HasChild(s.procs, p, 0)
  {
    var a, b := s.procs, s.procs[p := s.procs[p].(pc := pc)];
    assert forall k: nat {:trigger a[k]} {:trigger b[k]} | k < |a| ::
        b[k].parent == a[k].parent && b[k].life == a[k].life;
    forall k: nat | k < |a|
      ensures ZombieChild(b, p, k) <==> ZombieChild(a, p, k)
    {
    }
  }

  /** sleep(p, &wait_lock) at the end of a scan. */
  lemma SleepAlone(p: nat, s0: Sys, s: Sys) returns (s': Sys)
    requires Alone(p, s0, s) && CanSleepLock(s, p) && Unlocked(s)
    ensures Alone(p, s0, s') && s' == s.(procs := s'.procs, waitLock := None) && Unlocked(s')
    ensures s'.procs == s.procs[p := s.procs[p].(life := SLEEPING, chan := OnWait(p), pc := Asleep)]
  {
    hide Alone;
    Then(p, s0, s, SleepLock(p));
    var s1 := DoSleepLock(s, p);
    Then(p, s0, s1, SleepUnlock(p));
    var s2 := DoSleepUnlock(s1, p);
    Then(p, s0, s2, SleepSet(p));
    s' := DoSleepSet(s2, p);
  }

  /**
  wait without an exited child: it gives up exactly if there is no child at all or the caller is killed, else it is
  asleep with wait_lock free.
  */
  lemma WaitSleeps(s: Sys, p: nat) returns (s': Sys)
    requires Ready(s, p) && FirstZombie(s.procs, p, 0, |s.procs|)
    ensures Alone(p, s, s') && s' == s.(procs := s'.procs) && SameBut(s.procs, s'.procs, p) && Unlocked(s')
    ensures s'.procs[p] == if HasChild(s.procs, p, 0) && !s.procs[p].killed
                           then s.procs[p].(life := SLEEPING, chan := OnWait(p), pc := Asleep) else s.procs[p]
  {
    hide Alone, KidIn, HasChild;
    AloneStart(p, s);
    Then(p, s, s, WaitStart(p));
    var s1 := DoWaitStart(s, p);
    StartScan(s, p, |s.procs|, WaitScan(0, false));
    var s2, kids := ScanAlone(p, s, s1, 0, false, |s.procs|);
    assert s.procs[p] == s.procs[p].(pc := User);
    if !kids || s.procs[p].killed {
      Then(p, s, s2, WaitGiveUp(p));
      s' := DoWaitGiveUp(s2, p);
    } else {
      s' := SleepAlone(p, s, s2);
    }
  }

  /** A process that was woken in wait is scheduled and takes wait_lock again. */
  lemma Resumes(s: Sys, p: nat) returns (s': Sys)
    requires p < |s.procs| && s.procs[p].life == RUNNABLE && s.procs[p].pc == Asleep && s.waitLock.None? && Unlocked(s)
    ensures Alone(p, s, s') && s' == s.(procs := s'.procs, waitLock := Some(p)) && Unlocked(s')
    ensures s'.procs == s.procs[p := s.procs[p].(life := RUNNING, chan := NoChan, pc := WaitScan(0, false))]
  {
    hide Alone;
    AloneStart(p, s);
    Then(p, s, s, Schedule(p));
    var s1 := DoSchedule(s, p);
    Then(p, s, s1, SleepReturn(p));
    var s2 := DoSleepReturn(s1, p);
    Then(p, s, s2, WaitAgain(p));
    s' := DoWaitAgain(s2, p);
  }

  /** There it reaps its first exited child. */
  lemma WokenReaps(s: Sys, p: nat, z: nat) returns (s': Sys)
    requires p < |s.procs| && s.procs[p].life == RUNNABLE && s.procs[p].pc == Asleep && s.waitLock.None? && Unlocked(s)
    requires FirstZombie(s.procs, p, 0, z) && z < |s.procs|
    ensures Alone(p, s, s') && Ready(s', p) && s'.reaped == s.reaped + [s.procs[z].pid]
    ensures s'.told == s.told[s.procs[z].pid := s.procs[z].xstate]
    ensures |s'.procs| == |s.procs| && Empty(s'.procs[z])
  {
    hide Alone, KidIn;
    var s1 := Resumes(s, p);
    ScanKept(s.procs, s1.procs, p, z);
    var s2, kids := ScanAlone(p, s, s1, 0, false, z);
    hide FirstZombie;
    Then(p, s, s2, WaitLook(p, true));
    s' := DoWaitLook(s2, p, true);
  }

  lemma ScanKept(a: seq<Proc>, b: seq<Proc>, p: nat, z: nat)
    requires FirstZombie(a, p, 0, z) && SameBut(a, b, p) && b[p].parent == a[p].parent
    requires a[p].life != ZOMBIE && b[p].life != ZOMBIE
    ensures FirstZombie(b, p, 0, z) && (z < |a| ==> z != p)
  {
    forall k: nat | k < |a|
      ensures ZombieChild(b, p, k) <==> ZombieChild(a, p, k)
    {
    }
  }

  /** kill of a process asleep in wait: it runs again, and its wait gives up. */
  lemma KilledWaitGivesUp(s: Sys, p: nat, q: nat) returns (s1: Sys, s': Sys)
    requires Ready(s, p) && q < |s.procs| && q != p && s.procs[q].pid > 0
    requires s.procs[q].life == SLEEPING && s.procs[q].pc == Asleep && FirstZombie(s.procs, q, 0, |s.procs|)
    ensures Alone(p, s, s1) && Alone(q, s1, s') && SameBut(s.procs, s'.procs, q) && s' == s.(procs := s'.procs)
    ensures s'.procs[q] == s.procs[q].(life := RUNNING, killed := true, chan := NoChan, pc := User)
  {
    hide Alone, KidIn;
    AloneStart(p, s);
    Then(p, s, s, Kill(p, s.procs[q].pid, q));
    s1 := DoKill(s, p, s.procs[q].pid, q);
    var s2 := Resumes(s1, q);
    ScanKept(s.procs, s2.procs, q, |s.procs|);
    var s3, kids := ScanAlone(q, s1, s2, 0, false, |s.procs|);
    Then(q, s1, s3, WaitGiveUp(q));
    s' := DoWaitGiveUp(s3, q);
  }

  /** A parent asleep in wait, a child that exits: the parent wakes and reaps a child. */
  lemma ExitIsReaped(s: Sys, p: nat, q: nat, status: int) returns (s1: Sys, s': Sys, z: nat)
    requires Ready(s, p) && p != s.init && s.procs[p].parent == Some(q) && q < |s.procs| && q != p
    requires s.procs[q].life == SLEEPING && s.procs[q].chan == OnWait(q) && s.procs[q].pc == Asleep
    requires s.procs[q].parent != Some(q)
    ensures Alone(p, s, s1) && Exited(s.procs, s1.procs, p, q, s.init, status) && Alone(q, s1, s') && Ready(s', q)
    ensures z <= p && ZombieChild(s1.procs, q, z) && s'.reaped == s.reaped + [s1.procs[z].pid]
  {
    s1 := ExitAlone(s, p, q, status);
    assert ZombieChild(s1.procs, q, p);
    z := FindZombie(s1.procs, q, p);
    assert s1.procs[q].life == RUNNABLE;
    s' := WokenReaps(s1, q, z);
  }

  lemma {:induction false} FindZombie(a: seq<Proc>, p: nat, k: nat) returns (z: nat)
    requires k < |a| && ZombieChild(a, p, k)
    ensures z <= k && FirstZombie(a, p, 0, z)
  {
    z := 0;
    while !ZombieChild(a, p, z)
      invariant z <= k && forall j: nat {:trigger ZombieChild(a, p, j)} | j < z :: !ZombieChild(a, p, j)
      decreases k - z
    {
      z := z + 1;
    }
  }

  // ---- giving up the processor ----

  /** yield: the process can be scheduled, and then goes on where it was. */
  lemma YieldResumes(s: Sys, p: nat)
    requires CanYield(s, p)
    ensures var s1 := DoYield(s, p);
            s1.procs[p].life == RUNNABLE && CanSchedule(s1, p) && DoSchedule(s1, p) == s
  {
    assert s.procs[p := s.procs[p]] == s.procs;
  }

  /** A sleep outside wait: not schedulable until somebody wakes it, then it goes on where it was. */
  lemma SleepElsewhereResumes(s: Sys, p: nat)
    requires CanSleepElsewhere(s, p)
    ensures var s1 := DoSleepElsewhere(s, p);
            !CanSchedule(s1, p) && CanWakeElsewhere(s1, p)
            && var s2 := DoWakeElsewhere(s1, p);
               CanSchedule(s2, p) && DoSchedule(s2, p) == Set(s, p, s.procs[p].(chan := OnOther))
  {
  }

  /** fork without memory for the child: as before, but for the pid that is used up. */
  lemma ForkFailsAlone(s: Sys, p: nat, c: nat)
    requires Ready(s, p) && c < |s.procs| && Empty(s.procs[c]) && s.procs[c].forker == 0
    ensures CanForkAlloc(s, p, c)
            && var s1 := DoForkAlloc(s, p, c); CanForkFail(s1, p) && DoForkFail(s1, p) == s.(nextpid := s.nextpid + 1)
  {
    var s1 := DoForkAlloc(s, p, c);
    assert DoForkFail(s1, p).procs == s.procs;
  }
}
