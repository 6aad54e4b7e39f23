/**
exit, wait, fork, sleep, wakeup and kill of kernel/proc.c as steps of processes that interleave at lock
granularity: a step is what happens between two points where another process can get in.
*/
module ProcSystem {
  import opened Options

  datatype Life = UNUSED | USED | SLEEPING | RUNNABLE | RUNNING | ZOMBIE

  /** What a process sleeps on: its own children, or something outside this model. */
  datatype Chan = NoChan | OnWait(q: nat) | OnOther

  /** Where a process is in the kernel; User stands for everything outside fork, exit and wait. */
  datatype Pc =
    | User
    | ForkCopy(c: nat)                  // allocproc done, holds the child's lock
    | ForkLink(c: nat)                  // child's lock released, parent not set yet
    | ForkStart(c: nat)                 // parent set, child not runnable yet
    | Reparent(i: nat)                  // exit, holds wait_lock: next child to give to init
    | ReparentWake(i: nat, j: nat)      // wakeup(initproc) after giving away i: next process to look at
    | ExitWake(j: nat)                  // wakeup(p->parent): next process to look at
    | Leaving                           // ZOMBIE, still holds its own lock
    | Gone
    | WaitScan(i: nat, kids: bool)      // wait, holds wait_lock: next process to look at
    | SleepLocked                       // in sleep, holds wait_lock and its own lock
    | SleepReady                        // in sleep, holds its own lock
    | Asleep                            // chan and state set, lock released
    | Woken                             // back from sched, about to take wait_lock

  /** `held` is who holds p->lock, `forker` who allocated the slot last. */
  datatype Proc = Proc(life: Life, chan: Chan, parent: Option<nat>, pid: nat, killed: bool, pc: Pc, held: Option<nat>,
                       forker: nat, xstate: int)

  /** `exited` and `reaped` list pids in order; `said` and `told` are the statuses by pid at exit and out of wait. */
  datatype Sys = Sys(procs: seq<Proc>, waitLock: Option<nat>, init: nat, nextpid: nat, exited: seq<nat>,
                     reaped: seq<nat>, said: map<nat, int>, told: map<nat, int>)

  function Set(s: Sys, p: nat, v: Proc): Sys
    requires p < |s.procs|
  {
    s.(procs := s.procs[p := v])
  }

  function Jump(s: Sys, p: nat, pc: Pc): Sys
    requires p < |s.procs|
  {
    Set(s, p, s.procs[p].(pc := pc))
  }

  /** One iteration of wakeup(chan). */
  function WakeOne(v: Proc, chan: Chan): Proc
  {
    if v.life == SLEEPING && v.chan == chan then v.(life := RUNNABLE) else v
  }

  /** freeproc, and release of the lock. */
  function Freed(): Proc
  {
    Proc(UNUSED, NoChan, None, 0, false, User, None, 0, 0)
  }

  // ---------------------------------------------------------------------------------------
  // Steps
  // ---------------------------------------------------------------------------------------

  datatype Step =
    | Schedule(p: nat) | Yield(p: nat) | SleepElsewhere(p: nat) | WakeElsewhere(p: nat) | Kill(p: nat, pid: nat, q: nat)
    | ForkAlloc(p: nat, c: nat) | ForkFail(p: nat) | ForkUnlock(p: nat) | ForkSetParent(p: nat) | ForkRun(p: nat)
    | ExitStart(p: nat) | ReparentOne(p: nat) | ReparentWakeOne(p: nat) | ExitWakeOne(p: nat)
    | ExitEnd(p: nat, status: int)
    | SwitchAway(p: nat)
    | WaitStart(p: nat) | WaitLook(p: nat, copies: bool) | WaitGiveUp(p: nat)
    | SleepLock(p: nat) | SleepUnlock(p: nat) | SleepSet(p: nat) | SleepReturn(p: nat) | WaitAgain(p: nat)

  /** yield is possible where the process holds no spinlock. */
  predicate MayYield(pc: Pc)
  {
    pc.User? || pc.ForkLink? || pc.ForkStart? || pc.Woken?
  }

  /** wakeup's loop waits for each process's lock and skips the caller. */
  predicate CanWake(s: Sys, p: nat, j: nat)
  {
    j < |s.procs| && j != p ==> s.procs[j].held.None?
  }

  predicate CanSchedule(s: Sys, p: nat)
  {
    p < |s.procs| && s.procs[p].life == RUNNABLE && s.procs[p].held.None?
  }

  /** scheduler picks the process, under its lock. */
  function DoSchedule(s: Sys, p: nat): Sys
    requires CanSchedule(s, p)
  {
    Set(s, p, s.procs[p].(life := RUNNING))
  }

  predicate CanYield(s: Sys, p: nat)
  {
    p < |s.procs| && s.procs[p].life == RUNNING && s.procs[p].held.None? && MayYield(s.procs[p].pc)
  }

  /** yield */
  function DoYield(s: Sys, p: nat): Sys
    requires CanYield(s, p)
  {
    Set(s, p, s.procs[p].(life := RUNNABLE))
  }

  predicate CanSleepElsewhere(s: Sys, p: nat)
  {
    p < |s.procs| && s.procs[p].life == RUNNING && s.procs[p].held.None? && s.procs[p].pc.User?
  }

  /** sleep on something outside this model. */
  function DoSleepElsewhere(s: Sys, p: nat): Sys
    requires CanSleepElsewhere(s, p)
  {
    Set(s, p, s.procs[p].(life := SLEEPING, chan := OnOther))
  }

  predicate CanWakeElsewhere(s: Sys, p: nat)
  {
    p < |s.procs| && s.procs[p].life == SLEEPING && s.procs[p].chan == OnOther && s.procs[p].held.None?
  }

  /** The matching wakeup. */
  function DoWakeElsewhere(s: Sys, p: nat): Sys
    requires CanWakeElsewhere(s, p)
  {
    Set(s, p, s.procs[p].(life := RUNNABLE))
  }

  predicate CanKill(s: Sys, p: nat, pid: nat, q: nat)
  {
    p < |s.procs| && s.procs[p].life == RUNNING && s.procs[p].pc.User? && pid > 0 && q < |s.procs|
        && s.procs[q].held.None? && s.procs[q].pid == pid
  }

  /** kill of a positive pid, once it has found the process. */
  function DoKill(s: Sys, p: nat, pid: nat, q: nat): Sys
    requires CanKill(s, p, pid, q)
  {
    Set(s, q, s.procs[q].(killed := true, life := if s.procs[q].life == SLEEPING then RUNNABLE else s.procs[q].life))
  }

  predicate CanForkAlloc(s: Sys, p: nat, c: nat)
  {
    p < |s.procs| && s.procs[p].life == RUNNING && s.procs[p].pc.User? && c < |s.procs| && s.procs[c].held.None?
        && s.procs[c].life == UNUSED
  }

  /** allocproc, which returns with the child's lock held. */
  function DoForkAlloc(s: Sys, p: nat, c: nat): Sys
    requires CanForkAlloc(s, p, c)
  {
    Jump(Set(s, c, s.procs[c].(life := USED, pid := s.nextpid, held := Some(p), forker := p)), p,
         ForkCopy(c)).(nextpid := s.nextpid + 1)
  }

  predicate CanForkFail(s: Sys, p: nat)
  {
    p < |s.procs| && s.procs[p].life == RUNNING && s.procs[p].pc.ForkCopy? && s.procs[p].pc.c < |s.procs|
  }

  /** No memory for the child: freeproc. */
  function DoForkFail(s: Sys, p: nat): Sys
    requires CanForkFail(s, p)
  {
    Jump(Set(s, s.procs[p].pc.c, Freed()), p, User)
  }

  predicate CanForkUnlock(s: Sys, p: nat)
  {
    p < |s.procs| && s.procs[p].life == RUNNING && s.procs[p].pc.ForkCopy? && s.procs[p].pc.c < |s.procs|
  }

  /** The child is copied and unlocked. */
  function DoForkUnlock(s: Sys, p: nat): Sys
    requires CanForkUnlock(s, p)
  {
    Jump(Set(s, s.procs[p].pc.c, s.procs[s.procs[p].pc.c].(held := None)), p, ForkLink(s.procs[p].pc.c))
  }

  predicate CanForkSetParent(s: Sys, p: nat)
  {
    p < |s.procs| && s.procs[p].life == RUNNING && s.procs[p].pc.ForkLink? && s.procs[p].pc.c < |s.procs|
        && s.waitLock.None?
  }

  /** np->parent = p under wait_lock. */
  function DoForkSetParent(s: Sys, p: nat): Sys
    requires CanForkSetParent(s, p)
  {
    Jump(Set(s, s.procs[p].pc.c, s.procs[s.procs[p].pc.c].(parent := Some(p))), p, ForkStart(s.procs[p].pc.c))
  }

  predicate CanForkRun(s: Sys, p: nat)
  {
    p < |s.procs| && s.procs[p].life == RUNNING && s.procs[p].pc.ForkStart? && s.procs[p].pc.c < |s.procs|
        && s.procs[s.procs[p].pc.c].held.None?
  }

  /** np->state = RUNNABLE under the child's lock. */
  function DoForkRun(s: Sys, p: nat): Sys
    requires CanForkRun(s, p)
  {
    Jump(Set(s, s.procs[p].pc.c, s.procs[s.procs[p].pc.c].(life := RUNNABLE)), p, User)
  }

  predicate CanExitStart(s: Sys, p: nat)
  {
    p < |s.procs| && s.procs[p].life == RUNNING && s.procs[p].pc.User? && p != s.init && s.waitLock.None?
  }

  /** exit takes wait_lock; for init it panics. */
  function DoExitStart(s: Sys, p: nat): Sys
    requires CanExitStart(s, p)
  {
    Jump(s, p, Reparent(0)).(waitLock := Some(p))
  }

  predicate CanReparentOne(s: Sys, p: nat)
  {
    p < |s.procs| && s.procs[p].life == RUNNING && s.procs[p].pc.Reparent?
  }

  /** One iteration of reparent's loop. */
  function DoReparentOne(s: Sys, p: nat): Sys
    requires CanReparentOne(s, p)
  {
    var i := s.procs[p].pc.i;
    if i >= |s.procs| then Jump(s, p, ExitWake(0))
    else if s.procs[i].parent == Some(p) then
      Jump(Set(s, i, s.procs[i].(parent := Some(s.init))), p, ReparentWake(i, 0))
    else Jump(s, p, Reparent(i + 1))
  }

  predicate CanReparentWakeOne(s: Sys, p: nat)
  {
    p < |s.procs| && s.procs[p].life == RUNNING && s.procs[p].pc.ReparentWake? && CanWake(s, p, s.procs[p].pc.j)
  }

  /** One iteration of wakeup(initproc) inside reparent. */
  function DoReparentWakeOne(s: Sys, p: nat): Sys
    requires CanReparentWakeOne(s, p)
  {
    var i, j := s.procs[p].pc.i, s.procs[p].pc.j;
    if j >= |s.procs| then Jump(s, p, Reparent(i + 1))
    else if j == p then Jump(s, p, ReparentWake(i, j + 1))
    else Jump(Set(s, j, WakeOne(s.procs[j], OnWait(s.init))), p, ReparentWake(i, j + 1))
  }

  predicate CanExitWakeOne(s: Sys, p: nat)
  {
    p < |s.procs| && s.procs[p].life == RUNNING && s.procs[p].pc.ExitWake? && s.procs[p].pc.j < |s.procs|
        && s.procs[p].parent.Some? && CanWake(s, p, s.procs[p].pc.j)
  }

  /** One iteration of wakeup(p->parent). */
  function DoExitWakeOne(s: Sys, p: nat): Sys
    requires CanExitWakeOne(s, p)
  {
    var j := s.procs[p].pc.j;
    if j == p then Jump(s, p, ExitWake(j + 1))
    else Jump(Set(s, j, WakeOne(s.procs[j], OnWait(s.procs[p].parent.value))), p, ExitWake(j + 1))
  }

  predicate CanExitEnd(s: Sys, p: nat)
  {
    p < |s.procs| && s.procs[p].life == RUNNING && s.procs[p].pc.ExitWake? && s.procs[p].pc.j >= |s.procs|
        && s.procs[p].held.None?
  }

  /** acquire(&p->lock), ZOMBIE, release(&wait_lock); p->lock itself goes with swtch. */
  function DoExitEnd(s: Sys, p: nat, status: int): Sys
    requires CanExitEnd(s, p)
  {
    Set(s, p, s.procs[p].(life := ZOMBIE, pc := Leaving, held := Some(p), xstate := status))
    .(waitLock := None, exited := s.exited + [s.procs[p].pid], said := s.said[s.procs[p].pid := status])
  }

  predicate CanSwitchAway(s: Sys, p: nat)
  {
    p < |s.procs| && s.procs[p].pc == Leaving
  }

  /** The scheduler releases the lock of the process that left. */
  function DoSwitchAway(s: Sys, p: nat): Sys
    requires CanSwitchAway(s, p)
  {
    Set(s, p, s.procs[p].(pc := Gone, held := None))
  }

  predicate CanWaitStart(s: Sys, p: nat)
  {
    p < |s.procs| && s.procs[p].life == RUNNING && s.procs[p].pc.User? && s.waitLock.None?
  }

  /** wait takes wait_lock. */
  function DoWaitStart(s: Sys, p: nat): Sys
    requires CanWaitStart(s, p)
  {
    Jump(s, p, WaitScan(0, false)).(waitLock := Some(p))
  }

  predicate CanWaitLook(s: Sys, p: nat)
  {
    p < |s.procs| && s.procs[p].life == RUNNING && s.procs[p].pc.WaitScan? && s.procs[p].pc.i < |s.procs|
        && (s.procs[s.procs[p].pc.i].parent == Some(p) ==> s.procs[s.procs[p].pc.i].held.None?)
  }

  /** One iteration of wait's scan; `copies` says whether copyout of the status succeeds. */
  function DoWaitLook(s: Sys, p: nat, copies: bool): Sys
    requires CanWaitLook(s, p)
  {
    var i, kids := s.procs[p].pc.i, s.procs[p].pc.kids;
    if s.procs[i].parent != Some(p) then Jump(s, p, WaitScan(i + 1, kids))
    else if s.procs[i].life != ZOMBIE then Jump(s, p, WaitScan(i + 1, true))
    else if !copies then Jump(s, p, User).(waitLock := None)
    else
      Jump(Set(s, i, Freed()), p, User)
      .(waitLock := None, reaped := s.reaped + [s.procs[i].pid], told := s.told[s.procs[i].pid := s.procs[i].xstate])
  }

  predicate CanWaitGiveUp(s: Sys, p: nat)
  {
    p < |s.procs| && s.procs[p].life == RUNNING && s.procs[p].pc.WaitScan? && s.procs[p].pc.i >= |s.procs|
        && (!s.procs[p].pc.kids || s.procs[p].killed)
  }

  /** wait returns -1. */
  function DoWaitGiveUp(s: Sys, p: nat): Sys
    requires CanWaitGiveUp(s, p)
  {
    Jump(s, p, User).(waitLock := None)
  }

  predicate CanSleepLock(s: Sys, p: nat)
  {
    p < |s.procs| && s.procs[p].life == RUNNING && s.procs[p].pc.WaitScan? && s.procs[p].pc.i >= |s.procs|
        && s.procs[p].pc.kids && !s.procs[p].killed && s.procs[p].held.None?
  }

  /** sleep(p, &wait_lock): acquire(&p->lock). */
  function DoSleepLock(s: Sys, p: nat): Sys
    requires CanSleepLock(s, p)
  {
    Set(s, p, s.procs[p].(pc := SleepLocked, held := Some(p)))
  }

  predicate CanSleepUnlock(s: Sys, p: nat)
  {
    p < |s.procs| && s.procs[p].life == RUNNING && s.procs[p].pc.SleepLocked?
  }

  /** release(lk) */
  function DoSleepUnlock(s: Sys, p: nat): Sys
    requires CanSleepUnlock(s, p)
  {
    Jump(s, p, SleepReady).(waitLock := None)
  }

  predicate CanSleepSet(s: Sys, p: nat)
  {
    p < |s.procs| && s.procs[p].life == RUNNING && s.procs[p].pc.SleepReady?
  }

  /** chan and state set; sched gives up the process's lock. */
  function DoSleepSet(s: Sys, p: nat): Sys
    requires CanSleepSet(s, p)
  {
    Set(s, p, s.procs[p].(life := SLEEPING, chan := OnWait(p), pc := Asleep, held := None))
  }

  predicate CanSleepReturn(s: Sys, p: nat)
  {
    p < |s.procs| && s.procs[p].life == RUNNING && s.procs[p].pc.Asleep? && s.procs[p].held.None?
  }

  /** Back from sched. */
  function DoSleepReturn(s: Sys, p: nat): Sys
    requires CanSleepReturn(s, p)
  {
    Set(s, p, s.procs[p].(chan := NoChan, pc := Woken))
  }

  predicate CanWaitAgain(s: Sys, p: nat)
  {
    p < |s.procs| && s.procs[p].life == RUNNING && s.procs[p].pc.Woken? && s.waitLock.None?
  }

  /** acquire(lk), and the next round of wait's loop. */
  function DoWaitAgain(s: Sys, p: nat): Sys
    requires CanWaitAgain(s, p)
  {
    Jump(s, p, WaitScan(0, false)).(waitLock := Some(p))
  }

  predicate Enabled(s: Sys, a: Step)
  {
    match a
    case Schedule(p) => CanSchedule(s, p)
    case Yield(p) => CanYield(s, p)
    case SleepElsewhere(p) => CanSleepElsewhere(s, p)
    case WakeElsewhere(p) => CanWakeElsewhere(s, p)
    case Kill(p, pid, q) => CanKill(s, p, pid, q)
    case ForkAlloc(p, c) => CanForkAlloc(s, p, c)
    case ForkFail(p) => CanForkFail(s, p)
    case ForkUnlock(p) => CanForkUnlock(s, p)
    case ForkSetParent(p) => CanForkSetParent(s, p)
    case ForkRun(p) => CanForkRun(s, p)
    case ExitStart(p) => CanExitStart(s, p)
    case ReparentOne(p) => CanReparentOne(s, p)
    case ReparentWakeOne(p) => CanReparentWakeOne(s, p)
    case ExitWakeOne(p) => CanExitWakeOne(s, p)
    case ExitEnd(p, _) => CanExitEnd(s, p)
    case SwitchAway(p) => CanSwitchAway(s, p)
    case WaitStart(p) => CanWaitStart(s, p)
    case WaitLook(p, _) => CanWaitLook(s, p)
    case WaitGiveUp(p) => CanWaitGiveUp(s, p)
    case SleepLock(p) => CanSleepLock(s, p)
    case SleepUnlock(p) => CanSleepUnlock(s, p)
    case SleepSet(p) => CanSleepSet(s, p)
    case SleepReturn(p) => CanSleepReturn(s, p)
    case WaitAgain(p) => CanWaitAgain(s, p)
  }

  function Apply(s: Sys, a: Step): Sys
    requires Enabled(s, a)
  {
    match a
    case Schedule(p) => DoSchedule(s, p)
    case Yield(p) => DoYield(s, p)
    case SleepElsewhere(p) => DoSleepElsewhere(s, p)
    case WakeElsewhere(p) => DoWakeElsewhere(s, p)
    case Kill(p, pid, q) => DoKill(s, p, pid, q)
    case ForkAlloc(p, c) => DoForkAlloc(s, p, c)
    case ForkFail(p) => DoForkFail(s, p)
    case ForkUnlock(p) => DoForkUnlock(s, p)
    case ForkSetParent(p) => DoForkSetParent(s, p)
    case ForkRun(p) => DoForkRun(s, p)
    case ExitStart(p) => DoExitStart(s, p)
    case ReparentOne(p) => DoReparentOne(s, p)
    case ReparentWakeOne(p) => DoReparentWakeOne(s, p)
    case ExitWakeOne(p) => DoExitWakeOne(s, p)
    case ExitEnd(p, status) => DoExitEnd(s, p, status)
    case SwitchAway(p) => DoSwitchAway(s, p)
    case WaitStart(p) => DoWaitStart(s, p)
    case WaitLook(p, copies) => DoWaitLook(s, p, copies)
    case WaitGiveUp(p) => DoWaitGiveUp(s, p)
    case SleepLock(p) => DoSleepLock(s, p)
    case SleepUnlock(p) => DoSleepUnlock(s, p)
    case SleepSet(p) => DoSleepSet(s, p)
    case SleepReturn(p) => DoSleepReturn(s, p)
    case WaitAgain(p) => DoWaitAgain(s, p)
  }
}
