/**
sleep and wakeup (kernel/proc.c) around one spinlock `lk` that protects some data: processes sleep on
channels whose condition is false, and whoever makes a condition true calls wakeup before giving up lk.
Steps interleave at lock granularity.
*/
module Monitor {
  import opened Options

  datatype Pc =
    | Out                                                     // not in the monitor
    | In(due: set<nat>)                                       // holds lk; channels it still has to wake
    | Waking(due: set<nat>, chan: nat, j: nat)                // in wakeup(chan): next process to look at
    | Locking(chan: nat)                                      // in sleep(chan): holds lk and its own lock
    | Ready(chan: nat)                                        // lk released, holds its own lock
    | Slept(chan: nat)                                        // chan and state set, own lock released
    | Back                                                    // about to take lk again

  /** `asleep` says whether the state is SLEEPING. */
  datatype Thread = Thread(pc: Pc, asleep: bool)

  datatype Sys<D> = Sys(threads: seq<Thread>, lk: Option<nat>, data: D)

  predicate HoldsLk(pc: Pc)
  {
    pc.In? || pc.Waking? || pc.Locking?
  }

  /** Holds its own p->lock. */
  predicate HoldsOwn(pc: Pc)
  {
    pc.Locking? || pc.Ready?
  }

  function Go<D>(s: Sys<D>, p: nat, t: Thread): Sys<D>
    requires p < |s.threads|
  {
    s.(threads := s.threads[p := t])
  }

  /** `w` says what happens to a sleeper when wakeup(c) looks at it. */
  function Woken(t: Thread, c: nat): Thread
  {
    if t.pc == Slept(c) && t.asleep then t.(asleep := false) else t
  }

  datatype Step<D> =
    | Enter(p: nat)                                           // acquire(lk)
    | Update(p: nat, data: D, due: set<nat>)                  // change the data; `due` gets to be woken
    | WakeStart(p: nat, c: nat) | WakeOne(p: nat)             // wakeup(c)
    | Leave(p: nat)                                           // release(lk)
    | SleepLock(p: nat, c: nat) | SleepUnlock(p: nat) | SleepSet(p: nat)
    | Interrupt(p: nat)                                       // kill, or another wakeup on the same channel
    | Outside(p: nat, data: D)                                // a change of the data by somebody without lk
    | Return(p: nat)

  predicate Enabled<D>(s: Sys<D>, cond: (nat, D) -> bool, a: Step<D>)
  {
    && a.p < |s.threads|
    && var t := s.threads[a.p];
       match a
       case Enter(p) => (t.pc.Out? || t.pc.Back?) && s.lk.None?
       case Update(p, d, due) => t.pc.In?
       case WakeStart(p, c) => t.pc.In?
       case WakeOne(p) =>
         t.pc.Waking? && (t.pc.j < |s.threads| && t.pc.j != p ==> !HoldsOwn(s.threads[t.pc.j].pc))
       case Leave(p) => t.pc.In?
       case SleepLock(p, c) => t.pc.In? && !cond(c, s.data)
       case SleepUnlock(p) => t.pc.Locking?
       case SleepSet(p) => t.pc.Ready?
       case Interrupt(p) => t.pc.Slept? && t.asleep
       case Outside(p, d) => true
       case Return(p) => t.pc.Slept? && !t.asleep
  }

  function Apply<D>(s: Sys<D>, cond: (nat, D) -> bool, a: Step<D>): Sys<D>
    requires Enabled(s, cond, a)
  {
    var t := s.threads[a.p];
    match a
    case Enter(p) => Go(s, p, Thread(In({}), false)).(lk := Some(p))
    case Update(p, d, due) => Go(s, p, Thread(In(t.pc.due + due), false)).(data := d)
    case WakeStart(p, c) => Go(s, p, Thread(Waking(t.pc.due, c, 0), false))
    case WakeOne(p) =>
      var due, c, j := t.pc.due, t.pc.chan, t.pc.j;
      if j >= |s.threads| then Go(s, p, Thread(In(due - {c}), false))
      else if j == p then Go(s, p, Thread(Waking(due, c, j + 1), false))
      else Go(Go(s, j, Woken(s.threads[j], c)), p, Thread(Waking(due, c, j + 1), false))
    case Leave(p) => Go(s, p, Thread(Out, false)).(lk := None)
    case SleepLock(p, c) => Go(s, p, Thread(Locking(c), false))
    case SleepUnlock(p) => Go(s, p, Thread(Ready(t.pc.chan), false)).(lk := None)
    case SleepSet(p) => Go(s, p, Thread(Slept(t.pc.chan), true))
    case Interrupt(p) => Go(s, p, t.(asleep := false))
    case Outside(p, d) => s.(data := d)
    case Return(p) => Go(s, p, Thread(Back, false))
  }

  /**
  The discipline: conditions made true are due to be woken, and none of those is left when lk is given up;
  without lk no condition is made true.
  */
  ghost predicate Disciplined<D(!new)>(s: Sys<D>, cond: (nat, D) -> bool, a: Step<D>)
    requires Enabled(s, cond, a)
  {
    match a
    case Update(p, d, due) => forall c: nat {:trigger cond(c, d)} | cond(c, d) && !cond(c, s.data) :: c in due
    case Leave(p) => NothingDue(s, cond, p)
    case SleepLock(p, c) => NothingDue(s, cond, p)
    case Outside(p, d) => forall c: nat {:trigger cond(c, d)} | cond(c, d) :: cond(c, s.data)
    case _ => true
  }

  /** No channel with a true condition is still to be woken. */
  ghost predicate NothingDue<D>(s: Sys<D>, cond: (nat, D) -> bool, p: nat)
    requires p < |s.threads| && s.threads[p].pc.In?
  {
    forall c: nat | c in s.threads[p].pc.due :: !cond(c, s.data)
  }

  /** On the way to sleep on `c`, or asleep there. */
  predicate InSleep(t: Thread, c: nat)
  {
    t.pc == Locking(c) || t.pc == Ready(c) || (t.pc == Slept(c) && t.asleep)
  }

  /** The holder of lk will still wake thread `p` on channel `c`. */
  predicate WakeDue<D>(s: Sys<D>, p: nat, c: nat)
  {
    && s.lk.Some? && s.lk.value < |s.threads|
    && var pc := s.threads[s.lk.value].pc;
       || (pc.In? && c in pc.due)
       || (pc.Waking? && ((c in pc.due && c != pc.chan) || (c == pc.chan && pc.j <= p)))
  }

  predicate Local<D>(s: Sys<D>, p: nat)
    requires p < |s.threads|
  {
    (HoldsLk(s.threads[p].pc) <==> s.lk == Some(p)) && (s.threads[p].asleep ==> s.threads[p].pc.Slept?)
  }

  /** Whoever sleeps on a condition that holds is about to be woken. */
  ghost predicate NoLost<D>(s: Sys<D>, cond: (nat, D) -> bool, p: nat)
    requires p < |s.threads|
  {
    forall c: nat {:trigger WakeDue(s, p, c)} {:trigger InSleep(s.threads[p], c)} | InSleep(s.threads[p], c)
        && cond(c, s.data) :: WakeDue(s, p, c)
  }

  ghost predicate Inv<D>(s: Sys<D>, cond: (nat, D) -> bool)
  {
    && (s.lk.Some? ==> s.lk.value < |s.threads|)
    && forall p: nat {:trigger Local(s, p)} {:trigger NoLost(s, cond, p)} | p < |s.threads| ::
         Local(s, p) && NoLost(s, cond, p)
  }

  /** One thread and one channel after a step. */
  lemma StepNoLost<D(!new)>(s: Sys<D>, cond: (nat, D) -> bool, a: Step<D>, p: nat, c: nat)
    requires Inv(s, cond) && Enabled(s, cond, a) && Disciplined(s, cond, a) && p < |s.threads|
    requires InSleep(Apply(s, cond, a).threads[p], c) && cond(c, Apply(s, cond, a).data)
    ensures WakeDue(Apply(s, cond, a), p, c)
  {
    assert Local(s, a.p) && Local(s, p) && NoLost(s, cond, p);
    assert InSleep(s.threads[p], c) && cond(c, s.data) ==> WakeDue(s, p, c);
  }

  lemma StepKeepsInv<D(!new)>(s: Sys<D>, cond: (nat, D) -> bool, a: Step<D>)
    requires Inv(s, cond) && Enabled(s, cond, a) && Disciplined(s, cond, a)
    ensures Inv(Apply(s, cond, a), cond)
  {
    var s' := Apply(s, cond, a);
    assert Local(s, a.p);
    forall p: nat | p < |s.threads|
      ensures Local(s', p) && NoLost(s', cond, p)
    {
      assert Local(s, p);
      forall c: nat | InSleep(s'.threads[p], c) && cond(c, s'.data)
        ensures WakeDue(s', p, c)
      {
        StepNoLost(s, cond, a, p, c);
      }
    }
  }

  // ---------------------------------------------------------------------------------------
  // Runs
  // ---------------------------------------------------------------------------------------

  /** Nobody is in the monitor. */
  predicate Initial<D>(s: Sys<D>)
  {
    s.lk.None? && forall p | 0 <= p < |s.threads| :: s.threads[p] == Thread(Out, false)
  }

  lemma InitialInv<D>(s: Sys<D>, cond: (nat, D) -> bool)
    requires Initial(s)
    ensures Inv(s, cond)
  {
  }

  /** `s'` comes from `s` by the steps `run`, all of them within the discipline. */
  ghost predicate Reaches<D(!new)>(s: Sys<D>, cond: (nat, D) -> bool, run: seq<Step<D>>, s': Sys<D>)
    decreases |run|
  {
    if run == [] then s' == s
    else Enabled(s, cond, run[0]) && Disciplined(s, cond, run[0]) && Reaches(Apply(s, cond, run[0]), cond, run[1..], s')
  }

  lemma {:induction false} RunKeepsInv<D(!new)>(s: Sys<D>, cond: (nat, D) -> bool, run: seq<Step<D>>, s': Sys<D>)
    requires Inv(s, cond) && Reaches(s, cond, run, s')
    ensures Inv(s', cond)
    decreases |run|
  {
    if run != [] {
      StepKeepsInv(s, cond, run[0]);
      RunKeepsInv(Apply(s, cond, run[0]), cond, run[1..], s');
    }
  }

  predicate Sleeps<D>(s: Sys<D>, p: nat, c: nat)
  {
    p < |s.threads| && s.threads[p].pc == Slept(c) && s.threads[p].asleep
  }

  /** No lost wakeup: whenever lk is free, nobody sleeps on a condition that holds. */
  lemma NoLostWakeup<D(!new)>(s: Sys<D>, cond: (nat, D) -> bool, run: seq<Step<D>>, s': Sys<D>, p: nat, c: nat)
    requires Initial(s) && Reaches(s, cond, run, s') && s'.lk.None? && Sleeps(s', p, c)
    ensures !cond(c, s'.data)
  {
    InitialInv(s, cond);
    RunKeepsInv(s, cond, run, s');
    assert NoLost(s', cond, p);
    assert InSleep(s'.threads[p], c);
  }

  /** Every wakeup that a thread owes is for a condition that holds. */
  ghost predicate DueTrue<D>(s: Sys<D>, cond: (nat, D) -> bool)
  {
    forall p: nat, c: nat {:trigger Owes(s, p, c)} | Owes(s, p, c) :: cond(c, s.data)
  }

  predicate Owes<D>(s: Sys<D>, p: nat, c: nat)
  {
    p < |s.threads| && (s.threads[p].pc.In? || s.threads[p].pc.Waking?) && c in s.threads[p].pc.due
  }

  /** Giving up lk strands exactly the sleepers on the channels that are still owed a wakeup. */
  lemma UndisciplinedLeave<D(!new)>(s: Sys<D>, cond: (nat, D) -> bool, p: nat, q: nat, c: nat)
    requires Inv(s, cond) && DueTrue(s, cond) && Enabled(s, cond, Leave(p)) && Sleeps(s, q, c)
    ensures var s' := Apply(s, cond, Leave(p)); s'.lk.None? && Sleeps(s', q, c)
    ensures cond(c, Apply(s, cond, Leave(p)).data) <==> Owes(s, p, c)
  {
    assert Local(s, p) && Local(s, q) && NoLost(s, cond, q);
    assert InSleep(s.threads[q], c);
  }

  /** A sleeper stays asleep until a wakeup on its channel gets to it, or it is killed. */
  lemma SleeperStays<D>(s: Sys<D>, cond: (nat, D) -> bool, a: Step<D>, q: nat, c: nat)
    requires Enabled(s, cond, a) && Sleeps(s, q, c)
    ensures Sleeps(Apply(s, cond, a), q, c)
            <==> a != Interrupt(q) && !(a.WakeOne? && a.p != q && s.threads[a.p].pc.chan == c
                                        && s.threads[a.p].pc.j == q)
  {
  }

  /** Killed in its sleep, a process is back in the monitor as soon as lk is free, whatever the condition. */
  lemma InterruptedReturns<D>(s: Sys<D>, cond: (nat, D) -> bool, q: nat, c: nat)
    requires Sleeps(s, q, c) && s.lk.None?
    ensures Enabled(s, cond, Interrupt(q))
            && var s1 := Apply(s, cond, Interrupt(q));
               Enabled(s1, cond, Return(q))
               && var s2 := Apply(s1, cond, Return(q));
                  Enabled(s2, cond, Enter(q))
                  && Apply(s2, cond, Enter(q)) == Go(s, q, Thread(In({}), false)).(lk := Some(q))
  {
  }
}
