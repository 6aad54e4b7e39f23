/** kernel/sleeplock.c as a use of the sleep/wakeup monitor: the condition slept on is "not locked". */
module SleepLocks {
  import opened Options
  import opened Monitor

  /**
  `has` are the processes between acquiresleep and releasesleep; `saw` are those whose loop test found
  the lock free and that are about to set it.
  */
  datatype SLock = SLock(locked: bool, pid: nat, has: set<nat>, saw: set<nat>)

  const CHAN: nat := 0

  predicate Unlocked(c: nat, d: SLock)
  {
    c == CHAN && !d.locked
  }

  /** acquiresleep's loop test fails: nothing changes but where the process is. */
  predicate Looks(d: SLock, p: nat, d': SLock)
  {
    !d.locked && d' == d.(saw := d.saw + {p})
  }

  /** The end of acquiresleep: it sets the lock without looking again. */
  predicate Takes(d: SLock, p: nat, d': SLock)
  {
    p in d.saw && d' == SLock(true, p, d.has + {p}, d.saw - {p})
  }

  /** releasesleep by a process that has the lock. */
  predicate Gives(d: SLock, p: nat, d': SLock)
  {
    p in d.has && d' == d.(locked := false, pid := 0, has := d.has - {p})
  }

  /** The code's steps: it changes the lock in these ways, wakes after giving, and wakes or sets before releasing lk. */
  predicate Lawful(s: Sys<SLock>, a: Step<SLock>)
    requires Enabled(s, Unlocked, a)
  {
    match a
    case Update(p, d, due) =>
      ((Looks(s.data, p, d) || Takes(s.data, p, d)) && due == {}) || (Gives(s.data, p, d) && due == {CHAN})
    case Leave(p) => s.threads[p].pc.due == {} && p !in s.data.saw
    case SleepLock(p, c) => c == CHAN && s.threads[p].pc.due == {}
    case Outside(p, d) => false
    case _ => true
  }

  ghost predicate LockOk(d: SLock)
  {
    if d.locked then d.has == {d.pid} else d.has == {}
  }

  /** Between its test and its set a process has the spinlock, and the lock is still free. */
  predicate SawOk(s: Sys<SLock>)
  {
    forall p | p in s.data.saw ::
      s.lk == Some(p) && !s.data.locked && p < |s.threads| && (s.threads[p].pc.In? || s.threads[p].pc.Waking?)
  }

  ghost predicate Good(s: Sys<SLock>)
  {
    Inv(s, Unlocked) && LockOk(s.data) && SawOk(s)
  }

  lemma LawfulIsDisciplined(s: Sys<SLock>, a: Step<SLock>)
    requires Enabled(s, Unlocked, a) && Lawful(s, a)
    ensures Disciplined(s, Unlocked, a)
  {
  }

  /** The spinlock keeps everybody else out between the test and the set. */
  lemma StepKeepsGood(s: Sys<SLock>, a: Step<SLock>)
    requires Good(s) && Enabled(s, Unlocked, a) && Lawful(s, a)
    ensures Good(Apply(s, Unlocked, a))
  {
    LawfulIsDisciplined(s, a);
    StepKeepsInv(s, Unlocked, a);
    assert Local(s, a.p);
    hide NoLost;
  }

  ghost predicate Runs(s: Sys<SLock>, run: seq<Step<SLock>>, s': Sys<SLock>)
    decreases |run|
  {
    if run == [] then s' == s
    else Enabled(s, Unlocked, run[0]) && Lawful(s, run[0]) && Runs(Apply(s, Unlocked, run[0]), run[1..], s')
  }

  /** Nobody is in acquiresleep or releasesleep, and the lock is free. */
  predicate Start(s: Sys<SLock>)
  {
    Initial(s) && s.data == SLock(false, 0, {}, {})
  }

  lemma {:induction false} RunKeeps(s: Sys<SLock>, run: seq<Step<SLock>>, s': Sys<SLock>)
    requires Good(s) && Runs(s, run, s')
    ensures Good(s') && Reaches(s, Unlocked, run, s')
    decreases |run|
  {
    hide Good;
    if run != [] {
      LawfulIsDisciplined(s, run[0]);
      StepKeepsGood(s, run[0]);
      RunKeeps(Apply(s, Unlocked, run[0]), run[1..], s');
    }
  }

  /** In every run, from a process's test to its set it has the spinlock and the lock stays free. */
  lemma TestHoldsUntilSet(s: Sys<SLock>, run: seq<Step<SLock>>, s': Sys<SLock>, p: nat)
    requires Start(s) && Runs(s, run, s') && p in s'.data.saw
    ensures s'.lk == Some(p) && !s'.data.locked && s'.data.has == {}
  {
    InitialInv(s, Unlocked);
    RunKeeps(s, run, s');
  }

  /** In every run at most one process has the lock, and holdingsleep's test tells which. */
  lemma OneHolder(s: Sys<SLock>, run: seq<Step<SLock>>, s': Sys<SLock>, p: nat, q: nat)
    requires Start(s) && Runs(s, run, s')
    ensures p in s'.data.has && q in s'.data.has ==> p == q
    ensures p in s'.data.has <==> s'.data.locked && s'.data.pid == p
  {
    InitialInv(s, Unlocked);
    RunKeeps(s, run, s');
  }

  /** In every run, whenever lk is free, an unlocked sleeplock has no sleeper. */
  lemma UnlockedHasNoSleeper(s: Sys<SLock>, run: seq<Step<SLock>>, s': Sys<SLock>, p: nat)
    requires Start(s) && Runs(s, run, s') && s'.lk.None? && !s'.data.locked
    ensures !Sleeps(s', p, CHAN)
  {
    InitialInv(s, Unlocked);
    RunKeeps(s, run, s');
    if Sleeps(s', p, CHAN) {
      NoLostWakeup(s, Unlocked, run, s', p, CHAN);
    }
  }
}
