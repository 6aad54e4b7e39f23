/** begin_op's sleep (kernel/log.c) as a use of the sleep/wakeup monitor: log.lock, and one channel, &log. */
module LogSync {
  import opened Options
  import opened Blocks
  import opened Monitor

  const LOG: nat := 0

  /** log.lh.n, log.outstanding and log.committing. */
  datatype Counts = Counts(n: nat, outstanding: nat, committing: bool)

  /** begin_op's loop would end. */
  predicate Admitted(c: nat, d: Counts)
  {
    c == LOG && !d.committing && d.n + (d.outstanding + 1) * MAXOPBLOCKS <= LOGSIZE
  }

  /** What begin_op, log_write, end_op and the end of a commit do under log.lock, and whom they then owe a wakeup. */
  predicate Changes(d: Counts, d': Counts, due: set<nat>)
  {
    || (Admitted(LOG, d) && d' == d.(outstanding := d.outstanding + 1) && due == {})
    || (d.outstanding >= 1 && d' == d.(n := d.n + 1) && due == {})
    || (d.outstanding == 1 && !d.committing && d' == d.(outstanding := 0, committing := true) && due == {})
    || (d.outstanding > 1 && !d.committing && d' == d.(outstanding := d.outstanding - 1) && due == {LOG})
    || (d.committing && d' == d.(committing := false) && due == {LOG})
  }

  /** What commit does without the lock. */
  predicate Clears(d: Counts, d': Counts)
  {
    d.committing && d' == d.(n := 0)
  }

  /** The code's steps; commit sets n to 0 without the lock, while committing is on. */
  predicate Lawful(s: Sys<Counts>, a: Step<Counts>)
    requires Enabled(s, Admitted, a)
  {
    match a
    case Update(p, d, due) => Changes(s.data, d, due)
    case Outside(p, d) => Clears(s.data, d)
    case Leave(p) => s.threads[p].pc.due == {}
    case SleepLock(p, c) => c == LOG && s.threads[p].pc.due == {}
    case _ => true
  }

  lemma LawfulIsDisciplined(s: Sys<Counts>, a: Step<Counts>)
    requires Enabled(s, Admitted, a) && Lawful(s, a)
    ensures Disciplined(s, Admitted, a)
  {
  }

  ghost predicate Runs(s: Sys<Counts>, run: seq<Step<Counts>>, s': Sys<Counts>)
    decreases |run|
  {
    if run == [] then s' == s
    else Enabled(s, Admitted, run[0]) && Lawful(s, run[0]) && Runs(Apply(s, Admitted, run[0]), run[1..], s')
  }

  lemma {:induction false} RunIsDisciplined(s: Sys<Counts>, run: seq<Step<Counts>>, s': Sys<Counts>)
    requires Runs(s, run, s')
    ensures Reaches(s, Admitted, run, s')
    decreases |run|
  {
    hide Enabled, Apply;
    if run != [] {
      LawfulIsDisciplined(s, run[0]);
      RunIsDisciplined(Apply(s, Admitted, run[0]), run[1..], s');
    }
  }

  /** In every run, whenever log.lock is free, nobody sleeps in begin_op who would be admitted. */
  lemma NobodySleepsAdmitted(s: Sys<Counts>, run: seq<Step<Counts>>, s': Sys<Counts>, p: nat)
    requires Initial(s) && Runs(s, run, s') && s'.lk.None? && Sleeps(s', p, LOG)
    ensures s'.data.committing || s'.data.n + (s'.data.outstanding + 1) * MAXOPBLOCKS > LOGSIZE
  {
    RunIsDisciplined(s, run, s');
    NoLostWakeup(s, Admitted, run, s', p, LOG);
  }
}
