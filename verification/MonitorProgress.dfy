/**
Wakeups reach their sleepers: a process that changed the data and calls wakeup gets every sleeper on that channel
going again, and the first one to take the lock finds the data as it was left.
*/
module MonitorProgress {
  import opened Options
  import opened Blocks
  import opened Monitor
  import SleepLocks
  import PipeSync
  import PipeRing
  import LogSync

  type LockSys = Sys<SleepLocks.SLock>
  type LockStep = Step<SleepLocks.SLock>
  type PipeSys = Sys<PipeRing.Ring>
  type PipeStep = Step<PipeRing.Ring>
  type LogSys = Sys<LogSync.Counts>
  type LogStep = Step<LogSync.Counts>

  /** Steps that every user of the monitor may take; lk is given up with no wakeup owed. */
  predicate Tame<D>(s: Sys<D>, cond: (nat, D) -> bool, a: Step<D>)
    requires Enabled(s, cond, a)
  {
    a.WakeStart? || a.WakeOne? || a.Enter? || a.Return? || (a.Leave? && s.threads[a.p].pc.due == {})
  }

  ghost predicate Goes<D>(s: Sys<D>, cond: (nat, D) -> bool, run: seq<Step<D>>, s': Sys<D>)
    decreases |run|
  {
    if run == [] then s' == s
    else Enabled(s, cond, run[0]) && Tame(s, cond, run[0]) && Goes(Apply(s, cond, run[0]), cond, run[1..], s')
  }

  lemma GoesCons<D>(s: Sys<D>, cond: (nat, D) -> bool, a: Step<D>, run: seq<Step<D>>, s': Sys<D>)
    requires Enabled(s, cond, a) && Tame(s, cond, a) && Goes(Apply(s, cond, a), cond, run, s')
    ensures Goes(s, cond, [a] + run, s')
  {
    assert ([a] + run)[1..] == run;
  }

  /** Nobody but the holder of lk is between two locks. */
  predicate NobodyElse<D>(s: Sys<D>, p: nat)
  {
    forall k: nat {:trigger s.threads[k]} | k < |s.threads| && k != p :: !HoldsOwn(s.threads[k].pc)
  }

  /** The threads after wakeup(c) by `p` looked at those from `j` on. */
  ghost predicate WokenFrom(a: seq<Thread>, b: seq<Thread>, p: nat, c: nat, j: nat)
  {
    |a| == |b| && forall k: nat {:trigger b[k]} | k < |a| && k != p :: b[k] == if k >= j then Woken(a[k], c) else a[k]
  }

  lemma {:induction false} WakeRest<D>(s: Sys<D>, cond: (nat, D) -> bool, p: nat, due: set<nat>, c: nat, j: nat)
      returns (run: seq<Step<D>>, s': Sys<D>)
    requires p < |s.threads| && s.threads[p] == Thread(Waking(due, c, j), false) && j <= |s.threads| && NobodyElse(s, p)
    ensures Goes(s, cond, run, s') && s' == s.(threads := s'.threads) && WokenFrom(s.threads, s'.threads, p, c, j)
    ensures s'.threads[p] == Thread(In(due - {c}), false)
    decreases |s.threads| - j
  {
    hide Goes;
    var a := WakeOne(p);
    var s1 := Apply(s, cond, a);
    var rest: seq<Step<D>>;
    if j == |s.threads| {
      rest, s' := [], s1;
      GoesNone(s1, cond);
    } else {
      rest, s' := WakeRest(s1, cond, p, due, c, j + 1);
    }
    run := [a] + rest;
    GoesCons(s, cond, a, rest, s');
  }

  lemma GoesNone<D>(s: Sys<D>, cond: (nat, D) -> bool)
    ensures Goes(s, cond, [], s)
  {
  }

  lemma {:induction false} GoesJoin<D>(s: Sys<D>, cond: (nat, D) -> bool, run: seq<Step<D>>, s1: Sys<D>,
                                       more: seq<Step<D>>, s': Sys<D>)
    requires Goes(s, cond, run, s1) && Goes(s1, cond, more, s')
    ensures Goes(s, cond, run + more, s')
    decreases |run|
  {
    if run == [] {
      assert run + more == more;
    } else {
      GoesJoin(Apply(s, cond, run[0]), cond, run[1..], s1, more, s');
      assert (run + more)[1..] == run[1..] + more;
    }
  }

  /** wakeup(c): all sleepers on `c`, and nobody else, are awake; nothing else happens. */
  lemma WakeupAlone<D>(s: Sys<D>, cond: (nat, D) -> bool, p: nat, due: set<nat>, c: nat)
      returns (run: seq<Step<D>>, s': Sys<D>)
    requires p < |s.threads| && s.threads[p] == Thread(In(due), false) && NobodyElse(s, p)
    ensures Goes(s, cond, run, s') && s' == s.(threads := s'.threads) && WokenFrom(s.threads, s'.threads, p, c, 0)
    ensures s'.threads[p] == Thread(In(due - {c}), false)
  {
    hide Goes;
    var s1 := Apply(s, cond, WakeStart(p, c));
    var rest;
    rest, s' := WakeRest(s1, cond, p, due, c, 0);
    run := [WakeStart(p, c)] + rest;
    GoesCons(s, cond, WakeStart(p, c), rest, s');
  }

  /**
  The holder of lk owes channel `c` a wakeup, and `q` sleeps there: after the wakeup and its release of lk, `q` is
  back in the monitor with lk, and the data is as it was left.
  */
  lemma WokenRuns<D>(s: Sys<D>, cond: (nat, D) -> bool, p: nat, c: nat, q: nat) returns (run: seq<Step<D>>, s': Sys<D>)
    requires p < |s.threads| && s.threads[p] == Thread(In({c}), false) && NobodyElse(s, p) && s.lk == Some(p)
    requires Sleeps(s, q, c) && q != p
    ensures Goes(s, cond, run, s') && |s'.threads| == |s.threads| && s'.lk == Some(q) && s'.data == s.data
    ensures s'.threads[q] == Thread(In({}), false) && s'.threads[p] == Thread(Out, false)
    ensures forall k: nat {:trigger s'.threads[k]} | k < |s.threads| && k != p && k != q ::
              s'.threads[k] == Woken(s.threads[k], c)
  {
    hide Goes;
    var s1, first;
    first, s1 := WakeupAlone(s, cond, p, {c}, c);
    assert {c} - {c} == {};
    var s2 := Apply(s1, cond, Leave(p));
    var s3 := Apply(s2, cond, Return(q));
    s' := Apply(s3, cond, Enter(q));
    GoesNone(s', cond);
    GoesCons(s3, cond, Enter(q), [], s');
    GoesCons(s2, cond, Return(q), [Enter(q)] + [], s');
    GoesCons(s1, cond, Leave(p), [Return(q)] + ([Enter(q)] + []), s');
    run := first + ([Leave(p)] + ([Return(q)] + ([Enter(q)] + [])));
    GoesJoin(s, cond, first, s1, [Leave(p)] + ([Return(q)] + ([Enter(q)] + [])), s');
  }

  // ---- a sleep lock changes hands ----

  lemma {:induction false} LockGoes(s: LockSys, run: seq<LockStep>, s': LockSys, more: seq<LockStep>, s2: LockSys)
    requires Goes(s, SleepLocks.Unlocked, run, s') && SleepLocks.Runs(s', more, s2)
    requires s.data.saw == {}
    ensures SleepLocks.Runs(s, run + more, s2)
    decreases |run|
  {
    if run == [] {
      assert run + more == more;
    } else {
      LockGoes(Apply(s, SleepLocks.Unlocked, run[0]), run[1..], s', more, s2);
      assert (run + more)[1..] == run[1..] + more;
    }
  }

  lemma LockCons(s: LockSys, a: LockStep, run: seq<LockStep>, s': LockSys)
    requires Enabled(s, SleepLocks.Unlocked, a) && SleepLocks.Lawful(s, a)
    requires SleepLocks.Runs(Apply(s, SleepLocks.Unlocked, a), run, s')
    ensures SleepLocks.Runs(s, [a] + run, s')
  {
    assert ([a] + run)[1..] == run;
  }

  /** releasesleep by `p` with `q` asleep in acquiresleep: `q` gets the lock. */
  lemma HandOver(s: LockSys, p: nat, q: nat) returns (run: seq<LockStep>, s': LockSys)
    requires p < |s.threads| && s.threads[p] == Thread(Out, false) && s.lk.None? && NobodyElse(s, p)
    requires Sleeps(s, q, SleepLocks.CHAN) && q != p && s.data == SleepLocks.SLock(true, p, {p}, {})
    ensures SleepLocks.Runs(s, run, s') && s'.data == SleepLocks.SLock(true, q, {q}, {}) && s'.lk.None?
    ensures |s'.threads| == |s.threads| && s'.threads[q] == Thread(Out, false)
  {
    hide Goes, SleepLocks.Runs;
    var free := SleepLocks.SLock(false, 0, {}, {});
    assert s.data.has - {p} == {};
    var a1, a2 := Enter(p), Update(p, free, {SleepLocks.CHAN});
    var s1 := Apply(s, SleepLocks.Unlocked, a1);
    var s2 := Apply(s1, SleepLocks.Unlocked, a2);
    var none: set<nat> := {};
    assert none + {SleepLocks.CHAN} == {SleepLocks.CHAN};
    var wakes, s3 := WokenRuns(s2, SleepLocks.Unlocked, p, SleepLocks.CHAN, q);
    var rest, last := TakeIt(s3, q);
    s' := last;
    LockGoes(s2, wakes, s3, rest, s');
    LockCons(s1, a2, wakes + rest, s');
    run := [a1] + ([a2] + (wakes + rest));
    LockCons(s, a1, [a2] + (wakes + rest), s');
  }

  lemma TakeIt(s: LockSys, q: nat) returns (run: seq<LockStep>, s': LockSys)
    requires q < |s.threads| && s.lk == Some(q) && s.threads[q] == Thread(In({}), false)
    requires s.data == SleepLocks.SLock(false, 0, {}, {})
    ensures SleepLocks.Runs(s, run, s') && s'.data == SleepLocks.SLock(true, q, {q}, {}) && s'.lk.None?
    ensures |s'.threads| == |s.threads| && s'.threads[q] == Thread(Out, false)
  {
    var a1 := Update(q, SleepLocks.SLock(false, 0, {}, {q}), {});
    var a2 := Update(q, SleepLocks.SLock(true, q, {q}, {}), {});
    var s1 := Apply(s, SleepLocks.Unlocked, a1);
    assert {q} - {q} == {};
    var s2 := Apply(s1, SleepLocks.Unlocked, a2);
    s' := Apply(s2, SleepLocks.Unlocked, Leave(q));
    assert SleepLocks.Runs(s', [], s');
    LockCons(s2, Leave(q), [], s');
    LockCons(s1, a2, [Leave(q)] + [], s');
    run := [a1] + ([a2] + ([Leave(q)] + []));
    LockCons(s, a1, [a2] + ([Leave(q)] + []), s');
  }

  // ---- a byte goes through a pipe ----

  lemma {:induction false} PipeGoes(s: PipeSys, run: seq<PipeStep>, s': PipeSys, more: seq<PipeStep>, s2: PipeSys)
    requires Goes(s, PipeSync.Ready, run, s') && PipeSync.Runs(s', more, s2, false)
    ensures PipeSync.Runs(s, run + more, s2, false)
    decreases |run|
  {
    hide PipeSync.Ready, Apply, PipeSync.Changes;
    if run == [] {
      assert run + more == more;
    } else {
      PipeGoes(Apply(s, PipeSync.Ready, run[0]), run[1..], s', more, s2);
      assert (run + more)[1..] == run[1..] + more;
    }
  }

  /** A process in the monitor changes the pipe, wakes whom it owes, and leaves. */
  lemma ChangeWakeLeave(s: PipeSys, q: nat, d: PipeRing.Ring, c: nat)
      returns (run: seq<PipeStep>, s': PipeSys)
    requires q < |s.threads| && s.lk == Some(q) && s.threads[q] == Thread(In({}), false) && NobodyElse(s, q)
    requires PipeSync.Changes(s.data, d, {c})
    ensures PipeSync.Runs(s, run, s', false) && s'.data == d && s'.lk.None? && |s'.threads| == |s.threads|
  {
    hide Goes, PipeSync.Runs, PipeSync.Changes, PipeSync.Ready;
    var a := Update(q, d, {c});
    var s1 := Apply(s, PipeSync.Ready, a);
    var none: set<nat> := {};
    assert none + {c} == {c} && {c} - {c} == {};
    var wakes, s2 := WakeupAlone(s1, PipeSync.Ready, q, {c}, c);
    s' := Apply(s2, PipeSync.Ready, Leave(q));
    PipeNone(s');
    PipeSync.RunsCons(s2, Leave(q), [], s', false);
    PipeGoes(s1, wakes, s2, [Leave(q)] + [], s');
    run := [a] + (wakes + ([Leave(q)] + []));
    PipeSync.RunsCons(s, a, wakes + ([Leave(q)] + []), s', false);
  }

  lemma PipeNone(s: PipeSys)
    ensures PipeSync.Runs(s, [], s, false)
  {
  }

  /** A reader asleep on the empty pipe, a writer that stores a byte: the reader gets that byte. */
  lemma ByteGetsThrough(s: PipeSys, p: nat, q: nat, b: byte)
      returns (run: seq<PipeStep>, s': PipeSys)
    requires p < |s.threads| && s.threads[p] == Thread(Out, false) && s.lk.None? && NobodyElse(s, p)
    requires Sleeps(s, q, PipeSync.READERS) && q != p && PipeRing.Fifo(s.data)
    requires s.data.got == s.data.put && s.data.readopen
    ensures PipeSync.Runs(s, run, s', false) && s'.data.put == s.data.put + [b] && s'.data.got == s.data.got + [b]
    ensures s'.lk.None?
  {
    PipeRing.CounterTests(s.data);
    PipeRing.StoreKeeps(s.data, b);
    var d1 := PipeRing.Store(s.data, b);
    PipeRing.CounterTests(d1);
    PipeRing.FetchKeeps(d1);
    var d2 := PipeRing.Fetch(d1);
    assert PipeSync.Changes(s.data, d1, {PipeSync.READERS}) && PipeSync.Changes(d1, d2, {PipeSync.WRITERS});
    hide Goes, PipeSync.Runs, PipeSync.Changes, PipeSync.Ready, PipeRing.Fifo;
    var a1, a2 := Enter(p), Update(p, d1, {PipeSync.READERS});
    var s1 := Apply(s, PipeSync.Ready, a1);
    var s2 := Apply(s1, PipeSync.Ready, a2);
    var none: set<nat> := {};
    assert none + {PipeSync.READERS} == {PipeSync.READERS};
    var wakes, s3 := WokenRuns(s2, PipeSync.Ready, p, PipeSync.READERS, q);
    var rest, last := ChangeWakeLeave(s3, q, d2, PipeSync.WRITERS);
    s' := last;
    PipeGoes(s2, wakes, s3, rest, s');
    PipeSync.RunsCons(s1, a2, wakes + rest, s', false);
    run := [a1] + ([a2] + (wakes + rest));
    PipeSync.RunsCons(s, a1, [a2] + (wakes + rest), s', false);
  }

  // ---- a sleeper in begin_op is admitted ----

  lemma {:induction false} LogGoes(s: LogSys, run: seq<LogStep>, s': LogSys, more: seq<LogStep>, s2: LogSys)
    requires Goes(s, LogSync.Admitted, run, s') && LogSync.Runs(s', more, s2)
    ensures LogSync.Runs(s, run + more, s2)
    decreases |run|
  {
    hide LogSync.Admitted, Apply;
    if run == [] {
      assert run + more == more;
    } else {
      LogGoes(Apply(s, LogSync.Admitted, run[0]), run[1..], s', more, s2);
      assert (run + more)[1..] == run[1..] + more;
    }
  }

  lemma LogCons(s: LogSys, a: LogStep, run: seq<LogStep>, s': LogSys)
    requires Enabled(s, LogSync.Admitted, a) && LogSync.Lawful(s, a)
    requires LogSync.Runs(Apply(s, LogSync.Admitted, a), run, s')
    ensures LogSync.Runs(s, [a] + run, s')
  {
    assert ([a] + run)[1..] == run;
  }

  /** The end of a commit by `p`, with `q` asleep in begin_op: `q` is admitted. */
  lemma CommitAdmits(s: LogSys, p: nat, q: nat) returns (run: seq<LogStep>, s': LogSys)
    requires p < |s.threads| && s.threads[p] == Thread(Out, false) && s.lk.None? && NobodyElse(s, p)
    requires Sleeps(s, q, LogSync.LOG) && q != p && s.data == LogSync.Counts(0, 0, true)
    ensures LogSync.Runs(s, run, s') && s'.data == LogSync.Counts(0, 1, false) && s'.lk.None?
    ensures |s'.threads| == |s.threads| && s'.threads[q] == Thread(Out, false)
  {
    hide Goes, LogSync.Runs;
    var a1, a2 := Enter(p), Update(p, LogSync.Counts(0, 0, false), {LogSync.LOG});
    var s1 := Apply(s, LogSync.Admitted, a1);
    var s2 := Apply(s1, LogSync.Admitted, a2);
    var none: set<nat> := {};
    assert none + {LogSync.LOG} == {LogSync.LOG} && none + none == none;
    var wakes, s3 := WokenRuns(s2, LogSync.Admitted, p, LogSync.LOG, q);
    var a3 := Update(q, LogSync.Counts(0, 1, false), {});
    var s4 := Apply(s3, LogSync.Admitted, a3);
    s' := Apply(s4, LogSync.Admitted, Leave(q));
    LogNone(s');
    LogCons(s4, Leave(q), [], s');
    LogCons(s3, a3, [Leave(q)] + [], s');
    var rest := [a3] + ([Leave(q)] + []);
    LogGoes(s2, wakes, s3, rest, s');
    LogCons(s1, a2, wakes + rest, s');
    run := [a1] + ([a2] + (wakes + rest));
    LogCons(s, a1, [a2] + (wakes + rest), s');
  }

  lemma LogNone(s: LogSys)
    ensures LogSync.Runs(s, [], s)
  {
  }
}
