/** Who sleeps on a pipe, and when: kernel/pipe.c as a use of the sleep/wakeup monitor. */
module PipeSync {
  import opened Options
  import opened Blocks
  import opened Monitor
  import opened PipeRing

  const READERS: nat := 0               // &pi->nread
  const WRITERS: nat := 1               // &pi->nwrite

  /** What a sleeper waits for. */
  predicate Ready(c: nat, d: Ring)
  {
    (c == READERS && (!Empty(d) || !d.writeopen)) || (c == WRITERS && (!Full(d) || !d.readopen))
  }

  /** The writers' half of it. */
  predicate RoomReady(c: nat, d: Ring)
  {
    c == WRITERS && Ready(c, d)
  }

  /** The ways pipewrite, piperead and pipeclose change the pipe, and whom they then owe a wakeup. */
  ghost predicate Changes(d: Ring, d': Ring, due: set<nat>)
  {
    || (exists b: byte :: d.readopen && !Full(d) && |d.data| == PIPESIZE && d' == Store(d, b) && due == {READERS})
    || (!Empty(d) && |d.data| == PIPESIZE && d' == Fetch(d) && due == {WRITERS})
    || (d' == d.(writeopen := false) && due == {READERS})
    || (d' == d.(readopen := false) && due == {WRITERS})
  }

  /**
  The code's steps. A thread that owes one side a wakeup changes the pipe only in ways that owe the same
  one: pipewrite never fetches, piperead never stores. With `quits`, a writer may also leave owing the
  readers a wakeup: it was killed after storing bytes.
  */
  ghost predicate Lawful(s: Sys<Ring>, a: Step<Ring>, quits: bool)
    requires Enabled(s, Ready, a)
  {
    match a
    case Update(p, d, due) => Changes(s.data, d, due) && s.threads[p].pc.due <= due
    case Leave(p) => if quits then s.threads[p].pc.due <= {READERS} else s.threads[p].pc.due == {}
    case SleepLock(p, c) => s.threads[p].pc.due == {}
    case Outside(p, d) => false
    case _ => true
  }

  ghost predicate Runs(s: Sys<Ring>, run: seq<Step<Ring>>, s': Sys<Ring>, quits: bool)
    decreases |run|
  {
    if run == [] then s' == s
    else Enabled(s, Ready, run[0]) && Lawful(s, run[0], quits) && Runs(Apply(s, Ready, run[0]), run[1..], s', quits)
  }

  /** Each change owes a wakeup to everyone it makes ready. */
  lemma ChangesOwe(d: Ring, d': Ring, due: set<nat>)
    requires Fifo(d) && Changes(d, d', due)
    ensures Fifo(d') && forall c: nat | Ready(c, d') && !Ready(c, d) :: c in due
  {
    CounterTests(d);
    if b: byte :| d.readopen && !Full(d) && d' == Store(d, b) && due == {READERS} {
      StoreKeeps(d, b);
    } else if !Empty(d) && d' == Fetch(d) {
      FetchKeeps(d);
    }
  }

  lemma StepLawful(s: Sys<Ring>, a: Step<Ring>)
    requires Fifo(s.data) && Enabled(s, Ready, a) && Lawful(s, a, false)
    ensures Disciplined(s, Ready, a) && Fifo(Apply(s, Ready, a).data)
  {
    hide Fifo, Changes, Ready;
    if a.Update? {
      ChangesOwe(s.data, a.data, a.due);
    }
  }

  lemma StepRoom(s: Sys<Ring>, a: Step<Ring>)
    requires Fifo(s.data) && Enabled(s, Ready, a) && Lawful(s, a, true)
    ensures Enabled(s, RoomReady, a) && Apply(s, RoomReady, a) == Apply(s, Ready, a)
    ensures Disciplined(s, RoomReady, a) && Fifo(Apply(s, Ready, a).data)
  {
    hide Fifo, Changes, Ready;
    if a.Update? {
      ChangesOwe(s.data, a.data, a.due);
    }
  }

  lemma {:induction false} RunLawful(s: Sys<Ring>, run: seq<Step<Ring>>, s': Sys<Ring>)
    requires Fifo(s.data) && Runs(s, run, s', false)
    ensures Reaches(s, Ready, run, s')
    decreases |run|
  {
    hide Fifo, Ready, Enabled, Apply;
    if run != [] {
      StepLawful(s, run[0]);
      RunLawful(Apply(s, Ready, run[0]), run[1..], s');
    }
  }

  lemma {:induction false} RunRoom(s: Sys<Ring>, run: seq<Step<Ring>>, s': Sys<Ring>)
    requires Fifo(s.data) && Runs(s, run, s', true)
    ensures Reaches(s, RoomReady, run, s') && Fifo(s'.data)
    decreases |run|
  {
    hide Fifo, Ready, Enabled, Apply;
    if run != [] {
      StepRoom(s, run[0]);
      RunRoom(Apply(s, Ready, run[0]), run[1..], s');
    }
  }

  ghost predicate Start(s: Sys<Ring>)
  {
    Initial(s) && Fifo(s.data)
  }

  /** In every run the bytes fetched are a prefix of those stored, with at most PIPESIZE in between. */
  lemma PipeIsFifo(s: Sys<Ring>, run: seq<Step<Ring>>, s': Sys<Ring>)
    requires Start(s) && Runs(s, run, s', true)
    ensures s'.data.got <= s'.data.put && |s'.data.put| <= |s'.data.got| + PIPESIZE
  {
    RunRoom(s, run, s');
  }

  /** In every run, whenever the lock is free, a sleeping writer has a full pipe with its read end open. */
  lemma WriterSleepsOnlyWhenFull(s: Sys<Ring>, run: seq<Step<Ring>>, s': Sys<Ring>, p: nat)
    requires Start(s) && Runs(s, run, s', true) && s'.lk.None? && Sleeps(s', p, WRITERS)
    ensures |s'.data.put| == |s'.data.got| + PIPESIZE && s'.data.readopen
  {
    RunRoom(s, run, s');
    NoLostWakeup(s, RoomReady, run, s', p, WRITERS);
    CounterTests(s'.data);
  }

  /** In every run without such a killed writer, a sleeping reader has an empty pipe with its write end open. */
  lemma ReaderSleepsOnlyWhenEmpty(s: Sys<Ring>, run: seq<Step<Ring>>, s': Sys<Ring>, p: nat)
    requires Start(s) && Runs(s, run, s', false) && s'.lk.None? && Sleeps(s', p, READERS)
    ensures |s'.data.put| == |s'.data.got| && s'.data.writeopen
  {
    RunLawful(s, run, s');
    LawfulIsRoomy(s, run, s');
    RunRoom(s, run, s');
    NoLostWakeup(s, Ready, run, s', p, READERS);
    CounterTests(s'.data);
  }

  lemma {:induction false} LawfulIsRoomy(s: Sys<Ring>, run: seq<Step<Ring>>, s': Sys<Ring>)
    requires Runs(s, run, s', false)
    ensures Runs(s, run, s', true)
    decreases |run|
  {
    hide Ready, Enabled, Apply, Changes;
    if run != [] {
      LawfulIsRoomy(Apply(s, Ready, run[0]), run[1..], s');
    }
  }

  /** Each change leaves ready everyone it owes a wakeup to. */
  lemma ChangesReady(d: Ring, d': Ring, due: set<nat>, c: nat)
    requires Fifo(d) && Changes(d, d', due) && c in due
    ensures Ready(c, d')
  {
    CounterTests(d);
    if b: byte :| d.readopen && !Full(d) && d' == Store(d, b) && due == {READERS} {
      StoreKeeps(d, b);
      CounterTests(d');
    } else if !Empty(d) && d' == Fetch(d) {
      FetchKeeps(d);
      CounterTests(d');
    }
  }

  /** A wakeup is owed only while there is something to wake for. */
  lemma StepDue(s: Sys<Ring>, a: Step<Ring>)
    requires Inv(s, RoomReady) && Fifo(s.data) && DueTrue(s, Ready) && Enabled(s, Ready, a) && Lawful(s, a, true)
    ensures DueTrue(Apply(s, Ready, a), Ready)
  {
    hide Fifo, Changes, Ready, NoLost;
    var s' := Apply(s, Ready, a);
    forall p: nat, c: nat | Owes(s', p, c)
      ensures Ready(c, s'.data)
    {
      assert Local(s, p) && Local(s, a.p);
      if a.Update? {
        assert p == a.p;
        ChangesReady(s.data, a.data, a.due, c);
      } else {
        assert Owes(s, p, c);
      }
    }
  }

  lemma {:induction false} RunDue(s: Sys<Ring>, run: seq<Step<Ring>>, s': Sys<Ring>)
    requires Inv(s, RoomReady) && Fifo(s.data) && DueTrue(s, Ready) && Runs(s, run, s', true)
    ensures DueTrue(s', Ready)
    decreases |run|
  {
    hide Fifo, Ready, RoomReady, Enabled, Apply, DueTrue, Inv, Disciplined;
    if run != [] {
      StepRoom(s, run[0]);
      StepKeepsInv(s, RoomReady, run[0]);
      StepDue(s, run[0]);
      RunDue(Apply(s, Ready, run[0]), run[1..], s');
    }
  }

  /** In every run, whoever holds the lock and owes the readers or the writers a wakeup has made them ready. */
  lemma OwedAreReady(s: Sys<Ring>, run: seq<Step<Ring>>, s': Sys<Ring>, p: nat, c: nat)
    requires Start(s) && Runs(s, run, s', true) && Owes(s', p, c)
    ensures Ready(c, s'.data)
  {
    InitialInv(s, RoomReady);
    RunDue(s, run, s');
  }

  /**
  A writer that gives up the lock strands a sleeping reader exactly if it owes the readers a wakeup: it stored
  since its last one.
  */
  lemma QuitStrandsIff(s: Sys<Ring>, run: seq<Step<Ring>>, s1: Sys<Ring>, p: nat, q: nat)
    requires Start(s) && Runs(s, run, s1, false) && Enabled(s1, Ready, Leave(p)) && Sleeps(s1, q, READERS)
    ensures var s' := Apply(s1, Ready, Leave(p)); s'.lk.None? && Sleeps(s', q, READERS)
    ensures Ready(READERS, Apply(s1, Ready, Leave(p)).data) <==> READERS in s1.threads[p].pc.due
  {
    hide Fifo, Ready;
    RunLawful(s, run, s1);
    LawfulIsRoomy(s, run, s1);
    InitialInv(s, RoomReady);
    RunDue(s, run, s1);
    InitialInv(s, Ready);
    RunKeepsInv(s, Ready, run, s1);
    UndisciplinedLeave(s1, Ready, p, q, READERS);
  }

  lemma RunsCons(s: Sys<Ring>, a: Step<Ring>, rest: seq<Step<Ring>>, s': Sys<Ring>, quits: bool)
    requires Enabled(s, Ready, a) && Lawful(s, a, quits) && Runs(Apply(s, Ready, a), rest, s', quits)
    ensures Runs(s, [a] + rest, s', quits)
  {
    assert ([a] + rest)[1..] == rest;
  }

  /** A writer stores a byte and is killed before its wakeup. */
  lemma KilledWriter(s: Sys<Ring>, b: byte) returns (run: seq<Step<Ring>>, s': Sys<Ring>)
    requires Fifo(s.data) && s.lk.None? && |s.threads| == 2 && s.threads[0].pc.Out? && Empty(s.data) && s.data.readopen
    ensures Runs(s, run, s', true)
    ensures s'.lk.None? && |s'.threads| == 2 && s'.threads[1] == s.threads[1] && s'.data == Store(s.data, b)
  {
    CounterTests(s.data);
    var d' := Store(s.data, b);
    assert Changes(s.data, d', {READERS});
    hide Changes, Fifo, Ready;
    var s1 := Apply(s, Ready, Enter(0));
    var s2 := Apply(s1, Ready, Update(0, d', {READERS}));
    s' := Apply(s2, Ready, Leave(0));
    RunsCons(s2, Leave(0), [], s', true);
    RunsCons(s1, Update(0, d', {READERS}), [Leave(0)] + [], s', true);
    run := [Enter(0)] + ([Update(0, d', {READERS})] + ([Leave(0)] + []));
    RunsCons(s, Enter(0), [Update(0, d', {READERS})] + ([Leave(0)] + []), s', true);
  }

  /**
  So the reader's guarantee is false of runs with a killed writer: here a reader went to sleep on the empty
  pipe before.
  */
  lemma KilledWriterStrandsReader(s: Sys<Ring>, b: byte) returns (run: seq<Step<Ring>>, s': Sys<Ring>)
    requires Start(s) && |s.threads| == 2 && s.data.got == s.data.put && s.data.readopen && s.data.writeopen
    ensures Runs(s, run, s', true)
    ensures s'.lk.None? && Sleeps(s', 1, READERS) && s'.data.put == s'.data.got + [b]
  {
    CounterTests(s.data);
    var s1 := Apply(s, Ready, Enter(1));
    var s2 := Apply(s1, Ready, SleepLock(1, READERS));
    var s3 := Apply(s2, Ready, SleepUnlock(1));
    var s4 := Apply(s3, Ready, SleepSet(1));
    var rest;
    rest, s' := KilledWriter(s4, b);
    hide Changes, Fifo, Ready;
    RunsCons(s3, SleepSet(1), rest, s', true);
    RunsCons(s2, SleepUnlock(1), [SleepSet(1)] + rest, s', true);
    RunsCons(s1, SleepLock(1, READERS), [SleepUnlock(1)] + ([SleepSet(1)] + rest), s', true);
    run := [Enter(1)] + ([SleepLock(1, READERS)] + ([SleepUnlock(1)] + ([SleepSet(1)] + rest)));
    RunsCons(s, Enter(1), [SleepLock(1, READERS)] + ([SleepUnlock(1)] + ([SleepSet(1)] + rest)), s', true);
  }

  /** In every run, once the read end is closed it stays so, and no byte is stored any more. */
  lemma {:induction false} ClosedTakesNothing(s: Sys<Ring>, run: seq<Step<Ring>>, s': Sys<Ring>)
    requires Runs(s, run, s', true) && !s.data.readopen
    ensures !s'.data.readopen && s'.data.put == s.data.put
    decreases |run|
  {
    hide Ready;
    if run != [] {
      ClosedTakesNothing(Apply(s, Ready, run[0]), run[1..], s');
    }
  }
}
