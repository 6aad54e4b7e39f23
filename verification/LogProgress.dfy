/**
What one process achieves when the others leave it alone: an operation goes through and is on disk, a commit and
a recovery get to their end.  A commit that logged as many blocks as there are buffers is stuck.
*/
module LogProgress {
  import opened Blocks
  import opened Options
  import opened Rings
  import opened LogSystem
  import opened LogSafety
  import LogFull
  import LogSync

  /** Steps of process `p` alone lead from `s0` to `s`. */
  ghost predicate Alone(g: Geometry, p: Pid, s0: State, s: State)
  {
    exists acts :: Reaches(g, s0, acts, s) && Only(p, acts)
  }

  predicate Only(p: Pid, acts: seq<Action>)
  {
    forall k | 0 <= k < |acts| :: !acts[k].Crash? && acts[k].p == p
  }

  lemma AloneStart(g: Geometry, p: Pid, s0: State)
    ensures Alone(g, p, s0, s0)
  {
    var none: seq<Action> := [];
    assert Reaches(g, s0, none, s0);
  }

  lemma InvShape(g: Geometry, s: State)
    requires Inv(g, s)
    ensures Shape(g, s)
  {
  }

  lemma Then(g: Geometry, p: Pid, s0: State, s: State, a: Action)
    requires Alone(g, p, s0, s) && Inv(g, s) && Enabled(g, s, a) && !a.Crash? && a.p == p
    ensures Alone(g, p, s0, Apply(g, s, a)) && Inv(g, Apply(g, s, a))
  {
    hide Inv, Enabled, Apply, Shape;
    InvShape(g, s);
    StepKeepsInv(g, s, a);
    var acts :| Reaches(g, s0, acts, s) && Only(p, acts);
    assert (acts + [a])[..|acts|] == acts;
    assert Reaches(g, s0, acts + [a], Apply(g, s, a));
  }

  // ---------------------------------------------------------------------------------------
  // Buffers
  // ---------------------------------------------------------------------------------------

  predicate Unheld(f: Buf)
  {
    f.owner.None? && f.refs == multiset{}
  }

  /** Nobody holds or waits for a buffer, those in `hs` aside. */
  ghost predicate CalmBut(s: State, hs: set<nat>)
  {
    forall k: nat {:trigger s.bufs[k]} | k < |s.bufs| && k !in hs :: Unheld(s.bufs[k])
  }

  lemma {:induction false} Pigeons(bufs: seq<Buf>, n: nat, hs: set<nat>, bs: set<nat>)
    requires n <= |bufs| && Unique(bufs)
    requires forall k: nat {:trigger bufs[k]} | k < n && k !in hs :: bufs[k].dev == ROOTDEV && bufs[k].blockno in bs
    ensures n <= |hs| + |bs|
    decreases n
  {
    if n > 0 {
      var f := bufs[n - 1];
      if n - 1 in hs {
        Pigeons(bufs, n - 1, hs - {n - 1}, bs);
      } else {
        Pigeons(bufs, n - 1, hs, bs - {f.blockno});
      }
    }
  }

  function Elements(l: seq<nat>): (r: set<nat>)
    ensures |r| <= |l| && forall b :: b in r <==> b in l
  {
    if l == [] then {} else Elements(l[1..]) + {l[0]}
  }

  /** Some buffer is free if there are more than pinned and held ones. */
  lemma FreeBuffer(g: Geometry, s: State, hs: set<nat>) returns (i: nat)
    requires Inv(g, s) && CalmBut(s, hs) && |Pinned(s.log)| + |hs| < g.nbuf
    ensures i < g.nbuf && s.bufs[i].refcnt == 0
  {
    if k: nat :| k < g.nbuf && s.bufs[k].refcnt == 0 {
      i := k;
    } else {
      forall k: nat | k < g.nbuf && k !in hs
        ensures s.bufs[k].dev == ROOTDEV && s.bufs[k].blockno in Pinned(s.log)
      {
        assert BufOk(g, s.log, s.ops, s.bufs[k]) && Unheld(s.bufs[k]);
      }
      Pigeons(s.bufs, g.nbuf, hs, Elements(Pinned(s.log)));
      assert false;
    }
  }

  /** Process `p` alone holds block `b` in buffer `i`, clean. */
  ghost predicate Mine(g: Geometry, s: State, p: Pid, i: nat, b: nat)
  {
    Shape(g, s) && Owns(g, s, p, i, b) && s.bufs[i].refs == multiset{p} && !s.bufs[i].dirty
  }

  /** Process `p` has block `b` in buffer `i`, and only the buffer changed. */
  ghost predicate Got(g: Geometry, s: State, s': State, p: Pid, b: nat, i: nat, hs: set<nat>)
  {
    && Mine(g, s', p, i, b) && i !in hs && s' == s.(bufs := s'.bufs) && CalmBut(s', hs + {i})
    && forall k | 0 <= k < |s.bufs| == |s'.bufs| && k != i :: s'.bufs[k] == s.bufs[k]
  }

  /** acquiresleep and, if need be, the read from disk. */
  lemma LockAndRead(g: Geometry, p: Pid, s0: State, q: State, s: State, b: nat, i: nat, hs: set<nat>)
      returns (s': State)
    requires Alone(g, p, s0, s) && Inv(g, s) && i < g.nbuf && Holds(s.bufs[i], b) && s.bufs[i].refs == multiset{p}
    requires s.bufs[i].owner.None? && i !in hs && CalmBut(s, hs + {i}) && s == q.(bufs := s.bufs)
    requires forall k | 0 <= k < |q.bufs| == |s.bufs| && k != i :: s.bufs[k] == q.bufs[k]
    ensures Alone(g, p, s0, s') && Inv(g, s') && Got(g, q, s', p, b, i, hs)
  {
    assert BufOk(g, s.log, s.ops, s.bufs[i]);
    Then(g, p, s0, s, LockBuf(p, i));
    s' := DoLock(g, s, p, i);
    if !s'.bufs[i].valid {
      var s1 := s';
      Then(g, p, s0, s1, ReadIn(p, i));
      s' := DoReadIn(g, s1, p, i);
    }
  }

  lemma TakeCached(g: Geometry, p: Pid, s0: State, s: State, b: nat, i: nat, hs: set<nat>) returns (s': State)
    requires Alone(g, p, s0, s) && Inv(g, s) && CalmBut(s, hs) && p < g.nproc && b < g.nblocks
    requires i < g.nbuf && i !in hs && Holds(s.bufs[i], b)
    ensures Alone(g, p, s0, s') && Inv(g, s') && Got(g, s, s', p, b, i, hs)
  {
    Then(g, p, s0, s, BgetHit(p, b, i));
    var s1 := DoHit(g, s, p, b, i);
    assert Unheld(s.bufs[i]);
    s' := LockAndRead(g, p, s0, s, s1, b, i, hs);
  }

  /** bread, with a buffer to spare. */
  lemma Take(g: Geometry, p: Pid, s0: State, s: State, b: nat, hs: set<nat>) returns (s': State, i: nat)
    requires Alone(g, p, s0, s) && Inv(g, s) && CalmBut(s, hs) && p < g.nproc && b < g.nblocks
    requires |Pinned(s.log)| + |hs| < g.nbuf && forall k: nat {:trigger s.bufs[k]} | k in hs ::
               k < g.nbuf && !Holds(s.bufs[k], b) && s.bufs[k].refcnt > 0
    ensures Alone(g, p, s0, s') && Inv(g, s') && Got(g, s, s', p, b, i, hs)
  {
    if k: nat :| k < g.nbuf && Holds(s.bufs[k], b) {
      i := k;
      s' := TakeCached(g, p, s0, s, b, i, hs);
    } else {
      i := FreeBuffer(g, s, hs);
      assert Unheld(s.bufs[i]);
      Then(g, p, s0, s, BgetMiss(p, b, i));
      s' := LockAndRead(g, p, s0, s, DoMiss(g, s, p, b, i), b, i, hs);
    }
  }

  /** The only change to a buffer that is given back is that nobody holds it. */
  lemma Give(g: Geometry, p: Pid, s0: State, s: State, i: nat, b: nat, hs: set<nat>) returns (s': State)
    requires Alone(g, p, s0, s) && Inv(g, s) && CalmBut(s, hs) && Mine(g, s, p, i, b)
    ensures Alone(g, p, s0, s') && Inv(g, s') && CalmBut(s', hs - {i}) && s' == s.(bufs := s'.bufs)
    ensures |s'.bufs| == |s.bufs| && forall k | 0 <= k < |s.bufs| && k != i :: s'.bufs[k] == s.bufs[k]
  {
    Then(g, p, s0, s, UnlockBuf(p, i));
    var s1 := DoUnlock(g, s, p, i);
    assert s1.bufs[i].refs == multiset{p};
    Then(g, p, s0, s1, DropRef(p, i));
    s' := DoDrop(g, s1, p, i);
  }

  /** Nobody holds a buffer, and steps of `p` alone led here. */
  ghost predicate Resting(g: Geometry, p: Pid, s0: State, s: State)
  {
    Alone(g, p, s0, s) && Inv(g, s) && CalmBut(s, {}) && p < g.nproc
  }

  lemma GiveBoth(g: Geometry, p: Pid, s0: State, s: State, l: nat, b: nat, h: nat, c: nat) returns (s': State)
    requires Alone(g, p, s0, s) && Inv(g, s) && CalmBut(s, {l, h}) && p < g.nproc && l != h
    requires Mine(g, s, p, l, b) && Mine(g, s, p, h, c)
    ensures Resting(g, p, s0, s') && s' == s.(bufs := s'.bufs)
  {
    hide Alone;
    var s1 := Give(g, p, s0, s, l, b, {l, h});
    assert s1.bufs[h] == s.bufs[h];
    hide Inv;
    s' := Give(g, p, s0, s1, h, c, {l, h} - {l});
    assert {l, h} - {l} - {h} == {};
  }

  // ---------------------------------------------------------------------------------------
  // Commit
  // ---------------------------------------------------------------------------------------

  /** What a commit needs of the invariant. */
  lemma CommitShape(g: Geometry, s: State)
    requires Inv(g, s)
    ensures LogShape(g, s.log) && |Pinned(s.log)| <= |s.log.lh| && |s.bufs| == g.nbuf
    ensures forall k | 0 <= k < |s.log.lh| :: Home(g, s.log.lh[k]) && g.start + 1 + k < g.start + g.size <= g.nblocks
    ensures (forall b | b in Pinned(s.log) :: CachedValid(s.bufs, b)) && (Recovery(s.log) ==> s.outstanding == 0)
  {
  }

  /** Log block `t` and the cached home block behind it, both held. */
  lemma TakeBoth(g: Geometry, p: Pid, s0: State, s: State, t: nat) returns (s': State, l: nat, h: nat)
    requires Resting(g, p, s0, s) && t < |s.log.lh| < g.nbuf && s.log.lh[t] in Pinned(s.log)
    ensures Alone(g, p, s0, s') && Inv(g, s') && CalmBut(s', {l, h}) && l != h && s' == s.(bufs := s'.bufs)
    ensures Mine(g, s', p, l, g.start + 1 + t) && Mine(g, s', p, h, s.log.lh[t])
  {
    hide Inv, Alone, Pinned;
    CommitShape(g, s);
    var s1;
    s1, l := Take(g, p, s0, s, g.start + 1 + t, {});
    CommitShape(g, s1);
    h :| 0 <= h < g.nbuf && Holds(s1.bufs[h], s.log.lh[t]) && s1.bufs[h].valid;
    assert {} + {l} == {l};
    s' := TakeCached(g, p, s0, s1, s.log.lh[t], h, {l});
    assert {l} + {h} == {l, h};
  }

  lemma CopyOne(g: Geometry, p: Pid, s0: State, s: State, t: nat) returns (s': State)
    requires Resting(g, p, s0, s) && s.log.phase == WritingLog(p, t) && t < |s.log.lh| < g.nbuf
    ensures Resting(g, p, s0, s') && s'.log == s.log.(phase := WritingLog(p, t + 1), disk := s'.log.disk)
  {
    hide Inv, Alone;
    CommitShape(g, s);
    var s1, l, h := TakeBoth(g, p, s0, s, t);
    CommitShape(g, s1);
    Then(g, p, s0, s1, CopyToLog(p, l, h));
    s' := GiveBoth(g, p, s0, DoCopy(g, s1, p, l, h), l, g.start + 1 + t, h, s.log.lh[t]);
  }

  lemma {:induction false} CopyAll(g: Geometry, p: Pid, s0: State, s: State, t: nat) returns (s': State)
    requires Resting(g, p, s0, s) && s.log.phase == WritingLog(p, t) && t <= |s.log.lh| < g.nbuf
    ensures Resting(g, p, s0, s') && s'.log == s.log.(phase := WritingLog(p, |s.log.lh|), disk := s'.log.disk)
    decreases |s.log.lh| - t
  {
    s' := s;
    if t < |s.log.lh| {
      s' := CopyOne(g, p, s0, s, t);
      s' := CopyAll(g, p, s0, s', t + 1);
    }
  }

  lemma InstallOne(g: Geometry, p: Pid, s0: State, s: State, t: nat) returns (s': State)
    requires Resting(g, p, s0, s) && s.log.phase == Installing(p, t) && t < |s.log.lh| < g.nbuf
    ensures Resting(g, p, s0, s') && s'.log == s.log.(phase := Installing(p, t + 1), disk := s'.log.disk)
  {
    hide Inv, Alone;
    CommitShape(g, s);
    assert s.log.lh[t..][0] == s.log.lh[t];
    var s1, l, h := TakeBoth(g, p, s0, s, t);
    CommitShape(g, s1);
    Then(g, p, s0, s1, InstallBlock(p, l, h));
    s' := GiveBoth(g, p, s0, DoInstall(g, s1, p, l, h), l, g.start + 1 + t, h, s.log.lh[t]);
  }

  lemma {:induction false} InstallAll(g: Geometry, p: Pid, s0: State, s: State, t: nat) returns (s': State)
    requires Resting(g, p, s0, s) && s.log.phase == Installing(p, t) && t <= |s.log.lh| < g.nbuf
    ensures Resting(g, p, s0, s') && s'.log == s.log.(phase := Installing(p, |s.log.lh|), disk := s'.log.disk)
    decreases |s.log.lh| - t
  {
    s' := s;
    if t < |s.log.lh| {
      s' := InstallOne(g, p, s0, s, t);
      s' := InstallAll(g, p, s0, s', t + 1);
    }
  }

  lemma WriteTheHead(g: Geometry, p: Pid, s0: State, s: State) returns (s': State)
    requires Resting(g, p, s0, s) && s.log.phase == WritingLog(p, |s.log.lh|) && |s.log.lh| < g.nbuf
    ensures Resting(g, p, s0, s')
    ensures s'.log == s.log.(phase := Installing(p, 0), disk := s'.log.disk, committed := s.log.logical)
  {
    hide Inv, Alone, Pinned;
    CommitShape(g, s);
    var s1, i := Take(g, p, s0, s, g.start, {});
    CommitShape(g, s1);
    Then(g, p, s0, s1, WriteHead(p, i));
    s' := Give(g, p, s0, DoWriteHead(g, s1, p, i), i, g.start, {} + {i});
    assert {} + {i} - {i} == {};
  }

  lemma ClearTheHead(g: Geometry, p: Pid, s0: State, s: State) returns (s': State)
    requires Resting(g, p, s0, s) && s.log.phase == Installing(p, |s.log.lh|) && 0 < g.nbuf
    ensures Resting(g, p, s0, s') && s'.log == s.log.(phase := Finishing(p), lh := [], disk := s'.log.disk)
  {
    hide Inv, Alone;
    CommitShape(g, s);
    var s1, i := Take(g, p, s0, s, g.start, {});
    CommitShape(g, s1);
    Then(g, p, s0, s1, ClearHead(p, i));
    s' := Give(g, p, s0, DoClear(g, s1, p, i), i, g.start, {} + {i});
    assert {} + {i} - {i} == {};
  }

  /** Operations may begin, nothing is logged, and the disk has everything. */
  ghost predicate Settled(g: Geometry, s: State)
  {
    && LogShape(g, s.log) && s.log.phase.Running? && s.outstanding == 0 && s.log.lh == []
    && forall b: nat {:trigger Home(g, b)} | Home(g, b) :: s.log.committed[b] == s.log.logical[b] == s.log.disk[b]
  }

  lemma SettledNow(g: Geometry, s: State)
    requires Inv(g, s) && s.log.phase.Running? && s.log.lh == [] && s.outstanding == 0
    ensures Settled(g, s)
  {
  }

  lemma Finish(g: Geometry, p: Pid, s0: State, s: State) returns (s': State)
    requires Resting(g, p, s0, s) && s.log.phase == Finishing(p)
    ensures Resting(g, p, s0, s') && Settled(g, s') && s'.log.logical == s.log.logical
  {
    Then(g, p, s0, s, CommitDone(p));
    s' := s.(log := s.log.(phase := Running));
  }

  /** A commit that is left alone, with more buffers than logged blocks, ends with everything logged on disk. */
  lemma CommitCompletes(g: Geometry, p: Pid, s: State) returns (s': State)
    requires Inv(g, s) && CalmBut(s, {}) && p < g.nproc && Committing(s.log) && s.log.phase.who == p
    requires |s.log.lh| < g.nbuf
    ensures Resting(g, p, s, s') && Settled(g, s') && s'.log.logical == s.log.logical
  {
    hide Inv, CalmBut, Alone;
    AloneStart(g, p, s);
    CommitShape(g, s);
    s' := s;
    if s.log.phase.WritingLog? {
      s' := CopyAll(g, p, s, s, s.log.phase.t);
      s' := WriteTheHead(g, p, s, s');
    }
    if s'.log.phase.Installing? {
      s' := InstallAll(g, p, s, s', s'.log.phase.t);
      s' := ClearTheHead(g, p, s, s');
    }
    s' := Finish(g, p, s, s');
  }

  // ---------------------------------------------------------------------------------------
  // An operation
  // ---------------------------------------------------------------------------------------

  /** The block is changed and logged, and nobody holds it any more. */
  lemma LogOne(g: Geometry, p: Pid, s0: State, s: State, b: nat, d: Block) returns (s': State)
    requires Resting(g, p, s0, s) && s.log.phase.Running? && s.log.lh == [] && 1 < g.nbuf && 1 < g.size && Home(g, b)
    requires s.ops[p] == Some(0) && s.outstanding == 1
    ensures Resting(g, p, s0, s') && s'.outstanding == 1 && s'.ops[p].Some?
    ensures s'.log == s.log.(lh := [b], logical := s.log.logical[b := d])
  {
    hide Alone;
    CommitShape(g, s);
    var s1, i := Take(g, p, s0, s, b, {});
    Then(g, p, s0, s1, Modify(p, i, d));
    var s2 := DoModify(g, s1, p, i, d);
    Then(g, p, s0, s2, LogWrite(p, i));
    var s3 := DoLogWrite(g, s2, p, i);
    s' := Give(g, p, s0, s3, i, b, {} + {i});
    assert {} + {i} - {i} == {};
  }

  /**
  An operation that writes `d` to home block `b`, left alone from begin_op to the end of its commit: the block has
  `d` on disk and for every reader, nothing else changed, and the next operation may begin.
  */
  lemma OperationGoesThrough(g: Geometry, p: Pid, s: State, b: nat, d: Block) returns (s': State)
    requires Inv(g, s) && CalmBut(s, {}) && Settled(g, s) && p < g.nproc && s.ops[p].None? && Home(g, b)
    requires 1 < g.nbuf && 1 < g.size
    ensures Resting(g, p, s, s') && Settled(g, s') && s'.log.logical == s.log.logical[b := d]
    ensures forall q | 0 <= q < g.nproc && s'.ops[q].None? :: CanBegin(g, s', q)
  {
    hide Alone;
    AloneStart(g, p, s);
    Then(g, p, s, s, BeginOp(p));
    var s1 := LogOne(g, p, s, DoBegin(g, s, p), b, d);
    Then(g, p, s, s1, EndOp(p));
    var s2 := DoEnd(g, s1, p);
    s' := CommitCompletes(g, p, s2);
    AloneJoin(g, p, s, s2, s');
  }

  lemma AloneJoin(g: Geometry, p: Pid, s0: State, s: State, s': State)
    requires Alone(g, p, s0, s) && Alone(g, p, s, s')
    ensures Alone(g, p, s0, s')
  {
    var acts :| Reaches(g, s0, acts, s) && Only(p, acts);
    var more :| Reaches(g, s, more, s') && Only(p, more);
    RunJoin(g, s0, acts, s, more, s');
    assert Only(p, acts + more);
  }

  lemma {:induction false} RunJoin(g: Geometry, s0: State, acts: seq<Action>, s: State, more: seq<Action>, s': State)
    requires Reaches(g, s0, acts, s) && Reaches(g, s, more, s')
    ensures Reaches(g, s0, acts + more, s')
    decreases |more|
  {
    hide Shape, Enabled, Apply;
    if more == [] {
      assert acts + more == acts;
    } else {
      var mid, a := more[..|more| - 1], more[|more| - 1];
      var q :| Reaches(g, s, mid, q) && Shape(g, q) && Enabled(g, q, a) && s' == Apply(g, q, a);
      RunJoin(g, s0, acts, s, mid, q);
      assert (acts + more)[..|acts + more| - 1] == acts + mid;
    }
  }

  // ---------------------------------------------------------------------------------------
  // Recovery
  // ---------------------------------------------------------------------------------------

  lemma RecoverOne(g: Geometry, p: Pid, s0: State, s: State, t: nat) returns (s': State)
    requires Resting(g, p, s0, s) && s.log.phase == Recovering(t) && t < |s.log.lh| && 1 < g.nbuf
    ensures Resting(g, p, s0, s') && s'.log == s.log.(phase := Recovering(t + 1), disk := s'.log.disk)
  {
    hide Inv, Alone;
    CommitShape(g, s);
    var s1, l := Take(g, p, s0, s, g.start + 1 + t, {});
    assert {} + {l} == {l};
    HeldCounts(g, s1, p, l, g.start + 1 + t);
    var s2, h := Take(g, p, s0, s1, s.log.lh[t], {l});
    assert {l} + {h} == {l, h};
    CommitShape(g, s2);
    Then(g, p, s0, s2, RecoverBlock(p, l, h));
    s' := GiveBoth(g, p, s0, DoRecover(g, s2, p, l, h), l, g.start + 1 + t, h, s.log.lh[t]);
  }

  lemma HeldCounts(g: Geometry, s: State, p: Pid, i: nat, b: nat)
    requires Inv(g, s) && Mine(g, s, p, i, b)
    ensures s.bufs[i].refcnt > 0
  {
    assert BufOk(g, s.log, s.ops, s.bufs[i]);
  }

  lemma {:induction false} RecoverAll(g: Geometry, p: Pid, s0: State, s: State, t: nat) returns (s': State)
    requires Resting(g, p, s0, s) && s.log.phase == Recovering(t) && t <= |s.log.lh| && 1 < g.nbuf
    ensures Resting(g, p, s0, s') && s'.log == s.log.(phase := Recovering(|s.log.lh|), disk := s'.log.disk)
    decreases |s.log.lh| - t
  {
    s' := s;
    if t < |s.log.lh| {
      s' := RecoverOne(g, p, s0, s, t);
      s' := RecoverAll(g, p, s0, s', t + 1);
    }
  }

  lemma ReadTheHead(g: Geometry, p: Pid, s0: State, s: State) returns (s': State)
    requires Resting(g, p, s0, s) && s.log.phase.Booting? && 1 < g.nbuf
    ensures Resting(g, p, s0, s') && s'.log.phase == Recovering(0) && s'.log.committed == s.log.committed
  {
    CommitShape(g, s);
    var s1, i := Take(g, p, s0, s, g.start, {});
    ReadSeesLastLogged(g, s1, p, i, g.start);
    Then(g, p, s0, s1, ReadHead(p, i));
    s' := Give(g, p, s0, DoReadHead(g, s1, p, i), i, g.start, {} + {i});
    assert {} + {i} - {i} == {};
  }

  lemma EndRecovery(g: Geometry, p: Pid, s0: State, s: State) returns (s': State)
    requires Resting(g, p, s0, s) && s.log.phase == Recovering(|s.log.lh|) && 1 < g.nbuf
    ensures Resting(g, p, s0, s') && Settled(g, s') && s'.log.committed == s.log.committed
  {
    hide Inv, Alone;
    CommitShape(g, s);
    var s1, i := Take(g, p, s0, s, g.start, {});
    CommitShape(g, s1);
    Then(g, p, s0, s1, RecoverDone(p, i));
    s' := Give(g, p, s0, DoRecoverDone(g, s1, p, i), i, g.start, {} + {i});
    assert {} + {i} - {i} == {};
    SettledNow(g, s');
  }

  /** Recovery that is left alone ends with the committed contents on disk and for every reader. */
  lemma RecoveryCompletes(g: Geometry, p: Pid, s: State) returns (s': State)
    requires Inv(g, s) && CalmBut(s, {}) && p < g.nproc && s.log.phase.Booting? && 1 < g.nbuf
    ensures Resting(g, p, s, s') && Settled(g, s') && s'.log.committed == s.log.committed
  {
    hide Alone, Inv, CalmBut;
    AloneStart(g, p, s);
    s' := ReadTheHead(g, p, s, s);
    s' := RecoverAll(g, p, s, s', 0);
    s' := EndRecovery(g, p, s, s');
  }

  /** After a crash in any state: what was committed is on disk and for every reader, the rest is gone. */
  lemma CrashRecovers(g: Geometry, p: Pid, s: State) returns (s1: State, s': State)
    requires Inv(g, s) && p < g.nproc && 1 < g.nbuf
    ensures s1 == Apply(g, s, Crash) && s1.log.disk == s.log.disk && Resting(g, p, s1, s') && Settled(g, s')
    ensures s'.log.committed == s.log.committed
  {
    s1 := Apply(g, s, Crash);
    StepKeepsInv(g, s, Crash);
    hide Inv;
    s' := RecoveryCompletes(g, p, s1);
  }

  // ---------------------------------------------------------------------------------------
  // A commit without a buffer to spare
  // ---------------------------------------------------------------------------------------

  /** Every buffer is pinned by the log, and write_log has blocks to copy. */
  ghost predicate Stuck(s: State)
  {
    && s.log.phase.WritingLog? && s.log.phase.t < |s.log.lh|
    && forall k: nat {:trigger s.bufs[k]} | k < |s.bufs| :: s.bufs[k].dev == ROOTDEV && s.bufs[k].blockno in s.log.lh
  }

  /** One of the buffers `ks` holds block `b`. */
  ghost predicate HeldBy(bufs: seq<Buf>, b: nat, ks: set<nat>)
  {
    exists k: nat :: k in ks && k < |bufs| && Holds(bufs[k], b)
  }

  lemma {:induction false} Nests(bufs: seq<Buf>, l: seq<nat>, ks: set<nat>)
    requires Distinct(l) && forall b | b in l :: HeldBy(bufs, b, ks)
    ensures |l| <= |ks|
    decreases |l|
  {
    if l != [] {
      var m, b := l[..|l| - 1], l[|l| - 1];
      assert HeldBy(bufs, b, ks);
      var k: nat :| k in ks && k < |bufs| && Holds(bufs[k], b);
      forall c | c in m
        ensures HeldBy(bufs, c, ks - {k})
      {
        assert c in l && HeldBy(bufs, c, ks);
        var j: nat :| j in ks && j < |bufs| && Holds(bufs[j], c);
        assert j in ks - {k};
      }
      Nests(bufs, m, ks - {k});
    }
  }

  function Below(n: nat): (r: set<nat>)
    ensures |r| == n && forall k: nat :: k in r <==> k < n
  {
    if n == 0 then {} else Below(n - 1) + {n - 1}
  }

  /** With no more buffers than logged blocks all of them are pinned. */
  lemma AllPinned(g: Geometry, s: State)
    requires Inv(g, s) && s.log.phase.WritingLog? && s.log.phase.t < |s.log.lh| && g.nbuf <= |s.log.lh|
    ensures Stuck(s)
  {
    forall k: nat | k < |s.bufs|
      ensures s.bufs[k].dev == ROOTDEV && s.bufs[k].blockno in s.log.lh
    {
      if !(s.bufs[k].dev == ROOTDEV && s.bufs[k].blockno in s.log.lh) {
        forall b | b in s.log.lh
          ensures HeldBy(s.bufs, b, Below(g.nbuf) - {k})
        {
          assert CachedValid(s.bufs, b);
          var j: nat :| j < |s.bufs| && Holds(s.bufs[j], b);
          assert j in Below(g.nbuf) - {k};
        }
        Nests(s.bufs, s.log.lh, Below(g.nbuf) - {k});
      }
    }
  }

  lemma NoneFree(g: Geometry, s: State)
    requires Inv(g, s) && Stuck(s)
    ensures forall i: nat {:trigger s.bufs[i]} | i < g.nbuf :: s.bufs[i].refcnt > 0
  {
    forall i: nat | i < g.nbuf
      ensures s.bufs[i].refcnt > 0
    {
      assert BufOk(g, s.log, s.ops, s.bufs[i]);
    }
  }

  /** No operation is under way, so none ends or logs. */
  lemma OnlyCommitSteps(g: Geometry, s: State, a: Action)
    requires Inv(g, s) && Stuck(s) && Enabled(g, s, a)
    ensures !a.EndOp? && !a.LogWrite? && !a.Modify?
  {
    NoOpsLeft(s.ops);
  }

  lemma StuckKept(g: Geometry, s: State, a: Action)
    requires Shape(g, s) && Stuck(s) && Enabled(g, s, a) && !a.Crash? && !a.EndOp? && !a.LogWrite? && !a.Modify?
    requires forall i: nat {:trigger s.bufs[i]} | i < g.nbuf :: s.bufs[i].refcnt > 0
    ensures Stuck(Apply(g, s, a))
  {
  }

  lemma StuckStays(g: Geometry, s: State, a: Action)
    requires Inv(g, s) && Stuck(s) && Enabled(g, s, a) && !a.Crash?
    ensures Stuck(Apply(g, s, a))
  {
    NoneFree(g, s);
    OnlyCommitSteps(g, s, a);
    hide Inv, Stuck, Shape, CacheInv, DiskInv;
    StuckKept(g, s, a);
  }

  predicate NoCrash(acts: seq<Action>)
  {
    forall k | 0 <= k < |acts| :: !acts[k].Crash?
  }

  /** Then no run without a crash ever gets past it: the commit does not end and no operation begins. */
  lemma {:induction false} StuckForever(g: Geometry, s: State, acts: seq<Action>, s': State)
    requires Inv(g, s) && Stuck(s) && Reaches(g, s, acts, s') && NoCrash(acts)
    ensures Stuck(s')
    decreases |acts|
  {
    hide Inv, Enabled, Apply, Stuck;
    if acts != [] {
      var mid, a := acts[..|acts| - 1], acts[|acts| - 1];
      var q :| Reaches(g, s, mid, q) && Shape(g, q) && Enabled(g, q, a) && s' == Apply(g, q, a);
      StuckForever(g, s, mid, q);
      RunKeepsInv(g, s, mid, q);
      StuckStays(g, q, a);
    }
  }

  /** Some run without a crash gets the commit to its end. */
  ghost predicate CanFinish(g: Geometry, s: State)
  {
    exists acts, s' :: Reaches(g, s, acts, s') && NoCrash(acts) && Settled(g, s')
  }

  /** A commit that starts with nobody at the buffers can finish exactly with more buffers than logged blocks. */
  lemma CommitFinishesIff(g: Geometry, p: Pid, s: State)
    requires Inv(g, s) && CalmBut(s, {}) && p < g.nproc && s.log.phase == WritingLog(p, 0) && s.log.lh != []
    ensures CanFinish(g, s) <==> |s.log.lh| < g.nbuf
  {
    hide Inv;
    if |s.log.lh| < g.nbuf {
      var s' := CommitCompletes(g, p, s);
      var acts :| Reaches(g, s, acts, s') && Only(p, acts);
    } else {
      AllPinned(g, s);
      forall acts, s' | Reaches(g, s, acts, s') && NoCrash(acts)
        ensures !Settled(g, s')
      {
        StuckForever(g, s, acts, s');
      }
    }
  }

  ghost predicate StuckReachable(g: Geometry)
  {
    exists s0, acts, s :: Initial(g, s0) && Reaches(g, s0, acts, s) && Stuck(s)
  }

  lemma StuckFillsBuffers(g: Geometry, s: State)
    requires Inv(g, s) && Stuck(s)
    ensures g.nbuf <= |s.log.lh| <= LOGSIZE && |s.log.lh| < g.size
  {
    Pigeons(s.bufs, g.nbuf, {}, Elements(s.log.lh));
  }

  /** Three operations logged LOGSIZE blocks, and end. */
  lemma ThreeEnd(g: Geometry, hs: seq<nat>, s0: State, s: State) returns (s': State)
    requires LogFull.Roomy(g, hs) && LogFull.Filled(g, hs, s, LOGSIZE) && LogFull.Reachable(g, s0, s)
    requires forall i: nat {:trigger s.bufs[i]} | i < g.nbuf :: s.bufs[i].owner.None?
    ensures LogFull.Reachable(g, s0, s') && s'.log == s.log.(phase := WritingLog(2, 0))
  {
    assert forall j: nat | j < 3 :: s.ops[j].Some?;
    LogFull.Extend(g, s0, s, EndOp(0));
    var s1 := DoEnd(g, s, 0);
    LogFull.Extend(g, s0, s1, EndOp(1));
    var s2 := DoEnd(g, s1, 1);
    LogFull.Extend(g, s0, s2, EndOp(2));
    s' := DoEnd(g, s2, 2);
  }

  /**
  With at least LOGSIZE buffers, and blocks to log: commits can get stuck exactly if there are no more buffers than
  that and the log area is large enough for LOGSIZE blocks.
  */
  lemma StuckIff(g: Geometry, hs: seq<nat>)
    requires LogFull.Roomy(g, hs)
    ensures StuckReachable(g) <==> g.nbuf == LOGSIZE < g.size
  {
    if g.nbuf == LOGSIZE < g.size {
      var s0 := LogFull.ZeroBoot(g);
      LogFull.ZeroBootInitial(g);
      var s := LogFull.FillTo(g, hs, s0, LOGSIZE);
      assert forall i: nat {:trigger s.bufs[i]} | i < g.nbuf :: LogFull.Logged(s.bufs[i], hs[i]);
      var s' := ThreeEnd(g, hs, s0, s);
      var acts :| Reaches(g, s0, acts, s');
      InitialInv(g, s0);
      RunKeepsInv(g, s0, acts, s');
      AllPinned(g, s');
    } else {
      forall s0, acts, s | Initial(g, s0) && Reaches(g, s0, acts, s)
        ensures !Stuck(s)
      {
        InitialInv(g, s0);
        RunKeepsInv(g, s0, acts, s);
        if Stuck(s) {
          StuckFillsBuffers(g, s);
        }
      }
    }
  }

  // ---------------------------------------------------------------------------------------
  // The counts that begin_op sleeps on
  // ---------------------------------------------------------------------------------------

  function CountsOf(s: State): LogSync.Counts
  {
    LogSync.Counts(|s.log.lh|, if s.outstanding < 0 then 0 else s.outstanding, Committing(s.log))
  }

  /** The step leaves the counts alone, or changes them in one of the ways that the sleeps are proved for. */
  ghost predicate Counted(s: State, s': State)
  {
    CountsOf(s') == CountsOf(s) || exists due :: LogSync.Changes(CountsOf(s), CountsOf(s'), due)
  }

  /** Those are the changes that the machine makes; commit sets the number of logged blocks to 0 while committing. */
  lemma StepIsCounted(g: Geometry, s: State, a: Action)
    requires Inv(g, s) && Enabled(g, s, a) && !Recovery(s.log) && !a.Crash?
    ensures if a.ClearHead? then LogSync.Clears(CountsOf(s), CountsOf(Apply(g, s, a)))
            else Counted(s, Apply(g, s, a))
    ensures a.BeginOp? <==> CountsOf(Apply(g, s, a)).outstanding == CountsOf(s).outstanding + 1
    ensures a.EndOp? <==> CountsOf(Apply(g, s, a)).outstanding == CountsOf(s).outstanding - 1
  {
    hide CacheInv, DiskInv;
    if a.EndOp? || a.LogWrite? {
      UnusedShare(s.ops, a.p);
    }
    var d, d' := CountsOf(s), CountsOf(Apply(g, s, a));
    if d' != d && !a.ClearHead? {
      var due := if a.CommitDone? || (a.EndOp? && s.outstanding > 1) then {LogSync.LOG} else {};
      assert LogSync.Changes(d, d', due);
    }
  }
}
