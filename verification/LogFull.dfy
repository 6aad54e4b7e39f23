/**
Exactly when a lawful call can meet log_write's "too big a transaction" panic.  begin_op reserves
against LOGSIZE, but the log area holds only size - 1 blocks: an operation with room left in its
bound can be refused if and only if the log area has no more than LOGSIZE blocks.  And log_write
tests fullness before absorption: once the list has LOGSIZE blocks, an operation that used its whole
bound is refused even for a block that is in the list already, however large the log area is.
*/
module LogFull {
  import opened Blocks
  import opened Options
  import opened Rings
  import opened LogSystem
  import opened LogSafety

  /** A run from power-on ends with an operation that has room left in its bound being refused by log_write. */
  ghost predicate RefusalReachable(g: Geometry)
  {
    exists s0, acts, s, p, i ::
      Initial(g, s0) && Reaches(g, s0, acts, s) && Refused(g, s, p, i)
  }

  ghost predicate Refused(g: Geometry, s: State, p: Pid, i: nat)
  {
    Shape(g, s) && LogWriteCall(g, s, p, i) && s.ops[p].value < MAXOPBLOCKS && !LogWriteGuard(g, s)
  }

  /** The call is for a block that is in the list already, by an operation that appended all it may. */
  ghost predicate SpentAbsorbing(g: Geometry, s: State, p: Pid, i: nat)
    requires Shape(g, s)
  {
    LogWriteCall(g, s, p, i) && s.bufs[i].blockno in s.log.lh && s.ops[p].value == MAXOPBLOCKS
  }

  /** A run from power-on ends with such a call being refused. */
  ghost predicate AbsorbingRefusalReachable(g: Geometry)
  {
    exists s0, acts, s, p, i ::
      Initial(g, s0) && Reaches(g, s0, acts, s) && Shape(g, s) && SpentAbsorbing(g, s, p, i) && !LogWriteGuard(g, s)
  }

  /** Enough processes, buffers and home blocks for the log to fill up. */
  ghost predicate Roomy(g: Geometry, hs: seq<nat>)
  {
    && GeometryOk(g) && g.nproc >= 3 && g.nbuf >= LOGSIZE
    && |hs| == LOGSIZE && (forall k | 0 <= k < |hs| :: Home(g, hs[k])) && Distinct(hs)
  }

  ghost predicate Reachable(g: Geometry, s0: State, s: State)
  {
    exists acts :: Reaches(g, s0, acts, s)
  }

  lemma Extend(g: Geometry, s0: State, s: State, a: Action)
    requires Reachable(g, s0, s) && Shape(g, s) && Enabled(g, s, a)
    ensures Reachable(g, s0, Apply(g, s, a))
  {
    var acts :| Reaches(g, s0, acts, s);
    assert (acts + [a])[..|acts|] == acts;
    assert Reaches(g, s0, acts + [a], Apply(g, s, a));
  }

  lemma ThenMiss(g: Geometry, s0: State, s: State, p: Pid, b: nat, i: nat)
    requires Reachable(g, s0, s) && Shape(g, s) && CanMiss(g, s, p, b, i)
    ensures Reachable(g, s0, DoMiss(g, s, p, b, i))
  {
    Extend(g, s0, s, BgetMiss(p, b, i));
  }

  lemma ThenHit(g: Geometry, s0: State, s: State, p: Pid, b: nat, i: nat)
    requires Reachable(g, s0, s) && Shape(g, s) && CanHit(g, s, p, b, i)
    ensures Reachable(g, s0, DoHit(g, s, p, b, i))
  {
    Extend(g, s0, s, BgetHit(p, b, i));
  }

  lemma ThenLock(g: Geometry, s0: State, s: State, p: Pid, i: nat)
    requires Reachable(g, s0, s) && Shape(g, s) && CanLock(g, s, p, i)
    ensures Reachable(g, s0, DoLock(g, s, p, i))
  {
    Extend(g, s0, s, LockBuf(p, i));
  }

  lemma ThenReadIn(g: Geometry, s0: State, s: State, p: Pid, i: nat)
    requires Reachable(g, s0, s) && Shape(g, s) && CanReadIn(g, s, p, i)
    ensures Reachable(g, s0, DoReadIn(g, s, p, i))
  {
    Extend(g, s0, s, ReadIn(p, i));
  }

  lemma ThenLogWrite(g: Geometry, s0: State, s: State, p: Pid, i: nat)
    requires Reachable(g, s0, s) && Shape(g, s) && LogWriteCall(g, s, p, i) && LogWriteGuard(g, s)
    ensures Reachable(g, s0, DoLogWrite(g, s, p, i))
  {
    Extend(g, s0, s, LogWrite(p, i));
  }

  lemma ThenUnlock(g: Geometry, s0: State, s: State, p: Pid, i: nat)
    requires Reachable(g, s0, s) && Shape(g, s) && CanUnlock(g, s, p, i)
    ensures Reachable(g, s0, DoUnlock(g, s, p, i))
  {
    Extend(g, s0, s, UnlockBuf(p, i));
  }

  lemma ThenDrop(g: Geometry, s0: State, s: State, p: Pid, i: nat)
    requires Reachable(g, s0, s) && Shape(g, s) && CanDrop(g, s, p, i)
    ensures Reachable(g, s0, DoDrop(g, s, p, i))
  {
    Extend(g, s0, s, DropRef(p, i));
  }

  lemma ThenBegin(g: Geometry, s0: State, s: State, p: Pid)
    requires Reachable(g, s0, s) && Shape(g, s) && CanBegin(g, s, p)
    ensures Reachable(g, s0, DoBegin(g, s, p))
  {
    Extend(g, s0, s, BeginOp(p));
  }

  lemma ThenReadHead(g: Geometry, s0: State, s: State, p: Pid, i: nat)
    requires Reachable(g, s0, s) && Shape(g, s) && CanReadHead(g, s, p, i)
    ensures Reachable(g, s0, DoReadHead(g, s, p, i))
  {
    Extend(g, s0, s, ReadHead(p, i));
  }

  lemma ThenRecoverDone(g: Geometry, s0: State, s: State, p: Pid, i: nat)
    requires Reachable(g, s0, s) && Shape(g, s) && CanRecoverDone(g, s, p, i)
    ensures Reachable(g, s0, DoRecoverDone(g, s, p, i))
  {
    Extend(g, s0, s, RecoverDone(p, i));
  }

  /** How many of the first `k` blocks operation `j` appended. */
  function Share(k: nat, j: nat): nat
  {
    if k <= 10 * j then 0 else if k >= 10 * j + 10 then 10 else k - 10 * j
  }

  /** Three operations under way, the first `k` blocks of `hs` logged by them, the other buffers free. */
  ghost predicate Filled(g: Geometry, hs: seq<nat>, s: State, k: nat)
    requires |hs| == LOGSIZE
  {
    && Shape(g, s) && g.nproc >= 3
    && s.log.phase.Running? && k <= LOGSIZE && k <= g.size - 1 && s.log.lh == hs[..k]
    && s.outstanding == 3 && (forall j: nat | j < 3 :: s.ops[j] == Some(Share(k, j)))
    && (forall i | 0 <= i < g.nbuf :: if i < k then Logged(s.bufs[i], hs[i]) else Spare(g, s.bufs[i]))
  }

  predicate Logged(f: Buf, b: nat)
  {
    Holds(f, b) && f.valid && f.owner.None?
  }

  predicate Spare(g: Geometry, f: Buf)
  {
    f.refcnt == 0 && f.refs == multiset{} && f.owner.None? && !f.dirty && (f.dev == ROOTDEV ==> !Home(g, f.blockno))
  }

  /** Process `p` reads block `b` into the free buffer `k`. */
  lemma ReadInto(g: Geometry, s0: State, s: State, b: nat, k: nat, p: Pid) returns (s': State)
    requires Reachable(g, s0, s) && Shape(g, s) && CanMiss(g, s, p, b, k) && Spare(g, s.bufs[k])
    ensures Reachable(g, s0, s') && Shape(g, s')
    ensures s' == s.(bufs := s.bufs[k := Buf(ROOTDEV, b, true, 1, multiset{p}, Some(p), false, s.log.disk[b])])
  {
    var f := s.bufs[k];
    ThenMiss(g, s0, s, p, b, k);
    var s1 := DoMiss(g, s, p, b, k);
    assert Shape(g, s1) && s1.bufs[k] == Buf(ROOTDEV, b, false, 1, multiset{p}, None, false, f.data);
    ThenLock(g, s0, s1, p, k);
    var s2 := DoLock(g, s1, p, k);
    assert Shape(g, s2) && s2.bufs[k] == Buf(ROOTDEV, b, false, 1, multiset{p}, Some(p), false, f.data);
    ThenReadIn(g, s0, s2, p, k);
    s' := DoReadIn(g, s2, p, k);
  }

  /** Process `p` gives up a clean buffer it holds. */
  lemma Release(g: Geometry, s0: State, s: State, k: nat, p: Pid) returns (s': State)
    requires Reachable(g, s0, s) && Shape(g, s) && CanUnlock(g, s, p, k) && s.bufs[k].refs == multiset{p}
    ensures Reachable(g, s0, s') && Shape(g, s')
    ensures s' == s.(bufs := s.bufs[k := s.bufs[k].(owner := None, refcnt := s.bufs[k].refcnt - 1, refs := multiset{})])
  {
    ThenUnlock(g, s0, s, p, k);
    var s1 := DoUnlock(g, s, p, k);
    assert Shape(g, s1) && s1.bufs[k] == s.bufs[k].(owner := None);
    ThenDrop(g, s0, s1, p, k);
    s' := DoDrop(g, s1, p, k);
  }

  lemma ReadNext(g: Geometry, hs: seq<nat>, s0: State, s: State, k: nat, p: Pid) returns (s': State)
    requires Roomy(g, hs) && Filled(g, hs, s, k) && k < LOGSIZE && p < 3 && Reachable(g, s0, s)
    ensures Reachable(g, s0, s') && Shape(g, s') && hs[k] !in s.log.lh
    ensures s' == s.(bufs := s.bufs[k := Buf(ROOTDEV, hs[k], true, 1, multiset{p}, Some(p), false, s.log.disk[hs[k]])])
  {
    assert Spare(g, s.bufs[k]);
    assert CanMiss(g, s, p, hs[k], k);
    s' := ReadInto(g, s0, s, hs[k], k, p);
  }

  /** The `k`th block is read, logged and released. */
  lemma LogNext(g: Geometry, hs: seq<nat>, s0: State, s: State, k: nat) returns (s': State)
    requires Roomy(g, hs) && Filled(g, hs, s, k) && k < LOGSIZE && k < g.size - 1 && Reachable(g, s0, s)
    ensures Reachable(g, s0, s') && Filled(g, hs, s', k + 1)
  {
    var p := k / 10;
    var s1 := ReadNext(g, hs, s0, s, k, p);
    assert s1.ops[p] == Some(Share(k, p)) && Share(k, p) < 10;
    ThenLogWrite(g, s0, s1, p, k);
    var s2 := DoLogWrite(g, s1, p, k);
    LoggedShape(g, hs, s, s1, s2, k, p);
    s' := Release(g, s0, s2, k, p);
    assert s'.bufs == s.bufs[k := s'.bufs[k]] && Logged(s'.bufs[k], hs[k]);
    FilledNext(g, hs, s, s', k);
  }

  lemma FilledNext(g: Geometry, hs: seq<nat>, s: State, s': State, k: nat)
    requires Roomy(g, hs) && Filled(g, hs, s, k) && k < LOGSIZE && k < g.size - 1 && Shape(g, s')
    requires s'.log.lh == hs[..k + 1] && s'.log.phase.Running? && s'.outstanding == 3
    requires s'.ops == s.ops[k / 10 := Some(Share(k, k / 10) + 1)]
    requires s'.bufs == s.bufs[k := s'.bufs[k]] && Logged(s'.bufs[k], hs[k])
    ensures Filled(g, hs, s', k + 1)
  {
    forall j: nat | j < 3
      ensures s'.ops[j] == Some(Share(k + 1, j))
    {
      assert s.ops[j] == Some(Share(k, j));
    }
  }

  lemma LoggedShape(g: Geometry, hs: seq<nat>, s: State, s1: State, s2: State, k: nat, p: Pid)
    requires Roomy(g, hs) && Filled(g, hs, s, k) && k < LOGSIZE && k < g.size - 1 && p == k / 10
    requires hs[k] !in s.log.lh && Shape(g, s1)
    requires s1 == s.(bufs := s.bufs[k := Buf(ROOTDEV, hs[k], true, 1, multiset{p}, Some(p), false, s.log.disk[hs[k]])])
    requires LogWriteCall(g, s1, p, k) && s2 == DoLogWrite(g, s1, p, k)
    ensures Shape(g, s2) && s2.log.lh == hs[..k + 1] && s2.log.phase.Running? && s2.outstanding == 3
    ensures s2.ops == s.ops[p := Some(Share(k, p) + 1)]
    ensures s2.bufs == s1.bufs[k := s1.bufs[k].(refcnt := 2)]
  {
    assert hs[..k + 1] == hs[..k] + [hs[k]];
  }

  lemma {:induction false} FillTo(g: Geometry, hs: seq<nat>, s0: State, k: nat) returns (s: State)
    requires Roomy(g, hs) && k <= LOGSIZE && k <= g.size - 1 && s0 == ZeroBoot(g)
    ensures Reachable(g, s0, s) && Filled(g, hs, s, k)
  {
    if k == 0 {
      s := ThreeOps(g, hs);
    } else {
      s := FillTo(g, hs, s0, k - 1);
      s := LogNext(g, hs, s0, s, k - 1);
    }
  }

  const Zeros: Block := seq(BSIZE, _ => 0)

  function ZeroBoot(g: Geometry): State
  {
    BootState(g, seq(g.nblocks, _ => Zeros), seq(g.nblocks, _ => Zeros))
  }

  lemma ZeroHeader()
    ensures HeaderOk(Zeros) && HeaderOf(Zeros) == []
  {
    assert WordAt(Zeros, 0) == 0;
  }

  lemma ZeroBootInitial(g: Geometry)
    requires GeometryOk(g)
    ensures Initial(g, ZeroBoot(g)) && Shape(g, ZeroBoot(g))
  {
    ZeroHeader();
  }

  /** Boot on an empty disk up to the point where operations may begin. */
  lemma BootUp(g: Geometry) returns (s: State)
    requires GeometryOk(g) && g.nbuf > 0 && g.nproc > 0
    ensures Reachable(g, ZeroBoot(g), s) && Shape(g, s)
    ensures s.log.phase.Running? && s.log.lh == [] && s.outstanding == 0
    ensures forall p | 0 <= p < g.nproc :: s.ops[p].None?
    ensures forall i | 0 <= i < g.nbuf :: Spare(g, s.bufs[i])
  {
    var s0 := ZeroBoot(g);
    ZeroBootInitial(g);
    assert Reaches(g, s0, [], s0);
    var s1 := ReadInto(g, s0, s0, g.start, 0, 0);
    var s2 := FinishRecovery(g, s0, s1);
    s := Release(g, s0, s2, 0, 0);
  }

  /** Recovery with an empty log. */
  lemma FinishRecovery(g: Geometry, s0: State, s: State) returns (s': State)
    requires Reachable(g, s0, s) && Shape(g, s) && s.log.phase.Booting? && Owns(g, s, 0, 0, g.start)
    requires s.bufs[0].data == Zeros
    ensures Reachable(g, s0, s') && Shape(g, s') && s'.log.phase.Running? && s'.log.lh == []
    ensures s'.outstanding == s.outstanding && s'.ops == s.ops
    ensures |s'.bufs| == |s.bufs| && s'.bufs == s.bufs[0 := s.bufs[0].(data := s'.bufs[0].data)]
  {
    ZeroHeader();
    ThenReadHead(g, s0, s, 0, 0);
    var s1 := DoReadHead(g, s, 0, 0);
    assert Shape(g, s1);
    ThenRecoverDone(g, s0, s1, 0, 0);
    s' := DoRecoverDone(g, s1, 0, 0);
  }

  lemma ThreeOps(g: Geometry, hs: seq<nat>) returns (s: State)
    requires Roomy(g, hs)
    ensures Reachable(g, ZeroBoot(g), s) && Filled(g, hs, s, 0)
  {
    var s0 := ZeroBoot(g);
    var q0 := BootUp(g);
    ThenBegin(g, s0, q0, 0);
    var q1 := DoBegin(g, q0, 0);
    ThenBegin(g, s0, q1, 1);
    var q2 := DoBegin(g, q1, 1);
    ThenBegin(g, s0, q2, 2);
    s := DoBegin(g, q2, 2);
    assert hs[..0] == [];
  }

  /**
  The exact condition for a lawful call with a log area above LOGSIZE: it is refused if and only if the
  list is full, and then it is an absorbing call of an operation that used its whole bound.  So an
  appending call, or one by an operation with room left, is refused only with a smaller log area.
  */
  lemma RefusedIffListFull(g: Geometry, s: State, p: Pid, i: nat)
    requires Inv(g, s) && LogWriteCall(g, s, p, i)
    ensures g.size > LOGSIZE ==> (!LogWriteGuard(g, s) <==> |s.log.lh| == LOGSIZE)
    ensures g.size > LOGSIZE && !LogWriteGuard(g, s) ==> SpentAbsorbing(g, s, p, i)
    ensures g.size <= LOGSIZE ==> (!LogWriteGuard(g, s) <==> |s.log.lh| == g.size - 1)
  {
    AdmissionCoversLogWrite(g, s, p, i);
  }

  /** Process 0, which used its whole bound, holds again the first block that it logged. */
  lemma TakeAgain(g: Geometry, hs: seq<nat>, s0: State, s: State) returns (s': State)
    requires Roomy(g, hs) && Filled(g, hs, s, LOGSIZE) && Reachable(g, s0, s)
    ensures Reachable(g, s0, s') && Shape(g, s') && SpentAbsorbing(g, s', 0, 0) && |s'.log.lh| == LOGSIZE
  {
    assert Logged(s.bufs[0], hs[0]) && s.ops[0] == Some(Share(LOGSIZE, 0));
    ThenHit(g, s0, s, 0, hs[0], 0);
    var s1 := DoHit(g, s, 0, hs[0], 0);
    assert Shape(g, s1) && 0 in s1.bufs[0].refs;
    ThenLock(g, s0, s1, 0, 0);
    s' := DoLock(g, s1, 0, 0);
    assert s'.log.lh[0] == hs[0];
  }

  /** However large the log area is above LOGSIZE, a run from power-on gets an absorbing call refused. */
  lemma LargeLogRefusesAbsorbing(g: Geometry, hs: seq<nat>)
    requires Roomy(g, hs) && g.size > LOGSIZE
    ensures AbsorbingRefusalReachable(g)
  {
    var s0 := ZeroBoot(g);
    ZeroBootInitial(g);
    var s := FillTo(g, hs, s0, LOGSIZE);
    var s' := TakeAgain(g, hs, s0, s);
    var acts :| Reaches(g, s0, acts, s');
    assert !LogWriteGuard(g, s');
  }

  /**
  Operations with room left, with enough blocks to fill the log: refusals are reachable iff the log area is no
  larger than LOGSIZE.
  */
  lemma RefusalIffLogTooSmall(g: Geometry, hs: seq<nat>)
    requires Roomy(g, hs)
    ensures RefusalReachable(g) <==> g.size <= LOGSIZE
  {
    if g.size <= LOGSIZE {
      SmallLogRefuses(g, hs);
    } else {
      forall s0, acts, s, p, i | Initial(g, s0) && Reaches(g, s0, acts, s)
        ensures !Refused(g, s, p, i)
      {
        InitialInv(g, s0);
        RunKeepsInv(g, s0, acts, s);
        if LogWriteCall(g, s, p, i) {
          AdmissionCoversLogWrite(g, s, p, i);
        }
      }
    }
  }

  lemma SmallLogRefuses(g: Geometry, hs: seq<nat>)
    requires Roomy(g, hs) && g.size <= LOGSIZE
    ensures RefusalReachable(g)
  {
    var s0 := ZeroBoot(g);
    ZeroBootInitial(g);
    var k := g.size - 1;
    var s := FillTo(g, hs, s0, k);
    var p := k / 10;
    var s' := ReadNext(g, hs, s0, s, k, p);
    assert s'.ops[p] == Some(Share(k, p));
    assert Refused(g, s', p, k);
    var acts :| Reaches(g, s0, acts, s');
  }

  /** The shipped layout (mkfs sets nlog = LOGSIZE) is on the wrong side of that condition. */
  lemma ShippedLayoutRefuses()
    ensures RefusalReachable(Geometry(2, LOGSIZE, 2000, LOGSIZE, 64))
  {
    var hs := seq(LOGSIZE, i => 100 + i);
    RefusalIffLogTooSmall(Geometry(2, LOGSIZE, 2000, LOGSIZE, 64), hs);
  }
}
