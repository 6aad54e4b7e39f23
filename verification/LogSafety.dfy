/**
Every step of the log and cache machine keeps its invariant, and what that means over whole
runs with any number of crashes.
*/
module LogSafety {
  import opened Blocks
  import opened Options
  import opened Rings
  import opened LogSystem

  // ---------------------------------------------------------------------------------------
  // The cache
  // ---------------------------------------------------------------------------------------

  /** A step that rewrites buffer `i` without giving it another block. */
  lemma OneBufferChanges(g: Geometry, s: State, s': State, i: nat)
    requires Inv(g, s) && Shape(g, s') && i < g.nbuf
    requires s'.bufs == s.bufs[i := s'.bufs[i]]
    requires s'.bufs[i].dev == s.bufs[i].dev && s'.bufs[i].blockno == s.bufs[i].blockno
    requires s.bufs[i].valid ==> s'.bufs[i].valid
    requires forall j | 0 <= j < g.nbuf :: BufOk(g, s'.log, s'.ops, s'.bufs[j])
    requires forall b | b in Pinned(s'.log) :: b in Pinned(s.log) || (Holds(s'.bufs[i], b) && s'.bufs[i].valid)
    ensures CacheInv(g, s')
  {
    forall b | b in Pinned(s'.log)
      ensures CachedValid(s'.bufs, b)
    {
      if b in Pinned(s.log) {
        assert CachedValid(s.bufs, b);
        var j :| 0 <= j < g.nbuf && Holds(s.bufs[j], b) && s.bufs[j].valid;
        assert Holds(s'.bufs[j], b) && s'.bufs[j].valid;
      }
    }
  }

  lemma KeepsHit(g: Geometry, s: State, p: Pid, b: nat, i: nat)
    requires Inv(g, s) && CanHit(g, s, p, b, i)
    ensures Inv(g, DoHit(g, s, p, b, i))
  {
    var s' := DoHit(g, s, p, b, i);
    assert BufOk(g, s.log, s.ops, s.bufs[i]);
    OneBufferChanges(g, s, s', i);
  }

  lemma KeepsLock(g: Geometry, s: State, p: Pid, i: nat)
    requires Inv(g, s) && CanLock(g, s, p, i)
    ensures Inv(g, DoLock(g, s, p, i))
  {
    var s' := DoLock(g, s, p, i);
    assert BufOk(g, s.log, s.ops, s.bufs[i]);
    OneBufferChanges(g, s, s', i);
  }

  lemma KeepsReadIn(g: Geometry, s: State, p: Pid, i: nat)
    requires Inv(g, s) && CanReadIn(g, s, p, i)
    ensures Inv(g, DoReadIn(g, s, p, i))
  {
    var s' := DoReadIn(g, s, p, i);
    assert BufOk(g, s.log, s.ops, s.bufs[i]);
    OneBufferChanges(g, s, s', i);
  }

  lemma KeepsUnlock(g: Geometry, s: State, p: Pid, i: nat)
    requires Inv(g, s) && CanUnlock(g, s, p, i)
    ensures Inv(g, DoUnlock(g, s, p, i))
  {
    var s' := DoUnlock(g, s, p, i);
    assert BufOk(g, s.log, s.ops, s.bufs[i]);
    OneBufferChanges(g, s, s', i);
  }

  lemma KeepsDrop(g: Geometry, s: State, p: Pid, i: nat)
    requires Inv(g, s) && CanDrop(g, s, p, i)
    ensures Inv(g, DoDrop(g, s, p, i))
  {
    var s' := DoDrop(g, s, p, i);
    assert BufOk(g, s.log, s.ops, s.bufs[i]);
    OneBufferChanges(g, s, s', i);
  }

  lemma KeepsModify(g: Geometry, s: State, p: Pid, i: nat, d: Block)
    requires Inv(g, s) && CanModify(g, s, p, i)
    ensures Inv(g, DoModify(g, s, p, i, d))
  {
    var s' := DoModify(g, s, p, i, d);
    assert BufOk(g, s.log, s.ops, s.bufs[i]);
    OneBufferChanges(g, s, s', i);
  }

  /** A recycled buffer is referenced by nobody, so the log does not pin it. */
  lemma KeepsMiss(g: Geometry, s: State, p: Pid, b: nat, i: nat)
    requires Inv(g, s) && CanMiss(g, s, p, b, i)
    ensures !(s.bufs[i].dev == ROOTDEV && s.bufs[i].blockno in Pinned(s.log))
    ensures Inv(g, DoMiss(g, s, p, b, i))
  {
    var s' := DoMiss(g, s, p, b, i);
    assert BufOk(g, s.log, s.ops, s.bufs[i]);
    forall c | c in Pinned(s.log)
      ensures CachedValid(s'.bufs, c) && c != b
    {
      assert CachedValid(s.bufs, c);
      var j :| 0 <= j < g.nbuf && Holds(s.bufs[j], c) && s.bufs[j].valid;
      assert j != i;
      assert Holds(s'.bufs[j], c) && s'.bufs[j].valid;
    }
    assert BufOk(g, s.log, s.ops, s'.bufs[i]);
  }

  /** Nobody is inside an operation, so no buffer has unlogged changes. */
  lemma CleanWhenIdle(g: Geometry, s: State)
    requires Inv(g, s) && s.outstanding == 0
    ensures forall i | 0 <= i < g.nbuf :: !s.bufs[i].dirty
    ensures forall i | 0 <= i < g.nbuf && s.bufs[i].valid :: s.bufs[i].data == View(g, s.log, s.bufs[i].blockno)
  {
    NoOpsLeft(s.ops);
    assert forall i | 0 <= i < g.nbuf :: BufOk(g, s.log, s.ops, s.bufs[i]);
  }

  /**
  A step between operations that stores the same contents in a buffer and in its block on disk
  keeps the cache part; `unpin` says whether it also drops the log's reference to that block.
  */
  lemma WriteThrough(g: Geometry, s: State, l': Log, i: nat, d: Block, unpin: bool)
    requires Inv(g, s) && LogShape(g, l') && i < g.nbuf && s.outstanding == 0
    requires s.bufs[i].dev == ROOTDEV && s.bufs[i].valid
    requires l'.disk == s.log.disk[s.bufs[i].blockno := d]
    requires if Recovery(s.log) then Recovery(l') || l'.logical == l'.disk
             else !Recovery(l') && l'.logical == s.log.logical
                  && (Home(g, s.bufs[i].blockno) ==> l'.logical[s.bufs[i].blockno] == d)
    requires if unpin then Pinned(s.log) == [s.bufs[i].blockno] + Pinned(l') && s.bufs[i].blockno !in Pinned(l')
             else Pinned(l') == Pinned(s.log)
    ensures var f := s.bufs[i].(data := d, refcnt := s.bufs[i].refcnt - if unpin then 1 else 0);
            var s' := State(l', s.bufs[i := f], s.outstanding, s.ops);
            Shape(g, s') && CacheInv(g, s')
  {
    var f := s.bufs[i].(data := d, refcnt := s.bufs[i].refcnt - if unpin then 1 else 0);
    var s' := State(l', s.bufs[i := f], s.outstanding, s.ops);
    CleanWhenIdle(g, s);
    forall j | 0 <= j < g.nbuf
      ensures BufOk(g, s'.log, s'.ops, s'.bufs[j])
    {
      assert BufOk(g, s.log, s.ops, s.bufs[j]);
      assert j != i && s.bufs[j].dev == ROOTDEV ==> s.bufs[j].blockno != s.bufs[i].blockno;
    }
    OneBufferChanges(g, s, s', i);
  }

  // ---------------------------------------------------------------------------------------
  // Reservations
  // ---------------------------------------------------------------------------------------

  lemma {:induction false} OpsUpdate(ops: seq<Option<nat>>, p: nat, v: Option<nat>)
    requires p < |ops|
    ensures Outstanding(ops[p := v]) == Outstanding(ops) - (if ops[p].Some? then 1 else 0) + (if v.Some? then 1 else 0)
    ensures Unused(ops[p := v]) == Unused(ops)
            - (if ops[p].Some? then MAXOPBLOCKS - ops[p].value else 0)
            + (if v.Some? then MAXOPBLOCKS - v.value else 0)
  {
    var n := |ops| - 1;
    if p == n {
      assert ops[p := v][..n] == ops[..n];
    } else {
      OpsUpdate(ops[..n], p, v);
      assert ops[p := v][..n] == ops[..n][p := v];
    }
  }

  lemma {:induction false} UnusedBounds(ops: seq<Option<nat>>)
    requires forall p | 0 <= p < |ops| && ops[p].Some? :: ops[p].value <= MAXOPBLOCKS
    ensures 0 <= Unused(ops) <= Outstanding(ops) * MAXOPBLOCKS
  {
    if ops != [] {
      UnusedBounds(ops[..|ops| - 1]);
    }
  }

  /** The unused reservation of one operation is part of the total. */
  lemma UnusedShare(ops: seq<Option<nat>>, p: nat)
    requires forall q | 0 <= q < |ops| && ops[q].Some? :: ops[q].value <= MAXOPBLOCKS
    requires p < |ops| && ops[p].Some?
    ensures Unused(ops) >= MAXOPBLOCKS - ops[p].value
    ensures Outstanding(ops) >= 1
  {
    OpsUpdate(ops, p, None);
    UnusedBounds(ops[p := None]);
  }

  lemma {:induction false} NoOpsLeft(ops: seq<Option<nat>>)
    requires Outstanding(ops) == 0
    ensures forall p | 0 <= p < |ops| :: ops[p].None?
    ensures Unused(ops) == 0
  {
    if ops != [] {
      NoOpsLeft(ops[..|ops| - 1]);
      assert forall p | 0 <= p < |ops| - 1 :: ops[p] == ops[..|ops| - 1][p];
    }
  }

  lemma {:induction false} IdleOps(ops: seq<Option<nat>>)
    requires forall p | 0 <= p < |ops| :: ops[p].None?
    ensures Outstanding(ops) == 0 && Unused(ops) == 0
  {
    if ops != [] {
      IdleOps(ops[..|ops| - 1]);
    }
  }

  /** Steps that leave the buffers and all contents alone keep the cache part. */
  lemma SameCache(g: Geometry, s: State, s': State)
    requires Inv(g, s) && Shape(g, s') && s'.bufs == s.bufs
    requires s'.log.disk == s.log.disk && s'.log.logical == s.log.logical && Pinned(s'.log) == Pinned(s.log)
    requires Recovery(s.log) <==> Recovery(s'.log)
    requires forall p | 0 <= p < g.nproc && s.ops[p].Some? && s'.ops[p].None? ::
               forall i | 0 <= i < g.nbuf :: s.bufs[i].dirty ==> s.bufs[i].owner != Some(p)
    ensures CacheInv(g, s')
  {
    forall j | 0 <= j < g.nbuf
      ensures BufOk(g, s'.log, s'.ops, s'.bufs[j])
    {
      assert BufOk(g, s.log, s.ops, s.bufs[j]);
    }
  }

  lemma KeepsBegin(g: Geometry, s: State, p: Pid)
    requires Inv(g, s) && CanBegin(g, s, p)
    ensures Inv(g, DoBegin(g, s, p))
  {
    OpsUpdate(s.ops, p, Some(0));
    UnusedBounds(s.ops);
    SameCache(g, s, DoBegin(g, s, p));
  }

  /** The last operation out starts the commit; end_op never meets a commit under way. */
  lemma KeepsEnd(g: Geometry, s: State, p: Pid)
    requires Inv(g, s) && EndCall(g, s, p)
    ensures !Committing(s.log)
    ensures Inv(g, DoEnd(g, s, p))
  {
    var s' := DoEnd(g, s, p);
    OpsUpdate(s.ops, p, None);
    UnusedShare(s.ops, p);
    assert s.log.phase.Running?;
    assert DiskInv(g, s'.log);
    SameCache(g, s, s');
  }

  lemma KeepsCommitDone(g: Geometry, s: State)
    requires Inv(g, s) && s.log.phase.Finishing?
    ensures Inv(g, s.(log := s.log.(phase := Running)))
  {
    var s' := s.(log := s.log.(phase := Running));
    assert DiskInv(g, s'.log);
    SameCache(g, s, s');
  }

  // ---------------------------------------------------------------------------------------
  // log_write
  // ---------------------------------------------------------------------------------------

  lemma LogWriteDisk(g: Geometry, l: Log, b: nat, d: Block)
    requires LogShape(g, l) && DiskInv(g, l) && l.phase.Running? && Home(g, b)
    requires |l.lh| < LOGSIZE && |l.lh| < g.size - 1
    ensures var l' := l.(lh := Absorb(l.lh, b), logical := l.logical[b := d]);
            LogShape(g, l') && DiskInv(g, l')
  {
  }

  lemma LogWriteBuf(g: Geometry, s: State, p: Pid, i: nat, j: nat)
    requires Inv(g, s) && LogWriteCall(g, s, p, i) && s.log.phase.Running? && j < g.nbuf
    requires Shape(g, DoLogWrite(g, s, p, i))
    ensures var s' := DoLogWrite(g, s, p, i); BufOk(g, s'.log, s'.ops, s'.bufs[j])
  {
    assert BufOk(g, s.log, s.ops, s.bufs[j]);
    assert j != i && s.bufs[j].dev == ROOTDEV ==> s.bufs[j].blockno != s.bufs[i].blockno;
  }

  lemma KeepsLogWrite(g: Geometry, s: State, p: Pid, i: nat)
    requires Inv(g, s) && LogWriteCall(g, s, p, i) && LogWriteGuard(g, s)
    ensures Inv(g, DoLogWrite(g, s, p, i))
  {
    var s' := DoLogWrite(g, s, p, i);
    UnusedShare(s.ops, p);
    OpsUpdate(s.ops, p, Some(s.ops[p].value + 1));
    LogWriteDisk(g, s.log, s.bufs[i].blockno, s.bufs[i].data);
    forall j: nat | j < g.nbuf
      ensures BufOk(g, s'.log, s'.ops, s'.bufs[j])
    {
      LogWriteBuf(g, s, p, i, j);
    }
    OneBufferChanges(g, s, s', i);
  }

  // ---------------------------------------------------------------------------------------
  // commit
  // ---------------------------------------------------------------------------------------

  lemma CopyDisk(g: Geometry, l: Log, p: Pid)
    requires LogShape(g, l) && DiskInv(g, l) && l.phase.WritingLog? && l.phase.t < |l.lh|
    ensures var l' := l.(disk := l.disk[g.start + 1 + l.phase.t := l.logical[l.lh[l.phase.t]]],
                         phase := WritingLog(p, l.phase.t + 1));
            LogShape(g, l') && DiskInv(g, l')
  {
  }

  lemma KeepsCopy(g: Geometry, s: State, p: Pid, to: nat, from: nat)
    requires Inv(g, s) && CanCopy(g, s, p, to, from)
    ensures Inv(g, DoCopy(g, s, p, to, from))
  {
    var s' := DoCopy(g, s, p, to, from);
    assert LogShape(g, s'.log) && DiskInv(g, s'.log) by {
      CleanWhenIdle(g, s);
      CopyDisk(g, s.log, p);
    }
    WriteThrough(g, s, s'.log, to, s.bufs[from].data, false);
  }

  /** The commit point: the header write makes the logical contents the ones a crash recovers. */
  lemma WriteHeadDisk(g: Geometry, l: Log, p: Pid, d: Block)
    requires LogShape(g, l) && DiskInv(g, l) && l.phase == WritingLog(p, |l.lh|)
    requires HeaderOk(d) && HeaderOf(d) == l.lh
    ensures var l' := l.(disk := l.disk[g.start := d], phase := Installing(p, 0), committed := l.logical);
            LogShape(g, l') && DiskInv(g, l')
  {
    assert l.lh[0..] == l.lh;
  }

  lemma KeepsWriteHead(g: Geometry, s: State, p: Pid, i: nat)
    requires Inv(g, s) && CanWriteHead(g, s, p, i)
    ensures Inv(g, DoWriteHead(g, s, p, i))
  {
    var s' := DoWriteHead(g, s, p, i);
    var d := EncodeHeader(s.bufs[i].data, s.log.lh);
    WriteHeadDisk(g, s.log, p, d);
    assert s.log.lh[0..] == s.log.lh;
    WriteThrough(g, s, s'.log, i, d, false);
  }

  /** Writing one logged block home does not change what the disk recovers to. */
  lemma InstalledBlock(g: Geometry, d: seq<Block>, c: seq<Block>, lh: seq<nat>, t: nat)
    requires GeometryOk(g) && |d| == g.nblocks == |c| && RecoversTo(g, d, c)
    requires HeaderOf(d[g.start]) == lh && t < |lh|
    ensures var d' := d[lh[t] := c[lh[t]]];
            RecoversTo(g, d', c) && forall b: nat | b < g.nblocks && b != lh[t] :: d'[b] == d[b]
  {
    assert Home(g, lh[t]);
  }

  lemma InstallDisk(g: Geometry, l: Log, p: Pid)
    requires LogShape(g, l) && DiskInv(g, l) && l.phase.Installing? && l.phase.t < |l.lh|
    ensures var l' := l.(disk := l.disk[l.lh[l.phase.t] := l.logical[l.lh[l.phase.t]]],
                         phase := Installing(p, l.phase.t + 1));
            LogShape(g, l') && DiskInv(g, l')
  {
    var t := l.phase.t;
    var b := l.lh[t];
    var l' := l.(disk := l.disk[b := l.logical[b]], phase := Installing(p, t + 1));
    assert Home(g, b) && l.committed[b] == l.logical[b];
    InstalledBlock(g, l.disk, l.committed, l.lh, t);
    assert l'.disk[g.start] == l.disk[g.start];
    InstallOverlay(g, l, l', t);
  }

  lemma InstallOverlay(g: Geometry, l: Log, l': Log, t: nat)
    requires LogShape(g, l) && t < |l.lh| && Overlay(g, l, l.lh[t..]) && LogHolds(g, l, |l.lh|)
    requires l' == l.(disk := l.disk[l.lh[t] := l.logical[l.lh[t]]], phase := l'.phase) && LogShape(g, l')
    ensures Overlay(g, l', l.lh[t + 1..]) && LogHolds(g, l', |l.lh|)
  {
    DistinctTail(l.lh, t);
    assert Home(g, l.lh[t]);
  }

  /** install_trans copies what the log block holds, which is the last logged contents. */
  lemma LogBlockData(g: Geometry, s: State, p: Pid, l: nat, h: nat)
    requires Inv(g, s) && CanInstall(g, s, p, l, h)
    ensures s.bufs[l].data == s.log.logical[s.log.lh[s.log.phase.t]]
  {
    CleanWhenIdle(g, s);
  }

  lemma DistinctTail(lh: seq<nat>, t: nat)
    requires Distinct(lh) && t < |lh|
    ensures lh[t..] == [lh[t]] + lh[t + 1..] && lh[t] !in lh[t + 1..]
  {
  }

  lemma InstallCache(g: Geometry, s: State, p: Pid, l: nat, h: nat)
    requires Inv(g, s) && CanInstall(g, s, p, l, h)
    requires s.bufs[l].data == s.log.logical[s.log.lh[s.log.phase.t]]
    ensures Shape(g, DoInstall(g, s, p, l, h)) && CacheInv(g, DoInstall(g, s, p, l, h))
  {
    hide DiskInv, CacheInv;
    var s' := DoInstall(g, s, p, l, h);
    var t := s.log.phase.t;
    DistinctTail(s.log.lh, t);
    assert Pinned(s.log) == s.log.lh[t..] && Pinned(s'.log) == s.log.lh[t + 1..];
    assert s.bufs[h].blockno == s.log.lh[t];
    WriteThrough(g, s, s'.log, h, s.bufs[l].data, true);
  }

  lemma KeepsInstall(g: Geometry, s: State, p: Pid, l: nat, h: nat)
    requires Inv(g, s) && CanInstall(g, s, p, l, h)
    ensures Inv(g, DoInstall(g, s, p, l, h))
  {
    LogBlockData(g, s, p, l, h);
    InstallDisk(g, s.log, p);
    InstallCache(g, s, p, l, h);
  }

  lemma ClearDisk(g: Geometry, l: Log, p: Pid, d: Block)
    requires LogShape(g, l) && DiskInv(g, l) && l.phase == Installing(p, |l.lh|)
    requires HeaderOk(d) && HeaderOf(d) == []
    ensures var l' := l.(disk := l.disk[g.start := d], phase := Finishing(p), lh := []);
            LogShape(g, l') && DiskInv(g, l')
  {
    assert l.lh[|l.lh|..] == [];
  }

  lemma KeepsClear(g: Geometry, s: State, p: Pid, i: nat)
    requires Inv(g, s) && CanClear(g, s, p, i)
    ensures Inv(g, DoClear(g, s, p, i))
  {
    var s' := DoClear(g, s, p, i);
    var d := EncodeHeader(s.bufs[i].data, []);
    ClearDisk(g, s.log, p, d);
    assert s.log.lh[|s.log.lh|..] == [];
    WriteThrough(g, s, s'.log, i, d, false);
    NoOpsLeft(s.ops);
  }

  // ---------------------------------------------------------------------------------------
  // Crash and recovery
  // ---------------------------------------------------------------------------------------

  lemma KeepsCrash(g: Geometry, s: State)
    requires Inv(g, s)
    ensures Inv(g, BootState(g, s.log.disk, s.log.committed))
  {
    IdleOps(BootState(g, s.log.disk, s.log.committed).ops);
  }

  lemma KeepsReadHead(g: Geometry, s: State, p: Pid, i: nat)
    requires Inv(g, s) && CanReadHead(g, s, p, i)
    ensures Inv(g, DoReadHead(g, s, p, i))
  {
    CleanWhenIdle(g, s);
    SameCache(g, s, DoReadHead(g, s, p, i));
  }

  lemma RecoverDisk(g: Geometry, l: Log)
    requires LogShape(g, l) && DiskInv(g, l) && l.phase.Recovering? && l.phase.t < |l.lh|
    ensures var l' := l.(disk := l.disk[l.lh[l.phase.t] := l.disk[g.start + 1 + l.phase.t]],
                         phase := Recovering(l.phase.t + 1));
            LogShape(g, l') && DiskInv(g, l')
  {
    var t := l.phase.t;
    var l' := l.(disk := l.disk[l.lh[t] := l.disk[g.start + 1 + t]], phase := Recovering(t + 1));
    InstalledBlock(g, l.disk, l.committed, l.lh, t);
    forall k | 0 <= k < t + 1
      ensures l'.disk[l.lh[k]] == l'.disk[g.start + 1 + k]
    {
      assert !Home(g, g.start + 1 + k) && Home(g, l.lh[k]);
    }
  }

  lemma KeepsRecover(g: Geometry, s: State, p: Pid, l: nat, h: nat)
    requires Inv(g, s) && CanRecover(g, s, p, l, h)
    ensures Inv(g, DoRecover(g, s, p, l, h))
  {
    hide DiskInv, CacheInv;
    var s' := DoRecover(g, s, p, l, h);
    CleanWhenIdle(g, s);
    RecoverDisk(g, s.log);
    WriteThrough(g, s, s'.log, h, s.bufs[l].data, false);
  }

  lemma RecoverDoneDisk(g: Geometry, l: Log, d: Block)
    requires LogShape(g, l) && DiskInv(g, l) && l.phase == Recovering(|l.lh|)
    requires HeaderOk(d) && HeaderOf(d) == []
    ensures var disk := l.disk[g.start := d];
            var l' := l.(disk := disk, phase := Running, lh := [], logical := disk);
            LogShape(g, l') && DiskInv(g, l')
  {
  }

  lemma KeepsRecoverDone(g: Geometry, s: State, p: Pid, i: nat)
    requires Inv(g, s) && CanRecoverDone(g, s, p, i)
    ensures Inv(g, DoRecoverDone(g, s, p, i))
  {
    var s' := DoRecoverDone(g, s, p, i);
    var d := EncodeHeader(s.bufs[i].data, []);
    RecoverDoneDisk(g, s.log, d);
    WriteThrough(g, s, s'.log, i, d, false);
    NoOpsLeft(s.ops);
  }

  // ---------------------------------------------------------------------------------------
  // All steps, all runs
  // ---------------------------------------------------------------------------------------

  lemma StepKeepsInv(g: Geometry, s: State, a: Action)
    requires Inv(g, s) && Enabled(g, s, a)
    ensures Inv(g, Apply(g, s, a))
  {
    match a
    case BgetHit(p, b, i) => KeepsHit(g, s, p, b, i);
    case BgetMiss(p, b, i) => KeepsMiss(g, s, p, b, i);
    case LockBuf(p, i) => KeepsLock(g, s, p, i);
    case ReadIn(p, i) => KeepsReadIn(g, s, p, i);
    case Modify(p, i, d) => KeepsModify(g, s, p, i, d);
    case LogWrite(p, i) => KeepsLogWrite(g, s, p, i);
    case UnlockBuf(p, i) => KeepsUnlock(g, s, p, i);
    case DropRef(p, i) => KeepsDrop(g, s, p, i);
    case BeginOp(p) => KeepsBegin(g, s, p);
    case EndOp(p) => KeepsEnd(g, s, p);
    case CopyToLog(p, to, from) => KeepsCopy(g, s, p, to, from);
    case WriteHead(p, i) => KeepsWriteHead(g, s, p, i);
    case InstallBlock(p, l, h) => KeepsInstall(g, s, p, l, h);
    case ClearHead(p, i) => KeepsClear(g, s, p, i);
    case CommitDone(p) => KeepsCommitDone(g, s);
    case Crash => KeepsCrash(g, s);
    case ReadHead(p, i) => KeepsReadHead(g, s, p, i);
    case RecoverBlock(p, l, h) => KeepsRecover(g, s, p, l, h);
    case RecoverDone(p, i) => KeepsRecoverDone(g, s, p, i);
  }

  /** The steps `acts` lead from `s0` to `s`. */
  ghost predicate Reaches(g: Geometry, s0: State, acts: seq<Action>, s: State)
    decreases |acts|
  {
    if acts == [] then s == s0
    else
      var mid := acts[..|acts| - 1];
      exists q :: Reaches(g, s0, mid, q) && Shape(g, q) && Enabled(g, q, acts[|acts| - 1])
                  && s == Apply(g, q, acts[|acts| - 1])
  }

  lemma {:induction false} RunKeepsInv(g: Geometry, s0: State, acts: seq<Action>, s: State)
    requires Inv(g, s0) && Reaches(g, s0, acts, s)
    ensures Inv(g, s)
    decreases |acts|
  {
    if acts != [] {
      var mid, a := acts[..|acts| - 1], acts[|acts| - 1];
      var q :| Reaches(g, s0, mid, q) && Shape(g, q) && Enabled(g, q, a) && s == Apply(g, q, a);
      RunKeepsInv(g, s0, mid, q);
      StepKeepsInv(g, q, a);
    }
  }

  /** Power on with any disk whose log area is well formed. */
  ghost predicate Initial(g: Geometry, s: State)
  {
    && GeometryOk(g) && |s.log.disk| == g.nblocks == |s.log.committed|
    && s == BootState(g, s.log.disk, s.log.committed) && RecoversTo(g, s.log.disk, s.log.committed)
  }

  lemma InitialInv(g: Geometry, s: State)
    requires Initial(g, s)
    ensures Inv(g, s)
  {
    IdleOps(s.ops);
  }

  // ---------------------------------------------------------------------------------------
  // What the invariant gives
  // ---------------------------------------------------------------------------------------

  /** A process that holds a block with nothing unlogged in it reads the last logged contents, or the disk's. */
  lemma ReadSeesLastLogged(g: Geometry, s: State, p: Pid, i: nat, b: nat)
    requires Inv(g, s) && Owns(g, s, p, i, b) && !s.bufs[i].dirty
    ensures s.bufs[i].data == View(g, s.log, b)
    ensures !Recovery(s.log) && b !in s.log.lh ==> s.bufs[i].data == s.log.disk[b]
  {
    assert BufOk(g, s.log, s.ops, s.bufs[i]);
  }

  lemma LockedIsReferenced(g: Geometry, s: State, i: nat)
    requires Inv(g, s) && i < g.nbuf && s.bufs[i].owner.Some?
    ensures s.bufs[i].refcnt > 0
  {
    assert BufOk(g, s.log, s.ops, s.bufs[i]);
  }

  /** While a process holds a buffer's lock no other one changes which block it is, its contents or its lock. */
  lemma HeldBufferIsPrivate(g: Geometry, s: State, a: Action, i: nat, q: Pid)
    requires Inv(g, s) && Enabled(g, s, a) && !a.Crash? && i < g.nbuf && s.bufs[i].owner == Some(q) && a.p != q
    ensures var f, f' := s.bufs[i], Apply(g, s, a).bufs[i];
            f'.dev == f.dev && f'.blockno == f.blockno && f'.valid == f.valid && f'.data == f.data
            && f'.dirty == f.dirty && f'.owner == f.owner
  {
    hide DiskInv, CacheInv, AdmissionInv, HeaderOf, EncodeHeader;
    LockedIsReferenced(g, s, i);
  }

  /** A logged block whose home copy may be stale is cached, valid and pinned. */
  lemma StaleBlocksStayCached(g: Geometry, s: State, b: nat)
    requires Inv(g, s) && !Recovery(s.log) && Home(g, b) && s.log.disk[b] != s.log.logical[b]
    ensures b in s.log.lh
    ensures exists i :: 0 <= i < g.nbuf && Holds(s.bufs[i], b) && s.bufs[i].valid && s.bufs[i].refcnt > 0
  {
    assert b in Pinned(s.log);
    assert CachedValid(s.bufs, b);
    var i :| 0 <= i < g.nbuf && Holds(s.bufs[i], b) && s.bufs[i].valid;
    assert BufOk(g, s.log, s.ops, s.bufs[i]);
  }

  /** Only the header write of commit changes what a crash recovers, and then nobody is inside an operation. */
  lemma OnlyWriteHeadCommits(g: Geometry, s: State, a: Action)
    requires Inv(g, s) && Enabled(g, s, a)
    ensures if a.WriteHead? then s.outstanding == 0 && Apply(g, s, a).log.committed == s.log.logical
            else Apply(g, s, a).log.committed == s.log.committed
  {
  }

  predicate NoCommit(acts: seq<Action>)
  {
    forall k | 0 <= k < |acts| :: !acts[k].WriteHead?
  }

  /** `c` is everything logged when the last commit of the run wrote its header, with no operation under way. */
  ghost predicate LastCommitted(g: Geometry, s0: State, acts: seq<Action>, c: seq<Block>)
  {
    exists m, q :: 0 <= m < |acts| && acts[m].WriteHead? && NoCommit(acts[m + 1..]) && Reaches(g, s0, acts[..m], q)
                   && q.outstanding == 0 && c == q.log.logical
  }

  /** A step that is no header write leaves the last commit what it was. */
  lemma SameLastCommit(g: Geometry, s0: State, acts: seq<Action>, n: nat, c: seq<Block>)
    requires n + 1 == |acts| && !acts[n].WriteHead? && LastCommitted(g, s0, acts[..n], c)
    ensures LastCommitted(g, s0, acts, c)
  {
    hide Reaches;
    var m, q :| 0 <= m < n && acts[..n][m].WriteHead? && NoCommit(acts[..n][m + 1..])
                && Reaches(g, s0, acts[..n][..m], q) && q.outstanding == 0 && c == q.log.logical;
    assert acts[..n][..m] == acts[..m];
    assert acts[m + 1..] == acts[..n][m + 1..] + [acts[n]];
  }

  lemma CommitNow(g: Geometry, s0: State, acts: seq<Action>, n: nat, q: State)
    requires n + 1 == |acts| && acts[n].WriteHead? && Reaches(g, s0, acts[..n], q) && q.outstanding == 0
    ensures LastCommitted(g, s0, acts, q.log.logical)
  {
    hide Reaches;
    assert NoCommit(acts[n + 1..]);
  }

  /** What a crash recovers is what the run started with if it did not commit, else the contents at its last commit. */
  lemma {:induction false} CommittedByRun(g: Geometry, s0: State, acts: seq<Action>, s: State)
    requires Inv(g, s0) && Reaches(g, s0, acts, s)
    ensures if NoCommit(acts) then s.log.committed == s0.log.committed else LastCommitted(g, s0, acts, s.log.committed)
    decreases |acts|
  {
    hide Inv, Enabled, Apply, LastCommitted, Shape;
    if acts != [] {
      var n := |acts| - 1;
      var q :| Reaches(g, s0, acts[..n], q) && Shape(g, q) && Enabled(g, q, acts[n]) && s == Apply(g, q, acts[n]);
      hide Reaches;
      RunKeepsInv(g, s0, acts[..n], q);
      OnlyWriteHeadCommits(g, q, acts[n]);
      CommittedByRun(g, s0, acts[..n], q);
      assert acts == acts[..n] + [acts[n]];
      if acts[n].WriteHead? {
        CommitNow(g, s0, acts, n, q);
      } else if !NoCommit(acts) {
        SameLastCommit(g, s0, acts, n, q.log.committed);
      }
    }
  }

  /**
  Crash atomicity over whole runs, with any number of crashes during commits and recoveries: the disk
  recovers to what the run started with if no commit wrote its header, else to everything logged when
  the last one did, at a moment when no operation was under way.
  */
  lemma CrashRecoversLastCommit(g: Geometry, s0: State, acts: seq<Action>, s: State)
    requires Inv(g, s0) && Reaches(g, s0, acts, s)
    ensures LogShape(g, s.log)
    ensures if NoCommit(acts) then RecoversTo(g, s.log.disk, s0.log.committed)
            else exists c :: |c| == g.nblocks && LastCommitted(g, s0, acts, c) && RecoversTo(g, s.log.disk, c)
  {
    RunKeepsInv(g, s0, acts, s);
    CommittedByRun(g, s0, acts, s);
  }

  /** When recovery ends, every home block on disk is the committed one and reads go by it. */
  lemma RecoveryRestoresCommitted(g: Geometry, s: State, p: Pid, i: nat, b: nat)
    requires Inv(g, s) && CanRecoverDone(g, s, p, i) && Home(g, b)
    ensures View(g, DoRecoverDone(g, s, p, i).log, b) == s.log.committed[b]
  {
    assert s.log.lh == HeaderOf(s.log.disk[g.start]);
    if b in s.log.lh {
      var k :| 0 <= k < |s.log.lh| && s.log.lh[k] == b;
      assert s.log.disk[s.log.lh[k]] == s.log.disk[g.start + 1 + k];
    }
  }

  /** Once a commit is over, everything that was logged is durable. */
  lemma FinishedCommitIsDurable(g: Geometry, s: State, b: nat)
    requires Inv(g, s) && s.log.phase.Finishing? && Home(g, b)
    ensures s.log.committed[b] == s.log.logical[b] == s.log.disk[b]
  {
  }

  /** Between operations and commits nothing waits in the log. */
  predicate IdleClean(s: State)
  {
    s.log.phase.Running? && s.outstanding == 0 ==> s.log.lh == []
  }

  lemma StepKeepsIdleClean(g: Geometry, s: State, a: Action)
    requires Inv(g, s) && Enabled(g, s, a) && IdleClean(s)
    ensures IdleClean(Apply(g, s, a))
  {
    hide CacheInv;
    if a.LogWrite? {
      UnusedShare(s.ops, a.p);
    }
  }

  /**
  In every run from boot, whenever no operation and no commit is under way, everything logged is committed and on
  disk: the last operation out commits, whatever the others did.
  */
  lemma {:induction false} IdleIsDurable(g: Geometry, s0: State, acts: seq<Action>, s: State, b: nat)
    requires Initial(g, s0) && Reaches(g, s0, acts, s) && Home(g, b)
    ensures LogShape(g, s.log) && IdleClean(s)
    ensures s.log.phase.Running? && s.outstanding == 0 ==>
              s.log.lh == [] && s.log.committed[b] == s.log.logical[b] == s.log.disk[b]
    decreases |acts|
  {
    InitialInv(g, s0);
    RunKeepsInv(g, s0, acts, s);
    hide CacheInv;
    if acts != [] {
      var mid, a := acts[..|acts| - 1], acts[|acts| - 1];
      var q :| Reaches(g, s0, mid, q) && Shape(g, q) && Enabled(g, q, a) && s == Apply(g, q, a);
      IdleIsDurable(g, s0, mid, q, b);
      RunKeepsInv(g, s0, mid, q);
      StepKeepsIdleClean(g, q, a);
    }
  }

  /** While a commit runs nobody is inside an operation, nobody can start one, and end_op's panic is out of reach. */
  lemma CommitIsolation(g: Geometry, s: State, p: Pid)
    requires Inv(g, s) && Committing(s.log)
    ensures s.outstanding == 0 && !CanBegin(g, s, p) && !EndCall(g, s, p)
    ensures forall i :: !LogWriteCall(g, s, p, i)
  {
    NoOpsLeft(s.ops);
  }

  /** While a commit runs only steps of the committer change the log, the list or the disk. */
  lemma CommitIsTheCommitters(g: Geometry, s: State, a: Action)
    requires Inv(g, s) && Committing(s.log) && Enabled(g, s, a) && !a.Crash? && a.p != s.log.phase.who
    ensures Apply(g, s, a).log == s.log
  {
    if a.EndOp? || a.LogWrite? {
      CommitIsolation(g, s, a.p);
    }
    hide CacheInv, DiskInv;
  }

  /**
  Admission: the log list and all unused reservations fit, so with a log area above LOGSIZE only a full list
  refuses a call.
  */
  lemma AdmissionCoversLogWrite(g: Geometry, s: State, p: Pid, i: nat)
    requires Inv(g, s) && LogWriteCall(g, s, p, i)
    ensures |s.log.lh| + (MAXOPBLOCKS - s.ops[p].value) <= LOGSIZE
    ensures s.outstanding >= 1 && (g.size > LOGSIZE ==> (LogWriteGuard(g, s) <==> |s.log.lh| < LOGSIZE))
    ensures g.size > LOGSIZE && s.ops[p].value < MAXOPBLOCKS ==> LogWriteGuard(g, s)
  {
    UnusedShare(s.ops, p);
  }
}
