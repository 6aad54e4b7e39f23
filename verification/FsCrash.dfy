/**
File-level crash consistency: the log of LogSystem under the images of FsImage. If what is logged between two
moments without an operation under way is the effect of whole file operations, then after any crash, at any
moment of a run with any number of crashes, recovery yields a sound file system whose files are those after
the operations of the last commit.
*/
module FsCrash {
  import opened Blocks
  import opened Options
  import opened LogSystem
  import opened LogSafety
  import opened LogDriver
  import FsModel
  import FsRuns
  import FileSys
  import FsImage

  type Super = FsModel.Super
  type Op = FsRuns.Op

  // ---------------------------------------------------------------------------------------
  // Runs of operations over images
  // ---------------------------------------------------------------------------------------

  /** The layout: the log area holds no inode, free map or data block. */
  ghost predicate Layout(g: Geometry, sb: Super, n: nat)
  {
    && GeometryOk(g) && g.nblocks == sb.size && FsImage.InodeLayout(sb, n)
    && (forall b: nat {:trigger FsImage.IsBody(sb, b)} | b < sb.size && FsImage.IsBody(sb, b) :: Home(g, b))
    && (forall i: nat {:trigger FileSys.IBlock(sb, i)} | i < n :: Home(g, FileSys.IBlock(sb, i)))
  }

  /** The layout that mkfs writes: boot block, superblock, log, inodes, free map, data. */
  lemma ShippedLayout(nbuf: nat, nproc: nat)
    ensures Layout(Geometry(2, LOGSIZE, 2000, nbuf, nproc), FsModel.Super(2000, 45, 32, 46), 200)
  {
  }

  /** Only home blocks matter for what is stored. */
  lemma StoredHome(g: Geometry, sb: Super, n: nat, d: Disk, d': Disk, s: FsModel.Fs)
    requires Layout(g, sb, n) && SameHome(g, d, d') && FsImage.Stored(sb, n, d, s)
    ensures FsImage.Stored(sb, n, d', s)
  {
    hide FsImage.HasInode;
    forall i: nat | i < n
      ensures FileSys.IBlock(sb, i) < |d'| && FsImage.HasInode(d'[FileSys.IBlock(sb, i)], i % FsModel.IPB, s.inodes[i])
    {
      var ino := s.inodes[i];
      assert Home(g, FileSys.IBlock(sb, i));
    }
    forall b: nat | b < |d'| && FsImage.IsBody(sb, b)
      ensures d'[b] == s.blocks[b]
    {
      assert Home(g, b) && d[b] == s.blocks[b];
    }
  }

  lemma OpStepHome(g: Geometry, sb: Super, n: nat, d: Disk, e: Disk, op: Op, d': Disk)
    requires Layout(g, sb, n) && SameHome(g, d, e) && FsImage.OpStep(sb, n, d, op, d')
    ensures FsImage.OpStep(sb, n, e, op, d')
  {
    hide FsImage.Stored, FsRuns.Sound, FsRuns.Step, Layout, SameHome;
    var s, s' :| FsRuns.Sound(sb, s) && FsImage.Stored(sb, n, d, s) && FsRuns.Step(sb, s, op, s')
                 && FsImage.Stored(sb, n, d', s');
    StoredHome(g, sb, n, d, e, s);
  }

  /** `ds[0]` is the first image, `ds[k + 1]` the one after `ops[k]`. */
  ghost predicate ImageRun(sb: Super, n: nat, ds: seq<Disk>, ops: seq<Op>)
  {
    |ds| == |ops| + 1 && forall k {:trigger ops[k]} | 0 <= k < |ops| :: FsImage.OpStep(sb, n, ds[k], ops[k], ds[k + 1])
  }

  lemma RunSize(sb: Super, n: nat, ds: seq<Disk>, ops: seq<Op>)
    requires ImageRun(sb, n, ds, ops)
    ensures |ds| == |ops| + 1
  {
  }

  /** `d'` comes from `d` by the whole operations `ops`. */
  ghost predicate Whole(g: Geometry, sb: Super, n: nat, d: Disk, d': Disk, ops: seq<Op>)
  {
    exists ds: seq<Disk> :: ImageRun(sb, n, ds, ops) && SameHome(g, d, ds[0]) && SameHome(g, d', ds[|ops|])
  }

  lemma RunPrefix(sb: Super, n: nat, ds: seq<Disk>, ops: seq<Op>, c: nat)
    requires ImageRun(sb, n, ds, ops) && c <= |ops|
    ensures ImageRun(sb, n, ds[..c + 1], ops[..c])
  {
    hide FsImage.OpStep;
    forall k | 0 <= k < c
      ensures FsImage.OpStep(sb, n, ds[..c + 1][k], ops[..c][k], ds[..c + 1][k + 1])
    {
      assert FsImage.OpStep(sb, n, ds[k], ops[k], ds[k + 1]);
    }
  }

  /** Two runs in a row. */
  lemma RunJoin(g: Geometry, sb: Super, n: nat, ds: seq<Disk>, ops: seq<Op>, es: seq<Disk>, more: seq<Op>)
    requires Layout(g, sb, n) && ImageRun(sb, n, ds, ops) && ImageRun(sb, n, es, more) && SameHome(g, ds[|ops|], es[0])
    ensures ImageRun(sb, n, ds + es[1..], ops + more)
  {
    hide FsImage.OpStep, Layout;
    var all, every := ds + es[1..], ops + more;
    forall k | 0 <= k < |every|
      ensures FsImage.OpStep(sb, n, all[k], every[k], all[k + 1])
    {
      if k < |ops| {
        assert FsImage.OpStep(sb, n, ds[k], ops[k], ds[k + 1]);
      } else {
        var j := k - |ops|;
        assert FsImage.OpStep(sb, n, es[j], more[j], es[j + 1]);
        assert all[k + 1] == es[j + 1] && every[k] == more[j];
        if j == 0 {
          HomeBack(g, ds[|ops|], es[0]);
          OpStepHome(g, sb, n, es[0], ds[|ops|], more[0], es[1]);
        }
      }
    }
  }

  lemma HomeBack(g: Geometry, a: Disk, b: Disk)
    requires SameHome(g, a, b)
    ensures SameHome(g, b, a)
  {
  }

  lemma HomeTrans(g: Geometry, a: Disk, b: Disk, c: Disk)
    requires SameHome(g, a, b) && SameHome(g, b, c)
    ensures SameHome(g, a, c)
  {
  }

  /** The files after the operations, on the simple side. */
  ghost predicate FilesAfter(f: seq<seq<byte>>, ops: seq<Op>, f': seq<seq<byte>>)
    decreases |ops|
  {
    if ops == [] then f' == f
    else
      var last := ops[|ops| - 1];
      exists m: seq<seq<byte>> ::
        FilesAfter(f, ops[..|ops| - 1], m) && FsRuns.Legal(m, last) && f' == FsRuns.Apply(m, last)
  }

  lemma {:induction false} RunFiles(sb: Super, n: nat, ds: seq<Disk>, ops: seq<Op>, c: nat)
    requires ImageRun(sb, n, ds, ops) && c <= |ops| && FsImage.Good(sb, n, ds[0])
    ensures FsImage.Good(sb, n, ds[c])
    ensures FilesAfter(FsImage.FilesOf(sb, n, ds[0]), ops[..c], FsImage.FilesOf(sb, n, ds[c]))
  {
    hide FsImage.OpStep, FsImage.Good, FsImage.FilesOf, FsRuns.Legal, FsRuns.Apply;
    if c > 0 {
      RunFiles(sb, n, ds, ops, c - 1);
      assert FsImage.OpStep(sb, n, ds[c - 1], ops[c - 1], ds[c]);
      FsImage.OpStepRefines(sb, n, ds[c - 1], ops[c - 1], ds[c]);
      assert ops[..c][..c - 1] == ops[..c - 1];
    }
  }

  // ---------------------------------------------------------------------------------------
  // Traces of the log
  // ---------------------------------------------------------------------------------------

  /** The states of a run, one more than its actions. */
  ghost predicate Trace(g: Geometry, ss: seq<State>, acts: seq<Action>)
  {
    && |ss| == |acts| + 1
    && forall k {:trigger acts[k]} | 0 <= k < |acts| ::
         Shape(g, ss[k]) && Enabled(g, ss[k], acts[k]) && ss[k + 1] == Apply(g, ss[k], acts[k])
  }

  lemma TraceStep(g: Geometry, ss: seq<State>, acts: seq<Action>, k: nat)
    requires Trace(g, ss, acts) && k < |acts|
    ensures |ss| == |acts| + 1 && Shape(g, ss[k]) && Enabled(g, ss[k], acts[k])
    ensures ss[k + 1] == Apply(g, ss[k], acts[k])
  {
    var a := acts[k];
  }

  lemma {:induction false} TraceInv(g: Geometry, ss: seq<State>, acts: seq<Action>, k: nat)
    requires Trace(g, ss, acts) && Inv(g, ss[0]) && k <= |acts|
    ensures Inv(g, ss[k])
  {
    hide Inv, Enabled, Apply, Shape;
    if k > 0 {
      TraceInv(g, ss, acts, k - 1);
      var a := acts[k - 1];
      StepKeepsInv(g, ss[k - 1], a);
    }
  }

  /** No operation is under way, and recovery is over. */
  predicate Quiet(s: State)
  {
    s.outstanding == 0 && !Recovery(s.log)
  }

  /** From one quiet state to the next, with operations under way in between. */
  ghost predicate Episode(ss: seq<State>, j: nat, m: nat)
  {
    && j + 1 < m < |ss| && Quiet(ss[j]) && Quiet(ss[m])
    && forall k: nat {:trigger ss[k]} | j < k < m :: ss[k].outstanding > 0
  }

  /** What each such episode logs is the effect of whole operations: `did[m]` for the one that ends at `m`. */
  ghost predicate Transactional(g: Geometry, sb: Super, n: nat, ss: seq<State>, did: seq<seq<Op>>)
  {
    && |did| == |ss|
    && forall j: nat, m: nat {:trigger Episode(ss, j, m)} | Episode(ss, j, m) ::
         Whole(g, sb, n, ss[j].log.logical, ss[m].log.logical, did[m])
  }

  lemma Sizes(g: Geometry, sb: Super, n: nat, ss: seq<State>, acts: seq<Action>, did: seq<seq<Op>>)
    requires Trace(g, ss, acts) && Transactional(g, sb, n, ss, did)
    ensures |ss| == |did| == |acts| + 1
  {
  }

  /** The operations done, of which the first `c` are committed. */
  datatype Past = Past(ops: seq<Op>, c: nat)

  /**
  What step `a` from `s` to `s'` adds to the past: `more` counts when its episode ends, the header write of a
  commit commits everything, the end of a recovery drops what was not committed.
  */
  ghost function NextPast(h: Past, s: State, a: Action, s': State, more: seq<Op>): (h': Past)
    requires h.c <= |h.ops|
    ensures h'.c <= |h'.ops|
  {
    if a.WriteHead? then Past(h.ops, |h.ops|)
    else if a.RecoverDone? then Past(h.ops[..h.c], h.c)
    else if Quiet(s') && s.outstanding > 0 then Past(h.ops + more, h.c)
    else h
  }

  /** The past at state `k`. */
  ghost function History(ss: seq<State>, acts: seq<Action>, did: seq<seq<Op>>, k: nat): (h: Past)
    requires |ss| == |did| == |acts| + 1 && k <= |acts|
    ensures h.c <= |h.ops|
  {
    if k == 0 then Past([], 0)
    else NextPast(History(ss, acts, did, k - 1), ss[k - 1], acts[k - 1], ss[k], did[k])
  }

  /** The last quiet state before `k`, with no crash since. */
  ghost predicate LastQuiet(ss: seq<State>, j: nat, k: nat)
  {
    j <= k < |ss| && Quiet(ss[j]) && forall i: nat {:trigger ss[i]} | j < i <= k :: ss[i].outstanding > 0
  }

  /**
  Images `ds` of the operations `ops` show what the run did so far: the committed contents are those after the
  first `c`, the last quiet contents those after all of them.
  */
  ghost predicate Explained(g: Geometry, sb: Super, n: nat, d0: Disk, ss: seq<State>, k: nat,
                            ds: seq<Disk>, ops: seq<Op>, c: nat)
    requires k < |ss|
  {
    && ImageRun(sb, n, ds, ops) && ds[0] == d0 && c <= |ops| && SameHome(g, ss[k].log.committed, ds[c])
    && (!Recovery(ss[k].log) ==>
          exists j: nat :: LastQuiet(ss, j, k) && SameHome(g, ss[j].log.logical, ds[|ops|]))
  }

  /** What one step does to the two contents and to who is inside. */
  lemma StepContents(g: Geometry, s: State, a: Action)
    requires Inv(g, s) && Enabled(g, s, a)
    ensures var s' := Apply(g, s, a);
            && (a.WriteHead? ==> Quiet(s) && Quiet(s') && s'.log.committed == s.log.logical)
            && (!a.WriteHead? ==> s'.log.committed == s.log.committed)
            && (!a.RecoverDone? && !Recovery(s'.log) ==>
                  !Recovery(s.log) && (!a.LogWrite? ==> s'.log.logical == s.log.logical))
            && (a.LogWrite? ==> s.outstanding > 0 && s'.outstanding > 0)
            && (!Recovery(s'.log) ==> s'.outstanding >= 0) && s.outstanding >= 0
  {
    hide CacheInv, DiskInv;
    OnlyWriteHeadCommits(g, s, a);
    if a.LogWrite? {
      UnusedShare(s.ops, a.p);
    }
    if a.EndOp? {
      UnusedShare(s.ops, a.p);
    }
  }

  lemma RecoveredContents(g: Geometry, s: State, a: Action)
    requires Inv(g, s) && Enabled(g, s, a) && a.RecoverDone?
    ensures Quiet(Apply(g, s, a)) && SameHome(g, Apply(g, s, a).log.logical, s.log.committed)
  {
    var s' := Apply(g, s, a);
    forall b: nat | Home(g, b)
      ensures s'.log.logical[b] == s.log.committed[b]
    {
      RecoveryRestoresCommitted(g, s, a.p, a.i, b);
    }
  }

  // ---- one step ----

  /** Steps that leave recovery and the two contents alone, or crash. */
  lemma KeepsExplained(g: Geometry, sb: Super, n: nat, d0: Disk, ss: seq<State>, acts: seq<Action>, k: nat,
                       ds: seq<Disk>, ops: seq<Op>, c: nat)
    requires Trace(g, ss, acts) && k < |acts| && Inv(g, ss[k]) && Explained(g, sb, n, d0, ss, k, ds, ops, c)
    requires !acts[k].WriteHead? && !acts[k].RecoverDone?
    requires !Recovery(ss[k + 1].log) ==> ss[k + 1].outstanding > 0 || ss[k].outstanding == 0
    ensures Explained(g, sb, n, d0, ss, k + 1, ds, ops, c)
  {
    hide Trace, Inv, Enabled, Apply, ImageRun, SameHome, Shape;
    TraceStep(g, ss, acts, k);
    StepContents(g, ss[k], acts[k]);
    RunSize(sb, n, ds, ops);
    if !Recovery(ss[k + 1].log) {
      var j: nat :| LastQuiet(ss, j, k) && SameHome(g, ss[j].log.logical, ds[|ops|]);
      if ss[k + 1].outstanding > 0 {
        assert LastQuiet(ss, j, k + 1);
      } else {
        assert j == k;
        assert LastQuiet(ss, k + 1, k + 1);
      }
    }
  }

  /** The header write of a commit: everything so far is committed. */
  lemma CommitExplained(g: Geometry, sb: Super, n: nat, d0: Disk, ss: seq<State>, acts: seq<Action>, k: nat,
                        ds: seq<Disk>, ops: seq<Op>, c: nat)
    requires Trace(g, ss, acts) && k < |acts| && Inv(g, ss[k]) && Explained(g, sb, n, d0, ss, k, ds, ops, c)
    requires acts[k].WriteHead?
    ensures Explained(g, sb, n, d0, ss, k + 1, ds, ops, |ops|)
  {
    hide Trace, Inv, Enabled, Apply, ImageRun, SameHome, Shape;
    TraceStep(g, ss, acts, k);
    StepContents(g, ss[k], acts[k]);
    RunSize(sb, n, ds, ops);
    var j: nat :| LastQuiet(ss, j, k) && SameHome(g, ss[j].log.logical, ds[|ops|]);
    assert j == k;
    assert LastQuiet(ss, k + 1, k + 1);
  }

  /** The end of recovery: what was not committed is gone. */
  lemma RecoveryExplained(g: Geometry, sb: Super, n: nat, d0: Disk, ss: seq<State>, acts: seq<Action>, k: nat,
                          ds: seq<Disk>, ops: seq<Op>, c: nat)
    requires Trace(g, ss, acts) && k < |acts| && Inv(g, ss[k]) && Explained(g, sb, n, d0, ss, k, ds, ops, c)
    requires acts[k].RecoverDone?
    ensures c <= |ops| < |ds| && Explained(g, sb, n, d0, ss, k + 1, ds[..c + 1], ops[..c], c)
  {
    hide Inv, Enabled, Apply, SameHome, Shape, FsImage.OpStep;
    var a := acts[k];
    StepContents(g, ss[k], a);
    RecoveredContents(g, ss[k], a);
    RunPrefix(sb, n, ds, ops, c);
    HomeTrans(g, ss[k + 1].log.logical, ss[k].log.committed, ds[c]);
    assert LastQuiet(ss, k + 1, k + 1);
  }

  /** The last operation of an episode ends: its operations join. */
  lemma EpisodeExplained(g: Geometry, sb: Super, n: nat, d0: Disk, ss: seq<State>, acts: seq<Action>, k: nat,
                         did: seq<seq<Op>>, ds: seq<Disk>, ops: seq<Op>, c: nat)
      returns (ds': seq<Disk>)
    requires Layout(g, sb, n) && Transactional(g, sb, n, ss, did)
    requires Trace(g, ss, acts) && k < |acts| && Inv(g, ss[k]) && Explained(g, sb, n, d0, ss, k, ds, ops, c)
    requires !acts[k].WriteHead? && !acts[k].RecoverDone? && Quiet(ss[k + 1]) && ss[k].outstanding > 0
    ensures Explained(g, sb, n, d0, ss, k + 1, ds', ops + did[k + 1], c)
  {
    hide Inv, Enabled, Apply, SameHome, Shape, FsImage.OpStep, Layout;
    var a := acts[k];
    StepContents(g, ss[k], a);
    var j: nat :| LastQuiet(ss, j, k) && SameHome(g, ss[j].log.logical, ds[|ops|]);
    assert Episode(ss, j, k + 1);
    var more := did[k + 1];
    var es :| ImageRun(sb, n, es, more) && SameHome(g, ss[j].log.logical, es[0])
              && SameHome(g, ss[k + 1].log.logical, es[|more|]);
    HomeBack(g, ss[j].log.logical, ds[|ops|]);
    HomeTrans(g, ds[|ops|], ss[j].log.logical, es[0]);
    RunJoin(g, sb, n, ds, ops, es, more);
    ds' := ds + es[1..];
    if more == [] {
      HomeBack(g, ds[|ops|], es[0]);
      HomeTrans(g, ss[k + 1].log.logical, es[0], ds[|ops|]);
    }
    assert ds'[|ops + more|] == if more == [] then ds[|ops|] else es[|more|];
    assert LastQuiet(ss, k + 1, k + 1);
  }

  lemma StartExplained(g: Geometry, sb: Super, n: nat, ss: seq<State>)
    requires |ss| > 0 && Initial(g, ss[0])
    ensures Explained(g, sb, n, ss[0].log.committed, ss, 0, [ss[0].log.committed], [], 0)
  {
  }

  lemma StepExplained(g: Geometry, sb: Super, n: nat, d0: Disk, ss: seq<State>, acts: seq<Action>, k: nat,
                      did: seq<seq<Op>>, ds: seq<Disk>, h: Past)
      returns (ds': seq<Disk>)
    requires Layout(g, sb, n) && Trace(g, ss, acts) && Transactional(g, sb, n, ss, did) && k < |acts|
    requires h.c <= |h.ops| && Inv(g, ss[k]) && Explained(g, sb, n, d0, ss, k, ds, h.ops, h.c)
    ensures var h' := NextPast(h, ss[k], acts[k], ss[k + 1], did[k + 1]);
            Explained(g, sb, n, d0, ss, k + 1, ds', h'.ops, h'.c)
  {
    hide Trace, Inv, Explained, Layout, Transactional, Enabled, Apply, Shape;
    Sizes(g, sb, n, ss, acts, did);
    var a := acts[k];
    TraceStep(g, ss, acts, k);
    StepContents(g, ss[k], a);
    ds' := ds;
    if a.WriteHead? {
      CommitExplained(g, sb, n, d0, ss, acts, k, ds, h.ops, h.c);
    } else if a.RecoverDone? {
      RecoveryExplained(g, sb, n, d0, ss, acts, k, ds, h.ops, h.c);
      ds' := ds[..h.c + 1];
    } else if Quiet(ss[k + 1]) && ss[k].outstanding > 0 {
      ds' := EpisodeExplained(g, sb, n, d0, ss, acts, k, did, ds, h.ops, h.c);
    } else {
      KeepsExplained(g, sb, n, d0, ss, acts, k, ds, h.ops, h.c);
    }
  }

  /** Every state of a run is explained by its past. */
  lemma {:induction false} TraceExplained(g: Geometry, sb: Super, n: nat, ss: seq<State>, acts: seq<Action>,
                                          did: seq<seq<Op>>, k: nat)
      returns (ds: seq<Disk>)
    requires Layout(g, sb, n) && Trace(g, ss, acts) && Initial(g, ss[0])
    requires Transactional(g, sb, n, ss, did) && k <= |acts|
    ensures var h := History(ss, acts, did, k); Explained(g, sb, n, ss[0].log.committed, ss, k, ds, h.ops, h.c)
  {
    hide Trace, Inv, Explained, Layout, Transactional, Initial, NextPast;
    Sizes(g, sb, n, ss, acts, did);
    InitialInv(g, ss[0]);
    if k == 0 {
      ds := [ss[0].log.committed];
      StartExplained(g, sb, n, ss);
    } else {
      ds := TraceExplained(g, sb, n, ss, acts, did, k - 1);
      TraceInv(g, ss, acts, k - 1);
      ds := StepExplained(g, sb, n, ss[0].log.committed, ss, acts, k - 1, did, ds, History(ss, acts, did, k - 1));
    }
  }

  // ---------------------------------------------------------------------------------------
  // The result
  // ---------------------------------------------------------------------------------------

  /** The disk recovers to image `d` of a sound file system whose files are those after the committed operations. */
  ghost predicate CrashConsistent(g: Geometry, sb: Super, n: nat, d0: Disk, disk: Disk, h: Past, d: Disk)
    requires GeometryOk(g) && |disk| == g.nblocks && FsImage.Good(sb, n, d0) && h.c <= |h.ops|
  {
    && |d| == g.nblocks && RecoversTo(g, disk, d) && FsImage.Good(sb, n, d)
    && FilesAfter(FsImage.FilesOf(sb, n, d0), h.ops[..h.c], FsImage.FilesOf(sb, n, d))
  }

  /**
  Crash at any state of any run: what recovery installs is a sound file system, and its files are those after
  the operations that were over when the last commit wrote its header, a prefix of all.
  */
  lemma CrashRecoversWholeOperations(g: Geometry, sb: Super, n: nat, ss: seq<State>, acts: seq<Action>,
                                     did: seq<seq<Op>>, k: nat)
      returns (d: Disk)
    requires Layout(g, sb, n) && Trace(g, ss, acts) && Initial(g, ss[0])
    requires Transactional(g, sb, n, ss, did) && k <= |acts| && FsImage.Good(sb, n, ss[0].log.committed)
    ensures LogShape(g, ss[k].log)
    ensures CrashConsistent(g, sb, n, ss[0].log.committed, ss[k].log.disk, History(ss, acts, did, k), d)
  {
    var ds := TraceExplained(g, sb, n, ss, acts, did, k);
    var h := History(ss, acts, did, k);
    InitialInv(g, ss[0]);
    TraceInv(g, ss, acts, k);
    d := ds[h.c];
    RecoversSame(g, ss[k].log.disk, ss[k].log.committed, d);
    hide Initial, Layout, Transactional, Trace, Inv, FsImage.Good, FsImage.FilesOf, History;
    RunFiles(sb, n, ds, h.ops, h.c);
  }

  lemma RecoversSame(g: Geometry, disk: Disk, c: Disk, d: Disk)
    requires GeometryOk(g) && |disk| == g.nblocks == |c| && RecoversTo(g, disk, c) && SameHome(g, c, d)
    ensures RecoversTo(g, disk, d)
  {
    var h := HeaderOf(disk[g.start]);
    forall k | 0 <= k < |h|
      ensures disk[g.start + 1 + k] == d[h[k]]
    {
      assert Home(g, h[k]);
    }
  }

  /** With nobody inside an operation, the files that reads go by are those after all operations so far. */
  lemma QuietFilesAreWhole(g: Geometry, sb: Super, n: nat, ss: seq<State>, acts: seq<Action>, did: seq<seq<Op>>, k: nat)
      returns (d: Disk)
    requires Layout(g, sb, n) && Trace(g, ss, acts) && Initial(g, ss[0])
    requires Transactional(g, sb, n, ss, did) && k <= |acts| && FsImage.Good(sb, n, ss[0].log.committed)
    requires Quiet(ss[k])
    ensures SameHome(g, ss[k].log.logical, d) && FsImage.Good(sb, n, d)
    ensures FilesAfter(FsImage.FilesOf(sb, n, ss[0].log.committed), History(ss, acts, did, k).ops,
                       FsImage.FilesOf(sb, n, d))
  {
    var ds := TraceExplained(g, sb, n, ss, acts, did, k);
    var ops := History(ss, acts, did, k).ops;
    d := ds[|ops|];
    hide Initial, Layout, Transactional, Trace, FsImage.Good, FsImage.FilesOf, SameHome, History;
    assert ops[..|ops|] == ops;
    RunFiles(sb, n, ds, ops, |ops|);
  }

  // ---- what an episode logs ----

  /** The last contents logged for block `b` by actions j..m-1. */
  ghost function LastLogged(ss: seq<State>, acts: seq<Action>, j: nat, m: nat, b: nat): Option<Block>
    requires j <= m <= |acts| < |ss|
  {
    if m == j then None
    else
      var a, s := acts[m - 1], ss[m - 1];
      if a.LogWrite? && a.i < |s.bufs| && s.bufs[a.i].blockno == b then Some(s.bufs[a.i].data)
      else LastLogged(ss, acts, j, m - 1, b)
  }

  /** Within an episode the contents change by what is passed to log_write, and nothing else. */
  lemma {:induction false} EpisodeLogs(g: Geometry, ss: seq<State>, acts: seq<Action>, j: nat, m: nat, b: nat)
    requires Trace(g, ss, acts) && Inv(g, ss[0]) && j <= m <= |acts| && b < g.nblocks
    requires forall k: nat {:trigger ss[k]} | j <= k <= m :: !Recovery(ss[k].log) && |ss[k].log.logical| == g.nblocks
    requires forall k: nat {:trigger acts[k]} | j <= k < m :: !acts[k].RecoverDone?
    ensures ss[m].log.logical[b] == match LastLogged(ss, acts, j, m, b)
                                    case None => ss[j].log.logical[b]
                                    case Some(d) => d
  {
    hide Inv, Enabled, Apply, Shape;
    if m > j {
      EpisodeLogs(g, ss, acts, j, m - 1, b);
      TraceInv(g, ss, acts, m - 1);
      var a := acts[m - 1];
      StepContents(g, ss[m - 1], a);
      LogWriteContents(g, ss[m - 1], a);
    }
  }

  lemma LogWriteContents(g: Geometry, s: State, a: Action)
    requires Inv(g, s) && Enabled(g, s, a)
    ensures a.LogWrite? ==>
              a.i < |s.bufs| && s.bufs[a.i].blockno < |s.log.logical|
              && Apply(g, s, a).log.logical == s.log.logical[s.bufs[a.i].blockno := s.bufs[a.i].data]
  {
    hide CacheInv, DiskInv;
  }

  lemma NoRecoveryInside(g: Geometry, s: State)
    requires Inv(g, s)
    ensures |s.log.logical| == g.nblocks && (s.outstanding > 0 ==> !Recovery(s.log))
    ensures !Recovery(s.log) ==> forall p, i :: !CanRecoverDone(g, s, p, i)
  {
  }

  lemma CalmInside(g: Geometry, ss: seq<State>, acts: seq<Action>, j: nat, m: nat, k: nat)
    requires Trace(g, ss, acts) && Inv(g, ss[0]) && Episode(ss, j, m) && j <= k <= m
    ensures !Recovery(ss[k].log) && |ss[k].log.logical| == g.nblocks && (k < m ==> !acts[k].RecoverDone?)
  {
    hide Inv, Apply, Shape;
    TraceInv(g, ss, acts, k);
    NoRecoveryInside(g, ss[k]);
    if k < m {
      var a := acts[k];
      assert a.RecoverDone? ==> CanRecoverDone(g, ss[k], a.p, a.i);
    }
  }

  /**
  So an episode is one of whole operations if what it logs last is the image after them, and the rest of that
  image is as before.
  */
  lemma LoggedIsWhole(g: Geometry, sb: Super, n: nat, ss: seq<State>, acts: seq<Action>, j: nat, m: nat,
                      ds: seq<Disk>, ops: seq<Op>)
    requires Trace(g, ss, acts) && Inv(g, ss[0]) && Episode(ss, j, m)
    requires ImageRun(sb, n, ds, ops) && ds[0] == ss[j].log.logical && |ds[|ops|]| == g.nblocks
    requires forall b: nat {:trigger Home(g, b)} | Home(g, b) ::
               match LastLogged(ss, acts, j, m, b)
               case None => b < |ds[0]| && ds[|ops|][b] == ds[0][b]
               case Some(d) => ds[|ops|][b] == d
    ensures Whole(g, sb, n, ss[j].log.logical, ss[m].log.logical, ops)
  {
    assert |ss| == |acts| + 1 && |ds| == |ops| + 1;
    hide Inv, Apply, Shape, ImageRun, Enabled, Trace, LastLogged;
    forall k: nat | j <= k <= m
      ensures !Recovery(ss[k].log) && |ss[k].log.logical| == g.nblocks
      ensures k < m ==> !acts[k].RecoverDone?
    {
      CalmInside(g, ss, acts, j, m, k);
    }
    forall b: nat | Home(g, b)
      ensures ss[m].log.logical[b] == ds[|ops|][b]
    {
      EpisodeLogs(g, ss, acts, j, m, b);
    }
    assert SameHome(g, ss[j].log.logical, ds[0]) && SameHome(g, ss[m].log.logical, ds[|ops|]);
  }
}
