/**
The redo log, the buffer cache and the disk as one interleaved state machine.

Every action is one atomic step of some process at lock granularity (kernel/log.c and
kernel/bio.c): a section under bcache.lock, a section under log.lock, a change of a sleep lock,
or one synchronous disk transfer made while the buffer's sleep lock is held.  `Crash` may happen
in every state; it keeps the disk and loses everything else, and recovery is itself made of
steps between which the machine may crash again.
*/
module LogSystem {
  import opened Blocks
  import opened Options
  import opened Rings

  type Pid = nat

  const ROOTDEV: nat := 1

  /** start, size: the log area; the header is block `start`, the log blocks follow it. */
  datatype Geometry = Geometry(start: nat, size: nat, nblocks: nat, nbuf: nat, nproc: nat)

  predicate GeometryOk(g: Geometry)
  {
    1 <= g.size && g.start + g.size <= g.nblocks <= 0x1_0000_0000
  }

  predicate Home(g: Geometry, b: nat)
  {
    b < g.nblocks && !(g.start <= b < g.start + g.size)
  }

  /**
  `refs` are the processes that went through bget for this buffer and did not finish brelse;
  `dirty` says that the lock holder changed the data and has not called log_write yet.
  */
  datatype Buf = Buf(dev: nat, blockno: nat, valid: bool, refcnt: int, refs: multiset<Pid>,
                     owner: Option<Pid>, dirty: bool, data: Block)

  predicate Holds(buf: Buf, b: nat)
  {
    buf.dev == ROOTDEV && buf.blockno == b
  }

  /** Where the log is: `t` counts the finished iterations of the loop being run. */
  datatype Phase =
    | Booting
    | Recovering(t: nat)
    | Running
    | WritingLog(who: Pid, t: nat)
    | Installing(who: Pid, t: nat)
    | Finishing(who: Pid)

  /**
  disk        what a crash leaves
  lh          log.lh: the logged home blocks in order
  logical     the contents every home block should read as (last logged, else on disk)
  committed   the contents a crash must recover
  */
  datatype Log = Log(disk: seq<Block>, lh: seq<nat>, phase: Phase, logical: seq<Block>, committed: seq<Block>)

  /**
  outstanding log.outstanding
  ops         per process: None outside begin_op/end_op, else how many blocks this operation appended
  */
  datatype State = State(log: Log, bufs: seq<Buf>, outstanding: int, ops: seq<Option<nat>>)

  datatype Action =
    | BgetHit(p: Pid, b: nat, i: nat)
    | BgetMiss(p: Pid, b: nat, i: nat)
    | LockBuf(p: Pid, i: nat)
    | ReadIn(p: Pid, i: nat)
    | Modify(p: Pid, i: nat, d: Block)
    | LogWrite(p: Pid, i: nat)
    | UnlockBuf(p: Pid, i: nat)
    | DropRef(p: Pid, i: nat)
    | BeginOp(p: Pid)
    | EndOp(p: Pid)
    | CopyToLog(p: Pid, to: nat, from: nat)
    | WriteHead(p: Pid, i: nat)
    | InstallBlock(p: Pid, l: nat, h: nat)
    | ClearHead(p: Pid, i: nat)
    | CommitDone(p: Pid)
    | Crash
    | ReadHead(p: Pid, i: nat)
    | RecoverBlock(p: Pid, l: nat, h: nat)
    | RecoverDone(p: Pid, i: nat)

  // ---------------------------------------------------------------------------------------
  // Shapes
  // ---------------------------------------------------------------------------------------

  /** What the log list must look like for its blocks to fit the log area. */
  ghost predicate LogListOk(g: Geometry, lh: seq<nat>)
  {
    && |lh| <= LOGSIZE
    && |lh| <= g.size - 1
    && (forall k | 0 <= k < |lh| :: Home(g, lh[k]))
    && Distinct(lh)
  }

  ghost predicate LogShape(g: Geometry, l: Log)
  {
    && GeometryOk(g)
    && |l.disk| == g.nblocks
    && |l.logical| == g.nblocks
    && |l.committed| == g.nblocks
    && LogListOk(g, l.lh)
    && (l.phase.Recovering? || l.phase.WritingLog? || l.phase.Installing? ==> l.phase.t <= |l.lh|)
  }

  ghost predicate Shape(g: Geometry, s: State)
  {
    && LogShape(g, s.log)
    && |s.bufs| == g.nbuf
    && |s.ops| == g.nproc
    && (forall i | 0 <= i < |s.bufs| :: s.bufs[i].blockno < g.nblocks)
  }

  // ---------------------------------------------------------------------------------------
  // Steps
  // ---------------------------------------------------------------------------------------

  /** Process `p` holds buffer `i`, valid and locked, and it is block `b`. */
  predicate Owns(g: Geometry, s: State, p: Pid, i: nat, b: nat)
    requires |s.bufs| == g.nbuf
  {
    i < g.nbuf && s.bufs[i].valid && s.bufs[i].owner == Some(p) && Holds(s.bufs[i], b)
  }

  predicate Committing(l: Log)
  {
    l.phase.WritingLog? || l.phase.Installing? || l.phase.Finishing?
  }

  // ---- bio.c ----

  /** bget, first loop: the block is cached. */
  ghost predicate CanHit(g: Geometry, s: State, p: Pid, b: nat, i: nat)
    requires Shape(g, s)
  {
    p < g.nproc && b < g.nblocks && i < g.nbuf && Holds(s.bufs[i], b)
  }

  ghost function DoHit(g: Geometry, s: State, p: Pid, b: nat, i: nat): State
    requires Shape(g, s) && CanHit(g, s, p, b, i)
  {
    var f := s.bufs[i];
    s.(bufs := s.bufs[i := f.(refcnt := f.refcnt + 1, refs := f.refs + multiset{p})])
  }

  /** bget, second loop: not cached, take some buffer nobody references. */
  ghost predicate CanMiss(g: Geometry, s: State, p: Pid, b: nat, i: nat)
    requires Shape(g, s)
  {
    && p < g.nproc && b < g.nblocks && i < g.nbuf
    && (forall j | 0 <= j < g.nbuf :: !Holds(s.bufs[j], b))
    && s.bufs[i].refcnt == 0
  }

  ghost function DoMiss(g: Geometry, s: State, p: Pid, b: nat, i: nat): State
    requires Shape(g, s) && CanMiss(g, s, p, b, i)
  {
    var f := s.bufs[i];
    s.(bufs := s.bufs[i := f.(dev := ROOTDEV, blockno := b, valid := false, refcnt := 1, refs := f.refs + multiset{p})])
  }

  /** acquiresleep at the end of bget. */
  ghost predicate CanLock(g: Geometry, s: State, p: Pid, i: nat)
    requires Shape(g, s)
  {
    i < g.nbuf && p in s.bufs[i].refs && s.bufs[i].owner.None?
  }

  ghost function DoLock(g: Geometry, s: State, p: Pid, i: nat): State
    requires Shape(g, s) && CanLock(g, s, p, i)
  {
    s.(bufs := s.bufs[i := s.bufs[i].(owner := Some(p))])
  }

  /** bread: virtio_disk_rw(b, 0). */
  ghost predicate CanReadIn(g: Geometry, s: State, p: Pid, i: nat)
    requires Shape(g, s)
  {
    i < g.nbuf && s.bufs[i].owner == Some(p) && !s.bufs[i].valid
  }

  ghost function DoReadIn(g: Geometry, s: State, p: Pid, i: nat): State
    requires Shape(g, s) && CanReadIn(g, s, p, i)
  {
    s.(bufs := s.bufs[i := s.bufs[i].(valid := true, data := s.log.disk[s.bufs[i].blockno])])
  }

  /** The caller changes b->data inside an operation. */
  ghost predicate CanModify(g: Geometry, s: State, p: Pid, i: nat)
    requires Shape(g, s)
  {
    && i < g.nbuf && Owns(g, s, p, i, s.bufs[i].blockno) && Home(g, s.bufs[i].blockno)
    && p < g.nproc && s.ops[p].Some?
  }

  ghost function DoModify(g: Geometry, s: State, p: Pid, i: nat, d: Block): State
    requires Shape(g, s) && CanModify(g, s, p, i)
  {
    s.(bufs := s.bufs[i := s.bufs[i].(data := d, dirty := true)])
  }

  /** brelse: releasesleep, after every change has been logged. */
  ghost predicate CanUnlock(g: Geometry, s: State, p: Pid, i: nat)
    requires Shape(g, s)
  {
    i < g.nbuf && Owns(g, s, p, i, s.bufs[i].blockno) && !s.bufs[i].dirty
  }

  ghost function DoUnlock(g: Geometry, s: State, p: Pid, i: nat): State
    requires Shape(g, s) && CanUnlock(g, s, p, i)
  {
    s.(bufs := s.bufs[i := s.bufs[i].(owner := None)])
  }

  /** brelse: refcnt-- under bcache.lock. */
  ghost predicate CanDrop(g: Geometry, s: State, p: Pid, i: nat)
    requires Shape(g, s)
  {
    i < g.nbuf && p in s.bufs[i].refs && s.bufs[i].owner != Some(p)
  }

  ghost function DoDrop(g: Geometry, s: State, p: Pid, i: nat): State
    requires Shape(g, s) && CanDrop(g, s, p, i)
  {
    var f := s.bufs[i];
    s.(bufs := s.bufs[i := f.(refcnt := f.refcnt - 1, refs := f.refs - multiset{p})])
  }

  // ---- log.c: operations ----

  /** The test of begin_op's loop. */
  ghost predicate CanBegin(g: Geometry, s: State, p: Pid)
    requires Shape(g, s)
  {
    && p < g.nproc && s.ops[p].None? && s.log.phase.Running?
    && |s.log.lh| + (s.outstanding + 1) * MAXOPBLOCKS <= LOGSIZE
  }

  ghost function DoBegin(g: Geometry, s: State, p: Pid): State
    requires Shape(g, s) && CanBegin(g, s, p)
  {
    s.(outstanding := s.outstanding + 1, ops := s.ops[p := Some(0)])
  }

  /** A process ends its operation having logged its changes; end_op panics if a commit is under way. */
  ghost predicate EndCall(g: Geometry, s: State, p: Pid)
    requires Shape(g, s)
  {
    && p < g.nproc && s.ops[p].Some?
    && (forall i | 0 <= i < g.nbuf :: s.bufs[i].dirty ==> s.bufs[i].owner != Some(p))
  }

  ghost function DoEnd(g: Geometry, s: State, p: Pid): State
    requires Shape(g, s) && EndCall(g, s, p)
  {
    s.(outstanding := s.outstanding - 1, ops := s.ops[p := None],
       log := if s.outstanding - 1 != 0 then s.log
              else s.log.(phase := if |s.log.lh| > 0 then WritingLog(p, 0) else Finishing(p)))
  }

  /** A process inside an operation calls log_write on a buffer it holds; no operation appends more than MAXOPBLOCKS. */
  ghost predicate LogWriteCall(g: Geometry, s: State, p: Pid, i: nat)
    requires Shape(g, s)
  {
    && i < g.nbuf && Owns(g, s, p, i, s.bufs[i].blockno) && Home(g, s.bufs[i].blockno)
    && p < g.nproc && s.ops[p].Some?
    && (s.bufs[i].blockno !in s.log.lh ==> s.ops[p].value < MAXOPBLOCKS)
  }

  /** Neither of log_write's panics: "too big a transaction", "log_write outside of trans". */
  predicate LogWriteGuard(g: Geometry, s: State)
  {
    |s.log.lh| < LOGSIZE && |s.log.lh| < g.size - 1 && s.outstanding >= 1
  }

  /** log.lh after log_write: absorbed, or appended. */
  function Absorb(lh: seq<nat>, b: nat): seq<nat>
  {
    if b in lh then lh else lh + [b]
  }

  ghost function DoLogWrite(g: Geometry, s: State, p: Pid, i: nat): State
    requires Shape(g, s) && LogWriteCall(g, s, p, i)
  {
    var f := s.bufs[i];
    var absorbed := f.blockno in s.log.lh;
    s.(log := s.log.(lh := Absorb(s.log.lh, f.blockno), logical := s.log.logical[f.blockno := f.data]),
       bufs := s.bufs[i := f.(dirty := false, refcnt := f.refcnt + if absorbed then 0 else 1)],       // bpin
       ops := if absorbed then s.ops else s.ops[p := Some(s.ops[p].value + 1)])
  }

  // ---- log.c: commit and recovery; each writes one block and its buffer ----

  /** Buffer `i` and its block `b` get `d`, and the log goes to phase `ph`. */
  function Put(s: State, i: nat, b: nat, d: Block, ph: Phase): State
    requires i < |s.bufs| && b < |s.log.disk|
  {
    s.(bufs := s.bufs[i := s.bufs[i].(data := d)], log := s.log.(disk := s.log.disk[b := d], phase := ph))
  }

  /** One iteration of write_log. */
  ghost predicate CanCopy(g: Geometry, s: State, p: Pid, to: nat, from: nat)
    requires Shape(g, s)
  {
    && s.log.phase.WritingLog? && s.log.phase.who == p && s.log.phase.t < |s.log.lh|
    && Owns(g, s, p, to, g.start + 1 + s.log.phase.t) && Owns(g, s, p, from, s.log.lh[s.log.phase.t])
  }

  ghost function DoCopy(g: Geometry, s: State, p: Pid, to: nat, from: nat): State
    requires Shape(g, s) && CanCopy(g, s, p, to, from)
  {
    Put(s, to, g.start + 1 + s.log.phase.t, s.bufs[from].data, WritingLog(p, s.log.phase.t + 1))
  }

  /** The first write_head of commit. */
  ghost predicate CanWriteHead(g: Geometry, s: State, p: Pid, i: nat)
    requires Shape(g, s)
  {
    s.log.phase == WritingLog(p, |s.log.lh|) && Owns(g, s, p, i, g.start)
  }

  ghost function DoWriteHead(g: Geometry, s: State, p: Pid, i: nat): State
    requires Shape(g, s) && CanWriteHead(g, s, p, i)
  {
    var s' := Put(s, i, g.start, EncodeHeader(s.bufs[i].data, s.log.lh), Installing(p, 0));
    s'.(log := s'.log.(committed := s.log.logical))
  }

  /** One iteration of install_trans(0), with its bunpin. */
  ghost predicate CanInstall(g: Geometry, s: State, p: Pid, l: nat, h: nat)
    requires Shape(g, s)
  {
    && s.log.phase.Installing? && s.log.phase.who == p && s.log.phase.t < |s.log.lh|
    && Owns(g, s, p, l, g.start + 1 + s.log.phase.t) && Owns(g, s, p, h, s.log.lh[s.log.phase.t])
  }

  ghost function DoInstall(g: Geometry, s: State, p: Pid, l: nat, h: nat): State
    requires Shape(g, s) && CanInstall(g, s, p, l, h)
  {
    var d, b := s.bufs[l].data, s.log.lh[s.log.phase.t];
    s.(bufs := s.bufs[h := s.bufs[h].(data := d, refcnt := s.bufs[h].refcnt - 1)],
       log := s.log.(disk := s.log.disk[b := d], phase := Installing(p, s.log.phase.t + 1)))
  }

  /** log.lh.n = 0 and the second write_head of commit. */
  ghost predicate CanClear(g: Geometry, s: State, p: Pid, i: nat)
    requires Shape(g, s)
  {
    s.log.phase == Installing(p, |s.log.lh|) && Owns(g, s, p, i, g.start)
  }

  ghost function DoClear(g: Geometry, s: State, p: Pid, i: nat): State
    requires Shape(g, s) && CanClear(g, s, p, i)
  {
    var s' := Put(s, i, g.start, EncodeHeader(s.bufs[i].data, []), Finishing(p));
    s'.(log := s'.log.(lh := []))
  }

  const BootBuf: Buf := Buf(0, 0, false, 0, multiset{}, None, false, seq(BSIZE, _ => 0))

  /** Power on with this disk. */
  function BootState(g: Geometry, disk: seq<Block>, committed: seq<Block>): State
  {
    State(Log(disk, [], Booting, disk, committed), seq(g.nbuf, _ => BootBuf), 0, seq(g.nproc, _ => None))
  }

  ghost predicate CanReadHead(g: Geometry, s: State, p: Pid, i: nat)
    requires Shape(g, s)
  {
    s.log.phase.Booting? && Owns(g, s, p, i, g.start) && HeaderOk(s.bufs[i].data)
  }

  ghost function DoReadHead(g: Geometry, s: State, p: Pid, i: nat): State
    requires Shape(g, s) && CanReadHead(g, s, p, i)
  {
    s.(log := s.log.(lh := HeaderOf(s.bufs[i].data), phase := Recovering(0)))
  }

  /** One iteration of install_trans(1). */
  ghost predicate CanRecover(g: Geometry, s: State, p: Pid, l: nat, h: nat)
    requires Shape(g, s)
  {
    && s.log.phase.Recovering? && s.log.phase.t < |s.log.lh|
    && Owns(g, s, p, l, g.start + 1 + s.log.phase.t) && Owns(g, s, p, h, s.log.lh[s.log.phase.t])
  }

  ghost function DoRecover(g: Geometry, s: State, p: Pid, l: nat, h: nat): State
    requires Shape(g, s) && CanRecover(g, s, p, l, h)
  {
    Put(s, h, s.log.lh[s.log.phase.t], s.bufs[l].data, Recovering(s.log.phase.t + 1))
  }

  /** The end of recover_from_log; the logical contents start as what the disk now holds. */
  ghost predicate CanRecoverDone(g: Geometry, s: State, p: Pid, i: nat)
    requires Shape(g, s)
  {
    s.log.phase == Recovering(|s.log.lh|) && Owns(g, s, p, i, g.start)
  }

  ghost function DoRecoverDone(g: Geometry, s: State, p: Pid, i: nat): State
    requires Shape(g, s) && CanRecoverDone(g, s, p, i)
  {
    var s' := Put(s, i, g.start, EncodeHeader(s.bufs[i].data, []), Running);
    s'.(log := s'.log.(lh := [], logical := s'.log.disk))
  }

  // ---- all steps ----

  ghost predicate Enabled(g: Geometry, s: State, a: Action)
    requires Shape(g, s)
  {
    match a
    case BgetHit(p, b, i) => CanHit(g, s, p, b, i)
    case BgetMiss(p, b, i) => CanMiss(g, s, p, b, i)
    case LockBuf(p, i) => CanLock(g, s, p, i)
    case ReadIn(p, i) => CanReadIn(g, s, p, i)
    case Modify(p, i, d) => CanModify(g, s, p, i)
    case LogWrite(p, i) => LogWriteCall(g, s, p, i) && LogWriteGuard(g, s)
    case UnlockBuf(p, i) => CanUnlock(g, s, p, i)
    case DropRef(p, i) => CanDrop(g, s, p, i)
    case BeginOp(p) => CanBegin(g, s, p)
    case EndOp(p) => EndCall(g, s, p) && !Committing(s.log)
    case CopyToLog(p, to, from) => CanCopy(g, s, p, to, from)
    case WriteHead(p, i) => CanWriteHead(g, s, p, i)
    case InstallBlock(p, l, h) => CanInstall(g, s, p, l, h)
    case ClearHead(p, i) => CanClear(g, s, p, i)
    case CommitDone(p) => s.log.phase == Finishing(p)
    case Crash => true
    case ReadHead(p, i) => CanReadHead(g, s, p, i)
    case RecoverBlock(p, l, h) => CanRecover(g, s, p, l, h)
    case RecoverDone(p, i) => CanRecoverDone(g, s, p, i)
  }

  ghost function Apply(g: Geometry, s: State, a: Action): State
    requires Shape(g, s) && Enabled(g, s, a)
  {
    match a
    case BgetHit(p, b, i) => DoHit(g, s, p, b, i)
    case BgetMiss(p, b, i) => DoMiss(g, s, p, b, i)
    case LockBuf(p, i) => DoLock(g, s, p, i)
    case ReadIn(p, i) => DoReadIn(g, s, p, i)
    case Modify(p, i, d) => DoModify(g, s, p, i, d)
    case LogWrite(p, i) => DoLogWrite(g, s, p, i)
    case UnlockBuf(p, i) => DoUnlock(g, s, p, i)
    case DropRef(p, i) => DoDrop(g, s, p, i)
    case BeginOp(p) => DoBegin(g, s, p)
    case EndOp(p) => DoEnd(g, s, p)
    case CopyToLog(p, to, from) => DoCopy(g, s, p, to, from)
    case WriteHead(p, i) => DoWriteHead(g, s, p, i)
    case InstallBlock(p, l, h) => DoInstall(g, s, p, l, h)
    case ClearHead(p, i) => DoClear(g, s, p, i)
    case CommitDone(p) => s.(log := s.log.(phase := Running))
    case Crash => BootState(g, s.log.disk, s.log.committed)
    case ReadHead(p, i) => DoReadHead(g, s, p, i)
    case RecoverBlock(p, l, h) => DoRecover(g, s, p, l, h)
    case RecoverDone(p, i) => DoRecoverDone(g, s, p, i)
  }

  // ---------------------------------------------------------------------------------------
  // The invariant
  // ---------------------------------------------------------------------------------------

  /** The logged blocks whose buffers the log still pins. */
  function Pinned(l: Log): seq<nat>
    requires l.phase.Installing? ==> l.phase.t <= |l.lh|
  {
    match l.phase
    case Running => l.lh
    case WritingLog(_, _) => l.lh
    case Installing(_, t) => l.lh[t..]
    case _ => []
  }

  predicate Recovery(l: Log)
  {
    l.phase.Booting? || l.phase.Recovering?
  }

  /** What reading block `b` must return. */
  function View(g: Geometry, l: Log, b: nat): Block
    requires b < |l.disk| == |l.logical|
  {
    if Home(g, b) && !Recovery(l) then l.logical[b] else l.disk[b]
  }

  ghost predicate DiskLogOk(g: Geometry, d: seq<Block>)
    requires GeometryOk(g) && |d| == g.nblocks
  {
    HeaderOk(d[g.start]) && LogListOk(g, HeaderOf(d[g.start]))
  }

  /** Installing the log that disk `d` carries gives the home blocks `c`. */
  ghost predicate RecoversTo(g: Geometry, d: seq<Block>, c: seq<Block>)
    requires GeometryOk(g) && |d| == g.nblocks == |c|
  {
    && DiskLogOk(g, d)
    && var h := HeaderOf(d[g.start]);
    && (forall k | 0 <= k < |h| :: d[g.start + 1 + k] == c[h[k]])
    && (forall b: nat {:trigger Home(g, b)} | Home(g, b) && b !in h :: d[b] == c[b])
  }

  ghost predicate BufOk(g: Geometry, l: Log, ops: seq<Option<nat>>, f: Buf)
    requires LogShape(g, l) && |ops| == g.nproc && f.blockno < g.nblocks
  {
    && f.refcnt == |f.refs| + (if f.dev == ROOTDEV && f.blockno in Pinned(l) then 1 else 0)
    && (f.owner.Some? ==> f.owner.value in f.refs)
    && f.dev <= ROOTDEV
    && (f.refcnt > 0 || f.valid ==> f.dev == ROOTDEV)
    && (f.dirty ==> f.valid && f.owner.Some? && Home(g, f.blockno)
                    && f.owner.value < g.nproc && ops[f.owner.value].Some?)
    && (f.valid && !f.dirty ==> f.data == View(g, l, f.blockno))
  }

  ghost predicate Unique(bufs: seq<Buf>)
  {
    forall i, j | 0 <= i < j < |bufs| && bufs[i].dev == ROOTDEV && bufs[j].dev == ROOTDEV ::
      bufs[i].blockno != bufs[j].blockno
  }

  ghost predicate CachedValid(bufs: seq<Buf>, b: nat)
  {
    exists i :: 0 <= i < |bufs| && Holds(bufs[i], b) && bufs[i].valid
  }

  ghost predicate CacheInv(g: Geometry, s: State)
    requires Shape(g, s)
  {
    && (forall i | 0 <= i < g.nbuf :: BufOk(g, s.log, s.ops, s.bufs[i]))
    && Unique(s.bufs)
    && (forall b | b in Pinned(s.log) :: CachedValid(s.bufs, b))
  }

  ghost predicate DiskInv(g: Geometry, l: Log)
    requires LogShape(g, l)
  {
    && RecoversTo(g, l.disk, l.committed)
    && var h := HeaderOf(l.disk[g.start]);
    match l.phase
    case Booting => l.lh == []
    case Recovering(t) => h == l.lh && forall k | 0 <= k < t :: l.disk[l.lh[k]] == l.disk[g.start + 1 + k]
    case Running => h == [] && Overlay(g, l, l.lh)
    case WritingLog(_, t) => h == [] && Overlay(g, l, l.lh) && LogHolds(g, l, t)
    case Installing(_, t) =>
      && h == l.lh && Overlay(g, l, l.lh[t..]) && LogHolds(g, l, |l.lh|)
      && (forall b: nat {:trigger Home(g, b)} | Home(g, b) :: l.committed[b] == l.logical[b])
    case Finishing(_) => h == [] && l.lh == [] && Overlay(g, l, [])
  }

  /** Only the blocks in `pending` may differ between the disk and the logical contents. */
  ghost predicate Overlay(g: Geometry, l: Log, pending: seq<nat>)
    requires LogShape(g, l)
  {
    forall b: nat {:trigger Home(g, b)} | Home(g, b) && b !in pending :: l.disk[b] == l.logical[b]
  }

  ghost predicate LogHolds(g: Geometry, l: Log, n: nat)
    requires LogShape(g, l) && n <= |l.lh|
  {
    forall k | 0 <= k < n :: l.disk[g.start + 1 + k] == l.logical[l.lh[k]]
  }

  function Outstanding(ops: seq<Option<nat>>): nat
  {
    if ops == [] then 0 else Outstanding(ops[..|ops| - 1]) + (if ops[|ops| - 1].Some? then 1 else 0)
  }

  /** Reserved and not yet used: MAXOPBLOCKS for every operation less what it has appended. */
  function Unused(ops: seq<Option<nat>>): int
  {
    if ops == [] then 0
    else Unused(ops[..|ops| - 1]) + (if ops[|ops| - 1].Some? then MAXOPBLOCKS - ops[|ops| - 1].value else 0)
  }

  ghost predicate AdmissionInv(l: Log, ops: seq<Option<nat>>, outstanding: int)
  {
    && outstanding == Outstanding(ops)
    && (forall p | 0 <= p < |ops| && ops[p].Some? :: ops[p].value <= MAXOPBLOCKS)
    && (!Recovery(l) ==> |l.lh| + Unused(ops) <= LOGSIZE)
    && (!l.phase.Running? ==> outstanding == 0)
  }

  ghost predicate Inv(g: Geometry, s: State)
  {
    Shape(g, s) && CacheInv(g, s) && DiskInv(g, s.log) && AdmissionInv(s.log, s.ops, s.outstanding)
  }
}
