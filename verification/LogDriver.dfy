/**
kernel/log.c as it is written: one log object whose fields the functions update in place, with
the loops of log_write, write_log, install_trans, write_head and read_head.  What bread returns
is a parameter (LogSafety.ReadSeesLastLogged says what it is); `history` collects the disk after
every bwrite, so a contract about all of `history` is a contract about a crash after every write.
*/
module LogDriver {
  import opened Blocks
  import opened LogSystem
  import opened LogSafety

  type Disk = seq<Block>

  /** Two disks agree on the home blocks. */
  ghost predicate SameHome(g: Geometry, a: Disk, b: Disk)
  {
    |a| == |b| == g.nblocks && forall i: nat {:trigger Home(g, i)} | Home(g, i) :: a[i] == b[i]
  }

  /** A crash that leaves any of these disks recovers the home blocks of `c`. */
  ghost predicate KeepRecovering(g: Geometry, hs: seq<Disk>, c: Disk)
    requires GeometryOk(g) && |c| == g.nblocks
  {
    forall k | 0 <= k < |hs| :: |hs[k]| == g.nblocks && RecoversTo(g, hs[k], c)
  }

  lemma KeepRecoveringJoin(g: Geometry, hs: seq<Disk>, ks: seq<Disk>, c: Disk)
    requires GeometryOk(g) && |c| == g.nblocks && KeepRecovering(g, hs, c) && KeepRecovering(g, ks, c)
    ensures KeepRecovering(g, hs + ks, c)
  {
  }

  ghost predicate EmptyLog(g: Geometry, d: Disk)
    requires GeometryOk(g) && |d| == g.nblocks
  {
    HeaderOk(d[g.start]) && HeaderOf(d[g.start]) == []
  }

  /** A disk with an empty log recovers to itself, so to anything with the same home blocks. */
  lemma EmptyLogRecoversToItself(g: Geometry, d: Disk, c: Disk)
    requires GeometryOk(g) && SameHome(g, d, c) && EmptyLog(g, d)
    ensures RecoversTo(g, d, c)
  {
  }

  /** Writing a header that lists blocks whose log copies are in place commits them. */
  lemma HeaderCommits(g: Geometry, d: Disk, d': Disk, lh: seq<nat>, before: Disk, after: Disk)
    requires GeometryOk(g) && LogListOk(g, lh) && SameHome(g, d, before) && |after| == g.nblocks == |d'|
    requires forall k | 0 <= k < |lh| :: d[g.start + 1 + k] == after[lh[k]]
    requires forall b: nat {:trigger Home(g, b)} | Home(g, b) && b !in lh :: after[b] == before[b]
    requires d' == d[g.start := d'[g.start]] && HeaderOk(d'[g.start]) && HeaderOf(d'[g.start]) == lh
    ensures RecoversTo(g, d', after)
  {
  }

  /** The log list and its log blocks are on the disk. */
  ghost predicate Fits(g: Geometry, d: Disk, lh: seq<nat>)
  {
    GeometryOk(g) && |d| == g.nblocks && LogListOk(g, lh)
  }

  /** The disk after `t` iterations of write_log. */
  ghost function LogPrefix(g: Geometry, d: Disk, lh: seq<nat>, contents: Disk, t: nat): (r: Disk)
    requires Fits(g, d, lh) && |contents| == g.nblocks && t <= |lh|
    ensures |r| == g.nblocks
  {
    if t == 0 then d
    else LogPrefix(g, d, lh, contents, t - 1)[g.start + t := contents[lh[t - 1]]]
  }

  /** The disk after `t` iterations of install_trans. */
  ghost function InstallPrefix(g: Geometry, d: Disk, lh: seq<nat>, t: nat): (r: Disk)
    requires Fits(g, d, lh) && t <= |lh|
    ensures |r| == g.nblocks
  {
    if t == 0 then d
    else var p := InstallPrefix(g, d, lh, t - 1); p[lh[t - 1] := p[g.start + t]]
  }

  /** The disks after each of the first `t` iterations. */
  ghost function LogTrace(g: Geometry, d: Disk, lh: seq<nat>, contents: Disk, t: nat): (r: seq<Disk>)
    requires Fits(g, d, lh) && |contents| == g.nblocks && t <= |lh|
    ensures |r| == t
  {
    if t == 0 then [] else LogTrace(g, d, lh, contents, t - 1) + [LogPrefix(g, d, lh, contents, t)]
  }

  ghost function InstallTrace(g: Geometry, d: Disk, lh: seq<nat>, t: nat): (r: seq<Disk>)
    requires Fits(g, d, lh) && t <= |lh|
    ensures |r| == t
  {
    if t == 0 then [] else InstallTrace(g, d, lh, t - 1) + [InstallPrefix(g, d, lh, t)]
  }

  lemma {:induction false} LogPrefixKeepsHome(g: Geometry, d: Disk, lh: seq<nat>, contents: Disk, t: nat)
    requires Fits(g, d, lh) && |contents| == g.nblocks && t <= |lh|
    ensures SameHome(g, LogPrefix(g, d, lh, contents, t), d) && LogPrefix(g, d, lh, contents, t)[g.start] == d[g.start]
    ensures forall k | 0 <= k < t :: LogPrefix(g, d, lh, contents, t)[g.start + 1 + k] == contents[lh[k]]
  {
    if t > 0 {
      LogPrefixKeepsHome(g, d, lh, contents, t - 1);
    }
  }

  lemma LoggedIsRecovered(g: Geometry, d: Disk, c: Disk, lh: seq<nat>, k: nat)
    requires Fits(g, d, lh) && |c| == g.nblocks && RecoversTo(g, d, c) && HeaderOf(d[g.start]) == lh && k < |lh|
    ensures d[g.start + 1 + k] == c[lh[k]] && lh[k] != g.start && forall j | 0 <= j < k :: lh[j] != lh[k]
  {
    assert Home(g, lh[k]);
  }

  /** However far install_trans got, the disk still recovers to the same blocks, and the first `t` are home. */
  lemma {:induction false} InstallPrefixRecovers(g: Geometry, d: Disk, c: Disk, lh: seq<nat>, t: nat)
    requires Fits(g, d, lh) && |c| == g.nblocks && RecoversTo(g, d, c) && HeaderOf(d[g.start]) == lh && t <= |lh|
    ensures var r := InstallPrefix(g, d, lh, t);
            RecoversTo(g, r, c) && r[g.start] == d[g.start] && forall k | 0 <= k < t :: r[lh[k]] == c[lh[k]]
  {
    hide RecoversTo, HeaderOf;
    if t > 0 {
      InstallPrefixRecovers(g, d, c, lh, t - 1);
      var p := InstallPrefix(g, d, lh, t - 1);
      InstalledBlock(g, p, c, lh, t - 1);
      LoggedIsRecovered(g, p, c, lh, t - 1);
    }
  }

  /** Once every logged block is home, the home blocks are the recovered ones. */
  lemma AllInstalled(g: Geometry, d: Disk, c: Disk, lh: seq<nat>)
    requires Fits(g, d, lh) && |c| == g.nblocks && RecoversTo(g, d, c) && HeaderOf(d[g.start]) == lh
    ensures SameHome(g, InstallPrefix(g, d, lh, |lh|), c)
  {
    InstallPrefixRecovers(g, d, c, lh, |lh|);
    var r := InstallPrefix(g, d, lh, |lh|);
    forall b: nat | Home(g, b)
      ensures r[b] == c[b]
    {
      if b in lh {
        var k :| 0 <= k < |lh| && lh[k] == b;
      }
    }
  }

  /** Until the header is written, what write_log left recovers to the old home blocks. */
  lemma {:induction false} LogTraceRecovers(g: Geometry, d: Disk, lh: seq<nat>, contents: Disk, t: nat)
    requires Fits(g, d, lh) && |contents| == g.nblocks && EmptyLog(g, d) && t <= |lh|
    ensures KeepRecovering(g, LogTrace(g, d, lh, contents, t), d)
  {
    if t > 0 {
      LogTraceRecovers(g, d, lh, contents, t - 1);
      LogPrefixKeepsHome(g, d, lh, contents, t);
      EmptyLogRecoversToItself(g, LogPrefix(g, d, lh, contents, t), d);
      KeepRecoveringJoin(g, LogTrace(g, d, lh, contents, t - 1), [LogPrefix(g, d, lh, contents, t)], d);
    }
  }

  lemma {:induction false} InstallTraceRecovers(g: Geometry, d: Disk, c: Disk, lh: seq<nat>, t: nat)
    requires Fits(g, d, lh) && |c| == g.nblocks && RecoversTo(g, d, c) && HeaderOf(d[g.start]) == lh && t <= |lh|
    ensures KeepRecovering(g, InstallTrace(g, d, lh, t), c)
  {
    if t > 0 {
      InstallTraceRecovers(g, d, c, lh, t - 1);
      InstallPrefixRecovers(g, d, c, lh, t);
      KeepRecoveringJoin(g, InstallTrace(g, d, lh, t - 1), [InstallPrefix(g, d, lh, t)], c);
    }
  }

  class LogDevice {
    const g: Geometry
    var n: nat                       // log.lh.n
    var block: seq<nat>              // log.lh.block[LOGSIZE]
    var outstanding: int
    var committing: bool
    var disk: Disk
    ghost var history: seq<Disk>

    ghost predicate Valid()
      reads this
    {
      GeometryOk(g) && |disk| == g.nblocks && |block| == LOGSIZE && n <= LOGSIZE && LogListOk(g, block[..n])
    }

    method Bwrite(b: nat, d: Block)
      requires b < |disk|
      modifies this`disk, this`history
      ensures disk == old(disk)[b := d] && history == old(history) + [disk]
    {
      disk := disk[b := d];
      history := history + [disk];
    }

    // ---- log_write ----

    /** Absorbs a block that is already logged, else appends it; refuses a full log or a call outside an operation. */
    method LogWrite(b: nat) returns (ok: bool)
      requires Valid() && Home(g, b)
      modifies this`n, this`block
      ensures Valid()
      ensures ok <==> old(n) < LOGSIZE && old(n) < g.size - 1 && outstanding >= 1
      ensures block[..n] == if ok then Absorb(old(block[..n]), b) else old(block[..n])
    {
      if n >= LOGSIZE || n >= g.size - 1 {
        return false;
      }
      if outstanding < 1 {
        return false;
      }
      var i := 0;
      while i < n && block[i] != b
        invariant 0 <= i <= n && b !in block[..i]
      {
        i := i + 1;
      }
      if i == n {
        assert block[..n] + [b] == block[i := b][..n + 1];
        n := n + 1;
      } else {
        assert block[..n][i] == b && block[i := b] == block;
      }
      block := block[i := b];
      ok := true;
    }

    // ---- begin_op and end_op ----

    /** One round of begin_op's loop: either admitted, or it must sleep. */
    method TryBegin() returns (admitted: bool)
      modifies this`outstanding
      ensures admitted <==> !committing && n + (old(outstanding) + 1) * MAXOPBLOCKS <= LOGSIZE
      ensures outstanding == old(outstanding) + if admitted then 1 else 0
    {
      if committing {
        admitted := false;
      } else if n + (outstanding + 1) * MAXOPBLOCKS > LOGSIZE {
        admitted := false;
      } else {
        outstanding := outstanding + 1;
        admitted := true;
      }
    }

    /**
    The locked part of end_op: the last operation out must commit; `ok` false is the panic, when a commit is
    under way.
    */
    method EndOp() returns (ok: bool, doCommit: bool)
      modifies this`outstanding, this`committing
      ensures (ok <==> !old(committing)) && outstanding == old(outstanding) - 1
      ensures ok ==> (doCommit <==> outstanding == 0) && committing == doCommit
      ensures !ok ==> !doCommit && committing
    {
      outstanding := outstanding - 1;
      doCommit := false;
      ok := !committing;
      if !ok {
        return;
      }
      if outstanding == 0 {
        doCommit := true;
        committing := true;
      }
    }

    // ---- header ----

    /** Writes n and the first n entries over whatever the header block held. */
    method WriteHead()
      requires Valid()
      modifies this`disk, this`history
      ensures |disk| == g.nblocks && disk == old(disk)[g.start := disk[g.start]]
      ensures HeaderOk(disk[g.start]) && HeaderOf(disk[g.start]) == block[..n]
      ensures history == old(history) + [disk]
    {
      ghost var lh := block[..n];
      assert forall k | 0 <= k < n :: Home(g, lh[k]) && lh[k] == block[k];
      var d := SetWord(disk[g.start], 0, n);
      var i := 0;
      while i < n
        invariant 0 <= i <= n && WordAt(d, 0) == n
        invariant forall k | 0 <= k < i :: WordAt(d, 1 + k) == lh[k]
      {
        d := SetWord(d, 1 + i, block[i]);
        i := i + 1;
      }
      EntriesFrom(d, lh);
      Bwrite(g.start, d);
    }

    method ReadHead()
      requires Valid() && DiskLogOk(g, disk)
      modifies this`n, this`block
      ensures Valid() && block[..n] == HeaderOf(disk[g.start])
    {
      var d := disk[g.start];
      var k := WordAt(d, 0);
      var i := 0;
      var entries: seq<nat> := block;
      while i < k
        invariant 0 <= i <= k && |entries| == LOGSIZE
        invariant forall j | 0 <= j < i :: entries[j] == WordAt(d, 1 + j)
      {
        var w: nat := WordAt(d, 1 + i);
        entries := entries[i := w];
        i := i + 1;
      }
      n, block := k, entries;
      EntriesFrom(d, block[..n]);
    }

    // ---- commit ----

    /** Copies the logged blocks from the buffers to the log area. */
    method WriteLog(contents: Disk)
      requires Valid() && |contents| == g.nblocks
      modifies this`disk, this`history
      ensures disk == LogPrefix(g, old(disk), block[..n], contents, n)
      ensures history == old(history) + LogTrace(g, old(disk), block[..n], contents, n)
    {
      ghost var lh := block[..n];
      var tail := 0;
      while tail < n
        invariant 0 <= tail <= n && disk == LogPrefix(g, old(disk), lh, contents, tail)
        invariant history == old(history) + LogTrace(g, old(disk), lh, contents, tail)
      {
        assert lh[tail] == block[tail] && Home(g, lh[tail]);
        Bwrite(g.start + tail + 1, contents[block[tail]]);
        tail := tail + 1;
      }
    }

    /** Copies the log area to the home blocks. */
    method InstallTrans()
      requires Valid()
      modifies this`disk, this`history
      ensures disk == InstallPrefix(g, old(disk), block[..n], n)
      ensures history == old(history) + InstallTrace(g, old(disk), block[..n], n)
    {
      ghost var lh := block[..n];
      var tail := 0;
      while tail < n
        invariant 0 <= tail <= n && disk == InstallPrefix(g, old(disk), lh, tail)
        invariant history == old(history) + InstallTrace(g, old(disk), lh, tail)
      {
        assert lh[tail] == block[tail] && Home(g, lh[tail]);
        Bwrite(block[tail], disk[g.start + tail + 1]);
        tail := tail + 1;
      }
    }

    /**
    The common end of commit and recovery (install, set n to 0, erase the log): no write on the way changes
    what a crash recovers.
    */
    method InstallAndClear(ghost c: Disk) returns (ghost added: seq<Disk>)
      requires Valid() && |c| == g.nblocks && RecoversTo(g, disk, c) && HeaderOf(disk[g.start]) == block[..n]
      modifies this`disk, this`history, this`n
      ensures Valid() && n == 0 && EmptyLog(g, disk) && SameHome(g, disk, c)
      ensures history == old(history) + added && |added| == old(n) + 1 && KeepRecovering(g, added, c)
    {
      ghost var lh := block[..n];
      InstallTrans();
      assert SameHome(g, disk, c) by {
        AllInstalled(g, old(disk), c, lh);
      }
      n := 0;
      WriteHead();
      EmptyLogRecoversToItself(g, disk, c);
      added := InstallTrace(g, old(disk), lh, |lh|) + [disk];
      assert KeepRecovering(g, added, c) by {
        InstallTraceRecovers(g, old(disk), c, lh, |lh|);
        KeepRecoveringJoin(g, InstallTrace(g, old(disk), lh, |lh|), [disk], c);
      }
    }

    /** write_log and the first write_head: the header write is the commit point. */
    method LogAndCommit(contents: Disk)
      requires Valid() && EmptyLog(g, disk) && |contents| == g.nblocks
      requires forall b: nat {:trigger Home(g, b)} | Home(g, b) && b !in block[..n] :: contents[b] == disk[b]
      modifies this`disk, this`history
      ensures Valid() && RecoversTo(g, disk, contents) && HeaderOf(disk[g.start]) == block[..n]
      ensures history == old(history) + LogTrace(g, old(disk), block[..n], contents, n) + [disk]
      ensures KeepRecovering(g, LogTrace(g, old(disk), block[..n], contents, n), old(disk))
    {
      ghost var lh := block[..n];
      WriteLog(contents);
      ghost var logged := disk;
      WriteHead();
      LogTraceRecovers(g, old(disk), lh, contents, n);
      LogPrefixKeepsHome(g, old(disk), lh, contents, n);
      HeaderCommits(g, logged, disk, lh, old(disk), contents);
    }

    /**
    commit(), where `contents` is what the buffers hold and differs from the disk only on logged blocks:
    a crash after any of the `early` writes recovers the old home blocks, after any of the `late` ones,
    which start with the header write, the new.
    */
    method Commit(contents: Disk) returns (ghost early: seq<Disk>, ghost late: seq<Disk>)
      requires Valid() && EmptyLog(g, disk) && |contents| == g.nblocks
      requires forall b: nat {:trigger Home(g, b)} | Home(g, b) && b !in block[..n] :: contents[b] == disk[b]
      modifies this`disk, this`history, this`n
      ensures Valid() && n == 0 && EmptyLog(g, disk) && SameHome(g, disk, contents)
      ensures history == old(history) + early + late && |early| == old(n)
              && |late| == if old(n) > 0 then old(n) + 2 else 0
      ensures KeepRecovering(g, early, old(disk)) && KeepRecovering(g, late, contents)
    {
      early, late := [], [];
      if n > 0 {
        early := LogTrace(g, disk, block[..n], contents, n);
        LogAndCommit(contents);
        ghost var committed := disk;
        ghost var added := InstallAndClear(contents);
        late := [committed] + added;
        KeepRecoveringJoin(g, [committed], added, contents);
      }
    }

    /**
    recover_from_log(): every write on the way recovers to the same blocks; at the end they are home and the
    log is empty.
    */
    method RecoverFromLog(ghost c: Disk) returns (ghost added: seq<Disk>)
      requires Valid() && |c| == g.nblocks && RecoversTo(g, disk, c)
      modifies this`disk, this`history, this`n, this`block
      ensures Valid() && n == 0 && EmptyLog(g, disk) && SameHome(g, disk, c)
      ensures history == old(history) + added && KeepRecovering(g, added, c)
      ensures |added| == |HeaderOf(old(disk)[g.start])| + 1
    {
      ReadHead();
      added := InstallAndClear(c);
    }
  }
}
