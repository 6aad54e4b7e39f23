/**
Whole runs of writei and itrunc: the inodes refine a sequence of byte strings, and the free map
agrees with the references at every point in between.
*/
module FsRuns {
  import opened Blocks
  import opened FsModel
  import opened FsContents
  import opened FsTrunc
  import opened FileSys

  datatype Op = Write(inum: nat, off: nat, data: seq<byte>) | Truncate(inum: nat)

  /** Consistent, nothing pending, no file has a hole. */
  ghost predicate Sound(sb: Super, s: Fs)
  {
    Consistent(sb, s) && Settled(s) && forall i: nat | i < |s.inodes| :: HoleFree(s, i)
  }

  /** All files as byte strings. */
  ghost function Files(sb: Super, s: Fs): (f: seq<seq<byte>>)
    requires Sound(sb, s)
    ensures |f| == |s.inodes| && forall i | 0 <= i < |f| :: f[i] == Content(sb, s, i)
  {
    seq(|s.inodes|, i requires 0 <= i < |s.inodes| => Content(sb, s, i))
  }

  /** The operation makes sense for these files. */
  ghost predicate Legal(f: seq<seq<byte>>, op: Op)
  {
    op.inum < |f| && (op.Write? ==> op.off <= |f[op.inum]|)
  }

  /** The simple meaning of an operation. */
  ghost function Apply(f: seq<seq<byte>>, op: Op): seq<seq<byte>>
    requires Legal(f, op)
  {
    match op
    case Write(i, off, d) => f[i := Overwrite(f[i], off, d)]
    case Truncate(i) => f[i := []]
  }

  /** What Fsys.Writei and Fsys.Itrunc guarantee. */
  ghost predicate Step(sb: Super, s: Fs, op: Op, s': Fs)
    requires Sound(sb, s)
  {
    && Legal(Files(sb, s), op) && Settled(s')
    && match op
       case Write(i, off, d) => Wrote(sb, s, s', i, off, d)
       case Truncate(i) => Truncated(sb, s, s', i)
  }

  lemma StepRefines(sb: Super, s: Fs, op: Op, s': Fs)
    requires Sound(sb, s) && Step(sb, s, op, s')
    ensures Sound(sb, s') && Files(sb, s') == Apply(Files(sb, s), op)
  {
    if op.Truncate? {
      forall k: nat | k < |s.inodes|
        ensures HoleFree(s', k) && Content(sb, s', k) == if k == op.inum then [] else Content(sb, s, k)
      {
        TruncatedContent(sb, s, s', op.inum, k);
      }
    }
  }

  /** A call of writei is a step, with the data it got through, unless it fails and changes nothing. */
  method WriteIsStep(fs: Fsys, i: nat, src: seq<byte>, off: uint32, copyOk: nat -> bool) returns (r: int)
    requires Sound(fs.sb, fs.S()) && i < |fs.inodes| && |src| < 0x1_0000_0000
    modifies fs`blocks, fs`inodes, fs`owner, fs`logged
    ensures r == -1 ==> fs.S() == old(fs.S()) && fs.logged == old(fs.logged)
    ensures r != -1 ==> 0 <= r <= |src| && Step(fs.sb, old(fs.S()), Write(i, off, src[..r]), fs.S())
    ensures Tracked(old(fs.S()), fs.S(), i, old(fs.logged), fs.logged) && (r != -1 ==> IBlock(fs.sb, i) in fs.logged)
    ensures |fs.logged - old(fs.logged)| <= LogBound(off, |src|)
  {
    hide Wrote, Tracked, LogBound;
    r := fs.Writei(i, src, off, copyOk);
  }

  /** And a call of itrunc is one. */
  method TruncIsStep(fs: Fsys, i: nat)
    requires Sound(fs.sb, fs.S()) && i < |fs.inodes|
    modifies fs`blocks, fs`inodes, fs`owner, fs`logged
    ensures Step(fs.sb, old(fs.S()), Truncate(i), fs.S())
    ensures Tracked(old(fs.S()), fs.S(), i, old(fs.logged), fs.logged) && IBlock(fs.sb, i) in fs.logged
  {
    hide Truncated, Tracked;
    fs.Itrunc(i);
  }

  /** `run[0]` is the first state, `run[k + 1]` the one after `ops[k]`. */
  ghost predicate Run(sb: Super, run: seq<Fs>, ops: seq<Op>)
  {
    |run| == |ops| + 1 && Sound(sb, run[0])
    && forall k | 0 <= k < |ops| :: Sound(sb, run[k]) ==> Step(sb, run[k], ops[k], run[k + 1])
  }

  /** The files after the first `k` operations, on the simple side. */
  ghost predicate Simulates(sb: Super, run: seq<Fs>, ops: seq<Op>, k: nat, files: seq<seq<seq<byte>>>)
    requires k <= |ops| && Run(sb, run, ops)
  {
    && |files| == k + 1 && files[0] == Files(sb, run[0])
    && (forall j | 0 <= j <= k :: Sound(sb, run[j]) && Files(sb, run[j]) == files[j])
    && (forall j | 0 <= j < k :: Legal(files[j], ops[j]) && files[j + 1] == Apply(files[j], ops[j]))
  }

  /** Every run of the file layer is a run over plain byte strings. */
  lemma {:induction false} RunRefines(sb: Super, run: seq<Fs>, ops: seq<Op>, k: nat)
      returns (files: seq<seq<seq<byte>>>)
    requires Run(sb, run, ops) && k <= |ops|
    ensures Simulates(sb, run, ops, k, files)
  {
    if k == 0 {
      files := [Files(sb, run[0])];
    } else {
      files := RunRefines(sb, run, ops, k - 1);
      StepRefines(sb, run[k - 1], ops[k - 1], run[k]);
      files := files + [Files(sb, run[k])];
    }
  }

  /** At every point of a run a data block is marked used exactly if one slot refers to it. */
  lemma RunKeepsOwnership(sb: Super, run: seq<Fs>, ops: seq<Op>, k: nat, b: nat)
    requires Run(sb, run, ops) && k <= |ops| && sb.datastart <= b < sb.size
    ensures Sound(sb, run[k]) && BBlock(sb, b) < sb.size
    ensures MapBit(sb, run[k].blocks, b) <==>
            exists i: nat, j: nat :: i < |run[k].inodes| && j < SLOTS && Ref(run[k], i, j) == b
    ensures forall i: nat, j: nat, i': nat, j': nat | i < |run[k].inodes| && j < SLOTS && i' < |run[k].inodes|
              && j' < SLOTS
              && Ref(run[k], i, j) == b == Ref(run[k], i', j') :: i == i' && j == j'
  {
    var files := RunRefines(sb, run, ops, k);
    UsedIffReferredToOnce(sb, run[k], b);
  }
}
