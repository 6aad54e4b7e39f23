/**
kernel/fs.c from balloc to writei, and the inode branch of filewrite: the code's own loops over
the in-memory inodes and the block contents (as the buffer cache and log present them).
*/
module FileSys {
  import opened Blocks
  import opened Bits
  import opened Options
  import opened FsModel
  import opened FsContents
  import opened FsTrunc

  /** balloc's inner loop: the first clear bit among the first `n` of a free-map block, `n` if there is none. */
  method ScanBlock(m: Block, n: nat) returns (bi: nat)
    requires n <= BPB
    ensures bi <= n && (forall c: nat | c < bi :: BlockBit(m, c)) && (bi < n ==> !BlockBit(m, bi))
  {
    bi := 0;
    while bi < n
      invariant bi <= n && forall c: nat | c < bi :: BlockBit(m, c)
    {
      if !TestBit(m[bi / 8], bi % 8) {
        return;
      }
      bi := bi + 1;
    }
  }

  /** The bit of block `c` sits at `c - b` in the free-map block of the group that starts at `b`. */
  lemma BitInGroup(sb: Super, blocks: seq<Block>, b: nat, c: nat)
    requires b % BPB == 0 && b <= c < b + BPB && BBlock(sb, b) < |blocks|
    ensures BBlock(sb, c) == BBlock(sb, b) && (MapBit(sb, blocks, c) <==> BlockBit(blocks[BBlock(sb, b)], c - b))
  {
    assert c / BPB == b / BPB && c % BPB == c - b;
  }

  /** Scanning one group adds its bits to those known to be set. */
  lemma GroupSet(sb: Super, blocks: seq<Block>, b: nat, bi: nat)
    requires SuperOk(sb) && |blocks| == sb.size && b % BPB == 0 && bi <= BPB && b + bi <= sb.size
             && BBlock(sb, b) < sb.size
    requires forall c: nat | c < bi :: BlockBit(blocks[BBlock(sb, b)], c)
    ensures forall c: nat | b <= c < b + bi :: BBlock(sb, c) < sb.size && MapBit(sb, blocks, c)
  {
    forall c: nat | b <= c < b + bi
      ensures BBlock(sb, c) < sb.size && MapBit(sb, blocks, c)
    {
      BitInGroup(sb, blocks, b, c);
    }
  }

  lemma NextGroup(b: nat)
    requires b % BPB == 0
    ensures (b + BPB) % BPB == 0
  {
  }

  /** balloc's outer loop: the first clear bit of the free map. */
  method FindFree(sb: Super, blocks: seq<Block>) returns (r: Option<nat>)
    requires SuperOk(sb) && |blocks| == sb.size
    ensures forall b: nat | b < sb.size :: BBlock(sb, b) < sb.size
    ensures r.Some? ==> r.value < sb.size && !MapBit(sb, blocks, r.value) && forall b: nat | b < r.value ::
                                                                      MapBit(sb, blocks, b)
    ensures r.None? ==> forall b: nat | b < sb.size :: MapBit(sb, blocks, b)
  {
    forall b: nat | b < sb.size
      ensures BBlock(sb, b) < sb.size
    {
      BBlockIsMeta(sb, b);
    }
    var b: nat := 0;
    while b < sb.size
      invariant b % BPB == 0
      invariant forall c: nat | c < b && c < sb.size :: MapBit(sb, blocks, c)
      decreases sb.size + BPB - b
    {
      var n := if b + BPB <= sb.size then BPB else sb.size - b;
      var bi := ScanBlock(blocks[BBlock(sb, b)], n);
      GroupSet(sb, blocks, b, bi);
      if bi < n {
        BitInGroup(sb, blocks, b, b + bi);
        return Some(b + bi);
      }
      NextGroup(b);
      b := b + BPB;
    }
    return None;
  }

  /** No data block is free. */
  ghost predicate Full(sb: Super, s: Fs)
  {
    forall b: nat | sb.datastart <= b < sb.size :: b in s.owner
  }

  /** The indirect block of an inode and its free-map block. */
  ghost function IndirectBlocks(sb: Super, s: Fs, i: nat): set<nat>
    requires i < |s.inodes| && |s.inodes[i].addrs| == NDIRECT + 1
  {
    {Ref(s, i, NDIRECT), BBlock(sb, Ref(s, i, NDIRECT))}
  }

  // ---------------------------------------------------------------------------------------
  // Counting the blocks one writei logs
  // ---------------------------------------------------------------------------------------

  /** Blocks that the bytes [off, off+n) span. */
  function Spanned(off: nat, n: nat): nat
  {
    (off % BSIZE + n + BSIZE - 1) / BSIZE
  }

  /** IBLOCK */
  function IBlock(sb: Super, inum: nat): nat
  {
    inum / IPB + sb.inodestart
  }

  /**
  What one round of writei may log: the data block, the free-map block of a new one, and the indirect block
  with its own.
  */
  ghost function StepLogs(sb: Super, s: Fs, s': Fs, i: nat, bn: nat, a: nat): set<nat>
    requires i < |s.inodes| && i < |s'.inodes| && |s.inodes[i].addrs| == NDIRECT + 1 == |s'.inodes[i].addrs|
             && bn < MAXFILE
  {
    (if a == 0 then {} else {a})
    + (if a == 0 || FileBlock(s, i, bn) != 0 then {} else {BBlock(sb, a)})
    + (if bn < NDIRECT || FileBlock(s, i, bn) != 0 then {} else IndirectBlocks(sb, s', i))
  }

  /** Logged so far: data blocks, free-map blocks of new data, and the indirect block with its free-map block. */
  datatype Tally = Tally(data: set<nat>, maps: set<nat>, indirect: set<nat>)

  /** Everything logged since `before` is in the tally. */
  ghost predicate Covers(t: Tally, before: set<nat>, logged: set<nat>)
  {
    logged <= before + t.data + t.maps + t.indirect
  }

  /** At most `k` data blocks, and one new block fewer than that if the write starts inside a block. */
  ghost predicate Sized(t: Tally, off: nat, k: nat)
  {
    |t.data| <= k && |t.maps| <= (if k > 0 && off % BSIZE != 0 then k - 1 else k) && |t.indirect| <= 2
  }

  /** The indirect part is the inode's current indirect block. */
  ghost predicate Current(t: Tally, sb: Super, s: Fs, i: nat)
    requires i < |s.inodes| && |s.inodes[i].addrs| == NDIRECT + 1
  {
    t.indirect == {} || (Ref(s, i, NDIRECT) != 0 && t.indirect == IndirectBlocks(sb, s, i))
  }

  lemma AddOne(s: set<nat>, x: nat)
    ensures |s + {x}| <= |s| + 1
  {
    if x in s {
      assert s + {x} == s;
    }
  }

  /** The tally after one more round. */
  ghost function Next(t: Tally, sb: Super, s': Fs, i: nat, bn: nat, a: nat, there: bool): Tally
    requires i < |s'.inodes| && |s'.inodes[i].addrs| == NDIRECT + 1
  {
    Tally(if a == 0 then t.data else t.data + {a},
          if a == 0 || there then t.maps else t.maps + {BBlock(sb, a)},
          if bn < NDIRECT || there then t.indirect else IndirectBlocks(sb, s', i))
  }

  lemma NextCovers(t: Tally, sb: Super, s: Fs, s': Fs, i: nat, bn: nat, a: nat, before: set<nat>, logged: set<nat>,
                   logged': set<nat>)
    requires i < |s.inodes| && i < |s'.inodes| && |s.inodes[i].addrs| == NDIRECT + 1 == |s'.inodes[i].addrs|
             && bn < MAXFILE
    requires Covers(t, before, logged) && Current(t, sb, s, i) && logged' <= logged + StepLogs(sb, s, s', i, bn, a)
    requires Ref(s, i, NDIRECT) != 0 ==> Ref(s', i, NDIRECT) == Ref(s, i, NDIRECT)
    requires a == FileBlock(s', i, bn)
    ensures Covers(Next(t, sb, s', i, bn, a, FileBlock(s, i, bn) != 0), before, logged')
    ensures a != 0 ==> Current(Next(t, sb, s', i, bn, a, FileBlock(s, i, bn) != 0), sb, s', i)
  {
    var t' := Next(t, sb, s', i, bn, a, FileBlock(s, i, bn) != 0);
    assert t.indirect <= t'.indirect;
    assert StepLogs(sb, s, s', i, bn, a) <= t'.data + t'.maps + t'.indirect;
  }

  lemma NextSized(t: Tally, sb: Super, s': Fs, i: nat, bn: nat, a: nat, there: bool, off: nat, k: nat)
    requires i < |s'.inodes| && |s'.inodes[i].addrs| == NDIRECT + 1
    requires Sized(t, off, k) && (k == 0 && off % BSIZE != 0 ==> there)
    ensures Sized(Next(t, sb, s', i, bn, a, there), off, k + 1)
  {
    AddOne(t.data, a);
    AddOne(t.maps, BBlock(sb, a));
  }

  lemma SizedGrows(t: Tally, off: nat, k: nat, k': nat)
    requires Sized(t, off, k) && k <= k'
    ensures Sized(t, off, k')
  {
  }

  /** What one writei may log at most. */
  function LogBound(off: nat, n: nat): nat
  {
    2 * Spanned(off, n) + (if off % BSIZE != 0 then 2 else 3)
  }

  lemma CountLogged(t: Tally, before: set<nat>, logged: set<nat>, extra: nat, off: nat, n: nat)
    requires Covers(t, before, logged) && Sized(t, off, Spanned(off, n))
    ensures |logged + {extra} - before| <= LogBound(off, n)
  {
    SubsetSize(logged + {extra} - before, t.data + t.maps + t.indirect + {extra});
  }

  lemma {:induction false} SubsetSize(a: set<nat>, b: set<nat>)
    requires a <= b
    ensures |a| <= |b|
  {
    if a != {} {
      var x :| x in a;
      SubsetSize(a - {x}, b - {x});
    }
  }

  /** min(n - tot, BSIZE - off%BSIZE): up to the end of the block or of the data. */
  function ChunkLen(off: nat, tot: nat, n: nat): (m: nat)
    requires tot < n && off + n <= MAXFILE * BSIZE
    ensures 0 < m <= n - tot && m <= BSIZE - (off + tot) % BSIZE && (off + tot) / BSIZE < MAXFILE
    ensures m == n - tot || (off + tot + m) % BSIZE == 0
  {
    if n - tot < BSIZE - (off + tot) % BSIZE then n - tot else BSIZE - (off + tot) % BSIZE
  }

  /** A round of the loop of readi or writei at `off` starts after `k` bytes. */
  predicate RoundAt(off: nat, k: nat)
  {
    k == 0 || (off + k) % BSIZE == 0
  }

  /** The copies of all rounds that started before `tot` bytes succeeded. */
  ghost predicate CopiesOk(off: nat, tot: nat, copyOk: nat -> bool)
  {
    forall k: nat {:trigger copyOk(k)} | k < tot && RoundAt(off, k) :: copyOk(k)
  }

  lemma RoundCopied(off: nat, tot: nat, n: nat, m: nat, copyOk: nat -> bool)
    requires CopiesOk(off, tot, copyOk) && copyOk(tot) && tot < n && m <= BSIZE - (off + tot) % BSIZE
    ensures CopiesOk(off, tot + m, copyOk)
  {
    forall k: nat | k < tot + m
      ensures RoundAt(off, k) ==> copyOk(k)
    {
      if k > tot {
        assert (off + k) % BSIZE == (off + tot) % BSIZE + (k - tot);
      }
    }
  }

  /** How many blocks have been visited after `tot` bytes. */
  function Visited(off: nat, tot: nat): nat
  {
    if tot == 0 then 0 else Spanned(off, tot)
  }

  lemma VisitedNext(off: nat, tot: nat, n: nat)
    requires tot < n && off + n <= MAXFILE * BSIZE && (tot == 0 || (off + tot) % BSIZE == 0)
    ensures Visited(off, tot + ChunkLen(off, tot, n)) == Visited(off, tot) + 1 <= Spanned(off, n)
  {
    var m := ChunkLen(off, tot, n);
    SpannedGrows(off, tot + m, n);
  }

  lemma SpannedGrows(off: nat, m: nat, n: nat)
    requires m <= n
    ensures Spanned(off, m) <= Spanned(off, n)
  {
  }

  /** A write that starts inside a block of a hole-free file finds that block there. */
  lemma FirstBlockThere(s: Fs, i: nat, off: nat)
    requires i < |s.inodes| && |s.inodes[i].addrs| == NDIRECT + 1 && HoleFree(s, i)
    requires off <= s.inodes[i].size && off % BSIZE != 0 && off / BSIZE < MAXFILE
    ensures FileBlock(s, i, off / BSIZE) != 0
  {
    assert off / BSIZE * BSIZE < off;
  }

  /** Byte `q + k` of a file, while that is still in the block of byte `q`. */
  lemma ReadByte(sb: Super, s: Fs, i: nat, q: nat, k: nat)
    requires Consistent(sb, s) && i < |s.inodes| && HoleFree(s, i) && q + k < s.inodes[i].size && k < BSIZE - q % BSIZE
    ensures q / BSIZE < MAXFILE && 0 < FileBlock(s, i, q / BSIZE) < sb.size
    ensures s.blocks[FileBlock(s, i, q / BSIZE)][q % BSIZE + k] == Content(sb, s, i)[q + k]
  {
    HoleFreeMapped(sb, s, i, q + k);
    assert (q + k) / BSIZE == q / BSIZE && (q + k) % BSIZE == q % BSIZE + k;
    assert Content(sb, s, i)[q + k] == ByteAt(s, i, q + k);
  }

  function Min(a: nat, b: nat): nat
  {
    if a < b then a else b
  }

  /** off + n < off in 32 bits. */
  predicate Wraps(off: uint32, n: uint32)
    ensures Wraps(off, n) <==> off + n >= 0x1_0000_0000
  {
    (off + n) % 0x1_0000_0000 < off
  }

  lemma SameSlice(a: seq<byte>, o: nat, c: seq<byte>, q: nat, m: nat)
    requires o + m <= |a| && q + m <= |c|
    requires forall x | q <= x < q + m :: a[o + (x - q)] == c[x]
    ensures a[o..o + m] == c[q..q + m]
  {
    var s1, s2 := a[o..o + m], c[q..q + m];
    forall k | 0 <= k < m
      ensures s1[k] == s2[k]
    {
      assert a[o + (q + k - q)] == c[q + k];
    }
  }

  lemma SliceGrows(c: seq<byte>, off: nat, n: nat, m: nat)
    requires off + n + m <= |c|
    ensures c[off..off + n] + c[off + n..off + n + m] == c[off..off + n + m]
  {
  }

  /** readi's loop finds the block of the next chunk there, with the file's bytes in it. */
  lemma ReadChunk(sb: Super, s: Fs, i: nat, q: nat, m: nat)
    requires Consistent(sb, s) && i < |s.inodes| && HoleFree(s, i) && 0 < m <= BSIZE - q % BSIZE
             && q + m <= s.inodes[i].size
    ensures q / BSIZE < MAXFILE && 0 < FileBlock(s, i, q / BSIZE) < sb.size
    ensures s.blocks[FileBlock(s, i, q / BSIZE)][q % BSIZE..q % BSIZE + m] == Content(sb, s, i)[q..q + m]
  {
    hide HoleFree, FileBlock;
    ReadByte(sb, s, i, q, 0);
    var blk, c := s.blocks[FileBlock(s, i, q / BSIZE)], Content(sb, s, i);
    var o := q % BSIZE;
    forall x | q <= x < q + m
      ensures blk[o + (x - q)] == c[x]
    {
      ReadByte(sb, s, i, q, x - q);
    }
    SameSlice(blk, o, c, q, m);
  }

  /** Where writei's loop is between rounds. */
  ghost predicate Progress(sb: Super, s0: Fs, s: Fs, i: nat, off: nat, src: seq<byte>, tot: nat)
    requires Consistent(sb, s0) && i < |s0.inodes|
  {
    && Consistent(sb, s) && |s.inodes| == |s0.inodes|
    && tot <= |src| && Written(sb, s0, s, i, off, src, tot) && (tot == 0 ==> s == s0)
    && (tot == 0 || tot == |src| || (off + tot) % BSIZE == 0)
  }

  /** What the rounds so far have logged. */
  ghost predicate Accounted(t: Tally, sb: Super, s: Fs, i: nat, off: nat, tot: nat, before: set<nat>, logged: set<nat>)
  {
    i < |s.inodes| && |s.inodes[i].addrs| == NDIRECT + 1
    && Covers(t, before, logged) && Current(t, sb, s, i) && Sized(t, off, Visited(off, tot))
  }

  lemma NoProgress(sb: Super, s: Fs, i: nat, off: nat, src: seq<byte>, logged: set<nat>)
    requires Consistent(sb, s) && i < |s.inodes|
    ensures Progress(sb, s, s, i, off, src, 0) && Accounted(Tally({}, {}, {}), sb, s, i, off, 0, logged, logged)
  {
  }

  lemma AllWritten(sb: Super, s0: Fs, s: Fs, i: nat, off: nat, src: seq<byte>, tot: nat, t: Tally, before: set<nat>,
                   logged: set<nat>)
    requires Consistent(sb, s0) && i < |s0.inodes| && Progress(sb, s0, s, i, off, src, tot)
    requires Accounted(t, sb, s, i, off, tot, before, logged)
    ensures tot <= |src| && Written(sb, s0, s, i, off, src, tot)
    ensures Covers(t, before, logged) && Sized(t, off, Spanned(off, |src|))
  {
    SpannedGrows(off, tot, |src|);
    SizedGrows(t, off, Visited(off, tot), Spanned(off, |src|));
  }

  /** File `i` had `d` written at `off`; every other hole-free file is as it was. */
  ghost predicate Wrote(sb: Super, s0: Fs, s: Fs, i: nat, off: nat, d: seq<byte>)
    requires Consistent(sb, s0) && i < |s0.inodes| && HoleFree(s0, i) && off <= s0.inodes[i].size
  {
    && Consistent(sb, s) && |s.inodes| == |s0.inodes|
    && HoleFree(s, i) && Content(sb, s, i) == Overwrite(Content(sb, s0, i), off, d)
    && (forall k: nat | k < |s0.inodes| && k != i && HoleFree(s0, k) ::
          HoleFree(s, k) && Content(sb, s, k) == Content(sb, s0, k))
  }

  lemma WriteEnds(sb: Super, s0: Fs, s: Fs, i: nat, off: nat, src: seq<byte>, tot: nat)
    requires Consistent(sb, s0) && i < |s0.inodes| && tot <= |src| && Written(sb, s0, s, i, off, src, tot)
    requires HoleFree(s0, i) && off <= s0.inodes[i].size && off + tot <= MAXFILE * BSIZE
    ensures Wrote(sb, s0, Resize(s, i, Max(s0.inodes[i].size, off + tot)), i, off, src[..tot])
  {
    var s' := Resize(s, i, Max(s0.inodes[i].size, off + tot));
    WrittenContent(sb, s0, s, i, off, src, tot, i);
    forall k: nat | k < |s0.inodes| && k != i && HoleFree(s0, k)
      ensures HoleFree(s', k) && Content(sb, s', k) == Content(sb, s0, k)
    {
      WrittenContent(sb, s0, s, i, off, src, tot, k);
    }
  }

  /** ((MAXOPBLOCKS - 1 - 1 - 2) / 2) * BSIZE */
  const CHUNK: nat := (MAXOPBLOCKS - 1 - 1 - 2) / 2 * BSIZE

  /** A chunk never logs more than a transaction may. */
  lemma ChunkFits(off: nat, n: nat)
    requires n <= CHUNK
    ensures LogBound(off, n) <= MAXOPBLOCKS
  {
  }

  /** filewrite has put `src[..k]` at `off`; nothing happens for an offset beyond the file. */
  ghost predicate Copied(sb: Super, s0: Fs, s: Fs, i: nat, off: uint32, src: seq<byte>, k: nat)
    requires Consistent(sb, s0) && i < |s0.inodes| && HoleFree(s0, i)
  {
    && k <= |src| && off + k < 0x1_0000_0000 && Consistent(sb, s)
    && if off <= s0.inodes[i].size then Wrote(sb, s0, s, i, off, src[..k]) else s == s0 && k == 0
  }

  /** Where the `c`th chunk of filewrite starts. */
  function Chunk(c: nat): nat
  {
    c * CHUNK
  }

  /** All copies of filewrite that started before `tot` bytes succeeded; a copy is told by its chunk and place there. */
  ghost predicate AllCopied(off: nat, tot: nat, copyOk: nat -> nat -> bool)
  {
    forall c: nat, j: nat {:trigger copyOk(Chunk(c))(j)} |
      Chunk(c) + j < tot && j < CHUNK && RoundAt(off + Chunk(c), j) ::
      copyOk(Chunk(c))(j)
  }

  lemma NoCopies(off: nat, copyOk: nat -> nat -> bool)
    ensures AllCopied(off, 0, copyOk)
  {
  }

  lemma ChunksInOrder(c: nat, d: nat)
    ensures c < d ==> Chunk(c) + CHUNK <= Chunk(d)
  {
  }

  lemma ChunkCopied(off: nat, c: nat, r: nat, copyOk: nat -> nat -> bool)
    requires r <= CHUNK && AllCopied(off, Chunk(c), copyOk) && CopiesOk(off + Chunk(c), r, copyOk(Chunk(c)))
    ensures AllCopied(off, Chunk(c) + r, copyOk)
  {
    hide RoundAt, Chunk;
    forall d: nat, j: nat | Chunk(d) + j < Chunk(c) + r && j < CHUNK && RoundAt(off + Chunk(d), j)
      ensures copyOk(Chunk(d))(j)
    {
      ChunksInOrder(c, d);
      ChunksInOrder(d, c);
    }
  }

  /** Why filewrite stops `d` bytes after `off` short of `n`: in chunk `c`, ... */
  ghost predicate StopsAt(sb: Super, s0: Fs, s: Fs, i: nat, off: nat, n: nat, d: nat, copyOk: nat -> nat -> bool,
                          c: nat)
    requires i < |s0.inodes|
  {
    && Chunk(c) <= d < Chunk(c) + CHUNK
    && (off > s0.inodes[i].size || off + Min(n, Chunk(c) + CHUNK) > MAXFILE * BSIZE
        || !copyOk(Chunk(c))(d - Chunk(c)) || Full(sb, s))
  }

  lemma CopiedNothing(sb: Super, s: Fs, i: nat, off: uint32, src: seq<byte>)
    requires Consistent(sb, s) && i < |s.inodes| && HoleFree(s, i)
    ensures Copied(sb, s, s, i, off, src, 0)
  {
    if off <= s.inodes[i].size {
      assert Overwrite(Content(sb, s, i), off, []) == Content(sb, s, i);
    }
  }

  /** A further write behind what has been copied. */
  lemma CopiedMore(sb: Super, s0: Fs, s1: Fs, s2: Fs, i: nat, off: uint32, src: seq<byte>, k: nat, n: nat, r: nat)
    requires Consistent(sb, s0) && i < |s0.inodes| && HoleFree(s0, i) && Copied(sb, s0, s1, i, off, src, k)
    requires r <= n && k + n <= |src| && off + k + n < 0x1_0000_0000
    requires i < |s1.inodes| && HoleFree(s1, i) && off + k <= s1.inodes[i].size
    requires Wrote(sb, s1, s2, i, off + k, src[k..k + n][..r])
    ensures Copied(sb, s0, s2, i, off, src, k + r)
  {
    assert off <= s0.inodes[i].size;
    assert src[k..k + n][..r] == src[k..k + r];
    WroteTwice(sb, s0, s1, s2, i, off, src, k, r);
  }

  lemma CopiedState(sb: Super, s0: Fs, s: Fs, i: nat, off: uint32, src: seq<byte>, k: nat)
    requires Consistent(sb, s0) && i < |s0.inodes| && HoleFree(s0, i) && Copied(sb, s0, s, i, off, src, k)
    ensures off + k < 0x1_0000_0000 && Consistent(sb, s) && i < |s.inodes| && HoleFree(s, i)
    ensures off + k <= s.inodes[i].size <==> off <= s0.inodes[i].size
  {
    hide Consistent, HoleFree;
  }

  lemma OverwriteTwice(c: seq<byte>, off: nat, src: seq<byte>, k: nat, r: nat)
    requires off <= |c| && k + r <= |src|
    ensures Overwrite(Overwrite(c, off, src[..k]), off + k, src[k..k + r]) == Overwrite(c, off, src[..k + r])
  {
    assert src[..k] + src[k..k + r] == src[..k + r];
  }

  /** Two writes in a row are one. */
  lemma WroteTwice(sb: Super, s0: Fs, s1: Fs, s2: Fs, i: nat, off: nat, src: seq<byte>, k: nat, r: nat)
    requires Consistent(sb, s0) && i < |s0.inodes| && HoleFree(s0, i) && off <= s0.inodes[i].size && k + r <= |src|
    requires Wrote(sb, s0, s1, i, off, src[..k]) && off + k <= s1.inodes[i].size
    requires Wrote(sb, s1, s2, i, off + k, src[k..k + r])
    ensures Wrote(sb, s0, s2, i, off, src[..k + r])
  {
    OverwriteTwice(Content(sb, s0, i), off, src, k, r);
  }

  lemma WrittenSizes(sb: Super, s0: Fs, s: Fs, i: nat, off: nat, src: seq<byte>, tot: nat)
    requires Consistent(sb, s0) && i < |s0.inodes| && tot <= |src| && Written(sb, s0, s, i, off, src, tot)
    ensures Consistent(sb, s) && |s.inodes| == |s0.inodes| && s.inodes[i].size == s0.inodes[i].size
  {
  }

  /** One round: `mid` after bmap, then the copy. */
  lemma RoundProgress(sb: Super, s0: Fs, s: Fs, mid: Fs, i: nat, off: nat, src: seq<byte>, tot: nat, a: nat)
    requires Consistent(sb, s0) && i < |s0.inodes| && Progress(sb, s0, s, i, off, src, tot)
    requires tot < |src| && off + |src| <= MAXFILE * BSIZE
    requires Mapped(sb, s, mid, i, (off + tot) / BSIZE, a)
    ensures Written(sb, s0, mid, i, off, src, tot)
    ensures a != 0 ==> a < sb.size
    ensures a != 0 ==> var m := ChunkLen(off, tot, |src|);
                       Progress(sb, s0, WriteAt(mid, a, (off + tot) % BSIZE, src[tot..tot + m]), i, off, src, tot + m)
  {
    var m := ChunkLen(off, tot, |src|);
    WrittenThenMapped(sb, s0, s, mid, i, off, src, tot, (off + tot) / BSIZE, a);
    if a != 0 {
      WrittenChunk(sb, s0, mid, i, off, src, tot, m);
    }
  }

  /** A round visits one more block. */
  lemma RoundSized(t: Tally, sb: Super, s0: Fs, s: Fs, mid: Fs, i: nat, off: nat, src: seq<byte>, tot: nat, a: nat)
    requires Consistent(sb, s0) && i < |s0.inodes| && HoleFree(s0, i) && off <= s0.inodes[i].size
    requires Progress(sb, s0, s, i, off, src, tot) && tot < |src| && off + |src| <= MAXFILE * BSIZE
    requires i < |mid.inodes| && |mid.inodes[i].addrs| == NDIRECT + 1 && Sized(t, off, Visited(off, tot))
    ensures var t' := Next(t, sb, mid, i, (off + tot) / BSIZE, a, FileBlock(s, i, (off + tot) / BSIZE) != 0);
            Sized(t', off, Visited(off, tot + ChunkLen(off, tot, |src|))) && Sized(t', off, Spanned(off, |src|))
  {
    if tot == 0 && off % BSIZE != 0 {
      FirstBlockThere(s0, i, off);
    }
    NextSized(t, sb, mid, i, (off + tot) / BSIZE, a, FileBlock(s, i, (off + tot) / BSIZE) != 0, off, Visited(off, tot));
    VisitedNext(off, tot, |src|);
  }

  // ---------------------------------------------------------------------------------------
  // What an operation logs
  // ---------------------------------------------------------------------------------------

  /** Every block that changed was passed to log_write, and no inode but `i` changed. */
  ghost predicate Tracked(s0: Fs, s: Fs, i: nat, l0: set<nat>, l: set<nat>)
  {
    && l0 <= l && |s.blocks| == |s0.blocks| && |s.inodes| == |s0.inodes|
    && (forall b: nat {:trigger s.blocks[b]} | b < |s.blocks| && b !in l :: s.blocks[b] == s0.blocks[b])
    && (forall k: nat {:trigger s.inodes[k]} | k < |s.inodes| && k != i :: s.inodes[k] == s0.inodes[k])
  }

  lemma TrackedSelf(s: Fs, i: nat, l: set<nat>)
    ensures Tracked(s, s, i, l, l)
  {
  }

  lemma TrackedTrans(s0: Fs, s1: Fs, s2: Fs, i: nat, l0: set<nat>, l1: set<nat>, l2: set<nat>)
    requires Tracked(s0, s1, i, l0, l1) && Tracked(s1, s2, i, l1, l2)
    ensures Tracked(s0, s2, i, l0, l2)
  {
  }

  lemma TrackedResize(s0: Fs, s1: Fs, s: Fs, i: nat, l0: set<nat>, l1: set<nat>, l: set<nat>)
    requires Tracked(s0, s1, i, l0, l1) && i < |s1.inodes| == |s.inodes| && s.blocks == s1.blocks && l1 <= l
    requires s.inodes == s1.inodes[i := s.inodes[i]]
    ensures Tracked(s0, s, i, l0, l)
  {
  }

  lemma AllocTracked(sb: Super, s: Fs, r: nat, i: nat, l: set<nat>)
    requires BBlock(sb, r) < |s.blocks| && r < |s.blocks|
    ensures Tracked(s, Alloc(sb, s, r), i, l, l + {BBlock(sb, r), r})
  {
  }

  lemma ReleaseTracked(sb: Super, s: Fs, r: nat, i: nat, l: set<nat>)
    requires BBlock(sb, r) < |s.blocks|
    ensures Tracked(s, Release(sb, s, r), i, l, l + {BBlock(sb, r)})
  {
  }

  /** One more block changed and logged, or the inode. */
  lemma TrackedStep(s0: Fs, s: Fs, s': Fs, i: nat, l0: set<nat>, l: set<nat>, b: nat)
    requires Tracked(s0, s, i, l0, l) && b < |s.blocks| == |s'.blocks| && i < |s.inodes| == |s'.inodes|
    requires s'.blocks == s.blocks[b := s'.blocks[b]] && s'.inodes == s.inodes[i := s'.inodes[i]]
    ensures Tracked(s0, s', i, l0, l + {b}) && (s'.blocks == s.blocks ==> Tracked(s0, s', i, l0, l))
  {
  }

  class Fsys {
    const sb: Super
    var blocks: seq<Block>               // block contents as bread returns them
    var inodes: seq<Inode>               // the in-memory inodes, by inode number
    ghost var owner: map<nat, Owner>
    ghost var logged: set<nat>           // blocks passed to log_write in this operation

    ghost function S(): Fs
      reads this
    {
      Fs(blocks, inodes, owner)
    }

    /** Takes the first free block, marks and zeroes it; 0 if the disk is full. */
    method Balloc() returns (r: nat)
      requires Consistent(sb, S())
      modifies this`blocks, this`owner, this`logged
      ensures r == 0 ==> S() == old(S()) && logged == old(logged) && Full(sb, S())
      ensures r != 0 ==> sb.datastart <= r < sb.size && r !in old(owner) && BBlock(sb, r) < sb.size
      ensures r != 0 ==> S() == Alloc(sb, old(S()), r) && logged == old(logged) + {BBlock(sb, r), r}
      ensures forall b: nat | sb.datastart <= b < r :: b in old(owner)
    {
      var found := FindFree(sb, blocks);
      if found.None? {
        forall b: nat | sb.datastart <= b < sb.size
          ensures b in owner
        {
          assert MapBit(sb, blocks, b);
        }
        return 0;
      }
      r := found.value;
      forall b: nat | sb.datastart <= b < r
        ensures b in owner
      {
        assert MapBit(sb, blocks, b);
      }
      blocks := MarkUsed(sb, blocks, r);
      logged := logged + {BBlock(sb, r)};
      blocks := blocks[r := ZeroBlock()];       // bzero
      logged := logged + {r};
      owner := owner[r := Pending];
    }

    /** The address of file block `bn`, allocating what is missing; 0 if the disk is full. */
    method Bmap(i: nat, bn: nat) returns (addr: nat)
      requires Consistent(sb, S()) && i < |inodes| && bn < MAXFILE
      modifies this`blocks, this`inodes, this`owner, this`logged
      ensures Mapped(sb, old(S()), S(), i, bn, addr)
      ensures addr == 0 ==> Full(sb, S())
      ensures FileBlock(old(S()), i, bn) != 0 ==> logged == old(logged)
      ensures FileBlock(old(S()), i, bn) == 0 && addr != 0 ==> addr < |blocks| && blocks[addr] == ZeroBlock()
      ensures FileBlock(old(S()), i, bn) == 0 ==>
                logged <= old(logged) + (if addr == 0 then {} else {addr, BBlock(sb, addr)})
                        + (if bn < NDIRECT then {} else IndirectBlocks(sb, S(), i))
      ensures Ref(old(S()), i, NDIRECT) != 0 ==> Ref(S(), i, NDIRECT) == Ref(old(S()), i, NDIRECT)
      ensures Tracked(old(S()), S(), i, old(logged), logged)
      ensures Settled(old(S())) ==> Settled(S())
    {
      hide Mapped, Full, Tracked;
      if bn < NDIRECT {
        addr := BmapDirect(i, bn);
        return;
      }
      MappedSelf(sb, S(), i, bn);
      TrackedSelf(S(), i, logged);
      addr := inodes[i].addrs[NDIRECT];
      if addr == 0 {
        addr := Balloc();
        if addr == 0 {
          return;
        }
        IndirectAdded(sb, old(S()), i, addr);
        AllocTracked(sb, old(S()), addr, i, old(logged));
        ghost var s2 := S();
        inodes := inodes[i := inodes[i].(addrs := inodes[i].addrs[NDIRECT := addr])];
        owner := owner[addr := At(i, NDIRECT)];
        TrackedStep(old(S()), s2, S(), i, old(logged), logged, addr);
      }
      ghost var s1, l1 := S(), logged;
      addr := BmapEntry(i, bn, addr);
      TrackedTrans(old(S()), s1, S(), i, old(logged), l1, logged);
      if old(S()) != s1 {
        MappedAfterIndirect(sb, old(S()), s1, S(), i, bn, addr);
      }
    }

    /** bmap for a direct block. */
    method BmapDirect(i: nat, bn: nat) returns (addr: nat)
      requires Consistent(sb, S()) && i < |inodes| && bn < NDIRECT
      modifies this`blocks, this`inodes, this`owner, this`logged
      ensures Mapped(sb, old(S()), S(), i, bn, addr)
      ensures addr == 0 ==> Full(sb, S())
      ensures FileBlock(old(S()), i, bn) != 0 ==> logged == old(logged)
      ensures FileBlock(old(S()), i, bn) == 0 && addr != 0 ==> addr < |blocks| && blocks[addr] == ZeroBlock()
      ensures FileBlock(old(S()), i, bn) == 0 ==>
                logged <= old(logged) + (if addr == 0 then {} else {addr, BBlock(sb, addr)})
      ensures Ref(old(S()), i, NDIRECT) != 0 ==> Ref(S(), i, NDIRECT) == Ref(old(S()), i, NDIRECT)
      ensures Tracked(old(S()), S(), i, old(logged), logged)
      ensures Settled(old(S())) ==> Settled(S())
    {
      hide Mapped, Full, Tracked;
      MappedSelf(sb, S(), i, bn);
      TrackedSelf(S(), i, logged);
      addr := inodes[i].addrs[bn];
      if addr == 0 {
        addr := Balloc();
        if addr == 0 {
          return;
        }
        MappedDirect(sb, old(S()), i, bn, addr);
        AllocTracked(sb, old(S()), addr, i, old(logged));
        ghost var s1 := S();
        inodes := inodes[i := inodes[i].(addrs := inodes[i].addrs[bn := addr])];
        owner := owner[addr := At(i, bn)];
        TrackedStep(old(S()), s1, S(), i, old(logged), logged, addr);
      }
    }

    /** bmap once the indirect block is there. */
    method BmapEntry(i: nat, bn: nat, ind: nat) returns (addr: nat)
      requires Consistent(sb, S()) && i < |inodes| && NDIRECT <= bn < MAXFILE && ind == Ref(S(), i, NDIRECT) != 0
      modifies this`blocks, this`owner, this`logged
      ensures Mapped(sb, old(S()), S(), i, bn, addr)
      ensures addr == 0 ==> Full(sb, S())
      ensures FileBlock(old(S()), i, bn) != 0 ==> logged == old(logged)
      ensures FileBlock(old(S()), i, bn) == 0 && addr != 0 ==> addr < |blocks| && blocks[addr] == ZeroBlock()
      ensures FileBlock(old(S()), i, bn) == 0 ==>
                logged <= old(logged) + (if addr == 0 then {} else {addr, BBlock(sb, addr), ind})
      ensures Tracked(old(S()), S(), i, old(logged), logged)
      ensures Settled(old(S())) ==> Settled(S())
    {
      hide Tracked;
      MappedSelf(sb, S(), i, bn);
      IndirectOwned(sb, S(), 0, 0, i);
      TrackedSelf(S(), i, logged);
      addr := WordAt(blocks[ind], bn - NDIRECT);
      if addr == 0 {
        addr := Balloc();
        if addr != 0 {
          MappedEntry(sb, old(S()), i, bn, addr);
          AllocTracked(sb, old(S()), addr, i, old(logged));
          ghost var s1, l1 := S(), logged;
          blocks := blocks[ind := SetWord(blocks[ind], bn - NDIRECT, addr)];
          logged := logged + {ind};
          owner := owner[addr := At(i, NDIRECT + 1 + (bn - NDIRECT))];
          TrackedStep(old(S()), s1, S(), i, old(logged), l1, ind);
        }
      }
    }

    // ---- writei ----

    /** The body of writei's loop: map the block, copy `data` into it unless the copy fails, log it. */
    method WriteStep(i: nat, pos: nat, data: seq<byte>, copies: bool, ghost t: Tally, ghost before: set<nat>)
        returns (done: bool, ghost mid: Fs, ghost addr: nat, ghost t': Tally)
      requires Consistent(sb, S()) && i < |inodes| && pos / BSIZE < MAXFILE && 0 < |data| <= BSIZE - pos % BSIZE
      requires Covers(t, before, logged) && Current(t, sb, S(), i)
      modifies this`blocks, this`inodes, this`owner, this`logged
      ensures Mapped(sb, old(S()), mid, i, pos / BSIZE, addr) && addr < sb.size && (addr == 0 ==> Full(sb, S()))
      ensures Tracked(old(S()), S(), i, old(logged), logged)
      ensures done <==> addr != 0 && copies
      ensures Settled(old(S())) ==> Settled(S())
      ensures S() == if done then WriteAt(mid, addr, pos % BSIZE, data) else mid
      ensures t' == Next(t, sb, mid, i, pos / BSIZE, addr, FileBlock(old(S()), i, pos / BSIZE) != 0)
      ensures Covers(t', before, logged)
      ensures done ==> |inodes| == |old(inodes)| && Consistent(sb, S()) && Current(t', sb, S(), i)
    {
      hide Tracked;
      var a := Bmap(i, pos / BSIZE);
      addr, mid, done := a, S(), false;
      ghost var l1 := logged;
      if a != 0 {
        FileBlockOwned(sb, S(), i, pos / BSIZE);
        if copies {
          blocks := blocks[a := Splice(blocks[a], pos % BSIZE, data)];
          logged := logged + {a};
          done := true;
          WriteKeeps(sb, mid, a, blocks[a]);
          TrackedStep(old(S()), mid, S(), i, old(logged), l1, a);
        }
      }
      t' := Next(t, sb, mid, i, pos / BSIZE, a, FileBlock(old(S()), i, pos / BSIZE) != 0);
      NextCovers(t, sb, old(S()), mid, i, pos / BSIZE, a, before, old(logged), logged);
    }

    /** One round of writei's loop after `tot` bytes: up to the end of the block or of `src`. */
    method WriteRound(i: nat, src: seq<byte>, off: nat, tot: nat, copies: bool, ghost s0: Fs, ghost before: set<nat>,
                      ghost t: Tally)
        returns (m: nat, ghost t': Tally)
      requires Consistent(sb, s0) && i < |s0.inodes| && HoleFree(s0, i) && off <= s0.inodes[i].size
      requires tot < |src| && off + |src| <= MAXFILE * BSIZE
      requires Progress(sb, s0, S(), i, off, src, tot) && Accounted(t, sb, S(), i, off, tot, before, logged)
      modifies this`blocks, this`inodes, this`owner, this`logged
      ensures Tracked(old(S()), S(), i, old(logged), logged)
      ensures tot + m <= |src| && (Settled(old(S())) ==> Settled(S()))
      ensures m != 0 ==> copies && m <= BSIZE - (off + tot) % BSIZE
      ensures m == 0 ==> Written(sb, s0, S(), i, off, src, tot) && (!copies || Full(sb, S()))
      ensures m == 0 ==> Covers(t', before, logged) && Sized(t', off, Spanned(off, |src|))
      ensures m != 0 ==>
                Progress(sb, s0, S(), i, off, src, tot + m)
                && Accounted(t', sb, S(), i, off, tot + m, before, logged)
    {
      hide Written, Covers, Full, HoleFree, Sized, Settled, Tracked;
      m := ChunkLen(off, tot, |src|);
      ghost var s := S();
      var done;
      ghost var mid, a;
      done, mid, a, t' := WriteStep(i, off + tot, src[tot..tot + m], copies, t, before);
      RoundProgress(sb, s0, s, mid, i, off, src, tot, a);
      RoundSized(t, sb, s0, s, mid, i, off, src, tot, a);
      if !done {
        m := 0;
      }
    }

    /** writei's loop. */
    method WriteLoop(i: nat, src: seq<byte>, off: nat, copyOk: nat -> bool) returns (tot: nat, ghost t: Tally)
      requires Consistent(sb, S()) && i < |inodes| && HoleFree(S(), i)
      requires off <= inodes[i].size && off + |src| <= MAXFILE * BSIZE
      modifies this`blocks, this`inodes, this`owner, this`logged
      ensures tot <= |src| && Written(sb, old(S()), S(), i, off, src, tot) && (Settled(old(S())) ==> Settled(S()))
      ensures Tracked(old(S()), S(), i, old(logged), logged)
      ensures (tot < |src| ==> !copyOk(tot) || Full(sb, S())) && CopiesOk(off, tot, copyOk)
      ensures Covers(t, old(logged), logged) && Sized(t, off, Spanned(off, |src|))
    {
      hide Progress, Accounted, Written, Covers, Sized, Consistent, HoleFree, Settled, Tracked, RoundAt;
      ghost var s0 := S();
      TrackedSelf(s0, i, logged);
      t := Tally({}, {}, {});
      NoProgress(sb, s0, i, off, src, logged);
      tot := 0;
      while tot < |src|
        invariant Progress(sb, s0, S(), i, off, src, tot) && Accounted(t, sb, S(), i, off, tot, old(logged), logged)
        invariant (Settled(s0) ==> Settled(S())) && Tracked(s0, S(), i, old(logged), logged)
        invariant CopiesOk(off, tot, copyOk)
      {
        var m;
        ghost var s1, l1 := S(), logged;
        m, t := WriteRound(i, src, off, tot, copyOk(tot), s0, old(logged), t);
        TrackedTrans(s0, s1, S(), i, old(logged), l1, logged);
        if m == 0 {
          return;
        }
        RoundCopied(off, tot, |src|, m, copyOk);
        tot := tot + m;
      }
      AllWritten(sb, s0, S(), i, off, src, tot, t, old(logged), logged);
    }

    /**
    writei: a write at `off` within the file replaces exactly the bytes it reports and extends the size,
    changes no other file, and stops early only when a copy fails or the disk is full.
    */
    method Writei(i: nat, src: seq<byte>, off: uint32, copyOk: nat -> bool) returns (r: int)
      requires Consistent(sb, S()) && i < |inodes| && HoleFree(S(), i) && |src| < 0x1_0000_0000
      modifies this`blocks, this`inodes, this`owner, this`logged
      ensures Consistent(sb, S()) && (Settled(old(S())) ==> Settled(S()))
      ensures r == -1 <==> off > old(inodes)[i].size || off + |src| >= 0x1_0000_0000 || off + |src| > MAXFILE * BSIZE
      ensures r == -1 ==> S() == old(S()) && logged == old(logged)
      ensures r != -1 ==> 0 <= r <= |src| && Wrote(sb, old(S()), S(), i, off, src[..r])
      ensures (-1 < r < |src| ==> !copyOk(r) || Full(sb, S())) && (r != -1 ==> CopiesOk(off, r, copyOk))
      ensures Tracked(old(S()), S(), i, old(logged), logged)
      ensures r != -1 ==> IBlock(sb, i) in logged
      ensures |logged - old(logged)| <= LogBound(off, |src|)
    {
      hide Written, Covers, Sized, LogBound, HoleFree, Tracked, CopiesOk;
      TrackedSelf(S(), i, logged);
      var n := |src|;
      if off > inodes[i].size || Wraps(off, n) {
        return -1;
      }
      if off + n > MAXFILE * BSIZE {
        return -1;
      }
      var tot;
      ghost var t;
      tot, t := WriteLoop(i, src, off, copyOk);
      ghost var s1, l1 := S(), logged;
      WrittenSizes(sb, old(S()), s1, i, off, src, tot);
      WriteEnds(sb, old(S()), s1, i, off, src, tot);
      if off + tot > inodes[i].size {
        inodes := inodes[i := inodes[i].(size := off + tot)];
      }
      assert S() == Resize(s1, i, Max(old(inodes)[i].size, off + tot));
      CountLogged(t, old(logged), logged, IBlock(sb, i), off, n);
      logged := logged + {IBlock(sb, i)};       // iupdate
      TrackedResize(old(S()), s1, S(), i, old(logged), l1, logged);
      r := tot;
    }

    // ---- readi ----

    /** The body of readi's loop: nothing is allocated, and the chunk is the file's. */
    method ReadStep(i: nat, q: nat, m: nat) returns (d: seq<byte>)
      requires Consistent(sb, S()) && i < |inodes| && HoleFree(S(), i)
      requires 0 < m <= BSIZE - q % BSIZE && q + m <= inodes[i].size
      modifies this`blocks, this`inodes, this`owner, this`logged
      ensures S() == old(S()) && logged == old(logged) && d == Content(sb, old(S()), i)[q..q + m]
    {
      ReadChunk(sb, S(), i, q, m);
      var addr := Bmap(i, q / BSIZE);
      d := blocks[addr][q % BSIZE..q % BSIZE + m];
    }

    /** readi's loop; it stops early where a copy fails. */
    method ReadLoop(i: nat, off: nat, n: nat, copyOk: nat -> bool) returns (dst: seq<byte>)
      requires Consistent(sb, S()) && i < |inodes| && HoleFree(S(), i) && off + n <= inodes[i].size <= MAXFILE * BSIZE
      modifies this`blocks, this`inodes, this`owner, this`logged
      ensures S() == old(S()) && logged == old(logged)
      ensures |dst| <= n && dst == Content(sb, old(S()), i)[off..off + |dst|]
      ensures (|dst| < n ==> !copyOk(|dst|)) && CopiesOk(off, |dst|, copyOk)
    {
      hide Consistent, HoleFree, Content, ChunkLen;
      dst := [];
      ghost var c := Content(sb, S(), i);
      while |dst| < n
        invariant S() == old(S()) && logged == old(logged) && |dst| <= n && dst == c[off..off + |dst|]
        invariant CopiesOk(off, |dst|, copyOk)
      {
        if !copyOk(|dst|) {
          return;
        }
        var m := ChunkLen(off, |dst|, n);
        var d := ReadStep(i, off + |dst|, m);
        SliceGrows(c, off, |dst|, m);
        RoundCopied(off, |dst|, n, m, copyOk);
        dst := dst + d;
      }
    }

    /**
    readi: the bytes of the file from `off` on, clipped to its size, unless a copy out fails; a hole-free
    file is read without changing anything.
    */
    method Readi(i: nat, off: uint32, n: uint32, copyOk: nat -> bool) returns (r: int, dst: seq<byte>)
      requires Consistent(sb, S()) && i < |inodes| && HoleFree(S(), i)
      modifies this`blocks, this`inodes, this`owner, this`logged
      ensures S() == old(S()) && logged == old(logged)
      ensures off > inodes[i].size || off + n >= 0x1_0000_0000 ==> r == 0 && dst == []
      ensures off <= inodes[i].size && off + n < 0x1_0000_0000 && r != -1 ==>
                r == Min(n, inodes[i].size - off) && dst == Content(sb, old(S()), i)[off..off + r]
      ensures r == -1 ==>
                off + |dst| <= inodes[i].size && dst == Content(sb, old(S()), i)[off..off + |dst|]
                && !copyOk(|dst|) && |dst| < n
      ensures CopiesOk(off, |dst|, copyOk)
    {
      if off > inodes[i].size || Wraps(off, n) {
        return 0, [];
      }
      var n1 := Min(n, inodes[i].size - off);
      dst := ReadLoop(i, off, n1, copyOk);
      r := if |dst| == n1 then n1 else -1;
    }

    // ---- itrunc ----

    /** bfree: false stands for the panic "freeing free block". */
    method Bfree(b: nat) returns (ok: bool)
      requires Shape(sb, S()) && b < sb.size && BBlock(sb, b) < sb.size
      modifies this`blocks, this`owner, this`logged
      ensures ok <==> MapBit(sb, old(blocks), b)
      ensures S() == if ok then Release(sb, old(S()), b) else old(S())
      ensures logged == if ok then old(logged) + {BBlock(sb, b)} else old(logged)
    {
      ok := MapBit(sb, blocks, b);
      if ok {
        blocks := MarkFree(sb, blocks, b);
        logged := logged + {BBlock(sb, b)};
        owner := owner - {b};
      }
    }

    /** itrunc's first loop. */
    method TruncDirect(i: nat)
      requires Consistent(sb, S()) && i < |inodes|
      modifies this`blocks, this`inodes, this`owner, this`logged
      ensures Consistent(sb, S()) && Freed(sb, old(S()), S(), i, 0, NDIRECT)
      ensures inodes == old(inodes)[i := Cleared(old(inodes)[i], NDIRECT)]
      ensures Tracked(old(S()), S(), i, old(logged), logged)
    {
      hide Freed, Cleared, MapBit, MapIs, Tracked;
      TrackedSelf(S(), i, logged);
      var j := 0;
      FreedNothing(sb, S(), i, 0);
      ClearedNext(inodes[i], 0);
      while j < NDIRECT
        invariant j <= NDIRECT && Consistent(sb, S()) && Freed(sb, old(S()), S(), i, 0, j)
        invariant inodes == old(inodes)[i := Cleared(old(inodes)[i], j)]
        invariant Tracked(old(S()), S(), i, old(logged), logged)
      {
        ghost var s, l := S(), logged;
        ClearedNext(old(inodes)[i], j);
        var r := inodes[i].addrs[j];
        if r != 0 {
          FreeDirectKeeps(sb, s, i, j);
          ReleaseKeepsRefs(sb, s, 0, 0, r);
          var ok := Bfree(r);
          assert ok;
          inodes := inodes[i := inodes[i].(addrs := inodes[i].addrs[j := 0])];
          assert S() == FreeDirect(sb, s, i, j);
          ReleaseTracked(sb, s, r, i, l);
          TrackedTrans(old(S()), s, Release(sb, s, r), i, old(logged), l, logged);
          TrackedResize(old(S()), Release(sb, s, r), S(), i, old(logged), logged, logged);
        }
        FreedMore(sb, old(S()), s, S(), 0, 0, i, 0, j);
        j := j + 1;
      }
    }

    /** itrunc's loop over the entries of the indirect block `ind`. */
    method TruncEntries(i: nat, ind: nat)
      requires Consistent(sb, S()) && i < |inodes| && ind == inodes[i].addrs[NDIRECT] != 0
      modifies this`blocks, this`owner, this`logged
      ensures Shape(sb, S()) && Owned(sb, S(), i, NINDIRECT) && Freed(sb, old(S()), S(), i, NDIRECT + 1, SLOTS)
      ensures Tracked(old(S()), S(), i, old(logged), logged)
    {
      hide Freed, MapBit, MapIs, Tracked;
      TrackedSelf(S(), i, logged);
      IndirectOwned(sb, S(), 0, 0, i);
      var a := blocks[ind];
      var j := 0;
      FreedNothing(sb, S(), i, NDIRECT + 1);
      NoneDead(sb, S(), i);
      while j < NINDIRECT
        invariant j <= NINDIRECT && Shape(sb, S()) && Owned(sb, S(), i, j)
        invariant Freed(sb, old(S()), S(), i, NDIRECT + 1, NDIRECT + 1 + j) && blocks[ind] == a
        invariant Tracked(old(S()), S(), i, old(logged), logged)
      {
        ghost var s, l := S(), logged;
        FreeEntryKeeps(sb, s, i, j);
        var r := WordAt(a, j);
        if r != 0 {
          assert Ref(s, i, NDIRECT + 1 + j) == r;
          ReleaseKeepsRefs(sb, s, i, j, r);
          var ok := Bfree(r);
          assert ok;
          ReleaseTracked(sb, s, r, i, l);
          TrackedTrans(old(S()), s, S(), i, old(logged), l, logged);
        }
        FreedMore(sb, old(S()), s, S(), i, j, i, NDIRECT + 1, NDIRECT + 1 + j);
        j := j + 1;
      }
    }

    /** The indirect part of itrunc. */
    method TruncIndirect(i: nat)
      requires Consistent(sb, S()) && i < |inodes|
      modifies this`blocks, this`inodes, this`owner, this`logged
      ensures Consistent(sb, S()) && Freed(sb, old(S()), S(), i, NDIRECT, SLOTS)
      ensures inodes == old(inodes)[i := old(inodes)[i].(addrs := old(inodes)[i].addrs[NDIRECT := 0])]
      ensures Tracked(old(S()), S(), i, old(logged), logged)
    {
      hide Freed, MapBit, MapIs, Tracked;
      TrackedSelf(S(), i, logged);
      var ind := inodes[i].addrs[NDIRECT];
      if ind == 0 {
        NoIndirect(sb, S(), i);
        assert inodes[i].addrs[NDIRECT := 0] == inodes[i].addrs;
        return;
      }
      TruncEntries(i, ind);
      ghost var s, l := S(), logged;
      FreeIndirectKeeps(sb, s, i);
      ReleaseKeepsRefs(sb, s, i, NINDIRECT, ind);
      var ok := Bfree(ind);
      assert ok;
      inodes := inodes[i := inodes[i].(addrs := inodes[i].addrs[NDIRECT := 0])];
      assert S() == FreeDirect(sb, s, i, NDIRECT);
      ReleaseTracked(sb, s, ind, i, l);
      TrackedTrans(old(S()), s, Release(sb, s, ind), i, old(logged), l, logged);
      TrackedResize(old(S()), Release(sb, s, ind), S(), i, old(logged), logged, logged);
      FreedNothing(sb, s, i, NDIRECT);
      FreedMore(sb, s, s, S(), i, NINDIRECT, i, NDIRECT, NDIRECT);
      FreedJoin(sb, old(S()), s, S(), i, NDIRECT, NDIRECT + 1, SLOTS);
    }

    /** itrunc: exactly the blocks of inode `i` are freed, none of them free before, and every other file stays. */
    method Itrunc(i: nat)
      requires Consistent(sb, S()) && i < |inodes|
      modifies this`blocks, this`inodes, this`owner, this`logged
      ensures Truncated(sb, old(S()), S(), i) && (Settled(old(S())) ==> Settled(S())) && IBlock(sb, i) in logged
      ensures Tracked(old(S()), S(), i, old(logged), logged)
    {
      hide Freed, MapIs, Tracked;
      TruncDirect(i);
      ghost var s1, l1 := S(), logged;
      TruncIndirect(i);
      ghost var s2, l2 := S(), logged;
      TrackedTrans(old(S()), s1, s2, i, old(logged), l1, l2);
      FreedJoin(sb, old(S()), s1, s2, i, 0, NDIRECT, SLOTS);
      inodes := inodes[i := inodes[i].(size := 0)];
      ResizeKeeps(sb, s2, i, 0);
      assert S() == Resize(s2, i, 0);
      FreedResized(sb, old(S()), s2, i, 0, SLOTS, 0);
      FreedSettled(sb, old(S()), S(), i, 0, SLOTS);
      logged := logged + {IBlock(sb, i)};       // iupdate
      TrackedResize(old(S()), s2, S(), i, old(logged), l2, logged);
    }

    // ---- filewrite ----

    /** One transaction of filewrite: chunk [k, k+n) of `src` at `off + k`. */
    method WriteChunk(i: nat, off: uint32, src: seq<byte>, k: nat, n: nat, copyOk: nat -> bool, ghost s0: Fs)
        returns (r: int)
      requires Consistent(sb, s0) && i < |s0.inodes| && HoleFree(s0, i) && |src| < 0x8000_0000
      requires Copied(sb, s0, S(), i, off, src, k) && k + n <= |src| && 0 < n <= CHUNK
      modifies this`blocks, this`inodes, this`owner, this`logged
      ensures |logged| <= MAXOPBLOCKS
      ensures -1 <= r <= n && Copied(sb, s0, S(), i, off, src, k + (if r < 0 then 0 else r))
      ensures r != -1 ==> off <= s0.inodes[i].size && off + k + n <= MAXFILE * BSIZE && CopiesOk(off + k, r, copyOk)
      ensures r != n ==>
                off > s0.inodes[i].size || off + k + n > MAXFILE * BSIZE || (r >= 0 && !copyOk(r)) || Full(sb, S())
    {
      hide LogBound, Consistent, Full, Settled, HoleFree, Wrote, Copied, CopiesOk;
      logged := {};                             // begin_op
      ghost var s1 := S();
      CopiedState(sb, s0, s1, i, off, src, k);
      r := Writei(i, src[k..k + n], off + k, copyOk);
      assert logged - {} == logged;
      ChunkFits(off + k, n);
      if r != -1 {
        CopiedMore(sb, s0, s1, S(), i, off, src, k, n, r);
      }
    }

    /**
    The inode branch of filewrite: `src` goes in at the file offset in chunks of at most 3 blocks, one
    transaction each; no transaction logs more than MAXOPBLOCKS blocks. `ops` is what each one logged. A negative
    count writes nothing and fails.
    */
    method Filewrite(i: nat, off: uint32, src: seq<byte>, n: int, copyOk: nat -> nat -> bool)
        returns (ret: int, off': nat, ghost ops: seq<set<nat>>)
      requires Consistent(sb, S()) && i < |inodes| && HoleFree(S(), i) && n < 0x8000_0000
               && |src| == if n < 0 then 0 else n
      modifies this`blocks, this`inodes, this`owner, this`logged
      ensures forall k | 0 <= k < |ops| :: |ops[k]| <= MAXOPBLOCKS
      ensures (ret == n || ret == -1) && (n < 0 ==> ret == -1)
      ensures off <= off' <= off + |src| && (n >= 0 ==> (ret == n <==> off' == off + |src|))
      ensures Copied(sb, old(S()), S(), i, off, src, off' - off)
      ensures n >= 0 && ret == -1 ==> |ops| > 0 && StopsAt(sb, old(S()), S(), i, off, n, off' - off, copyOk, |ops| - 1)
      ensures AllCopied(off, off' - off, copyOk)
              && (ret == n > 0 ==> off <= old(inodes)[i].size && off + n <= MAXFILE * BSIZE)
    {
      hide Consistent, HoleFree, Copied, Full, AllCopied, CopiesOk;
      ops, off' := [], off;
      var k := 0;
      ghost var s0 := S();
      CopiedNothing(sb, s0, i, off, src);
      NoCopies(off, copyOk);
      while k < n
        invariant k <= |src| && off' == off + k && forall j | 0 <= j < |ops| :: |ops[j]| <= MAXOPBLOCKS
        invariant Copied(sb, s0, S(), i, off, src, k) && AllCopied(off, k, copyOk)
                  && (k < n ==> k == Chunk(|ops|))
        invariant k > 0 ==> off <= s0.inodes[i].size && off + k <= MAXFILE * BSIZE
      {
        var n1 := Min(n - k, CHUNK);
        var r := WriteChunk(i, off, src, k, n1, copyOk(k), s0);
        ops := ops + [logged];
        if r > 0 {
          ChunkCopied(off, |ops| - 1, r, copyOk);
          off' := off' + r;
        }
        if r != n1 {
          return -1, off', ops;
        }
        k := k + r;
      }
      ret := if k == n then n else -1;
    }
  }
}
