/**
The file system as it is stored: free map, data and inode blocks. An image determines the files; a writei or
itrunc between begin_op and end_op takes one image to another and changes only blocks it passes to log_write.
*/
module FsImage {
  import opened Blocks
  import opened FsModel
  import opened FsContents
  import opened FsTrunc
  import opened FileSys
  import opened FsRuns

  type Image = seq<Block>

  // ---------------------------------------------------------------------------------------
  // Inodes in blocks: sixteen words each, word 2 is the size, the addresses follow
  // ---------------------------------------------------------------------------------------

  const DINODE: nat := 16

  predicate InodeWords(ino: Inode)
  {
    && ino.size < 0x1_0000_0000 && |ino.addrs| == NDIRECT + 1
    && forall j | 0 <= j <= NDIRECT :: ino.addrs[j] < 0x1_0000_0000
  }

  /** Slot `k` of an inode block holds `ino`. */
  ghost predicate HasInode(b: Block, k: nat, ino: Inode)
    requires k < IPB
  {
    && WordAt(b, DINODE * k + 2) == ino.size && |ino.addrs| == NDIRECT + 1
    && forall j: nat {:trigger ino.addrs[j]} | j <= NDIRECT :: WordAt(b, DINODE * k + 3 + j) == ino.addrs[j]
  }

  /** The memmove of iupdate over the first `n` addresses. */
  function PutAddrs(b: Block, k: nat, ino: Inode, n: nat): (r: Block)
    requires k < IPB && InodeWords(ino) && n <= NDIRECT + 1
    ensures forall j: nat {:trigger ino.addrs[j]} | j < n :: WordAt(r, DINODE * k + 3 + j) == ino.addrs[j]
    ensures forall w: nat | w < WORDS && !(DINODE * k + 3 <= w < DINODE * k + 3 + n) :: WordAt(r, w) == WordAt(b, w)
  {
    if n == 0 then b else SetWord(PutAddrs(b, k, ino, n - 1), DINODE * k + 2 + n, ino.addrs[n - 1])
  }

  /** iupdate: the inode goes into its slot. */
  function PutInode(b: Block, k: nat, ino: Inode): Block
    requires k < IPB && InodeWords(ino)
  {
    SetWord(PutAddrs(b, k, ino, NDIRECT + 1), DINODE * k + 2, ino.size)
  }

  /** The inode reads back, and the other inodes of the block stay. */
  lemma PutInodeIs(b: Block, k: nat, ino: Inode)
    requires k < IPB && InodeWords(ino)
    ensures HasInode(PutInode(b, k, ino), k, ino)
  {
    hide WordAt, SetWord;
  }

  lemma PutInodeKeeps(b: Block, k: nat, ino: Inode, k': nat, ino': Inode)
    requires k < IPB && InodeWords(ino) && k' < IPB && k' != k && HasInode(b, k', ino')
    ensures HasInode(PutInode(b, k, ino), k', ino')
  {
    hide WordAt, SetWord;
  }

  lemma SameInode(b: Block, k: nat, ino: Inode, ino': Inode)
    requires k < IPB && HasInode(b, k, ino) && HasInode(b, k, ino')
    ensures ino == ino'
  {
    hide WordAt;
    assert ino.addrs == ino'.addrs;
  }

  // ---------------------------------------------------------------------------------------
  // Images
  // ---------------------------------------------------------------------------------------

  /** The blocks of `n` inodes are metadata apart from the free map. */
  ghost predicate InodeLayout(sb: Super, n: nat)
  {
    && SuperOk(sb)
    && forall i: nat {:trigger IBlock(sb, i)} | i < n :: IBlock(sb, i) < sb.datastart && !IsMap(sb, IBlock(sb, i))
  }

  /** A block of the free map. */
  predicate IsMap(sb: Super, b: nat)
  {
    sb.bmapstart <= b <= BBlock(sb, if sb.size > 0 then sb.size - 1 else 0)
  }

  /** Blocks that hold the free map or data. */
  predicate IsBody(sb: Super, b: nat)
  {
    IsMap(sb, b) || b >= sb.datastart
  }

  /** Image `d` stores file system `s` of `n` inodes. */
  ghost predicate Stored(sb: Super, n: nat, d: Image, s: Fs)
  {
    && |d| == |s.blocks| == sb.size && |s.inodes| == n
    && (forall b: nat {:trigger d[b]} {:trigger s.blocks[b]} | b < |d| && IsBody(sb, b) :: d[b] == s.blocks[b])
    && (forall i: nat {:trigger s.inodes[i]} | i < n ::
          IBlock(sb, i) < |d| && HasInode(d[IBlock(sb, i)], i % IPB, s.inodes[i]))
  }

  /** What counts for a file: the inodes and the data blocks. */
  lemma SameContent(sb: Super, s: Fs, s': Fs, i: nat)
    requires Consistent(sb, s) && Consistent(sb, s') && s'.inodes == s.inodes && i < |s.inodes|
    requires (forall b: nat | sb.datastart <= b < sb.size :: s'.blocks[b] == s.blocks[b]) && HoleFree(s, i)
    ensures HoleFree(s', i) && Content(sb, s', i) == Content(sb, s, i)
  {
    forall bn: nat | bn < MAXFILE
      ensures FileBlock(s', i, bn) == FileBlock(s, i, bn)
    {
      SameFileBlock(sb, s, s', i, bn);
    }
    assert HoleFree(s', i);
    var c, c' := Content(sb, s, i), Content(sb, s', i);
    forall p: nat | p < |c|
      ensures c'[p] == c[p]
    {
      FileBlockOwned(sb, s, i, p / BSIZE);
    }
  }

  lemma SameFileBlock(sb: Super, s: Fs, s': Fs, i: nat, bn: nat)
    requires Consistent(sb, s) && Consistent(sb, s') && s'.inodes == s.inodes && i < |s.inodes| && bn < MAXFILE
    requires forall b: nat | sb.datastart <= b < sb.size :: s'.blocks[b] == s.blocks[b]
    ensures FileBlock(s', i, bn) == FileBlock(s, i, bn)
  {
    if Ref(s, i, NDIRECT) != 0 {
      IndirectOwned(sb, s, 0, 0, i);
    }
  }

  /** An image stores the files of one file system only. */
  lemma StoredOnce(sb: Super, n: nat, d: Image, s: Fs, s': Fs)
    requires Sound(sb, s) && Sound(sb, s') && Stored(sb, n, d, s) && Stored(sb, n, d, s')
    ensures Files(sb, s') == Files(sb, s)
  {
    forall i: nat | i < n
      ensures s'.inodes[i] == s.inodes[i]
    {
      var ino, ino' := s.inodes[i], s'.inodes[i];
      SameInode(d[IBlock(sb, i)], i % IPB, ino, ino');
    }
    assert s'.inodes == s.inodes;
    hide HasInode, Consistent, HoleFree;
    forall i: nat | i < n
      ensures Content(sb, s', i) == Content(sb, s, i)
    {
      SameContent(sb, s, s', i);
    }
    assert Files(sb, s') == Files(sb, s);
  }

  /** The image of a sound file system. */
  ghost predicate Good(sb: Super, n: nat, d: Image)
  {
    exists s: Fs :: Sound(sb, s) && Stored(sb, n, d, s)
  }

  /** Its files. */
  ghost function FilesOf(sb: Super, n: nat, d: Image): seq<seq<byte>>
    requires Good(sb, n, d)
  {
    var s: Fs :| Sound(sb, s) && Stored(sb, n, d, s);
    Files(sb, s)
  }

  lemma FilesOfIs(sb: Super, n: nat, d: Image, s: Fs)
    requires Sound(sb, s) && Stored(sb, n, d, s)
    ensures Good(sb, n, d) && FilesOf(sb, n, d) == Files(sb, s)
  {
    var s': Fs :| Sound(sb, s') && Stored(sb, n, d, s') && FilesOf(sb, n, d) == Files(sb, s');
    StoredOnce(sb, n, d, s, s');
  }

  /** One whole operation, from image to image. */
  ghost predicate OpStep(sb: Super, n: nat, d: Image, op: Op, d': Image)
  {
    exists s: Fs, s': Fs :: Sound(sb, s) && Stored(sb, n, d, s) && Step(sb, s, op, s') && Stored(sb, n, d', s')
  }

  /** On images too an operation is the operation on plain byte strings. */
  lemma OpStepRefines(sb: Super, n: nat, d: Image, op: Op, d': Image)
    requires OpStep(sb, n, d, op, d')
    ensures Good(sb, n, d) && Good(sb, n, d') && Legal(FilesOf(sb, n, d), op)
    ensures FilesOf(sb, n, d') == Apply(FilesOf(sb, n, d), op)
  {
    hide Sound, Stored, Step, Files;
    var s: Fs, s': Fs :| Sound(sb, s) && Stored(sb, n, d, s) && Step(sb, s, op, s') && Stored(sb, n, d', s');
    StepRefines(sb, s, op, s');
    FilesOfIs(sb, n, d, s);
    FilesOfIs(sb, n, d', s');
    StepLegal(sb, s, op, s');
  }

  lemma StepLegal(sb: Super, s: Fs, op: Op, s': Fs)
    requires Sound(sb, s) && Step(sb, s, op, s')
    ensures Legal(Files(sb, s), op)
  {
  }

  // ---------------------------------------------------------------------------------------
  // Transactions
  // ---------------------------------------------------------------------------------------

  /** The image after an operation on inode `i`: the blocks of `s`, and iupdate. */
  ghost function ImageAfter(sb: Super, d: Image, s: Fs, i: nat): Image
    requires |d| == |s.blocks| && i < |s.inodes| && InodeWords(s.inodes[i])
  {
    seq(|d|, b requires 0 <= b < |d| =>
      if b == IBlock(sb, i) then PutInode(d[b], i % IPB, s.inodes[i]) else if IsBody(sb, b) then s.blocks[b] else d[b])
  }

  lemma InodeFits(sb: Super, s: Fs, i: nat)
    requires Consistent(sb, s) && i < |s.inodes| && HoleFree(s, i)
    ensures InodeWords(s.inodes[i])
  {
    forall j | 0 <= j <= NDIRECT
      ensures s.inodes[i].addrs[j] < 0x1_0000_0000
    {
      assert Ref(s, i, j) == s.inodes[i].addrs[j];
    }
  }

  /** If every change was logged, the new image differs only on logged blocks, and it stores the new state. */
  lemma TrackedImage(sb: Super, n: nat, d: Image, s: Fs, s': Fs, i: nat, l: set<nat>)
    requires InodeLayout(sb, n) && Stored(sb, n, d, s) && Tracked(s, s', i, {}, l) && i < n && InodeWords(s'.inodes[i])
    requires IBlock(sb, i) in l
    ensures var d' := ImageAfter(sb, d, s', i);
            Stored(sb, n, d', s') && forall b | 0 <= b < |d| && b !in l :: d'[b] == d[b]
  {
    hide PutInode, HasInode, WordAt;
    var d' := ImageAfter(sb, d, s', i);
    PutInodeIs(d[IBlock(sb, i)], i % IPB, s'.inodes[i]);
    forall k: nat | k < n
      ensures IBlock(sb, k) < |d'| && HasInode(d'[IBlock(sb, k)], k % IPB, s'.inodes[k])
    {
      if k != i {
        assert s'.inodes[k] == s.inodes[k];
        if IBlock(sb, k) == IBlock(sb, i) {
          SlotsOf(sb, i, k);
          PutInodeKeeps(d[IBlock(sb, i)], i % IPB, s'.inodes[i], k % IPB, s'.inodes[k]);
        }
      }
    }
  }

  lemma SlotsOf(sb: Super, i: nat, k: nat)
    requires IBlock(sb, i) == IBlock(sb, k) && i != k
    ensures i % IPB != k % IPB
  {
  }

  /**
  writei as one transaction on image `d`: what it passes to log_write is the whole difference to the image after
  the write, inode included, within the bound on logged blocks.
  */
  method WriteTransaction(fs: Fsys, i: nat, src: seq<byte>, off: uint32, copyOk: nat -> bool,
                          ghost n: nat, ghost d: Image)
      returns (r: int, ghost d': Image)
    requires Sound(fs.sb, fs.S()) && InodeLayout(fs.sb, n) && Stored(fs.sb, n, d, fs.S())
    requires i < |fs.inodes| && |src| < 0x1_0000_0000
    modifies fs`blocks, fs`inodes, fs`owner, fs`logged
    ensures Sound(fs.sb, fs.S()) && Stored(fs.sb, n, d', fs.S()) && |fs.logged| <= LogBound(off, |src|)
    ensures |d'| == |d| && forall b | 0 <= b < |d| && b !in fs.logged :: d'[b] == d[b]
    ensures r == -1 ==> d' == d
    ensures r != -1 ==> 0 <= r <= |src| && OpStep(fs.sb, n, d, Write(i, off, src[..r]), d')
  {
    hide Sound, Stored, Step, Tracked, InodeLayout, LogBound;
    fs.logged := {};                            // begin_op
    ghost var s := fs.S();
    r := WriteIsStep(fs, i, src, off, copyOk);
    assert fs.logged - {} == fs.logged;
    d' := d;
    if r != -1 {
      StepRefines(fs.sb, s, Write(i, off, src[..r]), fs.S());
      SoundInode(fs.sb, fs.S(), i);
      StoredSizes(fs.sb, n, d, s);
      TrackedSizes(s, fs.S(), i, fs.logged);
      d' := ImageAfter(fs.sb, d, fs.S(), i);
      TrackedImage(fs.sb, n, d, s, fs.S(), i, fs.logged);
    }
  }

  /** itrunc likewise. */
  method TruncTransaction(fs: Fsys, i: nat, ghost n: nat, ghost d: Image) returns (ghost d': Image)
    requires Sound(fs.sb, fs.S()) && InodeLayout(fs.sb, n) && Stored(fs.sb, n, d, fs.S()) && i < |fs.inodes|
    modifies fs`blocks, fs`inodes, fs`owner, fs`logged
    ensures Sound(fs.sb, fs.S()) && Stored(fs.sb, n, d', fs.S()) && OpStep(fs.sb, n, d, Truncate(i), d')
    ensures |d'| == |d| && forall b | 0 <= b < |d| && b !in fs.logged :: d'[b] == d[b]
  {
    hide Sound, Stored, Step, Tracked, InodeLayout;
    fs.logged := {};                            // begin_op
    ghost var s := fs.S();
    TruncIsStep(fs, i);
    StepRefines(fs.sb, s, Truncate(i), fs.S());
    StoredSizes(fs.sb, n, d, s);
    TrackedSizes(s, fs.S(), i, fs.logged);
    SoundInode(fs.sb, fs.S(), i);
    d' := ImageAfter(fs.sb, d, fs.S(), i);
    TrackedImage(fs.sb, n, d, s, fs.S(), i, fs.logged);
  }

  lemma SoundInode(sb: Super, s: Fs, i: nat)
    requires Sound(sb, s)
    ensures i < |s.inodes| ==> InodeWords(s.inodes[i])
  {
    if i < |s.inodes| {
      InodeFits(sb, s, i);
    }
  }

  lemma StoredSizes(sb: Super, n: nat, d: Image, s: Fs)
    requires Stored(sb, n, d, s)
    ensures |d| == |s.blocks| && |s.inodes| == n
  {
  }

  lemma TrackedSizes(s: Fs, s': Fs, i: nat, l: set<nat>)
    requires Tracked(s, s', i, {}, l)
    ensures |s'.blocks| == |s.blocks| && |s'.inodes| == |s.inodes|
  {
  }
}
