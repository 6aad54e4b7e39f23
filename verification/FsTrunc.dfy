/**
Releasing the blocks of one inode (kernel/fs.c itrunc): which owners go, and that every other file
keeps its references and its bytes.
*/
module FsTrunc {
  import opened Blocks
  import opened FsModel
  import opened FsContents

  /** The owners without slots [lo, hi) of inode `i`. */
  ghost function Without(owner: map<nat, Owner>, i: nat, lo: nat, hi: nat): map<nat, Owner>
  {
    map b | b in owner && !Inside(owner[b], i, lo, hi) :: owner[b]
  }

  predicate Inside(o: Owner, i: nat, lo: nat, hi: nat)
  {
    o.At? && o.inum == i && lo <= o.j < hi
  }

  /** Compared with `s0`, slots [lo, hi) of inode `i` lost their blocks; no data block changed. */
  ghost predicate Freed(sb: Super, s0: Fs, s: Fs, i: nat, lo: nat, hi: nat)
    requires Shape(sb, s0) && Shape(sb, s)
  {
    s.owner == Without(s0.owner, i, lo, hi) && forall b: nat | sb.datastart <= b < sb.size ::
                                                 s.blocks[b] == s0.blocks[b]
  }

  lemma FreedNothing(sb: Super, s: Fs, i: nat, lo: nat)
    requires Shape(sb, s)
    ensures Freed(sb, s, s, i, lo, lo)
  {
  }

  /** Releasing the block of slot `j` extends the range by one. */
  lemma FreedMore(sb: Super, s0: Fs, s: Fs, s': Fs, x: nat, n: nat, i: nat, lo: nat, j: nat)
    requires Shape(sb, s0) && Shape(sb, s) && Shape(sb, s') && Owned(sb, s, x, n) && i < |s.inodes| && lo <= j < SLOTS
    requires Freed(sb, s0, s, i, lo, j) && !Dead(x, n, i, j)
    requires s'.owner == s.owner - {Ref(s, i, j)}
    requires forall b: nat | sb.datastart <= b < sb.size :: s'.blocks[b] == s.blocks[b]
    ensures Freed(sb, s0, s', i, lo, j + 1)
  {
    var r := Ref(s, i, j);
    forall b | b in s.owner
      ensures s.owner[b] == At(i, j) <==> b == r
    {
      if s.owner[b] == At(i, j) {
        assert RefersTo(s, x, n, i, j, b);
      }
    }
    assert s'.owner == Without(s0.owner, i, lo, j + 1);
  }

  /** Without an indirect block there is nothing to free beyond the direct blocks. */
  lemma NoIndirect(sb: Super, s: Fs, i: nat)
    requires Consistent(sb, s) && i < |s.inodes| && s.inodes[i].addrs[NDIRECT] == 0
    ensures Freed(sb, s, s, i, NDIRECT, SLOTS)
  {
    forall b | b in s.owner
      ensures !Inside(s.owner[b], i, NDIRECT, SLOTS)
    {
      if s.owner[b].At? {
        assert RefersTo(s, 0, 0, s.owner[b].inum, s.owner[b].j, b);
      }
    }
  }

  /** With no dead entry it does not matter which inode they would be of. */
  lemma NoneDead(sb: Super, s: Fs, i: nat)
    requires Consistent(sb, s)
    ensures Owned(sb, s, i, 0)
  {
    forall b | b in s.owner && s.owner[b].At?
      ensures RefersTo(s, i, 0, s.owner[b].inum, s.owner[b].j, b)
    {
      assert RefersTo(s, 0, 0, s.owner[b].inum, s.owner[b].j, b);
    }
  }

  lemma FreedResized(sb: Super, s0: Fs, s: Fs, i: nat, lo: nat, hi: nat, size: nat)
    requires Shape(sb, s0) && Shape(sb, s) && i < |s.inodes| && Freed(sb, s0, s, i, lo, hi)
    ensures Shape(sb, Resize(s, i, size)) && Freed(sb, s0, Resize(s, i, size), i, lo, hi)
  {
  }

  lemma FreedSettled(sb: Super, s0: Fs, s: Fs, i: nat, lo: nat, hi: nat)
    requires Shape(sb, s0) && Shape(sb, s) && Freed(sb, s0, s, i, lo, hi)
    ensures Settled(s0) ==> Settled(s)
  {
  }

  /** Two adjoining ranges. */
  lemma FreedJoin(sb: Super, s0: Fs, s1: Fs, s2: Fs, i: nat, lo: nat, mid: nat, hi: nat)
    requires Shape(sb, s0) && Shape(sb, s1) && Shape(sb, s2) && lo <= mid <= hi
    requires (Freed(sb, s0, s1, i, lo, mid) && Freed(sb, s1, s2, i, mid, hi))
             || (Freed(sb, s0, s1, i, mid, hi) && Freed(sb, s1, s2, i, lo, mid))
    ensures Freed(sb, s0, s2, i, lo, hi)
  {
    assert s2.owner == Without(s0.owner, i, lo, hi);
  }

  /** No block at all: what is left of an inode that itrunc is done with. */
  predicate Empty(ino: Inode)
  {
    ino.size == 0 && |ino.addrs| == NDIRECT + 1 && forall j | 0 <= j <= NDIRECT :: ino.addrs[j] == 0
  }

  /** The first `n` addresses cleared. */
  function Cleared(ino: Inode, n: nat): Inode
    requires n <= |ino.addrs|
  {
    ino.(addrs := seq(|ino.addrs|, k requires 0 <= k < |ino.addrs| => if k < n then 0 else ino.addrs[k]))
  }

  lemma ClearedNext(ino: Inode, n: nat)
    requires n < |ino.addrs|
    ensures Cleared(ino, n).(addrs := Cleared(ino, n).addrs[n := 0]) == Cleared(ino, n + 1)
    ensures ino.addrs[n] == 0 ==> Cleared(ino, n + 1) == Cleared(ino, n)
    ensures Cleared(ino, n).addrs[n] == ino.addrs[n] && Cleared(ino, 0) == ino
  {
  }

  /** The end state of itrunc on inode `i`. */
  ghost predicate Truncated(sb: Super, s: Fs, s': Fs, i: nat)
    requires Consistent(sb, s) && i < |s.inodes|
  {
    Consistent(sb, s') && Freed(sb, s, s', i, 0, SLOTS) && |s'.inodes| == |s.inodes| && Empty(s'.inodes[i])
    && forall k: nat | k < |s.inodes| && k != i :: s'.inodes[k] == s.inodes[k]
  }

  /** Only the bits of the blocks of inode `i` are cleared. */
  lemma TruncatedBits(sb: Super, s: Fs, s': Fs, i: nat, b: nat)
    requires Consistent(sb, s) && i < |s.inodes| && Truncated(sb, s, s', i) && b < sb.size
    ensures BBlock(sb, b) < sb.size
    ensures MapBit(sb, s'.blocks, b) <==>
              MapBit(sb, s.blocks, b) && !exists j: nat :: j < SLOTS && b != 0 && Ref(s, i, j) == b
  {
    assert MapBit(sb, s.blocks, b) == (b < sb.datastart || b in s.owner);
    assert MapBit(sb, s'.blocks, b) == (b < sb.datastart || b in s'.owner);
    if b in s.owner && Inside(s.owner[b], i, 0, SLOTS) {
      assert RefersTo(s, 0, 0, i, s.owner[b].j, b);
      assert Ref(s, i, s.owner[b].j) == b;
    }
  }

  /** Every other file keeps its blocks and its bytes. */
  lemma TruncatedContent(sb: Super, s: Fs, s': Fs, i: nat, k: nat)
    requires Consistent(sb, s) && i < |s.inodes| && Truncated(sb, s, s', i)
    requires k < |s.inodes| && HoleFree(s, k)
    ensures HoleFree(s', k) && Content(sb, s', k) == if k == i then [] else Content(sb, s, k)
  {
    if k != i {
      forall bn: nat | bn < MAXFILE
        ensures FileBlock(s', k, bn) == FileBlock(s, k, bn)
      {
        assert Ref(s, k, NDIRECT) == s.inodes[k].addrs[NDIRECT];
      }
      var c, c' := Content(sb, s, k), Content(sb, s', k);
      forall p: nat | p < |c|
        ensures c'[p] == c[p]
      {
        FileBlockOwned(sb, s, k, p / BSIZE);
      }
    }
  }
}
