/**
File contents: the bytes an inode's blocks spell, and what mapping a block or writing part of one
does to the bytes of every file.
*/
module FsContents {
  import opened Blocks
  import opened FsModel

  /** The slot of file block `bn`: direct, or an entry of the indirect block. */
  function SlotOf(bn: nat): nat
  {
    if bn < NDIRECT then bn else bn + 1
  }

  /** The disk block of file block `bn`, 0 if there is none. */
  function FileBlock(s: Fs, i: nat, bn: nat): nat
    requires i < |s.inodes| && |s.inodes[i].addrs| == NDIRECT + 1 && bn < MAXFILE
  {
    Ref(s, i, SlotOf(bn))
  }

  /** Every block that holds bytes of the file is there. */
  ghost predicate HoleFree(s: Fs, i: nat)
    requires i < |s.inodes| && |s.inodes[i].addrs| == NDIRECT + 1
  {
    s.inodes[i].size <= MAXFILE * BSIZE
    && forall bn: nat | bn < MAXFILE && bn * BSIZE < s.inodes[i].size :: FileBlock(s, i, bn) != 0
  }

  ghost predicate MappedAt(s: Fs, i: nat, p: nat)
    requires i < |s.inodes| && |s.inodes[i].addrs| == NDIRECT + 1
  {
    p < MAXFILE * BSIZE && 0 < FileBlock(s, i, p / BSIZE) < |s.blocks|
  }

  function ByteAt(s: Fs, i: nat, p: nat): byte
    requires i < |s.inodes| && |s.inodes[i].addrs| == NDIRECT + 1 && p < MAXFILE * BSIZE
    requires FileBlock(s, i, p / BSIZE) < |s.blocks|
  {
    s.blocks[FileBlock(s, i, p / BSIZE)][p % BSIZE]
  }

  lemma FileBlockOwned(sb: Super, s: Fs, i: nat, bn: nat)
    requires Consistent(sb, s) && i < |s.inodes| && bn < MAXFILE && FileBlock(s, i, bn) != 0
    ensures var b := FileBlock(s, i, bn);
            b in s.owner && s.owner[b] == At(i, SlotOf(bn)) && sb.datastart <= b < sb.size
  {
  }

  lemma HoleFreeMapped(sb: Super, s: Fs, i: nat, p: nat)
    requires Consistent(sb, s) && i < |s.inodes| && HoleFree(s, i) && p < s.inodes[i].size
    ensures MappedAt(s, i, p)
  {
    FileBlockOwned(sb, s, i, p / BSIZE);
  }

  /** The abstract file: its first `size` bytes. */
  ghost function Content(sb: Super, s: Fs, i: nat): (c: seq<byte>)
    requires Consistent(sb, s) && i < |s.inodes| && HoleFree(s, i)
    ensures |c| == s.inodes[i].size
    ensures forall p | 0 <= p < |c| :: MappedAt(s, i, p) && c[p] == ByteAt(s, i, p)
  {
    assert forall p: nat | p < s.inodes[i].size :: MappedAt(s, i, p) by {
      forall p: nat | p < s.inodes[i].size
        ensures MappedAt(s, i, p)
      {
        HoleFreeMapped(sb, s, i, p);
      }
    }
    seq(s.inodes[i].size, p requires 0 <= p < s.inodes[i].size => ByteAt(s, i, p))
  }

  // ---------------------------------------------------------------------------------------
  // Mapping a block
  // ---------------------------------------------------------------------------------------

  /**
  What bmap may do: give file block `bn` of inode `i` the address `a`, and nothing to any file block that was
  there.
  */
  ghost predicate Mapped(sb: Super, s: Fs, s': Fs, i: nat, bn: nat, a: nat)
    requires Consistent(sb, s) && i < |s.inodes| && bn < MAXFILE
  {
    && Consistent(sb, s') && SameSizes(s, s') && FileBlock(s', i, bn) == a
    && (FileBlock(s, i, bn) != 0 ==> s' == s)
    && (forall i': nat, n: nat {:trigger FileBlock(s', i', n)} | i' < |s.inodes| && n < MAXFILE
          && !(i' == i && n == bn) ::
          FileBlock(s', i', n) == FileBlock(s, i', n))
    && (forall i': nat, n: nat {:trigger FileBlock(s, i', n)} | i' < |s.inodes| && n < MAXFILE
          && FileBlock(s, i', n) != 0 ::
          FileBlock(s, i', n) < sb.size && s'.blocks[FileBlock(s, i', n)] == s.blocks[FileBlock(s, i', n)])
  }

  predicate SameSizes(s: Fs, s': Fs)
  {
    |s'.inodes| == |s.inodes| && forall i | 0 <= i < |s.inodes| :: s'.inodes[i].size == s.inodes[i].size
  }

  lemma MappedSelf(sb: Super, s: Fs, i: nat, bn: nat)
    requires Consistent(sb, s) && i < |s.inodes| && bn < MAXFILE
    ensures Mapped(sb, s, s, i, bn, FileBlock(s, i, bn))
  {
    forall i': nat, n: nat | i' < |s.inodes| && n < MAXFILE && FileBlock(s, i', n) != 0
      ensures FileBlock(s, i', n) < sb.size
    {
      FileBlockOwned(sb, s, i', n);
    }
  }

  /** Allocating and linking a direct block. */
  lemma MappedDirect(sb: Super, s: Fs, i: nat, bn: nat, r: nat)
    requires Consistent(sb, s) && i < |s.inodes| && bn < NDIRECT && FileBlock(s, i, bn) == 0
    requires sb.datastart <= r < sb.size && r !in s.owner
    ensures BBlock(sb, r) < sb.datastart && Mapped(sb, s, LinkDirect(Alloc(sb, s, r), i, bn, r), i, bn, r)
  {
    AllocKeeps(sb, s, r);
    var s1 := Alloc(sb, s, r);
    assert Ref(s1, i, bn) == Ref(s, i, bn);
    LinkDirectKeeps(sb, s1, i, bn, r);
    var s2 := LinkDirect(s1, i, bn, r);
    forall i': nat, n: nat | i' < |s.inodes| && n < MAXFILE && !(i' == i && n == bn)
      ensures FileBlock(s2, i', n) == FileBlock(s, i', n)
    {
      assert Ref(s2, i', SlotOf(n)) == Ref(s1, i', SlotOf(n)) == Ref(s, i', SlotOf(n));
    }
    forall i': nat, n: nat | i' < |s.inodes| && n < MAXFILE && FileBlock(s, i', n) != 0
      ensures FileBlock(s, i', n) < sb.size && s2.blocks[FileBlock(s, i', n)] == s.blocks[FileBlock(s, i', n)]
    {
      FileBlockOwned(sb, s, i', n);
    }
  }

  /** Allocating an indirect block: no file block changes. */
  lemma IndirectAdded(sb: Super, s: Fs, i: nat, r: nat)
    requires Consistent(sb, s) && i < |s.inodes| && Ref(s, i, NDIRECT) == 0
    requires sb.datastart <= r < sb.size && r !in s.owner
    ensures BBlock(sb, r) < sb.datastart
    ensures var s2 := LinkDirect(Alloc(sb, s, r), i, NDIRECT, r);
            Consistent(sb, s2) && SameSizes(s, s2) && Ref(s2, i, NDIRECT) == r
            && (forall i': nat, n: nat | i' < |s.inodes| && n < MAXFILE :: FileBlock(s2, i', n) == FileBlock(s, i', n))
            && (forall b | b in s.owner :: b in s2.owner && s2.blocks[b] == s.blocks[b])
  {
    AllocKeeps(sb, s, r);
    var s1 := Alloc(sb, s, r);
    assert Ref(s1, i, NDIRECT) == Ref(s, i, NDIRECT);
    LinkDirectKeeps(sb, s1, i, NDIRECT, r);
    var s2 := LinkDirect(s1, i, NDIRECT, r);
    forall i': nat, n: nat | i' < |s.inodes| && n < MAXFILE
      ensures FileBlock(s2, i', n) == FileBlock(s, i', n)
    {
      assert Ref(s2, i', SlotOf(n)) == Ref(s1, i', SlotOf(n)) == Ref(s, i', SlotOf(n));
    }
  }

  /** Allocating a block and entering it in the indirect block. */
  lemma MappedEntry(sb: Super, s: Fs, i: nat, bn: nat, r: nat)
    requires Consistent(sb, s) && i < |s.inodes| && NDIRECT <= bn < MAXFILE && FileBlock(s, i, bn) == 0
    requires Ref(s, i, NDIRECT) != 0 && sb.datastart <= r < sb.size && r !in s.owner
    ensures BBlock(sb, r) < sb.datastart && Ref(s, i, NDIRECT) < sb.size
    ensures Mapped(sb, s, LinkEntry(Alloc(sb, s, r), i, bn - NDIRECT, r), i, bn, r)
  {
    AllocKeeps(sb, s, r);
    var s1 := Alloc(sb, s, r);
    assert Ref(s1, i, SlotOf(bn)) == Ref(s, i, SlotOf(bn)) && Ref(s1, i, NDIRECT) == Ref(s, i, NDIRECT);
    LinkEntryKeeps(sb, s1, i, bn - NDIRECT, r);
    var s2 := LinkEntry(s1, i, bn - NDIRECT, r);
    forall i': nat, n: nat | i' < |s.inodes| && n < MAXFILE && !(i' == i && n == bn)
      ensures FileBlock(s2, i', n) == FileBlock(s, i', n)
    {
      assert Ref(s2, i', SlotOf(n)) == Ref(s1, i', SlotOf(n)) == Ref(s, i', SlotOf(n));
    }
    forall i': nat, n: nat | i' < |s.inodes| && n < MAXFILE && FileBlock(s, i', n) != 0
      ensures FileBlock(s, i', n) < sb.size && s2.blocks[FileBlock(s, i', n)] == s.blocks[FileBlock(s, i', n)]
    {
      FileBlockOwned(sb, s, i', n);
      IndirectOwned(sb, s, 0, 0, i);
    }
  }

  /** A new indirect block followed by a mapping is a mapping. */
  lemma MappedAfterIndirect(sb: Super, s: Fs, s1: Fs, s2: Fs, i: nat, bn: nat, a: nat)
    requires Consistent(sb, s) && i < |s.inodes| && NDIRECT <= bn < MAXFILE && FileBlock(s, i, bn) == 0
    requires Consistent(sb, s1) && SameSizes(s, s1)
    requires forall i': nat, n: nat | i' < |s.inodes| && n < MAXFILE :: FileBlock(s1, i', n) == FileBlock(s, i', n)
    requires forall b | b in s.owner :: b in s1.owner && s1.blocks[b] == s.blocks[b]
    requires Mapped(sb, s1, s2, i, bn, a)
    ensures Mapped(sb, s, s2, i, bn, a)
  {
    forall i': nat, n: nat | i' < |s.inodes| && n < MAXFILE && FileBlock(s, i', n) != 0
      ensures FileBlock(s, i', n) < sb.size && s2.blocks[FileBlock(s, i', n)] == s.blocks[FileBlock(s, i', n)]
    {
      FileBlockOwned(sb, s, i', n);
      assert FileBlock(s1, i', n) == FileBlock(s, i', n);
    }
    forall i': nat, n: nat | i' < |s.inodes| && n < MAXFILE && !(i' == i && n == bn)
      ensures FileBlock(s2, i', n) == FileBlock(s, i', n)
    {
      assert FileBlock(s2, i', n) == FileBlock(s1, i', n);
    }
  }

  // ---------------------------------------------------------------------------------------
  // Writing bytes
  // ---------------------------------------------------------------------------------------

  /** memmove of `d` to offset `o` of a block. */
  function Splice(b: Block, o: nat, d: seq<byte>): Block
    requires o + |d| <= BSIZE
  {
    seq(BSIZE, k requires 0 <= k < BSIZE => if o <= k < o + |d| then d[k - o] else b[k])
  }

  function WriteAt(s: Fs, a: nat, o: nat, d: seq<byte>): Fs
    requires a < |s.blocks| && o + |d| <= BSIZE
  {
    s.(blocks := s.blocks[a := Splice(s.blocks[a], o, d)])
  }

  /** Compared with `s0`, bytes [off, off+tot) of file `i` are `src[..tot]` and no other byte of any file changed. */
  ghost predicate Written(sb: Super, s0: Fs, s: Fs, i: nat, off: nat, src: seq<byte>, tot: nat)
    requires Consistent(sb, s0) && i < |s0.inodes| && tot <= |src|
  {
    && Consistent(sb, s) && SameSizes(s0, s)
    && (forall i': nat, p: nat {:trigger MappedAt(s, i', p)} {:trigger MappedAt(s0, i', p)} |
          i' < |s0.inodes| && MappedAt(s0, i', p) && !(i' == i && off <= p < off + tot) ::
          MappedAt(s, i', p) && ByteAt(s, i', p) == ByteAt(s0, i', p))
    && (forall p: nat {:trigger MappedAt(s, i, p)} | off <= p < off + tot ::
          MappedAt(s, i, p) && ByteAt(s, i, p) == src[p - off])
  }

  /** bmap in between changes no byte. */
  lemma WrittenThenMapped(sb: Super, s0: Fs, s: Fs, s': Fs, i: nat, off: nat, src: seq<byte>, tot: nat, bn: nat, a: nat)
    requires Consistent(sb, s0) && i < |s0.inodes| && tot <= |src| && Written(sb, s0, s, i, off, src, tot)
    requires bn < MAXFILE && Mapped(sb, s, s', i, bn, a)
    ensures Written(sb, s0, s', i, off, src, tot)
  {
    forall i': nat, p: nat | i' < |s0.inodes| && MappedAt(s, i', p)
      ensures MappedAt(s', i', p) && ByteAt(s', i', p) == ByteAt(s, i', p)
    {
      assert FileBlock(s, i', p / BSIZE) != 0;
      assert FileBlock(s', i', p / BSIZE) == FileBlock(s, i', p / BSIZE);
    }
  }

  /** Writing a chunk that stays inside one block extends what has been written. */
  lemma WrittenChunk(sb: Super, s0: Fs, s: Fs, i: nat, off: nat, src: seq<byte>, tot: nat, m: nat)
    requires Consistent(sb, s0) && i < |s0.inodes| && tot + m <= |src| && Written(sb, s0, s, i, off, src, tot)
    requires (off + tot) / BSIZE < MAXFILE && FileBlock(s, i, (off + tot) / BSIZE) != 0
    requires 0 < m <= BSIZE - (off + tot) % BSIZE
    ensures FileBlock(s, i, (off + tot) / BSIZE) < sb.size
    ensures Written(sb, s0, WriteAt(s, FileBlock(s, i, (off + tot) / BSIZE), (off + tot) % BSIZE, src[tot..tot + m]),
                    i, off, src, tot + m)
  {
    var bn, o := (off + tot) / BSIZE, (off + tot) % BSIZE;
    var a := FileBlock(s, i, bn);
    FileBlockOwned(sb, s, i, bn);
    var s' := WriteAt(s, a, o, src[tot..tot + m]);
    WriteKeeps(sb, s, a, s'.blocks[a]);
    forall i': nat, p: nat | i' < |s0.inodes| && MappedAt(s, i', p)
      ensures MappedAt(s', i', p)
      ensures ByteAt(s', i', p) == if i' == i && off + tot <= p < off + tot + m then src[p - off] else ByteAt(s, i', p)
    {
      ChunkByte(sb, s, s', i, bn, a, o, src[tot..tot + m], i', p);
      if i' == i && off + tot <= p < off + tot + m {
        assert p / BSIZE == bn && p % BSIZE == o + (p - off - tot);
      }
    }
    forall p: nat | off + tot <= p < off + tot + m
      ensures MappedAt(s, i, p)
    {
      assert p / BSIZE == bn;
    }
  }

  /** One byte after a chunk was written at offset `o` of file block `bn`. */
  lemma ChunkByte(sb: Super, s: Fs, s': Fs, i: nat, bn: nat, a: nat, o: nat, d: seq<byte>, i': nat, p: nat)
    requires Consistent(sb, s) && Consistent(sb, s') && i < |s.inodes| && i' < |s.inodes| && bn < MAXFILE
    requires a == FileBlock(s, i, bn) && 0 < a < sb.size && o + |d| <= BSIZE && s' == WriteAt(s, a, o, d)
    requires forall k: nat, j: nat | k < |s.inodes| && j < SLOTS :: Ref(s', k, j) == Ref(s, k, j)
    requires MappedAt(s, i', p)
    ensures MappedAt(s', i', p)
    ensures ByteAt(s', i', p) == if i' == i && p / BSIZE == bn && o <= p % BSIZE < o + |d| then d[p % BSIZE - o]
            else ByteAt(s, i', p)
  {
    assert FileBlock(s', i', p / BSIZE) == FileBlock(s, i', p / BSIZE);
    FileBlockOwned(sb, s, i, bn);
    FileBlockOwned(sb, s, i', p / BSIZE);
  }

  /** ip->size = off after the loop, if that is larger. */
  function Resize(s: Fs, i: nat, size: nat): Fs
    requires i < |s.inodes|
  {
    s.(inodes := s.inodes[i := s.inodes[i].(size := size)])
  }

  function Max(a: nat, b: nat): nat
  {
    if a < b then b else a
  }

  lemma ResizeKeeps(sb: Super, s: Fs, i: nat, size: nat)
    requires Consistent(sb, s) && i < |s.inodes|
    ensures Consistent(sb, Resize(s, i, size))
    ensures forall i': nat, j: nat | i' < |s.inodes| && j < SLOTS :: Ref(Resize(s, i, size), i', j) == Ref(s, i', j)
  {
    var s' := Resize(s, i, size);
    assert forall i': nat, j: nat | i' < |s.inodes| && j < SLOTS :: Ref(s', i', j) == Ref(s, i', j);
  }

  /** `c` with `d` written at `off`, longer if need be. */
  function Overwrite(c: seq<byte>, off: nat, d: seq<byte>): seq<byte>
    requires off <= |c|
  {
    c[..off] + d + (if off + |d| <= |c| then c[off + |d|..] else [])
  }

  lemma StillHoleFree(sb: Super, s0: Fs, s: Fs, i: nat, off: nat, src: seq<byte>, tot: nat, k: nat, size: nat)
    requires Consistent(sb, s0) && i < |s0.inodes| && tot <= |src| && Written(sb, s0, s, i, off, src, tot)
    requires k < |s0.inodes| && HoleFree(s0, k) && size <= MAXFILE * BSIZE
    requires size == if k == i then Max(s0.inodes[i].size, off + tot) else s0.inodes[k].size
    requires k == i ==> off <= s0.inodes[i].size
    ensures forall bn: nat | bn < MAXFILE && bn * BSIZE < size :: FileBlock(s, k, bn) != 0
  {
    forall bn: nat | bn < MAXFILE && bn * BSIZE < size
      ensures FileBlock(s, k, bn) != 0
    {
      var p := bn * BSIZE;
      if p < s0.inodes[k].size {
        HoleFreeMapped(sb, s0, k, p);
      }
      assert MappedAt(s, k, p) && p / BSIZE == bn;
    }
  }

  /** `r` is `c` overwritten, told byte by byte. */
  lemma OverwriteIs(c: seq<byte>, off: nat, d: seq<byte>, r: seq<byte>)
    requires off <= |c| && |r| == Max(|c|, off + |d|)
    requires forall p | 0 <= p < |r| :: r[p] == if off <= p < off + |d| then d[p - off] else c[p]
    ensures r == Overwrite(c, off, d)
  {
  }

  /** Changing sizes only: same references, same bytes. */
  lemma ResizedBytes(sb: Super, s: Fs, i: nat, size: nat, k: nat)
    requires Consistent(sb, s) && i < |s.inodes| && k < |s.inodes|
    ensures Consistent(sb, Resize(s, i, size))
    ensures forall bn: nat | bn < MAXFILE :: FileBlock(Resize(s, i, size), k, bn) == FileBlock(s, k, bn)
  {
    ResizeKeeps(sb, s, i, size);
    forall bn: nat | bn < MAXFILE
      ensures FileBlock(Resize(s, i, size), k, bn) == FileBlock(s, k, bn)
    {
      assert Ref(Resize(s, i, size), k, SlotOf(bn)) == Ref(s, k, SlotOf(bn));
    }
  }

  lemma WrittenHoleFree(sb: Super, s0: Fs, s: Fs, i: nat, off: nat, src: seq<byte>, tot: nat, k: nat)
    requires Consistent(sb, s0) && i < |s0.inodes| && tot <= |src| && Written(sb, s0, s, i, off, src, tot)
    requires off <= s0.inodes[i].size && off + tot <= MAXFILE * BSIZE
    requires k < |s0.inodes| && HoleFree(s0, k)
    ensures var s' := Resize(s, i, Max(s0.inodes[i].size, off + tot));
            Consistent(sb, s') && HoleFree(s', k)
  {
    var size := Max(s0.inodes[i].size, off + tot);
    var s' := Resize(s, i, size);
    ResizedBytes(sb, s, i, size, k);
    StillHoleFree(sb, s0, s, i, off, src, tot, k, s'.inodes[k].size);
  }

  /** The bytes of any file after a write and the size update. */
  lemma WrittenContent(sb: Super, s0: Fs, s: Fs, i: nat, off: nat, src: seq<byte>, tot: nat, k: nat)
    requires Consistent(sb, s0) && i < |s0.inodes| && tot <= |src| && Written(sb, s0, s, i, off, src, tot)
    requires off <= s0.inodes[i].size && off + tot <= MAXFILE * BSIZE
    requires k < |s0.inodes| && HoleFree(s0, k)
    ensures var s' := Resize(s, i, Max(s0.inodes[i].size, off + tot));
            Consistent(sb, s') && HoleFree(s', k)
            && Content(sb, s', k) == if k == i then Overwrite(Content(sb, s0, i), off, src[..tot])
                else Content(sb, s0, k)
  {
    var s' := Resize(s, i, Max(s0.inodes[i].size, off + tot));
    WrittenHoleFree(sb, s0, s, i, off, src, tot, k);
    var c, c' := Content(sb, s0, k), Content(sb, s', k);
    forall p: nat | p < |c'|
      ensures c'[p] == if k == i && off <= p < off + tot then src[p - off] else c[p]
    {
      WrittenByte(sb, s0, s, i, off, src, tot, k, p);
    }
    if k == i {
      OverwriteIs(c, off, src[..tot], c');
    }
  }

  lemma WrittenByte(sb: Super, s0: Fs, s: Fs, i: nat, off: nat, src: seq<byte>, tot: nat, k: nat, p: nat)
    requires Consistent(sb, s0) && i < |s0.inodes| && tot <= |src| && Written(sb, s0, s, i, off, src, tot)
    requires k < |s0.inodes| && HoleFree(s0, k) && off <= s0.inodes[i].size
    requires p < if k == i then Max(s0.inodes[i].size, off + tot) else s0.inodes[k].size
    requires Consistent(sb, Resize(s, i, Max(s0.inodes[i].size, off + tot)))
    requires MappedAt(Resize(s, i, Max(s0.inodes[i].size, off + tot)), k, p)
    ensures ByteAt(Resize(s, i, Max(s0.inodes[i].size, off + tot)), k, p)
            == if k == i && off <= p < off + tot then src[p - off] else Content(sb, s0, k)[p]
  {
    var s' := Resize(s, i, Max(s0.inodes[i].size, off + tot));
    assert FileBlock(s', k, p / BSIZE) == FileBlock(s, k, p / BSIZE);
    if k == i && off <= p < off + tot {
      assert MappedAt(s, i, p);
    } else {
      assert MappedAt(s0, k, p);
    }
  }
}
