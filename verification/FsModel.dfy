/**
The block level of kernel/fs.c as values: the free map, inodes with direct and indirect block
numbers, and who owns each block.
*/
module FsModel {
  import opened Blocks
  import opened Bits

  const NDIRECT: nat := 12
  const NINDIRECT: nat := 256
  const MAXFILE: nat := NDIRECT + NINDIRECT
  const BPB: nat := 8 * BSIZE
  const IPB: nat := 16
  const SLOTS: nat := NDIRECT + 1 + NINDIRECT

  function ZeroBlock(): Block
  {
    seq(BSIZE, _ => 0)
  }

  /** Blocks below `datastart` are metadata. */
  datatype Super = Super(size: nat, bmapstart: nat, inodestart: nat, datastart: nat)

  predicate SuperOk(sb: Super)
  {
    1 <= sb.datastart <= sb.size <= 0x1_0000_0000 && (sb.size - 1) / BPB + sb.bmapstart < sb.datastart
  }

  datatype Inode = Inode(size: nat, addrs: seq<nat>)

  /** Who refers to an allocated block: slot `j` of inode `inum`, or nobody yet. */
  datatype Owner = Pending | At(inum: nat, j: nat)

  datatype Fs = Fs(blocks: seq<Block>, inodes: seq<Inode>, owner: map<nat, Owner>)

  ghost predicate Shape(sb: Super, s: Fs)
  {
    SuperOk(sb) && |s.blocks| == sb.size && forall i | 0 <= i < |s.inodes| :: |s.inodes[i].addrs| == NDIRECT + 1
  }

  // ---------------------------------------------------------------------------------------
  // The free map
  // ---------------------------------------------------------------------------------------

  /** BBLOCK: the free-map block that holds the bit of block `b`. */
  function BBlock(sb: Super, b: nat): nat
  {
    b / BPB + sb.bmapstart
  }

  /** Bit `bi` of a free-map block. */
  predicate BlockBit(m: Block, bi: nat)
    requires bi < BPB
  {
    TestBit(m[bi / 8], bi % 8)
  }

  predicate MapBit(sb: Super, blocks: seq<Block>, b: nat)
    requires BBlock(sb, b) < |blocks|
  {
    BlockBit(blocks[BBlock(sb, b)], b % BPB)
  }

  function MarkUsed(sb: Super, blocks: seq<Block>, b: nat): (r: seq<Block>)
    requires BBlock(sb, b) < |blocks|
    ensures |r| == |blocks|
  {
    var m := blocks[BBlock(sb, b)];
    var byt := b % BPB / 8;
    blocks[BBlock(sb, b) := m[byt := SetBit(m[byt], b % BPB % 8)]]
  }

  function MarkFree(sb: Super, blocks: seq<Block>, b: nat): (r: seq<Block>)
    requires BBlock(sb, b) < |blocks|
    ensures |r| == |blocks|
  {
    var m := blocks[BBlock(sb, b)];
    var byt := b % BPB / 8;
    blocks[BBlock(sb, b) := m[byt := ClearBit(m[byt], b % BPB % 8)]]
  }

  lemma SameBit(b: nat, c: nat)
    requires b / BPB == c / BPB && b % BPB / 8 == c % BPB / 8 && b % BPB % 8 == c % BPB % 8
    ensures b == c
  {
  }

  lemma MarkUsedSets(sb: Super, blocks: seq<Block>, b: nat, c: nat)
    requires BBlock(sb, b) < |blocks| && BBlock(sb, c) < |blocks|
    ensures MapBit(sb, MarkUsed(sb, blocks, b), c) <==> c == b || MapBit(sb, blocks, c)
  {
    if c != b && b / BPB == c / BPB && b % BPB / 8 == c % BPB / 8 && b % BPB % 8 == c % BPB % 8 {
      SameBit(b, c);
    }
  }

  lemma MarkFreeClears(sb: Super, blocks: seq<Block>, b: nat, c: nat)
    requires BBlock(sb, b) < |blocks| && BBlock(sb, c) < |blocks|
    ensures MapBit(sb, MarkFree(sb, blocks, b), c) <==> c != b && MapBit(sb, blocks, c)
  {
    if c != b && b / BPB == c / BPB && b % BPB / 8 == c % BPB / 8 && b % BPB % 8 == c % BPB % 8 {
      SameBit(b, c);
    }
  }

  lemma BBlockIsMeta(sb: Super, b: nat)
    requires SuperOk(sb) && b < sb.size
    ensures BBlock(sb, b) < sb.datastart
  {
    assert b / BPB <= (sb.size - 1) / BPB;
  }

  /** The free map marks the metadata and the owned blocks, and nothing else. */
  ghost predicate MapIs(sb: Super, blocks: seq<Block>, owner: map<nat, Owner>)
    requires SuperOk(sb) && |blocks| == sb.size
  {
    forall b: nat {:trigger MapBit(sb, blocks, b)} | b < sb.size ::
      BBlock(sb, b) < sb.size && (MapBit(sb, blocks, b) <==> b < sb.datastart || b in owner)
  }

  // ---------------------------------------------------------------------------------------
  // References
  // ---------------------------------------------------------------------------------------

  /** Slot `j` of inode `i`: direct blocks, the indirect block, then the entries of the indirect block. */
  function Ref(s: Fs, i: nat, j: nat): nat
    requires i < |s.inodes| && |s.inodes[i].addrs| == NDIRECT + 1 && j < SLOTS
  {
    if j <= NDIRECT then s.inodes[i].addrs[j]
    else
      var ind := s.inodes[i].addrs[NDIRECT];
      if 0 < ind < |s.blocks| then WordAt(s.blocks[ind], j - NDIRECT - 1) else 0
  }

  /** Entries of the indirect block of `x` that itrunc has already freed. */
  predicate Dead(x: nat, n: nat, i: nat, j: nat)
  {
    i == x && NDIRECT < j <= NDIRECT + n
  }

  /** The free map, the references and the owners agree, apart from the `n` dead entries of inode `x`. */
  ghost predicate Owned(sb: Super, s: Fs, x: nat, n: nat)
    requires Shape(sb, s)
  {
    && MapIs(sb, s.blocks, s.owner)
    && (forall b | b in s.owner :: sb.datastart <= b < sb.size)
    && (forall i: nat, j: nat {:trigger Ref(s, i, j)} | i < |s.inodes| && j < SLOTS ::
          Ref(s, i, j) != 0 && !Dead(x, n, i, j) ==> Ref(s, i, j) in s.owner && s.owner[Ref(s, i, j)] == At(i, j))
    && (forall b | b in s.owner && s.owner[b].At? :: RefersTo(s, x, n, s.owner[b].inum, s.owner[b].j, b))
  }

  predicate RefersTo(s: Fs, x: nat, n: nat, i: nat, j: nat, b: nat)
  {
    i < |s.inodes| && |s.inodes[i].addrs| == NDIRECT + 1 && j < SLOTS && Ref(s, i, j) == b && !Dead(x, n, i, j)
  }

  ghost predicate Consistent(sb: Super, s: Fs)
  {
    Shape(sb, s) && Owned(sb, s, 0, 0)
  }

  /** No allocation is in the middle. */
  predicate Settled(s: Fs)
  {
    forall b | b in s.owner :: s.owner[b].At?
  }

  /** Between operations a data block is marked used exactly if some slot refers to it, and then exactly one does. */
  lemma UsedIffReferredToOnce(sb: Super, s: Fs, b: nat)
    requires Consistent(sb, s) && Settled(s) && sb.datastart <= b < sb.size
    ensures BBlock(sb, b) < sb.size
    ensures MapBit(sb, s.blocks, b) <==> exists i: nat, j: nat :: i < |s.inodes| && j < SLOTS && Ref(s, i, j) == b
    ensures forall i: nat, j: nat, i': nat, j': nat |
              i < |s.inodes| && j < SLOTS && i' < |s.inodes| && j' < SLOTS && Ref(s, i, j) == b == Ref(s, i', j') ::
                  i == i' && j == j'
  {
    assert MapBit(sb, s.blocks, b) == (b in s.owner);
    if b in s.owner {
      assert RefersTo(s, 0, 0, s.owner[b].inum, s.owner[b].j, b);
      assert Ref(s, s.owner[b].inum, s.owner[b].j) == b;
    }
  }

  // ---------------------------------------------------------------------------------------
  // Steps
  // ---------------------------------------------------------------------------------------

  /** balloc of block `r`: mark it used and zero it. */
  function Alloc(sb: Super, s: Fs, r: nat): Fs
    requires BBlock(sb, r) < |s.blocks| && r < |s.blocks|
  {
    Fs(MarkUsed(sb, s.blocks, r)[r := ZeroBlock()], s.inodes, s.owner[r := Pending])
  }

  /** ip->addrs[j] = r */
  function LinkDirect(s: Fs, i: nat, j: nat, r: nat): Fs
    requires i < |s.inodes| && |s.inodes[i].addrs| == NDIRECT + 1 && j <= NDIRECT
  {
    Fs(s.blocks, s.inodes[i := s.inodes[i].(addrs := s.inodes[i].addrs[j := r])], s.owner[r := At(i, j)])
  }

  /** a[k] = r in the indirect block */
  function LinkEntry(s: Fs, i: nat, k: nat, r: nat): Fs
    requires i < |s.inodes| && |s.inodes[i].addrs| == NDIRECT + 1 && k < NINDIRECT && r < 0x1_0000_0000
    requires s.inodes[i].addrs[NDIRECT] < |s.blocks|
  {
    var ind := s.inodes[i].addrs[NDIRECT];
    Fs(s.blocks[ind := SetWord(s.blocks[ind], k, r)], s.inodes, s.owner[r := At(i, NDIRECT + 1 + k)])
  }

  lemma MapAfterAlloc(sb: Super, s: Fs, r: nat)
    requires Shape(sb, s) && MapIs(sb, s.blocks, s.owner) && sb.datastart <= r < sb.size
    ensures BBlock(sb, r) < sb.datastart && MapIs(sb, Alloc(sb, s, r).blocks, Alloc(sb, s, r).owner)
  {
    BBlockIsMeta(sb, r);
    var s' := Alloc(sb, s, r);
    forall b: nat | b < sb.size
      ensures BBlock(sb, b) < sb.size && (MapBit(sb, s'.blocks, b) <==> b < sb.datastart || b in s'.owner)
    {
      BBlockIsMeta(sb, b);
      MarkUsedSets(sb, s.blocks, r, b);
      assert MapBit(sb, s'.blocks, b) == MapBit(sb, MarkUsed(sb, s.blocks, r), b);
    }
  }

  lemma MapSameKeys(sb: Super, blocks: seq<Block>, owner: map<nat, Owner>, owner': map<nat, Owner>)
    requires SuperOk(sb) && |blocks| == sb.size && MapIs(sb, blocks, owner)
    requires forall b :: b in owner' <==> b in owner
    ensures MapIs(sb, blocks, owner')
  {
    forall b: nat | b < sb.size
      ensures BBlock(sb, b) < sb.size && (MapBit(sb, blocks, b) <==> b < sb.datastart || b in owner')
    {
      assert MapBit(sb, blocks, b) == (b < sb.datastart || b in owner);
    }
  }

  /** Changing a data block leaves the free map alone. */
  lemma MapAfterDataWrite(sb: Super, blocks: seq<Block>, owner: map<nat, Owner>, owner': map<nat, Owner>, b: nat,
                          d: Block)
    requires SuperOk(sb) && |blocks| == sb.size && MapIs(sb, blocks, owner) && sb.datastart <= b < sb.size
    requires owner'.Keys == owner.Keys
    ensures MapIs(sb, blocks[b := d], owner')
  {
    forall c: nat | c < sb.size
      ensures BBlock(sb, c) < sb.size && (MapBit(sb, blocks[b := d], c) <==> c < sb.datastart || c in owner')
    {
      BBlockIsMeta(sb, c);
      assert MapBit(sb, blocks[b := d], c) == MapBit(sb, blocks, c);
    }
  }

  /** Two states with the same inodes and the same indirect blocks have the same references. */
  lemma RefsKept(s: Fs, s': Fs)
    requires |s'.blocks| == |s.blocks| && s'.inodes == s.inodes
    requires forall i | 0 <= i < |s.inodes| :: |s.inodes[i].addrs| == NDIRECT + 1
    requires forall i | 0 <= i < |s.inodes| ::
               var ind := s.inodes[i].addrs[NDIRECT]; 0 < ind < |s.blocks| ==> s'.blocks[ind] == s.blocks[ind]
    ensures forall i: nat, j: nat | i < |s.inodes| && j < SLOTS :: Ref(s', i, j) == Ref(s, i, j)
  {
  }

  /** Allocation keeps every reference and the contents of every owned block. */
  lemma AllocKeeps(sb: Super, s: Fs, r: nat)
    requires Consistent(sb, s) && sb.datastart <= r < sb.size && r !in s.owner
    ensures BBlock(sb, r) < sb.datastart
    ensures Consistent(sb, Alloc(sb, s, r))
    ensures forall i: nat, j: nat | i < |s.inodes| && j < SLOTS :: Ref(Alloc(sb, s, r), i, j) == Ref(s, i, j)
    ensures forall b | b in s.owner :: Alloc(sb, s, r).blocks[b] == s.blocks[b]
  {
    MapAfterAlloc(sb, s, r);
    var s' := Alloc(sb, s, r);
    forall i: nat | i < |s.inodes|
      ensures var ind := s.inodes[i].addrs[NDIRECT]; 0 < ind < |s.blocks| ==> s'.blocks[ind] == s.blocks[ind]
    {
      assert Ref(s, i, NDIRECT) == s.inodes[i].addrs[NDIRECT];
    }
    RefsKept(s, s');
  }

  lemma ZeroWords(k: nat)
    requires k < WORDS
    ensures WordAt(ZeroBlock(), k) == 0
  {
  }

  /**
  Storing a pending block in a direct slot, or an all-zero one as the indirect block, changes that reference
  only.
  */
  lemma LinkDirectKeeps(sb: Super, s: Fs, i: nat, j: nat, r: nat)
    requires Consistent(sb, s) && i < |s.inodes| && j <= NDIRECT && Ref(s, i, j) == 0
    requires r in s.owner && s.owner[r].Pending? && (j == NDIRECT ==> s.blocks[r] == ZeroBlock())
    ensures Consistent(sb, LinkDirect(s, i, j, r))
    ensures forall i': nat, j': nat | i' < |s.inodes| && j' < SLOTS ::
              Ref(LinkDirect(s, i, j, r), i', j') == if i' == i && j' == j then r else Ref(s, i', j')
  {
    var s' := LinkDirect(s, i, j, r);
    forall i': nat, j': nat | i' < |s.inodes| && j' < SLOTS
      ensures Ref(s', i', j') == if i' == i && j' == j then r else Ref(s, i', j')
    {
      if i' == i && j == NDIRECT && j' > NDIRECT {
        ZeroWords(j' - NDIRECT - 1);
      }
    }
    MapSameKeys(sb, s.blocks, s.owner, s'.owner);
  }

  /** The indirect block of an inode is owned by that inode alone. */
  lemma IndirectOwned(sb: Super, s: Fs, x: nat, n: nat, i: nat)
    requires Shape(sb, s) && Owned(sb, s, x, n) && i < |s.inodes| && Ref(s, i, NDIRECT) != 0
    ensures var ind := Ref(s, i, NDIRECT);
            ind in s.owner && s.owner[ind] == At(i, NDIRECT)
            && sb.datastart <= ind < sb.size
    ensures forall i': nat | i' < |s.inodes| && Ref(s, i', NDIRECT) == Ref(s, i, NDIRECT) :: i' == i
  {
  }

  lemma LinkEntryKeeps(sb: Super, s: Fs, i: nat, k: nat, r: nat)
    requires Consistent(sb, s) && i < |s.inodes| && k < NINDIRECT && Ref(s, i, NDIRECT) != 0
             && Ref(s, i, NDIRECT + 1 + k) == 0
    requires r in s.owner && s.owner[r].Pending?
    ensures Ref(s, i, NDIRECT) < sb.size && r < sb.size
    ensures Consistent(sb, LinkEntry(s, i, k, r))
    ensures forall i': nat, j': nat | i' < |s.inodes| && j' < SLOTS ::
              Ref(LinkEntry(s, i, k, r), i', j') == if i' == i && j' == NDIRECT + 1 + k then r else Ref(s, i', j')
    ensures forall b | b in s.owner && b != Ref(s, i, NDIRECT) :: LinkEntry(s, i, k, r).blocks[b] == s.blocks[b]
  {
    IndirectOwned(sb, s, 0, 0, i);
    var s' := LinkEntry(s, i, k, r);
    var ind := Ref(s, i, NDIRECT);
    forall i': nat, j': nat | i' < |s.inodes| && j' < SLOTS
      ensures Ref(s', i', j') == if i' == i && j' == NDIRECT + 1 + k then r else Ref(s, i', j')
    {
      assert Ref(s, i', NDIRECT) == s.inodes[i'].addrs[NDIRECT];
    }
    assert s'.owner.Keys == s.owner.Keys;
    MapAfterDataWrite(sb, s.blocks, s.owner, s'.owner, ind, s'.blocks[ind]);
  }

  /** Overwriting a file's data block changes no reference and no other block. */
  lemma WriteKeeps(sb: Super, s: Fs, b: nat, d: Block)
    requires Consistent(sb, s) && b in s.owner && s.owner[b].At? && s.owner[b].j != NDIRECT
    ensures b < sb.size && Consistent(sb, s.(blocks := s.blocks[b := d]))
    ensures forall i: nat, j: nat | i < |s.inodes| && j < SLOTS ::
              Ref(s.(blocks := s.blocks[b := d]), i, j) == Ref(s, i, j)
  {
    var s' := s.(blocks := s.blocks[b := d]);
    forall i: nat | i < |s.inodes|
      ensures var ind := s.inodes[i].addrs[NDIRECT]; 0 < ind < |s.blocks| ==> s'.blocks[ind] == s.blocks[ind]
    {
      assert Ref(s, i, NDIRECT) == s.inodes[i].addrs[NDIRECT];
    }
    RefsKept(s, s');
    MapAfterDataWrite(sb, s.blocks, s.owner, s.owner, b, d);
  }

  // ---- freeing ----

  /** bfree of an owned block: its bit was set, so "freeing free block" is out of reach. */
  function Release(sb: Super, s: Fs, r: nat): Fs
    requires BBlock(sb, r) < |s.blocks|
  {
    Fs(MarkFree(sb, s.blocks, r), s.inodes, s.owner - {r})
  }

  lemma MapAfterRelease(sb: Super, s: Fs, r: nat)
    requires Shape(sb, s) && MapIs(sb, s.blocks, s.owner) && sb.datastart <= r < sb.size && r in s.owner
    ensures BBlock(sb, r) < sb.datastart && MapBit(sb, s.blocks, r)
    ensures MapIs(sb, Release(sb, s, r).blocks, Release(sb, s, r).owner)
  {
    BBlockIsMeta(sb, r);
    var s' := Release(sb, s, r);
    forall b: nat | b < sb.size
      ensures BBlock(sb, b) < sb.size && (MapBit(sb, s'.blocks, b) <==> b < sb.datastart || b in s'.owner)
    {
      BBlockIsMeta(sb, b);
      MarkFreeClears(sb, s.blocks, r, b);
    }
  }

  /** bfree only touches a free-map block, so all references stay. */
  lemma ReleaseKeepsRefs(sb: Super, s: Fs, x: nat, n: nat, r: nat)
    requires Shape(sb, s) && Owned(sb, s, x, n) && r in s.owner
    ensures BBlock(sb, r) < sb.datastart && MapBit(sb, s.blocks, r)
    ensures MapIs(sb, Release(sb, s, r).blocks, Release(sb, s, r).owner)
    ensures forall i: nat, j: nat | i < |s.inodes| && j < SLOTS :: Ref(Release(sb, s, r), i, j) == Ref(s, i, j)
    ensures forall b: nat | sb.datastart <= b < sb.size :: Release(sb, s, r).blocks[b] == s.blocks[b]
  {
    MapAfterRelease(sb, s, r);
    var s' := Release(sb, s, r);
    forall i: nat | i < |s.inodes|
      ensures var ind := s.inodes[i].addrs[NDIRECT]; 0 < ind < |s.blocks| ==> s'.blocks[ind] == s.blocks[ind]
    {
      assert Ref(s, i, NDIRECT) == s.inodes[i].addrs[NDIRECT];
    }
    RefsKept(s, s');
  }

  /** One step of itrunc's first loop: free a direct block and clear its slot. */
  function FreeDirect(sb: Super, s: Fs, i: nat, j: nat): Fs
    requires i < |s.inodes| && |s.inodes[i].addrs| == NDIRECT + 1 && j <= NDIRECT
    requires BBlock(sb, s.inodes[i].addrs[j]) < |s.blocks|
  {
    var s1 := Release(sb, s, s.inodes[i].addrs[j]);
    s1.(inodes := s.inodes[i := s.inodes[i].(addrs := s.inodes[i].addrs[j := 0])])
  }

  lemma FreeDirectKeeps(sb: Super, s: Fs, i: nat, j: nat)
    requires Consistent(sb, s) && i < |s.inodes| && j < NDIRECT && Ref(s, i, j) != 0
    ensures BBlock(sb, Ref(s, i, j)) < sb.datastart && MapBit(sb, s.blocks, Ref(s, i, j))
    ensures Consistent(sb, FreeDirect(sb, s, i, j))
    ensures forall i': nat, j': nat | i' < |s.inodes| && j' < SLOTS ::
              Ref(FreeDirect(sb, s, i, j), i', j') == if i' == i && j' == j then 0 else Ref(s, i', j')
  {
    ReleaseKeepsRefs(sb, s, 0, 0, Ref(s, i, j));
    var s1 := Release(sb, s, Ref(s, i, j));
    var s' := FreeDirect(sb, s, i, j);
    forall i': nat, j': nat | i' < |s.inodes| && j' < SLOTS
      ensures Ref(s', i', j') == if i' == i && j' == j then 0 else Ref(s, i', j')
    {
      assert Ref(s1, i', j') == Ref(s, i', j');
    }
  }

  /** One step of itrunc's loop over the indirect block: entry `n` is freed but stays written there. */
  function FreeEntry(sb: Super, s: Fs, r: nat): Fs
    requires r != 0 ==> BBlock(sb, r) < |s.blocks|
  {
    if r == 0 then s else Release(sb, s, r)
  }

  lemma FreeEntryKeeps(sb: Super, s: Fs, x: nat, n: nat)
    requires Shape(sb, s) && Owned(sb, s, x, n) && x < |s.inodes| && n < NINDIRECT
    ensures var r := Ref(s, x, NDIRECT + 1 + n);
            (r != 0 ==> BBlock(sb, r) < sb.datastart && MapBit(sb, s.blocks, r))
            && Shape(sb, FreeEntry(sb, s, r)) && Owned(sb, FreeEntry(sb, s, r), x, n + 1)
            && (forall i: nat, j: nat | i < |s.inodes| && j < SLOTS :: Ref(FreeEntry(sb, s, r), i, j) == Ref(s, i, j))
            && (forall b: nat | sb.datastart <= b < sb.size :: FreeEntry(sb, s, r).blocks[b] == s.blocks[b])
  {
    var r := Ref(s, x, NDIRECT + 1 + n);
    if r != 0 {
      assert !Dead(x, n, x, NDIRECT + 1 + n);
      ReleaseKeepsRefs(sb, s, x, n, r);
    }
  }

  /** With every entry freed, the indirect block goes too. */
  lemma FreeIndirectKeeps(sb: Super, s: Fs, x: nat)
    requires Shape(sb, s) && Owned(sb, s, x, NINDIRECT) && x < |s.inodes| && Ref(s, x, NDIRECT) != 0
    ensures BBlock(sb, Ref(s, x, NDIRECT)) < sb.datastart && MapBit(sb, s.blocks, Ref(s, x, NDIRECT))
    ensures Consistent(sb, FreeDirect(sb, s, x, NDIRECT))
    ensures forall i': nat, j': nat | i' < |s.inodes| && j' < SLOTS ::
              Ref(FreeDirect(sb, s, x, NDIRECT), i', j') == if i' == x && j' >= NDIRECT then 0 else Ref(s, i', j')
  {
    ReleaseKeepsRefs(sb, s, x, NINDIRECT, Ref(s, x, NDIRECT));
    var s1 := Release(sb, s, Ref(s, x, NDIRECT));
    var s' := FreeDirect(sb, s, x, NDIRECT);
    forall i': nat, j': nat | i' < |s.inodes| && j' < SLOTS
      ensures Ref(s', i', j') == if i' == x && j' >= NDIRECT then 0 else Ref(s, i', j')
    {
      assert Ref(s1, i', j') == Ref(s, i', j');
    }
  }
}
