/** User memory byte by byte: what copyin reads and copyout writes, and that processes do not share it. */
module VmCopy {
  import opened Sv39
  import opened PageTree
  import opened PageSteps
  import opened VmFrame
  import opened VmRanges
  import opened VmGrow

  /** walkaddr succeeds: the page of `va` is mapped for the user. */
  predicate Readable(s: St, r: nat, va: nat)
  {
    va < MAXVA && Pte(s, r, va / PGSIZE) != 0 && UserBit(Pte(s, r, va / PGSIZE))
  }

  predicate Writeable(s: St, r: nat, va: nat)
  {
    Readable(s, r, va) && Writable(Pte(s, r, va / PGSIZE))
  }

  function ByteAt(s: St, r: nat, va: nat): nat
  {
    var p := Ppn(Pte(s, r, va / PGSIZE));
    if p < |s.mem| && s.mem[p].Data? && va % PGSIZE < |s.mem[p].bytes| then s.mem[p].bytes[va % PGSIZE] else 0
  }

  /** A readable page is one of the process's own. */
  lemma ReadablePage(s: St, r: nat, va: nat)
    requires Inv(s) && Readable(s, r, va)
    ensures va / PGSIZE < PAGES - 2 && Valid(Pte(s, r, va / PGSIZE))
    ensures var p := Ppn(Pte(s, r, va / PGSIZE));
            s.lo <= p < |s.mem| == |s.owner| && s.mem[p].Data?
            && |s.mem[p].bytes| == PGSIZE
            && s.owner[p] == User(r, TabOf(va / PGSIZE), va / PGSIZE % 512)
  {
    var v := va / PGSIZE;
    hide Leaf, UserBit, Valid, Ppn, TabOf;
    OwnedSlot(v);
    if v >= PAGES - 2 {
      LentIsKernel(s, r, v);
    }
    LeafEntry(s, r, v);
  }

  lemma GoodLeaf(s: St, r: nat, v: nat)
    requires Inv(s) && Pte(s, r, v) != 0
    ensures Good(s.owner, Table(r, TabOf(v)), v % 512, Pte(s, r, v))
  {
    hide Leaf, UserBit, Valid, Ppn, TabOf, Lent, Listed, Up, Kind, Good;
  }

  /** A lent page is not the user's. */
  lemma LentIsKernel(s: St, r: nat, v: nat)
    requires Inv(s) && PAGES - 2 <= v < PAGES && Pte(s, r, v) != 0
    ensures !UserBit(Pte(s, r, v))
  {
    hide Leaf, UserBit, Valid, Ppn, TabOf, Lent, Listed, Up, Known, Down, Pte;
    OwnedSlot(v);
    GoodLeaf(s, r, v);
    var p := Ppn(Pte(s, r, v));
    assert p < |s.owner| ==> Kind(s.lo, s.owner[p], s.mem[p], p);
  }

  /** `d` is what the process has from `va` on. */
  ghost predicate Bytes(s: St, r: nat, va: nat, d: seq<nat>)
  {
    forall a: nat {:trigger Readable(s, r, a)} {:trigger ByteAt(s, r, a)} | va <= a < va + |d| ::
        Readable(s, r, a) && d[a - va] == ByteAt(s, r, a)
  }

  /** What copyin of `len` bytes at `va` gives: the bytes up to the first page that is not readable. */
  ghost predicate CopyIn(s: St, r: nat, va: nat, len: nat, ok: bool, dst: seq<nat>)
  {
    |dst| <= len && (ok <==> |dst| == len) && (!ok ==> !Readable(s, r, va + |dst|)) && Bytes(s, r, va, dst)
  }

  /** Bytes in the page of `va` share its translation. */
  lemma SamePageReads(s: St, r: nat, va: nat, k: nat)
    requires Inv(s) && Readable(s, r, va) && va % PGSIZE + k < PGSIZE
    ensures Readable(s, r, va + k)
    ensures var p := Ppn(Pte(s, r, va / PGSIZE)); p < |s.mem| && s.mem[p].Data? && |s.mem[p].bytes| == PGSIZE
                                                   && ByteAt(s, r, va + k) == s.mem[p].bytes[va % PGSIZE + k]
  {
    hide Inv, Pte, UserBit, Ppn;
    ReadablePage(s, r, va);
    assert (va + k) / PGSIZE == va / PGSIZE && (va + k) % PGSIZE == va % PGSIZE + k;
  }

  lemma ReadMore(s: St, r: nat, va: nat, dst: seq<nat>, n: nat, d: seq<nat>)
    requires Inv(s) && Readable(s, r, va + |dst|) && 0 < n <= PGSIZE - (va + |dst|) % PGSIZE && Bytes(s, r, va, dst)
    requires var p, o := Ppn(Pte(s, r, (va + |dst|) / PGSIZE)), (va + |dst|) % PGSIZE;
             p < |s.mem| && s.mem[p].Data? && |s.mem[p].bytes| == PGSIZE && d == dst + s.mem[p].bytes[o..o + n]
    ensures Bytes(s, r, va, d)
  {
    hide Inv, Pte, UserBit, Ppn, Readable, ByteAt;
    forall a: nat | va <= a < va + |d|
      ensures Readable(s, r, a) && d[a - va] == ByteAt(s, r, a)
    {
      if a >= va + |dst| {
        SamePageReads(s, r, va + |dst|, a - va - |dst|);
      } else {
        assert d[a - va] == dst[a - va];
      }
    }
  }

  /** Two reads of the same memory agree. */
  lemma CopyInAgrees(s: St, r: nat, s': St, r': nat, va: nat, len: nat, ok: bool, dst: seq<nat>, ok': bool,
                     dst': seq<nat>)
    requires CopyIn(s, r, va, len, ok, dst) && CopyIn(s', r', va, len, ok', dst') && SameView(s, r, s', r')
    ensures ok' == ok && dst' == dst
  {
    hide Readable, ByteAt;
    var m := if |dst| < |dst'| then |dst| else |dst'|;
    assert Readable(s, r, va + m) <==> Readable(s', r', va + m);
    assert |dst| == |dst'|;
    forall k | 0 <= k < |dst|
      ensures dst'[k] == dst[k]
    {
      assert Readable(s, r, va + k) && Readable(s', r', va + k);
      assert dst[va + k - va] == ByteAt(s, r, va + k);
    }
  }

  /** The same addresses can be read, with the same bytes. */
  ghost predicate SameView(s: St, r: nat, s': St, r': nat)
  {
    forall a: nat {:trigger Readable(s, r, a)} {:trigger Readable(s', r', a)} ::
      (Readable(s, r, a) <==> Readable(s', r', a)) && (Readable(s, r, a) ==> ByteAt(s, r, a) == ByteAt(s', r', a))
  }

  lemma NotReadable(s: St, r: nat, va: nat)
    requires Inv(s) && va < MAXVA && !Valid(Pte(s, r, va / PGSIZE))
    ensures !Readable(s, r, va)
  {
    hide Inv, Pte, Ppn, TabOf, UserBit, Valid;
    if Readable(s, r, va) {
      ReadablePage(s, r, va);
    }
  }

  lemma InvLow(s: St)
    requires Inv(s)
    ensures s.lo > 0
  {
  }

  /** All of a page can be read or none of it. */
  lemma PageStart(s: St, r: nat, va: nat)
    ensures Readable(s, r, va / PGSIZE * PGSIZE) <==> Readable(s, r, va)
    ensures va / PGSIZE * PGSIZE / PGSIZE == va / PGSIZE && va - va / PGSIZE * PGSIZE == va % PGSIZE
  {
    hide Pte, UserBit;
  }

  // ---- writing ----

  /** Bytes `d` at offset `o` of data page `p`. */
  function WriteBytes(s: St, p: nat, o: nat, d: seq<nat>): St
    requires p < |s.mem| && s.mem[p].Data? && o + |d| <= |s.mem[p].bytes|
  {
    s.(mem := s.mem[p := Data(s.mem[p].bytes[..o] + d + s.mem[p].bytes[o + |d|..])])
  }

  /** Same uses, same entries; in user memory only [va, va+k) of tree `r` differs and holds `src[..k]`. */
  ghost predicate CopyOut(s: St, s': St, r: nat, va: nat, src: seq<nat>, k: nat)
  {
    && k <= |src| && Inv(s') && s'.lo == s.lo && s'.owner == s.owner && s'.at == s.at && s'.list == s.list
    && (forall r': nat, v: nat {:trigger Pte(s', r', v)} :: Pte(s', r', v) == Pte(s, r', v))
    && (forall r': nat, a: nat {:trigger ByteAt(s', r', a)} | Readable(s, r', a) ::
          ByteAt(s', r', a) == if r' == r && va <= a < va + k then src[a - va] else ByteAt(s, r', a))
  }

  /** The process may write all `k` bytes at `va`. */
  ghost predicate AllWriteable(s: St, r: nat, va: nat, k: nat)
  {
    forall a: nat {:trigger Writeable(s, r, a)} | va <= a < va + k :: Writeable(s, r, a)
  }

  /** The bytes of a page share its permissions. */
  lemma WriteableMore(s: St, r: nat, va: nat, k: nat, n: nat)
    requires AllWriteable(s, r, va, k) && Writeable(s, r, va + k) && 0 < n <= PGSIZE - (va + k) % PGSIZE
    ensures AllWriteable(s, r, va, k + n)
  {
    hide Pte, UserBit, Writable;
    forall a: nat | va + k <= a < va + k + n
      ensures Writeable(s, r, a)
    {
      assert a / PGSIZE == (va + k) / PGSIZE;
    }
  }

  lemma CopyOutNone(s: St, r: nat, va: nat, src: seq<nat>)
    requires Inv(s)
    ensures CopyOut(s, s, r, va, src, 0)
  {
    hide Pte, Valid, Leaf, UserBit, Lent, Ppn, Kind, ByteAt, Readable;
  }

  lemma EntriesKept(mem: seq<Page>, mem': seq<Page>, owner: seq<Use>, at: map<Use, nat>)
    requires |mem| == |owner| == |mem'| && Down(mem, owner) && Up(mem, owner, at)
    requires forall x: nat, j: nat {:trigger E(mem', x, j)} :: E(mem', x, j) == E(mem, x, j)
    ensures Down(mem', owner) && Up(mem', owner, at)
  {
    hide Valid, Leaf, UserBit, Lent, Ppn, E;
    forall x | 0 <= x < |owner| && Linked(owner[x])
      ensures Held(mem', at, owner[x], x)
    {
      assert Held(mem, at, owner[x], x);
    }
  }

  /** Replacing a user page's contents keeps the trees. */
  lemma WriteKeepsInv(s: St, p: nat, o: nat, d: seq<nat>)
    requires Inv(s) && p < |s.mem| == |s.owner| && s.owner[p].User? && s.mem[p].Data? && |s.mem[p].bytes| == PGSIZE
             && o + |d| <= PGSIZE
    ensures Inv(WriteBytes(s, p, o, d))
    ensures forall r: nat, v: nat :: Pte(WriteBytes(s, p, o, d), r, v) == Pte(s, r, v)
  {
    hide Down, Up, TabOf, Chain, Kind;
    var s' := WriteBytes(s, p, o, d);
    assert forall x: nat, j: nat {:trigger E(s'.mem, x, j)} :: E(s'.mem, x, j) == E(s.mem, x, j);
    WriteKinds(s, p, s'.mem[p]);
    EntriesKept(s.mem, s'.mem, s.owner, s.at);
    ListedKept(s.lo, s.mem, s'.mem, s.list, s.owner, s'.owner);
  }

  lemma WriteKinds(s: St, p: nat, m: Page)
    requires Kinds(s.lo, s.mem, s.owner) && p < |s.mem| && s.owner[p].User? && m.Data? && |m.bytes| == PGSIZE
    ensures Kinds(s.lo, s.mem[p := m], s.owner)
  {
    hide Lent, TabOk;
  }

  /** The byte at `a` of any tree after bytes were written into the page of `va`. */
  lemma ByteAfterWrite(s: St, r: nat, va: nat, d: seq<nat>, r': nat, a: nat)
    requires Inv(s) && Readable(s, r, va) && va % PGSIZE + |d| <= PGSIZE && Readable(s, r', a)
    ensures var p := Ppn(Pte(s, r, va / PGSIZE)); p < |s.mem| && s.mem[p].Data? && |s.mem[p].bytes| == PGSIZE
    ensures var s' := WriteBytes(s, Ppn(Pte(s, r, va / PGSIZE)), va % PGSIZE, d);
            ByteAt(s', r', a) == if r' == r && va <= a < va + |d| then d[a - va] else ByteAt(s, r', a)
  {
    hide Inv, UserBit, Ppn, TabOf, E;
    ReadablePage(s, r, va);
    ReadablePage(s, r', a);
    if TabOf(va / PGSIZE) == TabOf(a / PGSIZE) && va / PGSIZE % 512 == a / PGSIZE % 512 {
      SlotsDiffer(va / PGSIZE, a / PGSIZE);
    }
    SameEntries(s, Ppn(Pte(s, r, va / PGSIZE)), va % PGSIZE, d, r', a / PGSIZE);
  }

  lemma SameEntries(s: St, p: nat, o: nat, d: seq<nat>, r: nat, v: nat)
    requires p < |s.mem| && s.mem[p].Data? && o + |d| <= |s.mem[p].bytes|
    ensures Pte(WriteBytes(s, p, o, d), r, v) == Pte(s, r, v)
  {
    hide TabOf;
  }

  /** One page's worth more. */
  lemma CopyOutMore(s: St, s1: St, r: nat, va: nat, src: seq<nat>, k: nat, n: nat)
    requires Inv(s) && CopyOut(s, s1, r, va, src, k) && k + n <= |src| && Readable(s, r, va + k)
             && 0 < n <= PGSIZE - (va + k) % PGSIZE
    ensures var p := Ppn(Pte(s1, r, (va + k) / PGSIZE)); p < |s1.mem| && s1.mem[p].Data? && |s1.mem[p].bytes| == PGSIZE
    ensures CopyOut(s, WriteBytes(s1, Ppn(Pte(s1, r, (va + k) / PGSIZE)), (va + k) % PGSIZE, src[k..k + n]), r, va,
                    src, k + n)
  {
    hide Inv, Pte, Ppn, ByteAt, UserBit;
    StillReadable(s, s1, r, va, src, k, r, va + k);
    ReadablePage(s1, r, va + k);
    var p := Ppn(Pte(s1, r, (va + k) / PGSIZE));
    var s2 := WriteBytes(s1, p, (va + k) % PGSIZE, src[k..k + n]);
    WriteKeepsInv(s1, p, (va + k) % PGSIZE, src[k..k + n]);
    forall r': nat, a: nat | Readable(s, r', a)
      ensures ByteAt(s2, r', a) == if r' == r && va <= a < va + k + n then src[a - va] else ByteAt(s, r', a)
    {
      StillReadable(s, s1, r, va, src, k, r', a);
      ByteAfterWrite(s1, r, va + k, src[k..k + n], r', a);
    }
    forall r': nat, v: nat
      ensures Pte(s2, r', v) == Pte(s, r', v)
    {
      assert Pte(s2, r', v) == Pte(s1, r', v);
    }
  }

  lemma StillReadable(s: St, s1: St, r: nat, va: nat, src: seq<nat>, k: nat, r': nat, a: nat)
    requires CopyOut(s, s1, r, va, src, k)
    ensures Readable(s1, r', a) <==> Readable(s, r', a)
    ensures Writeable(s1, r', a) <==> Writeable(s, r', a)
  {
    hide Inv, Pte, UserBit, Writable;
    assert Pte(s1, r', a / PGSIZE) == Pte(s, r', a / PGSIZE);
  }

  /** Writing into one process's memory leaves what every other one reads. */
  lemma CopyOutIsolated(s: St, s': St, r: nat, va: nat, src: seq<nat>, k: nat, c: nat)
    requires CopyOut(s, s', r, va, src, k) && c != r
    ensures SameView(s, c, s', c)
  {
    hide Inv, Pte, UserBit, ByteAt;
    forall a: nat
      ensures (Readable(s, c, a) <==> Readable(s', c, a)) && (Readable(s, c, a) ==> ByteAt(s, c, a) == ByteAt(s', c, a))
    {
      StillReadable(s, s', r, va, src, k, c, a);
    }
  }

  // ---- fork ----

  /** After uvmcopy parent and child read the same. */
  lemma ForkSameView(s0: St, s: St, r: nat, c: nat, n: nat)
    requires Inv(s0) && Sized(s0, r, n) && Sized(s0, c, 0) && r != c && Extended(s0, s, c, 0, n)
             && CopiedPages(s0, r, s, c, n)
    ensures SameView(s, r, s, c)
  {
    hide Inv, Pte, Holds, Extended;
    forall a: nat
      ensures (Readable(s, r, a) <==> Readable(s, c, a)) && (Readable(s, r, a) ==> ByteAt(s, r, a) == ByteAt(s, c, a))
    {
      ForkByte(s0, s, r, c, n, a);
    }
  }

  lemma ForkByte(s0: St, s: St, r: nat, c: nat, n: nat, a: nat)
    requires Inv(s0) && Sized(s0, r, n) && Sized(s0, c, 0) && r != c && Extended(s0, s, c, 0, n)
             && CopiedPages(s0, r, s, c, n)
    ensures (Readable(s, r, a) <==> Readable(s, c, a)) && (Readable(s, r, a) ==> ByteAt(s, r, a) == ByteAt(s, c, a))
  {
    hide Inv, Pte, Flags, Ppn;
    var v := a / PGSIZE;
    assert Pte(s, r, v) == Pte(s0, r, v);
    if v < n {
      ParentKept(s0, s, c, n, r, v);
      assert SamePage(s0, r, s, c, v);
    } else if v < PAGES - 2 {
      assert Pte(s, c, v) == Pte(s0, c, v) == 0;
    } else if v < PAGES {
      NeitherReads(s, r, v);
      NeitherReads(s, c, v);
    }
  }

  lemma NeitherReads(s: St, r: nat, v: nat)
    requires Inv(s) && PAGES - 2 <= v < PAGES
    ensures Pte(s, r, v) != 0 ==> !UserBit(Pte(s, r, v))
  {
    hide Inv, Pte;
    if Pte(s, r, v) != 0 {
      LentIsKernel(s, r, v);
    }
  }

  datatype Write = Write(root: nat, va: nat, src: seq<nat>, done: nat)

  /** A run of copyouts into any trees. */
  ghost predicate Writes(run: seq<St>, ws: seq<Write>)
  {
    |run| == |ws| + 1 && forall k | 0 <= k < |ws| :: CopyOut(run[k], run[k + 1], ws[k].root, ws[k].va, ws[k].src,
                                                             ws[k].done)
  }

  /** Any number of copyouts into other processes leave what process `c` reads. */
  lemma {:induction false} WritesIsolated(run: seq<St>, ws: seq<Write>, c: nat, k: nat)
    requires Writes(run, ws) && k <= |ws| && forall j | 0 <= j < |ws| :: ws[j].root != c
    ensures SameView(run[0], c, run[k], c)
  {
    hide CopyOut, Readable, ByteAt;
    if k > 0 {
      WritesIsolated(run, ws, c, k - 1);
      var w := ws[k - 1];
      CopyOutIsolated(run[k - 1], run[k], w.root, w.va, w.src, w.done, c);
    }
  }

  /** Tree `r` got more tables, new user pages, or lost some: what walk, uvmalloc, uvmcopy and uvmunmap do. */
  ghost predicate Changed(s: St, s': St, r: nat)
  {
    || Grown(s, s', r)
    || (exists v: nat, n: nat :: Extended(s, s', r, v, n))
    || (exists v: nat, n: nat :: Unmapped(s, s', r, v, n))
  }

  lemma ChangedKeeps(s: St, s': St, r: nat)
    requires Changed(s, s', r)
    ensures Inv(s') && Keeps(s, s', r)
  {
    hide Inv, Keeps, Pte;
    if Grown(s, s', r) {
      GrownKeeps(s, s', r);
    } else if v: nat, n: nat :| Extended(s, s', r, v, n) {
      ExtendedKeeps(s, s', r, v, n);
    } else {
      var v: nat, n: nat :| Unmapped(s, s', r, v, n);
      UnmappedKeeps(s, s', r, v, n);
    }
  }

  /** Growing or shrinking one process leaves what every other one reads. */
  lemma ChangesIsolated(s: St, s': St, r: nat, c: nat)
    requires Inv(s) && Changed(s, s', r) && c != r
    ensures SameView(s, c, s', c)
  {
    hide Inv, Pte, Changed, UserBit, Ppn;
    ChangedKeeps(s, s', r);
    assert |s'.mem| == |s.mem|;
    hide Keeps;
    forall a: nat
      ensures (Readable(s, c, a) <==> Readable(s', c, a)) && (Readable(s, c, a) ==> ByteAt(s, c, a) == ByteAt(s', c, a))
    {
      if a < MAXVA {
        OtherTrees(s, s', r, c, a / PGSIZE);
      }
      if Readable(s, c, a) {
        ReadablePage(s, c, a);
      }
    }
  }

  lemma ViewTrans(s: St, r: nat, s': St, r': nat, s2: St, r2: nat)
    requires SameView(s, r, s', r') && SameView(s', r', s2, r2)
    ensures SameView(s, r, s2, r2)
  {
    hide Readable, ByteAt;
  }

  /**
  Fork isolation from end to end: `run[0]` is the state after a successful uvmcopy of process `r` into `c`, and
  any number of copyouts into anything but `y`, one of the two, follow. Then copyin from `y` still gives
  what it gave from the parent before the fork, success and bytes, for every range.
  */
  lemma ForkIsolated(s0: St, run: seq<St>, ws: seq<Write>, r: nat, c: nat, n: nat, y: nat, k: nat,
                     va: nat, len: nat, ok0: bool, dst0: seq<nat>, ok: bool, dst: seq<nat>)
    requires Writes(run, ws) && k <= |ws| && (y == r || y == c) && forall j | 0 <= j < |ws| :: ws[j].root != y
    requires Inv(s0) && Sized(s0, r, n) && Sized(s0, c, 0) && r != c
    requires Extended(s0, run[0], c, 0, n) && CopiedPages(s0, r, run[0], c, n)
    requires CopyIn(s0, r, va, len, ok0, dst0) && CopyIn(run[k], y, va, len, ok, dst)
    ensures ok == ok0 && dst == dst0
  {
    hide Inv, Sized, Extended, CopiedPages, CopyIn, SameView, CopyOut;
    assert |run| == |ws| + 1;
    assert Changed(s0, run[0], c);
    ChangesIsolated(s0, run[0], c, r);
    ForkSameView(s0, run[0], r, c, n);
    if y == c {
      ViewTrans(s0, r, run[0], r, run[0], c);
    }
    WritesIsolated(run, ws, y, k);
    ViewTrans(s0, r, run[0], y, run[k], y);
    CopyInAgrees(s0, r, run[k], y, va, len, ok0, dst0, ok, dst);
  }

  lemma TooHigh(s: St, r: nat, va: nat)
    requires va / PGSIZE * PGSIZE >= MAXVA
    ensures !Writeable(s, r, va)
  {
  }

  /** copyout's test of the entry it walks to. */
  lemma MayWrite(s: St, r: nat, va: nat, found: bool, e: nat)
    requires Inv(s) && va / PGSIZE * PGSIZE < MAXVA && e == Pte(s, r, va / PGSIZE) && (!found ==> e == 0)
    ensures found && Valid(e) && UserBit(e) && Writable(e) <==> Writeable(s, r, va)
    ensures Writeable(s, r, va) ==> Readable(s, r, va)
    ensures va / PGSIZE * PGSIZE / PGSIZE == va / PGSIZE && va - va / PGSIZE * PGSIZE == va % PGSIZE
  {
    hide Inv, Pte, TabOf, Ppn;
    ZeroPte();
    if Readable(s, r, va) {
      ReadablePage(s, r, va);
    }
  }

  lemma CopyOutInv(s: St, s': St, r: nat, va: nat, src: seq<nat>, k: nat)
    requires CopyOut(s, s', r, va, src, k)
    ensures Inv(s') && s'.owner == s.owner && s'.list == s.list
  {
  }
}
