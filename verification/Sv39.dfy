/** Sv39 address and page-table-entry arithmetic (kernel/riscv.h) over 64-bit unsigned values. */
module Sv39 {
  const PGSIZE: nat := 4096
  const MAXVA: nat := 0x40_0000_0000
  const PAGES: nat := 0x400_0000              // MAXVA / PGSIZE
  const PHYS_PAGES: nat := 0x8_8000           // PHYSTOP / PGSIZE
  const TRAMPOLINE: nat := MAXVA - PGSIZE
  const TRAPFRAME: nat := TRAMPOLINE - PGSIZE

  const PTE_V: nat := 1
  const PTE_R: nat := 2
  const PTE_W: nat := 4
  const PTE_X: nat := 8
  const PTE_U: nat := 16

  type uint64 = x: nat | x < 0x1_0000_0000_0000_0000

  function PgRoundUp(sz: uint64): uint64
  {
    (sz + PGSIZE - 1) % 0x1_0000_0000_0000_0000 / PGSIZE * PGSIZE
  }

  /** How many pages a process of `sz` bytes has. */
  function PageCount(sz: uint64): nat
  {
    PgRoundUp(sz) / PGSIZE
  }

  /** PA2PTE */
  function Pa2Pte(pa: uint64): (e: uint64)
    ensures e % 1024 == 0
  {
    pa / 4096 * 1024
  }

  /** PTE2PA */
  function Pte2Pa(e: uint64): uint64
  {
    e / 1024 * 4096 % 0x1_0000_0000_0000_0000
  }

  function Flags(e: nat): nat
  {
    e % 1024
  }

  predicate Valid(e: nat)
  {
    Flags(e) % 2 == 1
  }

  predicate Writable(e: nat)
  {
    Flags(e) / 4 % 2 == 1
  }

  predicate UserBit(e: nat)
  {
    Flags(e) / 16 % 2 == 1
  }

  /** One of PTE_R, PTE_W and PTE_X is set. */
  predicate Leaf(e: nat)
  {
    Flags(e) / 2 % 8 != 0
  }

  /** The page number an entry refers to. */
  function Ppn(e: nat): nat
  {
    e / 1024
  }

  /** perm | PTE_V */
  function WithV(perm: nat): nat
  {
    if perm % 2 == 1 then perm else perm + 1
  }

  /** PTE2PA undoes PA2PTE whatever the flags, for every page-aligned 64-bit address. */
  lemma PteRoundTrip(pa: uint64, flags: nat)
    requires pa % PGSIZE == 0 && flags < 1024
    ensures Pa2Pte(pa) + flags < 0x1_0000_0000_0000_0000
    ensures Pte2Pa(Pa2Pte(pa) + flags) == pa && Flags(Pa2Pte(pa) + flags) == flags
            && Ppn(Pa2Pte(pa) + flags) == pa / PGSIZE
  {
    assert (pa / 4096 * 1024 + flags) / 1024 == pa / 4096;
  }

  lemma ZeroPte()
    ensures !Valid(0) && !Leaf(0) && Ppn(0) == 0
  {
  }

  lemma MakePte(p: nat, f: nat)
    requires f < 1024
    ensures Ppn(p * 1024 + f) == p && Flags(p * 1024 + f) == f
  {
  }

  /** 1 << PXSHIFT(level) */
  function Span(level: nat): (r: nat)
    ensures r > 0
  {
    if level == 0 then PGSIZE else 512 * Span(level - 1)
  }

  /** PX */
  function Px(level: nat, va: nat): (i: nat)
    ensures i < 512
  {
    va / Span(level) % 512
  }

  function Vpn(i2: nat, i1: nat, i0: nat): nat
  {
    (i2 * 512 + i1) * 512 + i0
  }

  /** The three indices determine the page, and the top one stays in the lower half of the root table. */
  lemma PxVpn(va: nat)
    requires va < MAXVA
    ensures Px(2, va) < 256 && Vpn(Px(2, va), Px(1, va), Px(0, va)) == va / PGSIZE
  {
    assert Span(0) == 4096 && Span(1) == 0x20_0000 && Span(2) == 0x4000_0000;
    var v := va / 4096;
    assert va / 0x20_0000 == v / 512 && va / 0x4000_0000 == v / 262144;
    VpnSplit(v);
  }

  /** Distinct pages use distinct leaf entries. */
  lemma VpnUnique(a: nat, b: nat, c: nat, a': nat, b': nat, c': nat)
    requires b < 512 && c < 512 && b' < 512 && c' < 512 && Vpn(a, b, c) == Vpn(a', b', c')
    ensures a == a' && b == b' && c == c'
  {
  }

  lemma VpnSplit(v: nat)
    ensures Vpn(v / 262144, v / 512 % 512, v % 512) == v
    ensures v < PAGES ==> v / 262144 < 256
  {
    var w := v / 512;
    assert v == w / 512 * 262144 + (w % 512 * 512 + v % 512);
    assert v / 262144 == w / 512;
  }

  lemma DistinctPages(va: nat, va': nat)
    requires va < MAXVA && va' < MAXVA && va / PGSIZE != va' / PGSIZE
    ensures (Px(2, va), Px(1, va), Px(0, va)) != (Px(2, va'), Px(1, va'), Px(0, va'))
  {
    PxVpn(va);
    PxVpn(va');
  }

  lemma RoundUps(a: uint64, b: uint64)
    requires a <= b <= TRAPFRAME
    ensures PgRoundUp(a) == PageCount(a) * PGSIZE && PageCount(a) <= PageCount(b) <= PAGES - 2
            && a <= PgRoundUp(a) < a + PGSIZE
  {
  }

  /** How many pages hold `sz` bytes. */
  function PagesFor(sz: nat): nat
  {
    (sz + PGSIZE - 1) / PGSIZE
  }

  lemma PagesForMore(oldsz: uint64, newsz: uint64, w: nat)
    requires oldsz <= TRAPFRAME && oldsz <= newsz
    ensures PageCount(oldsz) <= PagesFor(newsz) && (w * PGSIZE < newsz ==> w < PagesFor(newsz))
    ensures w * PGSIZE >= newsz && (w == PageCount(oldsz) || (w > 0 && (w - 1) * PGSIZE < newsz)) ==>
              w == PagesFor(newsz)
  {
  }

  /** A loop in page steps from PGROUNDUP(oldsz) ends at PGROUNDUP(newsz). */
  lemma RoundTarget(oldsz: uint64, newsz: uint64, k: nat)
    requires oldsz <= newsz && oldsz <= TRAPFRAME && PageCount(oldsz) + k <= PAGES - 2
    requires newsz <= (PageCount(oldsz) + k) * PGSIZE && (k > 0 ==> (PageCount(oldsz) + k - 1) * PGSIZE < newsz)
    ensures PageCount(newsz) == PageCount(oldsz) + k
  {
    RoundUps(oldsz, oldsz);
  }

  lemma AlignedCount(a: uint64)
    requires a % PGSIZE == 0 && a <= TRAPFRAME
    ensures PageCount(a) == a / PGSIZE
  {
  }

  /** The permissions of user memory make a leaf. */
  lemma PermLeaf(xperm: nat)
    requires xperm in {0, PTE_W, PTE_X, PTE_W + PTE_X}
    ensures PTE_R + PTE_U + xperm < 1024 && Leaf(WithV(PTE_R + PTE_U + xperm))
    ensures WithV(PTE_R + PTE_U + xperm) == PTE_V + PTE_R + PTE_U + xperm
  {
  }
}
