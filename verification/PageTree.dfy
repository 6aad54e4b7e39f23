/**
Page tables in physical pages (kernel/vm.c, kernel/kalloc.c) as values: what each page is used for,
and the invariant that ties entries, uses and the free list together.
*/
module PageTree {
  import opened Sv39

  /** A physical page, read as its owner reads it: 512 entries, bytes, or a link of the free list. */
  datatype Page = Entries(pte: seq<nat>) | Data(bytes: seq<nat>) | Run(next: nat)

  /** A table of a tree by the indices that lead to it: the root, one step down, two steps down. */
  datatype Tab = T2 | T1(i2: nat) | T0(i2: nat, i1: nat)

  /** What a page is for. A tree is named after its root page; a user page sits in slot `i` of a T0 table. */
  datatype Use = Free | Other | Table(root: nat, tab: Tab) | User(root: nat, tab: Tab, i: nat)

  /** `lo` is the first page after the kernel, `at` the page of each use. Page 0 is never handed out. */
  datatype St = St(lo: nat, mem: seq<Page>, list: seq<nat>, owner: seq<Use>, at: map<Use, nat>)

  predicate TabOk(t: Tab)
  {
    match t
    case T2 => true
    case T1(a) => a < 512
    case T0(a, b) => a < 512 && b < 512
  }

  /** The trampoline and the trapframe page: mapped in a tree that does not own them. */
  predicate Lent(t: Tab, i: nat)
  {
    t.T0? && Vpn(t.i2, t.i1, i) >= PAGES - 2
  }

  predicate Linked(u: Use)
  {
    u.User? || (u.Table? && u.tab != T2)
  }

  predicate Named(u: Use)
  {
    u.User? || u.Table?
  }

  /** The use of the page that slot `i` of a table refers to. */
  function Child(u: Use, i: nat): (c: Use)
    requires u.Table?
    ensures Linked(c) && Parent(c) == u && Slot(c) == i
  {
    match u.tab
    case T2 => Table(u.root, T1(i))
    case T1(a) => Table(u.root, T0(a, i))
    case T0(_, _) => User(u.root, u.tab, i)
  }

  function Parent(u: Use): Use
    requires Linked(u)
  {
    if u.User? then Table(u.root, u.tab)
    else match u.tab
         case T1(_) => Table(u.root, T2)
         case T0(a, _) => Table(u.root, T1(a))
  }

  function Slot(u: Use): nat
    requires Linked(u)
  {
    if u.User? then u.i
    else match u.tab
         case T1(a) => a
         case T0(_, b) => b
  }

  /** Entry `i` of page `p`. */
  function E(mem: seq<Page>, p: nat, i: nat): nat
  {
    if p < |mem| && mem[p].Entries? && i < |mem[p].pte| then mem[p].pte[i] else 0
  }

  // ---------------------------------------------------------------------------------------
  // The invariant
  // ---------------------------------------------------------------------------------------

  /** Every table and user page has its own use, and `at` finds it. */
  ghost predicate Known(owner: seq<Use>, at: map<Use, nat>)
  {
    && (forall u {:trigger at[u]} {:trigger u in at} | u in at :: Named(u) && at[u] < |owner| && owner[at[u]] == u)
    && (forall p {:trigger owner[p]} | 0 <= p < |owner| && Named(owner[p]) :: owner[p] in at && at[owner[p]] == p)
  }

  predicate Kind(lo: nat, u: Use, m: Page, p: nat)
  {
    match u
    case Table(r, t) => p >= lo && m.Entries? && |m.pte| == 512 && TabOk(t) && (t == T2 ==> p == r)
    case User(r, t, i) => p >= lo && m.Data? && |m.bytes| == PGSIZE && t.T0? && TabOk(t) && i < 512 && !Lent(t, i)
    case _ => true
  }

  ghost predicate Kinds(lo: nat, mem: seq<Page>, owner: seq<Use>)
  {
    lo > 0 && |mem| == |owner| == PHYS_PAGES && forall p {:trigger owner[p]} | 0 <= p < |owner| ::
                                                  Kind(lo, owner[p], mem[p], p)
  }

  /** A nonzero entry in slot `i` of a table with use `u`. */
  predicate Good(owner: seq<Use>, u: Use, i: nat, e: nat)
    requires u.Table?
  {
    && Valid(e) && (u.tab.T0? <==> Leaf(e)) && (u.tab == T2 ==> i < 256)
    && ((u.tab.T0? && Lent(u.tab, i) && !UserBit(e)) || (Ppn(e) < |owner| && owner[Ppn(e)] == Child(u, i)))
  }

  /** Entries refer to the pages that are there for them. */
  ghost predicate Down(mem: seq<Page>, owner: seq<Use>)
    requires |mem| == |owner|
  {
    forall p: nat, i: nat {:trigger E(mem, p, i)} | p < |owner| && owner[p].Table? && i < 512 && E(mem, p, i) != 0 ::
      Good(owner, owner[p], i, E(mem, p, i))
  }

  /** Every table but the root and every user page is referred to. */
  ghost predicate Up(mem: seq<Page>, owner: seq<Use>, at: map<Use, nat>)
  {
    forall p {:trigger owner[p]} | 0 <= p < |owner| && Linked(owner[p]) :: Held(mem, at, owner[p], p)
  }

  predicate Held(mem: seq<Page>, at: map<Use, nat>, u: Use, p: nat)
    requires Linked(u)
  {
    Parent(u) in at && E(mem, at[Parent(u)], Slot(u)) != 0 && Ppn(E(mem, at[Parent(u)], Slot(u))) == p
  }

  /** The free list as kmem.freelist threads it through the pages: each links to the next, the last to 0. */
  ghost predicate Chain(mem: seq<Page>, list: seq<nat>)
  {
    list == [] || (list[0] < |mem| && mem[list[0]] == Run(Head(list[1..])) && list[0] !in list[1..]
                   && Chain(mem, list[1..]))
  }

  function Head(list: seq<nat>): nat
  {
    if list == [] then 0 else list[0]
  }

  /** Exactly the free pages are on the list. */
  ghost predicate Listed(lo: nat, mem: seq<Page>, list: seq<nat>, owner: seq<Use>)
  {
    && Chain(mem, list)
    && (forall p: nat {:trigger p in list} | p in list :: lo <= p < |owner| && owner[p] == Free)
    && (forall p {:trigger owner[p]} | 0 <= p < |owner| && owner[p].Free? :: p in list)
  }

  /** Other pages may change. */
  lemma {:induction false} ChainKept(mem: seq<Page>, mem': seq<Page>, list: seq<nat>)
    requires Chain(mem, list) && |mem'| == |mem| && forall p: nat | p in list && p < |mem| :: mem'[p] == mem[p]
    ensures Chain(mem', list)
  {
    if list != [] {
      ChainKept(mem, mem', list[1..]);
    }
  }

  ghost predicate Inv(s: St)
  {
    && Kinds(s.lo, s.mem, s.owner) && Known(s.owner, s.at) && Down(s.mem, s.owner) && Up(s.mem, s.owner, s.at)
    && Listed(s.lo, s.mem, s.list, s.owner)
  }

  /** `r` is the root of a tree. */
  predicate Live(s: St, r: nat)
  {
    r < |s.owner| && s.owner[r] == Table(r, T2)
  }

  // ---------------------------------------------------------------------------------------
  // Translation
  // ---------------------------------------------------------------------------------------

  /** The T0 table of virtual page `v`. */
  function TabOf(v: nat): Tab
  {
    T0(v / 262144, v / 512 % 512)
  }

  /** The leaf entry of virtual page `v` in tree `r`, 0 if its table is missing. */
  function Pte(s: St, r: nat, v: nat): nat
  {
    if Table(r, TabOf(v)) in s.at then E(s.mem, s.at[Table(r, TabOf(v))], v % 512) else 0
  }

  lemma SlotsDiffer(v: nat, w: nat)
    requires TabOf(v) == TabOf(w) && v % 512 == w % 512
    ensures v == w
  {
    VpnSplit(v);
    VpnSplit(w);
  }

  /** One level of the walk: the entry is valid exactly if the next table is there, and leads to it. */
  lemma WalkStep(s: St, u: Use, i: nat)
    requires Inv(s) && u in s.at && u.Table? && !u.tab.T0? && i < 512
    ensures Valid(E(s.mem, s.at[u], i)) <==> Child(u, i) in s.at
    ensures E(s.mem, s.at[u], i) != 0 ==> Valid(E(s.mem, s.at[u], i))
    ensures Child(u, i) in s.at ==> s.at[Child(u, i)] == Ppn(E(s.mem, s.at[u], i))
  {
    hide Leaf, UserBit, Lent, Ppn, Valid;
    ZeroPte();
    var e := E(s.mem, s.at[u], i);
    if e != 0 {
      assert Good(s.owner, u, i, e);
    }
    if Child(u, i) in s.at {
      assert Held(s.mem, s.at, Child(u, i), s.at[Child(u, i)]);
    }
  }

  /** A leaf entry is valid or zero, and its page is in use for nothing else. */
  lemma LeafEntry(s: St, r: nat, v: nat)
    requires Inv(s) && v < PAGES && Pte(s, r, v) != 0
    ensures var e := Pte(s, r, v); Valid(e) && Leaf(e)
    ensures v < PAGES - 2 ==> var p := Ppn(Pte(s, r, v));
              p < |s.owner| && s.owner[p] == User(r, TabOf(v), v % 512) && s.mem[p].Data?
                  && |s.mem[p].bytes| == PGSIZE && p >= s.lo
  {
    hide Leaf, UserBit, Valid, Ppn;
    VpnSplit(v);
    assert Good(s.owner, Table(r, TabOf(v)), v % 512, Pte(s, r, v));
  }
}
