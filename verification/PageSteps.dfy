/** The steps the code of kernel/vm.c and kernel/kalloc.c is made of, and that each keeps the invariant. */
module PageSteps {
  import opened Sv39
  import opened PageTree

  /** memset to one byte value. */
  function Filled(b: nat): (m: Page)
    ensures m.Data? && |m.bytes| == PGSIZE
  {
    Data(seq(PGSIZE, _ => b))
  }

  function ZeroTable(): (m: Page)
    ensures m.Entries? && |m.pte| == 512 && forall i | 0 <= i < 512 :: m.pte[i] == 0
  {
    Entries(seq(512, _ => 0))
  }

  /** Same tables, same user pages. */
  ghost predicate SameTrees(s: St, s': St)
  {
    && s'.lo == s.lo && s'.at == s.at && |s'.mem| == |s.mem| && |s'.owner| == |s.owner| && |s.mem| == |s.owner|
    && forall p {:trigger s.owner[p]} {:trigger s'.owner[p]} | 0 <= p < |s.owner|
         && (Named(s.owner[p]) || Named(s'.owner[p])) ::
         s'.owner[p] == s.owner[p] && s'.mem[p] == s.mem[p]
  }

  ghost predicate Trees(s: St)
  {
    Kinds(s.lo, s.mem, s.owner) && Known(s.owner, s.at) && Down(s.mem, s.owner) && Up(s.mem, s.owner, s.at)
  }

  /** What happens to free and other pages does not matter to the trees. */
  lemma SameTreesKeep(s: St, s': St)
    requires Trees(s) && SameTrees(s, s')
    ensures Trees(s') && forall r, v :: Pte(s', r, v) == Pte(s, r, v)
  {
    hide Valid, Leaf, UserBit, Lent, Ppn, TabOf;
    assert Kinds(s'.lo, s'.mem, s'.owner) && Known(s'.owner, s'.at);
    assert forall q: nat, i: nat {:trigger E(s'.mem, q, i)} | q < |s.owner| && s.owner[q].Table? ::
             E(s'.mem, q, i) == E(s.mem, q, i);
    assert Down(s'.mem, s'.owner);
    forall p | 0 <= p < |s'.owner| && Linked(s'.owner[p])
      ensures Held(s'.mem, s'.at, s'.owner[p], p)
    {
      assert Held(s.mem, s.at, s.owner[p], p);
    }
  }

  /** kalloc with a page to give. */
  function Alloc(s: St): St
    requires s.list != [] && s.list[0] < |s.mem| == |s.owner|
  {
    St(s.lo, s.mem[s.list[0] := Filled(5)], s.list[1..], s.owner[s.list[0] := Other], s.at)
  }

  lemma AllocKeeps(s: St)
    requires Inv(s) && s.list != []
    ensures s.owner[s.list[0]] == Free && s.lo <= s.list[0] < |s.mem| && s.mem[s.list[0]] == Run(Head(s.list[1..]))
    ensures Inv(Alloc(s)) && forall r, v :: Pte(Alloc(s), r, v) == Pte(s, r, v)
  {
    hide Known, Down, Up, Pte, Kind, Filled;
    assert s.list[0] in s.list;
    SameTreesKeep(s, Alloc(s));
    var s' := Alloc(s);
    ChainKept(s.mem, s'.mem, s'.list);
    assert s.list == [s.list[0]] + s'.list;
    assert forall p: nat | p in s'.list :: p in s.list && p != s.list[0];
  }

  /** kfree of a page that nothing refers to. */
  function Release(s: St, p: nat): St
    requires p < |s.mem| == |s.owner|
  {
    St(s.lo, s.mem[p := Run(Head(s.list))], [p] + s.list, s.owner[p := Free], s.at)
  }

  lemma ReleaseKeeps(s: St, p: nat)
    requires Inv(s) && s.lo <= p < |s.mem| && s.owner[p] == Other
    ensures Inv(Release(s, p)) && forall r, v :: Pte(Release(s, p), r, v) == Pte(s, r, v)
  {
    hide Known, Down, Up, Pte, Kind;
    SameTreesKeep(s, Release(s, p));
    var s' := Release(s, p);
    ChainKept(s.mem, s'.mem, s.list);
    assert s'.list[1..] == s.list;
  }

  function SetEntry(mem: seq<Page>, p: nat, i: nat, e: nat): seq<Page>
    requires p < |mem| && mem[p].Entries? && i < |mem[p].pte|
  {
    mem[p := Entries(mem[p].pte[i := e])]
  }

  /** Hang page `q`, until now nobody's, with contents `m` and flags `f` into slot `i` of the table with use `u`. */
  function Add(s: St, u: Use, i: nat, q: nat, m: Page, f: nat): St
    requires u.Table? && u in s.at && s.at[u] < |s.mem| == |s.owner| && q < |s.mem| && q != s.at[u]
    requires s.mem[s.at[u]].Entries? && i < |s.mem[s.at[u]].pte|
  {
    St(s.lo, SetEntry(s.mem[q := m], s.at[u], i, q * 1024 + f), s.list, s.owner[q := Child(u, i)],
        s.at[Child(u, i) := q])
  }

  /** When that may be done. */
  ghost predicate CanAdd(s: St, u: Use, i: nat, q: nat, m: Page, f: nat)
  {
    && Inv(s) && u.Table? && u in s.at && i < 512 && E(s.mem, s.at[u], i) == 0 && (u.tab == T2 ==> i < 256)
    && s.lo <= q < |s.mem| && s.owner[q] == Other
    && f < 1024 && Valid(f) && (u.tab.T0? <==> Leaf(f))
    && (if u.tab.T0? then !Lent(u.tab, i) && m.Data? && |m.bytes| == PGSIZE else m == ZeroTable())
  }

  lemma MakeValid(q: nat, f: nat)
    requires f < 1024
    ensures Ppn(q * 1024 + f) == q && Valid(q * 1024 + f) == Valid(f) && Leaf(q * 1024 + f) == Leaf(f)
    ensures Valid(f) ==> q * 1024 + f != 0
  {
    MakePte(q, f);
    assert Flags(f) == f && !Valid(0);
    hide Flags;
  }

  /** The new page's use was not there before. */
  lemma SlotEmpty(s: St, u: Use, i: nat)
    requires Inv(s) && u.Table? && u in s.at && i < 512 && E(s.mem, s.at[u], i) == 0
    ensures Child(u, i) !in s.at && s.mem[s.at[u]].Entries? && |s.mem[s.at[u]].pte| == 512
  {
    hide Valid, Leaf, UserBit, Lent, Ppn, Listed, Down;
    assert Child(u, i) in s.at ==> Held(s.mem, s.at, Child(u, i), s.at[Child(u, i)]);
  }

  /** The entries afterwards. */
  lemma AddEntries(s: St, u: Use, i: nat, q: nat, m: Page, f: nat, x: nat, j: nat)
    requires CanAdd(s, u, i, q, m, f) && x < |s.mem| && j < 512
    ensures Child(u, i) !in s.at && s.mem[s.at[u]].Entries? && |s.mem[s.at[u]].pte| == 512
    ensures E(Add(s, u, i, q, m, f).mem, x, j)
            == if x == s.at[u] && j == i then q * 1024 + f else if x == q then 0 else E(s.mem, x, j)
  {
    hide Valid, Leaf, UserBit, Lent, Ppn, Listed, Down, Up;
    SlotEmpty(s, u, i);
  }

  lemma AddKnown(owner: seq<Use>, at: map<Use, nat>, q: nat, c: Use)
    requires Known(owner, at) && q < |owner| && !Named(owner[q]) && Named(c) && c !in at
    ensures Known(owner[q := c], at[c := q])
  {
  }

  lemma AddKinds(lo: nat, mem: seq<Page>, owner: seq<Use>, p: nat, i: nat, e: nat, q: nat, m: Page, c: Use)
    requires Kinds(lo, mem, owner) && p < |mem| && owner[p].Table? && i < 512 && q < |mem| && q != p
             && Kind(lo, c, m, q)
    ensures mem[p].Entries? && |mem[p].pte| == 512
    ensures Kinds(lo, SetEntry(mem[q := m], p, i, e), owner[q := c])
  {
    hide Lent, TabOk;
  }

  /** The free pages are as they were. */
  lemma ListedKept(lo: nat, mem: seq<Page>, mem': seq<Page>, list: seq<nat>, owner: seq<Use>, owner': seq<Use>)
    requires Listed(lo, mem, list, owner) && |mem'| == |mem| == |owner| == |owner'|
    requires forall p {:trigger owner'[p]} | 0 <= p < |owner| && (owner[p].Free? || owner'[p].Free?) ::
               owner'[p] == owner[p] && mem'[p] == mem[p]
    ensures Listed(lo, mem', list, owner')
  {
    assert forall p: nat | p in list && p < |mem| :: owner'[p] == owner[p];
    ChainKept(mem, mem', list);
  }

  lemma AddApart(s: St, u: Use, i: nat, q: nat, m: Page, f: nat)
    requires CanAdd(s, u, i, q, m, f)
    ensures q != s.at[u] < |s.mem| == |s.owner| && s.owner[s.at[u]] == u
  {
    hide Valid, Leaf, UserBit, Lent, Listed, Down, Up, Kind;
  }

  lemma AddKeeps(s: St, u: Use, i: nat, q: nat, m: Page, f: nat)
    requires CanAdd(s, u, i, q, m, f)
    ensures Child(u, i) !in s.at && s.mem[s.at[u]].Entries? && |s.mem[s.at[u]].pte| == 512
    ensures Inv(Add(s, u, i, q, m, f))
  {
    hide Known, Down, Up, Kind, Valid, Leaf, UserBit, Lent, Child, Chain, Ppn, E;
    SlotEmpty(s, u, i);
    AddApart(s, u, i, q, m, f);
    AddTrees(s, u, i, q, m, f);
    var s' := Add(s, u, i, q, m, f);
    ListedKept(s.lo, s.mem, s'.mem, s.list, s.owner, s'.owner);
  }

  lemma AddTrees(s: St, u: Use, i: nat, q: nat, m: Page, f: nat)
    requires CanAdd(s, u, i, q, m, f)
    ensures Child(u, i) !in s.at && s.mem[s.at[u]].Entries? && |s.mem[s.at[u]].pte| == 512
    ensures Trees(Add(s, u, i, q, m, f))
  {
    hide Valid, Leaf, UserBit, Lent, Ppn, Listed, Down, Up, E;
    SlotEmpty(s, u, i);
    AddKnown(s.owner, s.at, q, Child(u, i));
    assert Kind(s.lo, u, s.mem[s.at[u]], s.at[u]);
    assert Kind(s.lo, Child(u, i), m, q);
    AddKinds(s.lo, s.mem, s.owner, s.at[u], i, q * 1024 + f, q, m, Child(u, i));
    AddDown(s, u, i, q, m, f);
    AddUp(s, u, i, q, m, f);
  }

  lemma AddDown(s: St, u: Use, i: nat, q: nat, m: Page, f: nat)
    requires CanAdd(s, u, i, q, m, f)
    ensures Child(u, i) !in s.at && s.mem[s.at[u]].Entries? && |s.mem[s.at[u]].pte| == 512
    ensures var s' := Add(s, u, i, q, m, f); Down(s'.mem, s'.owner)
  {
    SlotEmpty(s, u, i);
    MakeValid(q, f);
    hide Valid, Leaf, UserBit, Lent, Ppn, Listed, Up, E, Kind;
    var s' := Add(s, u, i, q, m, f);
    forall x: nat, j: nat | x < |s'.owner| && s'.owner[x].Table? && j < 512 && E(s'.mem, x, j) != 0
      ensures Good(s'.owner, s'.owner[x], j, E(s'.mem, x, j))
    {
      AddEntries(s, u, i, q, m, f, x, j);
    }
  }

  lemma AddUp(s: St, u: Use, i: nat, q: nat, m: Page, f: nat)
    requires CanAdd(s, u, i, q, m, f)
    ensures Child(u, i) !in s.at && s.mem[s.at[u]].Entries? && |s.mem[s.at[u]].pte| == 512
    ensures var s' := Add(s, u, i, q, m, f); Up(s'.mem, s'.owner, s'.at)
  {
    SlotEmpty(s, u, i);
    MakeValid(q, f);
    hide Valid, Leaf, UserBit, Lent, Ppn, Listed, E, Kind, Down;
    var s' := Add(s, u, i, q, m, f);
    forall x | 0 <= x < |s'.owner| && Linked(s'.owner[x])
      ensures Held(s'.mem, s'.at, s'.owner[x], x)
    {
      if x != q {
        var w := s.owner[x];
        assert Held(s.mem, s.at, w, x);
        AddEntries(s, u, i, q, m, f, s.at[Parent(w)], Slot(w));
      } else {
        AddEntries(s, u, i, q, m, f, s.at[u], i);
      }
    }
  }

  /** Adding a table changes no translation; adding a user page changes the one of its slot. */
  lemma AddPte(s: St, u: Use, i: nat, q: nat, m: Page, f: nat, r: nat, v: nat)
    requires CanAdd(s, u, i, q, m, f)
    ensures Child(u, i) !in s.at && s.mem[s.at[u]].Entries? && |s.mem[s.at[u]].pte| == 512
    ensures Pte(Add(s, u, i, q, m, f), r, v)
            == if u == Table(r, TabOf(v)) && i == v % 512 then q * 1024 + f else Pte(s, r, v)
  {
    hide Valid, Leaf, UserBit, Lent, Ppn, Listed, Down, Up, Kind, TabOf;
    SlotEmpty(s, u, i);
    var s' := Add(s, u, i, q, m, f);
    var t := Table(r, TabOf(v));
    if t in s'.at {
      AddEntries(s, u, i, q, m, f, s'.at[t], v % 512);
    }
  }

  // ---- pages of others ----

  /** Enter a page the tree does not own. */
  function Lend(s: St, u: Use, i: nat, e: nat): St
    requires u in s.at && s.at[u] < |s.mem| && s.mem[s.at[u]].Entries? && i < |s.mem[s.at[u]].pte|
  {
    s.(mem := SetEntry(s.mem, s.at[u], i, e))
  }

  predicate CanLend(u: Use, i: nat, e: nat)
  {
    u.Table? && u.tab.T0? && i < 512 && Lent(u.tab, i) && (e == 0 || (Valid(e) && Leaf(e) && !UserBit(e)))
  }

  lemma SetKinds(lo: nat, mem: seq<Page>, owner: seq<Use>, p: nat, i: nat, e: nat)
    requires Kinds(lo, mem, owner) && p < |mem| && owner[p].Table? && i < 512
    ensures mem[p].Entries? && |mem[p].pte| == 512 && Kinds(lo, SetEntry(mem, p, i, e), owner)
    ensures forall x: nat, j: nat {:trigger E(SetEntry(mem, p, i, e), x, j)} ::
              E(SetEntry(mem, p, i, e), x, j) == if x == p && j == i then e else E(mem, x, j)
  {
    hide Lent, TabOk;
    assert Kind(lo, owner[p], mem[p], p);
  }

  lemma LendDown(mem: seq<Page>, mem': seq<Page>, owner: seq<Use>, p: nat, i: nat, e: nat)
    requires |mem| == |owner| == |mem'| && Down(mem, owner) && p < |owner| && CanLend(owner[p], i, e)
    requires forall x: nat, j: nat {:trigger E(mem', x, j)} ::
               E(mem', x, j) == if x == p && j == i then e else E(mem, x, j)
    ensures Down(mem', owner)
  {
    hide Lent, Valid, Leaf, UserBit, Ppn, E;
  }

  lemma LendUp(lo: nat, mem: seq<Page>, mem': seq<Page>, owner: seq<Use>, at: map<Use, nat>, p: nat, i: nat, e: nat)
    requires Kinds(lo, mem, owner) && Known(owner, at) && Up(mem, owner, at) && p < |owner| && CanLend(owner[p], i, e)
    requires forall x: nat, j: nat {:trigger E(mem', x, j)} ::
               E(mem', x, j) == if x == p && j == i then e else E(mem, x, j)
    ensures Up(mem', owner, at)
  {
    hide Lent, Valid, Leaf, UserBit, Ppn, E;
    forall x | 0 <= x < |owner| && Linked(owner[x])
      ensures Held(mem', at, owner[x], x)
    {
      assert Held(mem, at, owner[x], x);
      assert Kind(lo, owner[x], mem[x], x);
    }
  }

  /** Entering or removing one. */
  lemma LendKeeps(s: St, u: Use, i: nat, e: nat)
    requires Inv(s) && u in s.at && CanLend(u, i, e)
    ensures s.mem[s.at[u]].Entries? && |s.mem[s.at[u]].pte| == 512 && Inv(Lend(s, u, i, e))
  {
    hide Lent, Valid, Leaf, UserBit, Ppn, E, Down, Up, Kind, Chain;
    var p := s.at[u];
    SetKinds(s.lo, s.mem, s.owner, p, i, e);
    var s' := Lend(s, u, i, e);
    LendDown(s.mem, s'.mem, s.owner, p, i, e);
    LendUp(s.lo, s.mem, s'.mem, s.owner, s.at, p, i, e);
    ListedKept(s.lo, s.mem, s'.mem, s.list, s.owner, s'.owner);
  }

  lemma LendPte(s: St, u: Use, i: nat, e: nat, r: nat, v: nat)
    requires Inv(s) && u in s.at && CanLend(u, i, e)
    ensures s.mem[s.at[u]].Entries? && |s.mem[s.at[u]].pte| == 512
    ensures Pte(Lend(s, u, i, e), r, v) == if u == Table(r, TabOf(v)) && i == v % 512 then e else Pte(s, r, v)
  {
    hide Lent, Valid, Leaf, UserBit, Ppn, Down, Up, TabOf, Listed;
    assert Kind(s.lo, u, s.mem[s.at[u]], s.at[u]);
  }

  // ---- taking pages away ----

  /** Clear slot `i` of the table with use `u`; its page becomes nobody's. */
  function Drop(s: St, u: Use, i: nat): St
    requires u.Table? && u in s.at && s.at[u] < |s.mem| == |s.owner|
    requires s.mem[s.at[u]].Entries? && i < |s.mem[s.at[u]].pte| && Ppn(E(s.mem, s.at[u], i)) < |s.mem|
  {
    St(s.lo, SetEntry(s.mem, s.at[u], i, 0), s.list, s.owner[Ppn(E(s.mem, s.at[u], i)) := Other], s.at - {Child(u, i)})
  }

  /** A user page, or a table with no entries left. */
  ghost predicate CanDrop(s: St, u: Use, i: nat)
  {
    && Inv(s) && u.Table? && u in s.at && i < 512 && E(s.mem, s.at[u], i) != 0 && (u.tab.T0? ==> !Lent(u.tab, i))
    && (!u.tab.T0? ==> forall j: nat :: E(s.mem, Ppn(E(s.mem, s.at[u], i)), j) == 0)
  }

  lemma Dropped(s: St, u: Use, i: nat)
    requires CanDrop(s, u, i)
    ensures s.mem[s.at[u]].Entries? && |s.mem[s.at[u]].pte| == 512
    ensures var q := Ppn(E(s.mem, s.at[u], i)); s.lo <= q < |s.mem| && s.owner[q] == Child(u, i) && s.at[u] != q
  {
    hide Lent, Valid, Leaf, UserBit, Ppn, Up, Listed;
    var q := Ppn(E(s.mem, s.at[u], i));
    assert Kind(s.lo, u, s.mem[s.at[u]], s.at[u]);
    assert Good(s.owner, u, i, E(s.mem, s.at[u], i));
    assert Kind(s.lo, s.owner[q], s.mem[q], q);
  }

  lemma DropKnown(owner: seq<Use>, at: map<Use, nat>, q: nat)
    requires Known(owner, at) && q < |owner| && Named(owner[q])
    ensures Known(owner[q := Other], at - {owner[q]})
  {
  }

  lemma DropDown(mem: seq<Page>, mem': seq<Page>, owner: seq<Use>, at: map<Use, nat>, u: Use, i: nat, q: nat)
    requires |mem| == |owner| == |mem'| && Known(owner, at) && Down(mem, owner) && u.Table? && u in at && i < 512
    requires q < |owner| && owner[q] == Child(u, i)
    requires forall x: nat, j: nat {:trigger E(mem', x, j)} ::
               E(mem', x, j) == if x == at[u] && j == i then 0 else E(mem, x, j)
    ensures Down(mem', owner[q := Other])
  {
    hide Lent, Valid, Leaf, UserBit, Ppn, E;
    forall x: nat, j: nat | x < |owner| && owner[q := Other][x].Table? && j < 512 && E(mem', x, j) != 0
      ensures Good(owner[q := Other], owner[x], j, E(mem', x, j))
    {
      assert Good(owner, owner[x], j, E(mem, x, j));
    }
  }

  lemma DropUp(mem: seq<Page>, mem': seq<Page>, owner: seq<Use>, at: map<Use, nat>, u: Use, i: nat, q: nat)
    requires |mem| == |owner| == |mem'| && Known(owner, at) && Up(mem, owner, at) && u.Table? && u in at
    requires q < |owner| && owner[q] == Child(u, i) && (!u.tab.T0? ==> forall j: nat :: E(mem, q, j) == 0)
    requires forall x: nat, j: nat {:trigger E(mem', x, j)} ::
               E(mem', x, j) == if x == at[u] && j == i then 0 else E(mem, x, j)
    ensures Up(mem', owner[q := Other], at - {Child(u, i)})
  {
    hide Lent, Valid, Leaf, UserBit, Ppn, E;
    var owner' := owner[q := Other];
    forall x | 0 <= x < |owner'| && Linked(owner'[x])
      ensures Held(mem', at - {Child(u, i)}, owner'[x], x)
    {
      assert Held(mem, at, owner[x], x);
    }
  }

  lemma DropKinds(lo: nat, mem: seq<Page>, owner: seq<Use>, q: nat)
    requires Kinds(lo, mem, owner) && q < |owner|
    ensures Kinds(lo, mem, owner[q := Other])
  {
    hide Lent, TabOk;
  }

  lemma DropKeeps(s: St, u: Use, i: nat)
    requires CanDrop(s, u, i)
    ensures s.mem[s.at[u]].Entries? && |s.mem[s.at[u]].pte| == 512
    ensures var q := Ppn(E(s.mem, s.at[u], i)); s.lo <= q < |s.mem| && s.owner[q] == Child(u, i) && s.at[u] != q
    ensures Inv(Drop(s, u, i))
  {
    hide Lent, Valid, Leaf, UserBit, Ppn, E, Down, Up, Kind, Chain;
    Dropped(s, u, i);
    var p, q := s.at[u], Ppn(E(s.mem, s.at[u], i));
    SetKinds(s.lo, s.mem, s.owner, p, i, 0);
    var s' := Drop(s, u, i);
    DropKinds(s.lo, s'.mem, s.owner, q);
    DropKnown(s.owner, s.at, q);
    DropDown(s.mem, s'.mem, s.owner, s.at, u, i, q);
    DropUp(s.mem, s'.mem, s.owner, s.at, u, i, q);
    ListedKept(s.lo, s.mem, s'.mem, s.list, s.owner, s'.owner);
  }

  lemma DropPte(s: St, u: Use, i: nat, r: nat, v: nat)
    requires CanDrop(s, u, i)
    ensures s.mem[s.at[u]].Entries? && |s.mem[s.at[u]].pte| == 512 && Ppn(E(s.mem, s.at[u], i)) < |s.mem|
    ensures Pte(Drop(s, u, i), r, v) == if u == Table(r, TabOf(v)) && i == v % 512 then 0 else Pte(s, r, v)
  {
    hide Lent, Valid, Leaf, UserBit, Ppn, Down, Up, TabOf, Listed;
    Dropped(s, u, i);
  }

  // ---- roots ----

  /** uvmcreate on page `q`. */
  function NewRoot(s: St, q: nat): St
    requires q < |s.mem| == |s.owner|
  {
    St(s.lo, s.mem[q := ZeroTable()], s.list, s.owner[q := Table(q, T2)], s.at[Table(q, T2) := q])
  }

  lemma NewRootKeeps(s: St, q: nat)
    requires Inv(s) && s.lo <= q < |s.mem| && s.owner[q] == Other
    ensures Inv(NewRoot(s, q)) && Table(q, T2) !in s.at
  {
    hide Lent, Valid, Leaf, UserBit, Ppn, Chain;
    var s' := NewRoot(s, q);
    assert Table(q, T2) in s.at ==> Kind(s.lo, Table(q, T2), s.mem[s.at[Table(q, T2)]], s.at[Table(q, T2)]);
    AddKnown(s.owner, s.at, q, Table(q, T2));
    NewRootEntries(s.mem, s.owner, s.at, q);
    ListedKept(s.lo, s.mem, s'.mem, s.list, s.owner, s'.owner);
  }

  lemma NewRootEntries(mem: seq<Page>, owner: seq<Use>, at: map<Use, nat>, q: nat)
    requires |mem| == |owner| && Known(owner, at) && Down(mem, owner) && Up(mem, owner, at) && q < |mem|
             && owner[q] == Other
    requires Table(q, T2) !in at
    ensures Down(mem[q := ZeroTable()], owner[q := Table(q, T2)])
    ensures Up(mem[q := ZeroTable()], owner[q := Table(q, T2)], at[Table(q, T2) := q])
  {
    hide Lent, Valid, Leaf, UserBit, Ppn, Kind;
    var mem', owner', at' := mem[q := ZeroTable()], owner[q := Table(q, T2)], at[Table(q, T2) := q];
    assert forall x: nat, j: nat {:trigger E(mem', x, j)} :: E(mem', x, j) == if x == q then 0 else E(mem, x, j);
    forall x | 0 <= x < |owner'| && Linked(owner'[x])
      ensures Held(mem', at', owner'[x], x)
    {
      assert Held(mem, at, owner[x], x);
    }
  }

  /** The root of a tree with no entries is given up. */
  function DropRoot(s: St, r: nat): St
    requires r < |s.owner|
  {
    s.(owner := s.owner[r := Other], at := s.at - {Table(r, T2)})
  }

  lemma DropRootKeeps(s: St, r: nat)
    requires Inv(s) && Live(s, r) && forall j: nat :: E(s.mem, r, j) == 0
    ensures Inv(DropRoot(s, r)) && s.lo <= r < |s.mem|
  {
    hide Lent, Valid, Leaf, UserBit, Ppn, Chain;
    var s' := DropRoot(s, r);
    assert Kind(s.lo, Table(r, T2), s.mem[r], r);
    DropKnown(s.owner, s.at, r);
    DropKinds(s.lo, s.mem, s.owner, r);
    DropRootEntries(s.mem, s.owner, s.at, r);
    ListedKept(s.lo, s.mem, s'.mem, s.list, s.owner, s'.owner);
  }

  lemma DropRootEntries(mem: seq<Page>, owner: seq<Use>, at: map<Use, nat>, r: nat)
    requires |mem| == |owner| && Known(owner, at) && Down(mem, owner) && Up(mem, owner, at)
    requires r < |mem| && owner[r] == Table(r, T2) && forall j: nat :: E(mem, r, j) == 0
    ensures Down(mem, owner[r := Other]) && Up(mem, owner[r := Other], at - {Table(r, T2)})
  {
    hide Lent, Valid, Leaf, UserBit, Ppn, Kind, E;
    forall x: nat, j: nat | x < |owner| && owner[r := Other][x].Table? && j < 512 && E(mem, x, j) != 0
      ensures Good(owner[r := Other], owner[x], j, E(mem, x, j))
    {
      assert Good(owner, owner[x], j, E(mem, x, j));
    }
    forall x | 0 <= x < |owner| && Linked(owner[r := Other][x])
      ensures Held(mem, at - {Table(r, T2)}, owner[x], x)
    {
      assert Held(mem, at, owner[x], x);
    }
  }
}
