/** What mapping costs: one page each, and one for every page table on the way that is missing. */
module VmCost {
  import opened Sv39
  import opened PageTree
  import opened PageSteps
  import opened VmFrame
  import VmFree

  /** The tables below the root on the way to virtual page `v`. */
  function Way(v: nat): set<Tab>
  {
    {T1(v / 262144), TabOf(v)}
  }

  /** The tables for the `n` pages from `v` on. */
  function Ways(v: nat, n: nat): set<Tab>
  {
    if n == 0 then {} else Ways(v, n - 1) + Way(v + n - 1)
  }

  /** Those of `ts` that tree `r` does not have. */
  ghost function Missing(s: St, r: nat, ts: set<Tab>): set<Tab>
  {
    set t | t in ts && Table(r, t) !in s.at
  }

  /** Tree `r` has got the tables `ts`, and the free list paid for those that were missing and for `n` pages. */
  ghost predicate Spent(s: St, s': St, r: nat, ts: set<Tab>, n: nat)
  {
    && |s.list| == |s'.list| + |Missing(s, r, ts)| + n
    && forall t: Tab {:trigger Table(r, t)} :: Table(r, t) in s'.at <==> Table(r, t) in s.at || t in ts
  }

  /** Too few free pages for the missing ones of `ts` and `n` pages more. */
  ghost predicate TooFew(s: St, r: nat, ts: set<Tab>, n: nat)
  {
    |s.list| < |Missing(s, r, ts)| + n
  }

  lemma SpentNone(s: St, r: nat, ts: set<Tab>)
    requires forall t | t in ts :: Table(r, t) in s.at
    ensures Spent(s, s, r, ts, 0)
  {
    assert Missing(s, r, ts) == {};
  }

  lemma SpentOne(s: St, s': St, r: nat, t: Tab, q: nat)
    requires Table(r, t) !in s.at && s.list != [] && s'.list == s.list[1..] && s'.at == s.at[Table(r, t) := q]
    ensures Spent(s, s', r, {t}, 0)
  {
    assert Missing(s, r, {t}) == {t};
  }

  lemma MissingJoin(s: St, s1: St, r: nat, ts: set<Tab>, us: set<Tab>)
    requires forall t: Tab {:trigger Table(r, t)} :: Table(r, t) in s1.at <==> Table(r, t) in s.at || t in ts
    ensures |Missing(s, r, ts + us)| == |Missing(s, r, ts)| + |Missing(s1, r, us)|
  {
    var a, b := Missing(s, r, ts), Missing(s1, r, us);
    assert Missing(s, r, ts + us) == a + b;
    assert a !! b;
  }

  lemma SpentTrans(s: St, s1: St, s2: St, r: nat, ts: set<Tab>, us: set<Tab>, n: nat, m: nat)
    requires Spent(s, s1, r, ts, n) && Spent(s1, s2, r, us, m)
    ensures Spent(s, s2, r, ts + us, n + m)
  {
    MissingJoin(s, s1, r, ts, us);
  }

  lemma SpentEnough(s: St, s': St, r: nat, ts: set<Tab>, n: nat)
    requires Spent(s, s', r, ts, n)
    ensures !TooFew(s, r, ts, n)
  {
  }

  lemma OneWay(v: nat)
    ensures Ways(v, 1) == Way(v) && Ways(v, 0) == {}
  {
    assert Ways(v, 1) == Ways(v, 0) + Way(v);
  }

  /** Too few for the pages so far, so too few for all `n`. */
  lemma TooFewFor(s: St, s1: St, r: nat, v: nat, k: nat, n: nat)
    requires Spent(s, s1, r, Ways(v, k), k) && TooFew(s1, r, Way(v + k), 1) && k < n
    ensures TooFew(s, r, Ways(v, n), n)
  {
    hide Spent, TooFew, Way;
    TooFewAfter(s, s1, r, Ways(v, k), Way(v + k), k, 1);
    WaysGrow(v, k + 1, n);
    TooFewMore(s, r, Ways(v, k + 1), Ways(v, n), k + 1, n);
  }

  lemma TooFewAfter(s: St, s1: St, r: nat, ts: set<Tab>, us: set<Tab>, n: nat, m: nat)
    requires Spent(s, s1, r, ts, n) && TooFew(s1, r, us, m)
    ensures TooFew(s, r, ts + us, n + m)
  {
    MissingJoin(s, s1, r, ts, us);
  }

  /** What is too little for some is too little for more. */
  lemma TooFewMore(s: St, r: nat, ts: set<Tab>, us: set<Tab>, n: nat, m: nat)
    requires TooFew(s, r, ts, n) && ts <= us && n <= m
    ensures TooFew(s, r, us, m)
  {
    Smaller(Missing(s, r, ts), Missing(s, r, us));
  }

  lemma {:induction false} Smaller(a: set<Tab>, b: set<Tab>)
    requires a <= b
    ensures |a| <= |b|
  {
    assert b == a + (b - a);
  }

  /** A missing table and no free page. */
  lemma NoneLeft(s: St, r: nat, t: Tab)
    requires s.list == [] && Table(r, t) !in s.at
    ensures TooFew(s, r, {t}, 0)
  {
    assert Missing(s, r, {t}) == {t};
  }

  lemma {:induction false} WaysGrow(v: nat, k: nat, n: nat)
    requires k <= n
    ensures Ways(v, k) <= Ways(v, n)
    decreases n
  {
    if k < n {
      WaysGrow(v, k, n - 1);
    }
  }

  /** The tables that the walk to `va` has passed, down to `level`. */
  function Passed(va: nat, level: nat): set<Tab>
  {
    if level >= 2 then {} else if level == 1 then {T1(Px(2, va))} else {T1(Px(2, va)), T0(Px(2, va), Px(1, va))}
  }

  lemma NonePassed(va: nat)
    ensures Passed(va, 2) == {}
  {
  }

  lemma PassedNext(r: nat, level: nat, va: nat)
    requires 0 < level <= 2
    ensures UseAt(r, level - 1, va).Table? && UseAt(r, level - 1, va) == Table(r, UseAt(r, level - 1, va).tab)
    ensures Passed(va, level - 1) == Passed(va, level) + {UseAt(r, level - 1, va).tab}
  {
    hide Px;
  }

  lemma PassedAll(va: nat)
    requires va < MAXVA
    ensures Passed(va, 0) == Way(va / PGSIZE)
  {
    WalkEnds(0, va);
    hide Px;
  }

  /** The walk stops at a missing table with no page left. */
  lemma WalkStops(s: St, s1: St, r: nat, level: nat, va: nat)
    requires 0 < level <= 2 && va < MAXVA && Spent(s, s1, r, Passed(va, level), 0)
    requires UseAt(r, level - 1, va) !in s1.at && s1.list == []
    ensures TooFew(s, r, Way(va / PGSIZE), 0)
  {
    hide Px, Way;
    PassedNext(r, level, va);
    var t := UseAt(r, level - 1, va).tab;
    NoneLeft(s1, r, t);
    TooFewAfter(s, s1, r, Passed(va, level), {t}, 0, 0);
    PassedAll(va);
    assert Passed(va, level - 1) <= Passed(va, 0);
    TooFewMore(s, r, Passed(va, level - 1), Way(va / PGSIZE), 0, 0);
  }

  /** A level of the walk: the table was there, or is new. */
  lemma WalkGoesOn(s: St, s1: St, s2: St, r: nat, level: nat, va: nat)
    requires 0 < level <= 2 && Spent(s, s1, r, Passed(va, level), 0)
    requires (UseAt(r, level - 1, va) in s1.at && s2 == s1) || Spent(s1, s2, r, {UseAt(r, level - 1, va).tab}, 0)
    ensures Spent(s, s2, r, Passed(va, level - 1), 0)
  {
    hide Px;
    PassedNext(r, level, va);
    var t := UseAt(r, level - 1, va).tab;
    if s2 == s1 && UseAt(r, level - 1, va) in s1.at {
      SpentNone(s1, r, {t});
    }
    SpentTrans(s, s1, s2, r, Passed(va, level), {t}, 0, 0);
  }

  /** Entering a page elsewhere in the tree costs nothing more. */
  lemma SpentKept(s: St, s1: St, s2: St, r: nat, ts: set<Tab>, n: nat)
    requires Spent(s, s1, r, ts, n) && s2.list == s1.list
    requires forall u: Use {:trigger u in s2.at} | u.Table? :: u in s2.at <==> u in s1.at
    ensures Spent(s, s2, r, ts, n)
  {
  }

  lemma NoPageAtAll(s: St, r: nat, ts: set<Tab>)
    requires s.list == []
    ensures TooFew(s, r, ts, 1)
  {
  }

  /** Taking one page first. */
  lemma SpentFirst(s: St, s1: St, s2: St, r: nat, ts: set<Tab>, n: nat)
    requires s.list != [] && s1.list == s.list[1..] && s1.at == s.at && Spent(s1, s2, r, ts, n)
    ensures Spent(s, s2, r, ts, n + 1)
  {
    assert Missing(s, r, ts) == Missing(s1, r, ts);
  }

  lemma TooFewFirst(s: St, s1: St, r: nat, ts: set<Tab>, n: nat)
    requires s.list != [] && s1.list == s.list[1..] && s1.at == s.at && TooFew(s1, r, ts, n)
    ensures TooFew(s, r, ts, n + 1)
  {
    assert Missing(s, r, ts) == Missing(s1, r, ts);
  }

  // ---- a new tree ----

  /** Tree `r` has no table but its root. */
  ghost predicate OnlyRoot(s: St, r: nat)
  {
    forall t: Tab {:trigger Table(r, t)} :: Table(r, t) in s.at <==> t == T2
  }

  lemma RootAlone(s: St)
    requires Inv(s) && s.list != []
    ensures s.list[0] < |s.mem| == |s.owner| && OnlyRoot(NewRoot(Alloc(s), s.list[0]), s.list[0])
  {
    AllocKeeps(s);
    var q := s.list[0];
    assert !Live(s, q);
    forall t: Tab
      ensures Table(q, t) !in s.at
    {
      VmFree.NoTable(s, q, t);
    }
  }

  /** The trampoline and the trapframe need the same two tables. */
  lemma LentWays()
    ensures Ways(PAGES - 1, 1) == Ways(PAGES - 2, 1) && |Ways(PAGES - 1, 1)| == 2 && T2 !in Ways(PAGES - 1, 1)
  {
    OneWay(PAGES - 1);
    OneWay(PAGES - 2);
    assert Way(PAGES - 1) == {T1(255), T0(255, 511)} == Way(PAGES - 2);
  }

  lemma CreateFails(s: St, s1: St, r: nat)
    requires s.list != [] && s1.list == s.list[1..] && TooFew(s1, r, Ways(PAGES - 1, 1), 0)
    ensures |s.list| < 3
  {
    LentWays();
    Smaller(Missing(s1, r, Ways(PAGES - 1, 1)), Ways(PAGES - 1, 1));
  }

  lemma CreateFailsLater(s: St, s1: St, s2: St, r: nat)
    requires s.list != [] && s1.list == s.list[1..] && Spent(s1, s2, r, Ways(PAGES - 1, 1), 0)
    requires TooFew(s2, r, Ways(PAGES - 2, 1), 0)
    ensures |s.list| < 3
  {
    hide Spent, TooFew, Ways;
    LentWays();
    var ts := Ways(PAGES - 1, 1);
    TooFewAfter(s1, s2, r, ts, ts, 0, 0);
    assert ts + ts == ts;
    CreateFails(s, s1, r);
  }

  lemma CreateCosts(s: St, s1: St, s2: St, r: nat)
    requires s.list != [] && s1.list == s.list[1..] && OnlyRoot(s1, r) && Spent(s1, s2, r, Ways(PAGES - 1, 1), 0)
    ensures |s.list| >= 3
  {
    LentWays();
    assert Missing(s1, r, Ways(PAGES - 1, 1)) == Ways(PAGES - 1, 1);
  }
}
