/** What several of the kernel's lists and ring buffers need: distinct elements, and counters taken modulo a size. */
module Rings {
  ghost predicate Distinct(s: seq<nat>)
  {
    forall i, j | 0 <= i < j < |s| :: s[i] != s[j]
  }

  lemma Multiple(m: nat, d: int)
    requires m > 0
    ensures (d > 0 ==> m * d >= m) && (d < 0 ==> m * d + m <= 0)
  {
    assert d > 0 ==> m * (d - 1) >= 0;
    assert d < 0 ==> m * (-d - 1) >= 0;
  }

  lemma Quotient(m: nat, x: nat, q: nat, r: nat)
    requires m > 0 && x == m * q + r && r < m
    ensures x / m == q && x % m == r
  {
    var d := x / m - q;
    Multiple(m, d);
    assert m * d == r - x % m;
  }

  /** Whole rounds do not matter. */
  lemma Shift(m: nat, y: nat, k: nat)
    requires m > 0
    ensures (y + m * k) % m == y % m
  {
    assert y + m * k == m * (y / m + k) + y % m;
    Quotient(m, y + m * k, y / m + k, y % m);
  }

  /** A counter that wraps at a multiple of the ring's size finds the same slot. */
  lemma WrapMod(m: nat, rounds: nat, n: nat)
    requires m > 0 && rounds > 0
    ensures m * rounds > 0 && n % (m * rounds) % m == n % m
  {
    assert m * rounds > 0;
    var y, q := n % (m * rounds), n / (m * rounds);
    assert n == y + (m * rounds) * q;
    assert (m * rounds) * q == m * (rounds * q);
    Shift(m, y, rounds * q);
  }

  /** Counters less than one round apart have different slots. */
  lemma SlotsDiffer(m: nat, x: nat, y: nat)
    requires x < y < x + m
    ensures x % m != y % m
  {
    var d := y / m - x / m;
    Multiple(m, d);
    assert m * d == (y - y % m) - (x - x % m);
  }
}
