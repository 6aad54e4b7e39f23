/** Single bits of a byte, as the free map uses them: `data[bi/8] & (1 << (bi % 8))`. */
module Bits {
  import opened Blocks

  /** 1 << k */
  function Pow2(k: nat): (r: nat)
    ensures r >= 1
  {
    if k == 0 then 1 else 2 * Pow2(k - 1)
  }

  predicate TestBit(x: nat, k: nat)
    decreases k
  {
    if k == 0 then x % 2 == 1 else TestBit(x / 2, k - 1)
  }

  /** x |= 1 << k */
  function SetBit(x: byte, k: nat): (r: byte)
    requires k < 8
    ensures forall j: nat :: TestBit(r, j) <==> j == k || TestBit(x, j)
  {
    BitAdded(x, k);
    BitFits(x, k);
    if TestBit(x, k) then x else x + Pow2(k)
  }

  /** x &= ~(1 << k) */
  function ClearBit(x: byte, k: nat): (r: byte)
    requires k < 8
    ensures forall j: nat :: TestBit(r, j) <==> j != k && TestBit(x, j)
  {
    BitRemoved(x, k);
    if TestBit(x, k) then x - Pow2(k) else x
  }

  /** Adding a missing power of two sets that bit only. */
  lemma {:induction false} BitAdded(x: nat, k: nat)
    ensures !TestBit(x, k) ==> forall j: nat :: TestBit(x + Pow2(k), j) <==> j == k || TestBit(x, j)
    decreases k
  {
    if !TestBit(x, k) {
      forall j: nat
        ensures TestBit(x + Pow2(k), j) <==> j == k || TestBit(x, j)
      {
        if k > 0 {
          BitAdded(x / 2, k - 1);
          assert (x + 2 * Pow2(k - 1)) / 2 == x / 2 + Pow2(k - 1);
        }
      }
    }
  }

  /** Adding a missing bit to a byte leaves a byte. */
  lemma BitFits(x: nat, k: nat)
    requires k < 8 && x < 256
    ensures !TestBit(x, k) ==> x + Pow2(k) < 256
  {
    assert Pow2(4) == 16 && Pow2(8) == 256;
    Fits(x, 8, k);
  }

  lemma {:induction false} Fits(x: nat, n: nat, k: nat)
    requires k < n && x < Pow2(n)
    ensures !TestBit(x, k) ==> x + Pow2(k) < Pow2(n)
    decreases n
  {
    var half := Pow2(n - 1);
    assert Pow2(n) == 2 * half;
    if k > 0 {
      Fits(x / 2, n - 1, k - 1);
      assert Pow2(k) == 2 * Pow2(k - 1);
    }
  }

  /** Subtracting a power of two that is there clears that bit only. */
  lemma {:induction false} BitRemoved(x: nat, k: nat)
    ensures TestBit(x, k) ==> Pow2(k) <= x && forall j: nat :: TestBit(x - Pow2(k), j) <==> j != k && TestBit(x, j)
    decreases k
  {
    if TestBit(x, k) {
      BitPresent(x, k);
      forall j: nat
        ensures TestBit(x - Pow2(k), j) <==> j != k && TestBit(x, j)
      {
        var y := x - Pow2(k);
        if k > 0 {
          BitRemoved(x / 2, k - 1);
          assert y == x - 2 * Pow2(k - 1) && y / 2 == x / 2 - Pow2(k - 1) && y % 2 == x % 2;
        } else {
          assert y == x - 1 && y / 2 == x / 2 && y % 2 == 0;
        }
        assert j > 0 ==> TestBit(y, j) == TestBit(y / 2, j - 1) && TestBit(x, j) == TestBit(x / 2, j - 1);
      }
    }
  }

  lemma {:induction false} BitPresent(x: nat, k: nat)
    requires TestBit(x, k)
    ensures Pow2(k) <= x
    decreases k
  {
    if k > 0 {
      BitPresent(x / 2, k - 1);
    }
  }
}
