/** The descriptor bookkeeping of kernel/virtio_disk.c, as the driver's own loops. */
module VirtqDriver {
  import opened Options
  import opened Virtqueue

  class Descriptors {
    var free: seq<bool>
    var next: seq<nat>
    var more: seq<bool>

    /** Free descriptors are zeroed. */
    predicate Valid()
      reads this
    {
      |free| == NUM && |next| == NUM && |more| == NUM && forall x | 0 <= x < NUM && free[x] :: next[x] == 0 && !more[x]
    }

    function V(): Descs
      reads this
    {
      Descs(free, next, more)
    }

    /** alloc_desc: the lowest free descriptor, NUM if there is none. */
    method AllocDesc() returns (i: nat)
      requires Valid()
      modifies this`free
      ensures Valid() && i <= NUM && forall k | 0 <= k < i :: !old(free)[k]
      ensures if i < NUM then old(free)[i] && free == old(free)[i := false] else free == old(free)
    {
      i := 0;
      while i < NUM
        invariant i <= NUM && free == old(free) && forall k | 0 <= k < i :: !free[k]
      {
        if free[i] {
          free := free[i := false];
          return;
        }
        i := i + 1;
      }
    }

    /** free_desc; false is one of its two panics: no such descriptor, or a free one. */
    method FreeDesc(i: nat) returns (ok: bool)
      requires Valid()
      modifies this
      ensures Valid() && (ok <==> i < NUM && !old(free)[i])
      ensures ok ==> free == old(free)[i := true] && next == old(next)[i := 0] && more == old(more)[i := false]
      ensures !ok ==> V() == old(V())
    {
      if i >= NUM {
        return false;
      }
      if free[i] {
        return false;
      }
      next := next[i := 0];
      more := more[i := false];
      free := free[i := true];
      return true;
    }

    /** alloc3_desc: three free descriptors, or none at all if there are fewer. */
    method Alloc3Desc() returns (ok: bool, i0: nat, i1: nat, i2: nat)
      requires Valid()
      modifies this
      ensures Valid() && next == old(next) && more == old(more)
      ensures ok ==> i0 < i1 < i2 < NUM && old(free)[i0] && old(free)[i1] && old(free)[i2]
                     && free == old(free)[i0 := false][i1 := false][i2 := false]
                     && forall k | 0 <= k < i2 && old(free)[k] :: k == i0 || k == i1
      ensures !ok ==> free == old(free) && forall x, y, z | 0 <= x < y < z < NUM :: !(free[x] && free[y] && free[z])
    {
      ghost var f := free;
      ok, i1, i2 := false, NUM, NUM;
      i0 := AllocDesc();
      if i0 == NUM {
        return;
      }
      ghost var f1 := free;
      i1 := AllocDesc();
      ghost var f2 := free;
      if i1 == NUM {
        var freed := FreeDesc(i0);
        assert free == f && next == old(next) && more == old(more);
        return;
      }
      i2 := AllocDesc();
      if i2 == NUM {
        var freed := FreeDesc(i0);
        freed := FreeDesc(i1);
        assert free == f && next == old(next) && more == old(more);
        return;
      }
      forall k | 0 <= k < i2 && f[k]
        ensures k == i0 || k == i1
      {
        assert !f2[k];
        assert k != i1 ==> !f1[k];
      }
      ok := true;
    }

    /** free_chain follows the links from `h` as the specification does; false is a panic of free_desc. */
    method FreeChain(h: nat) returns (ok: bool)
      requires Valid()
      modifies this
      ensures Valid() && (ok <==> FreeList(old(V()), h).Some?)
      ensures ok ==> V() == FreeList(old(V()), h).value
    {
      var i: nat := h;
      while true
        invariant Valid() && FreeList(V(), i) == FreeList(old(V()), h)
        decreases |Held(free)|
      {
        if i >= NUM {
          return false;
        }
        var flag, nxt := more[i], next[i];
        ghost var before := free;
        ok := FreeDesc(i);
        if !ok {
          return;
        }
        HeldLess(before, i);
        if !flag {
          return true;
        }
        i := nxt;
      }
    }
  }
}
